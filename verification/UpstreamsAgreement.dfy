/** The v2 reader, and the agreement of the two schemas: the v1 text and the v2 text of one model
    mean the same routing for every terminated host and path. Absent switches read as false, and a
    single upstream reads as a pool of one server without a weight. */
module UpstreamsAgreement {
  import opened Wrappers
  import opened Sorting
  import opened Layout
  import opened RouteModel
  import opened SchemaWords
  import opened RouteText
  import opened RouteTextV2
  import opened UpstreamsReader

  // ---- what both schemas mean -----------------------------------------------------

  /** A route as the proxy sees it: absent switches are off. */
  datatype RouteMeaning = RouteMeaning(
    servers: seq<Backend>,
    matchExpr: string,
    ssl: bool,
    http2: bool,
    forceHttps: bool,
    healthcheck: bool,
    disableAccessLog: bool,
    connectTimeout: Option<nat>,
    readTimeout: Option<nat>,
    writeTimeout: Option<nat>,
    idleTimeout: Option<nat>,
    maxBodySize: Option<nat>,
    redirect: Option<Redirect>,
    reqHeaders: seq<string>,
    respHeaders: seq<string>)

  datatype HostMeaning = HostMeaning(cert: string, paths: map<string, RouteMeaning>)

  datatype FileMeaning = FileMeaning(
    sticky: bool,
    acme: string,
    terminate: map<string, HostMeaning>,
    passthrough: map<string, string>)

  function RouteMeaningV1(r: V1Route): RouteMeaning {
    RouteMeaning(r.servers, r.matchExpr, r.ssl, GetOr(r.http2, false), GetOr(r.forceHttps, false),
                 GetOr(r.healthcheck, false), GetOr(r.disableAccessLog, false), r.connectTimeout, r.readTimeout,
                 r.writeTimeout, r.idleTimeout, r.maxBodySize, r.redirect, r.reqHeaders, r.respHeaders)
  }

  function HostMeaningV1(h: V1Host): HostMeaning {
    HostMeaning(h.cert, map p | p in h.paths :: RouteMeaningV1(h.paths[p]))
  }

  function MeaningV1(c: V1Config): FileMeaning {
    FileMeaning(c.sticky, c.acme, map h | h in c.hosts :: HostMeaningV1(c.hosts[h]), map[])
  }

  // ---- the v2 reader ----------------------------------------------------------------

  function ReadUpstreams(ns: seq<Node>): seq<Backend> {
    match StrAt(ns, KUpstream)
    case Some(a) => [Backend(a, 0)]
    case None => ReadServers(KidsAt(ns, KUpstreams), KAddr)
  }

  /** The only structured check this schema writes is the TCP one. */
  predicate ReadHealthCheck(ns: seq<Node>) {
    Find(KidsAt(ns, KHealthCheck), KType) == Some(Leaf(KType, Word("tcp")))
  }

  function ReadRouteV2(ns: seq<Node>): RouteMeaning {
    var timeouts, headers := KidsAt(ns, KTimeouts), KidsAt(ns, KHeaders);
    RouteMeaning(ReadUpstreams(ns),
                 GetOr(StrAt(ns, KMatchExpr), ""),
                 GetOr(FlagAt(ns, KSslEnabled), false),
                 GetOr(FlagAt(ns, KHttp2Enabled), false),
                 GetOr(FlagAt(ns, KForceHttps), false),
                 ReadHealthCheck(ns),
                 GetOr(FlagAt(ns, KDisableAccessLog), false),
                 NumAt(timeouts, KConnect),
                 NumAt(timeouts, KRead),
                 NumAt(timeouts, KWrite),
                 NumAt(timeouts, KIdle),
                 NumAt(ns, KMaxBodySize),
                 ReadRedirect(ns),
                 ReadBullets(KidsAt(headers, KRequest)),
                 ReadBullets(KidsAt(headers, KResponse)))
  }

  function ReadPathsV2(ns: seq<Node>): map<string, RouteMeaning> {
    if ns == [] then map[] else
      var before := ReadPathsV2(ns[..|ns| - 1]);
      match ns[|ns| - 1].item
      case Open(Quoted(k)) => before[k := ReadRouteV2(ns[|ns| - 1].kids)]
      case _ => before
  }

  predicate ReadIsPassthrough(ns: seq<Node>) {
    GetOr(FlagAt(KidsAt(ns, KTls), KPassthrough), false)
  }

  function ReadTerminate(ns: seq<Node>): HostMeaning {
    HostMeaning(GetOr(StrAt(KidsAt(KidsAt(ns, KTls), KTerminate), KCert), ""), ReadPathsV2(KidsAt(ns, KPaths)))
  }

  function ReadTerminates(ns: seq<Node>): map<string, HostMeaning> {
    if ns == [] then map[] else
      var before, last := ReadTerminates(ns[..|ns| - 1]), ns[|ns| - 1];
      match last.item
      case Open(Quoted(h)) => if ReadIsPassthrough(last.kids) then before else before[h := ReadTerminate(last.kids)]
      case _ => before
  }

  function ReadPassthroughs(ns: seq<Node>): map<string, string> {
    if ns == [] then map[] else
      var before, last := ReadPassthroughs(ns[..|ns| - 1]), ns[|ns| - 1];
      match last.item
      case Open(Quoted(h)) =>
        if ReadIsPassthrough(last.kids) then before[h := GetOr(StrAt(last.kids, KUpstream), "")] else before
      case _ => before
  }

  function ReadAcmeV2(ns: seq<Node>): string {
    if ns == [] || ns[0].item != DashEntry(Spell(KPath), Str(ACME_PATH)) then ""
    else GetOr(StrAt(ns[0].kids, KUpstream), "")
  }

  function MeaningV2(ns: seq<Node>): FileMeaning {
    FileMeaning(GetOr(FlagAt(KidsAt(KidsAt(ns, KProxy), KStickySessions), KEnabled), false),
                ReadAcmeV2(KidsAt(ns, KInternal)),
                ReadTerminates(KidsAt(ns, KHosts)),
                ReadPassthroughs(KidsAt(ns, KHosts)))
  }

  function ReadV2(text: string): Option<FileMeaning> {
    match ReadForest(text)
    case Some(ns) => Some(MeaningV2(ns))
    case None => None
  }

  // ---- reading one v2 route back --------------------------------------------------------

  /** What a route of the model means. */
  function Meaning(rc: RouteCfg): RouteMeaning { RouteMeaningV1(EffectiveRoute(rc)) }

  function TimeoutRank(n: Name): int {
    match n
    case KConnect => 0
    case KRead => 1
    case KWrite => 2
    case KIdle => 3
    case _ => -1
  }

  lemma TimeoutTable(rc: RouteCfg)
    ensures Table(TimeoutFields(rc), TimeoutRank)
  {
    hide FieldOk;
    SimpleFieldsOk(KConnect, None, rc.connectTimeout, "");
    SimpleFieldsOk(KRead, None, rc.readTimeout, "");
    SimpleFieldsOk(KWrite, None, rc.writeTimeout, "");
    SimpleFieldsOk(KIdle, None, rc.idleTimeout, "");
  }

  lemma TimeoutsRead(rc: RouteCfg)
    ensures var ns := Fields(TimeoutFields(rc));
      && NumAt(ns, KConnect) == rc.connectTimeout && NumAt(ns, KRead) == rc.readTimeout
      && NumAt(ns, KWrite) == rc.writeTimeout && NumAt(ns, KIdle) == rc.idleTimeout
      && ValidForest(ns)
  {
    hide Find, Fields;
    var fs := TimeoutFields(rc);
    TimeoutTable(rc);
    TableValid(fs, TimeoutRank);
    FindField(fs, 0, TimeoutRank);
    FindField(fs, 1, TimeoutRank);
    FindField(fs, 2, TimeoutRank);
    FindField(fs, 3, TimeoutRank);
    ReadNum(Fields(fs), KConnect, rc.connectTimeout);
    ReadNum(Fields(fs), KRead, rc.readTimeout);
    ReadNum(Fields(fs), KWrite, rc.writeTimeout);
    ReadNum(Fields(fs), KIdle, rc.idleTimeout);
  }

  function HeaderRank(n: Name): int {
    match n
    case KRequest => 0
    case KResponse => 1
    case _ => -1
  }

  lemma HeadersRead(rc: RouteCfg)
    ensures var ns := Fields(HeaderFields(rc));
      && ReadBullets(KidsAt(ns, KRequest)) == rc.reqHeaders
      && ReadBullets(KidsAt(ns, KResponse)) == rc.respHeaders
      && ValidForest(ns)
  {
    hide FieldOk, Find, Fields, Bullets, Block, ReadBullets;
    var fs := HeaderFields(rc);
    BulletsRead(rc.reqHeaders);
    BulletsRead(rc.respHeaders);
    BlockOk(KRequest, Bullets(rc.reqHeaders));
    BlockOk(KResponse, Bullets(rc.respHeaders));
    assert Table(fs, HeaderRank);
    TableValid(fs, HeaderRank);
    FindField(fs, 0, HeaderRank);
    FindField(fs, 1, HeaderRank);
    ReadKids(Fields(fs), KRequest, Bullets(rc.reqHeaders));
    ReadKids(Fields(fs), KResponse, Bullets(rc.respHeaders));
  }

  function V2Rank(n: Name): int {
    match n
    case KUpstream => 0
    case KUpstreams => 1
    case KMatchExpr => 2
    case KSslEnabled => 3
    case KHttp2Enabled => 4
    case KForceHttps => 5
    case KHealthCheck => 6
    case KDisableAccessLog => 7
    case KMaxBodySize => 8
    case KRedirect => 9
    case KTimeouts => 10
    case KHeaders => 11
    case _ => -1
  }

  lemma V2RouteNames(rc: RouteCfg)
    ensures var fs := V2RouteFields(rc);
            forall i :: 0 <= i < |fs| ==> V2Rank(fs[i].name) == i
  {
    hide Spell, Leaf, Block, Servers, Bullets, Fields;
    V2RouteFieldsAre(rc);
  }

  lemma TcpOk()
    ensures FieldOk(Field(KHealthCheck, Some(Block(KHealthCheck, [Leaf(KType, Word("tcp"))]))))
  {
    LeafOk(KType, Word("tcp"));
    BlockOk(KHealthCheck, [Leaf(KType, Word("tcp"))]);
  }

  lemma V2OddFieldsOk(rc: RouteCfg)
    ensures FieldOk(UpstreamField(rc.servers)) && FieldOk(UpstreamsField(rc.servers))
    ensures FieldOk(ForceHttpsField(rc.forceHttps)) && FieldOk(HealthCheckField(rc.healthcheck))
    ensures FieldOk(BlockField(KTimeouts, Fields(TimeoutFields(rc))))
    ensures FieldOk(BlockField(KHeaders, Fields(HeaderFields(rc))))
  {
    hide FieldOk, Fields, TimeoutFields, HeaderFields, Servers, Leaf, Block;
    AbsentOk(KUpstream);
    AbsentOk(KUpstreams);
    AbsentOk(KForceHttps);
    AbsentOk(KHealthCheck);
    if SinglePlain(rc.servers) { LeafOk(KUpstream, Str(rc.servers[0].addr)); }
    ServersRead(KAddr, rc.servers);
    BlockOk(KUpstreams, Servers(KAddr, rc.servers));
    LeafOk(KForceHttps, Flag(true));
    TcpOk();
    TimeoutsRead(rc);
    HeadersRead(rc);
    BlockOk(KTimeouts, Fields(TimeoutFields(rc)));
    BlockOk(KHeaders, Fields(HeaderFields(rc)));
  }

  lemma V2RouteTable(rc: RouteCfg)
    ensures Table(V2RouteFields(rc), V2Rank)
  {
    hide *;
    V2RouteFieldsAre(rc);
    V2RouteNames(rc);
    V2OddFieldsOk(rc);
    SimpleFieldsOk(KMatchExpr, None, None, rc.matchExpr);
    SimpleFieldsOk(KSslEnabled, rc.ssl, None, "");
    SimpleFieldsOk(KHttp2Enabled, rc.http2, None, "");
    SimpleFieldsOk(KDisableAccessLog, rc.disableAccessLog, None, "");
    SimpleFieldsOk(KMaxBodySize, None, rc.maxBodySize, "");
    RedirectOk(RedirectOf(rc));
    TableOf(V2RouteFields(rc), V2Rank);
  }

  lemma TableOf(fs: seq<Field>, rank: Name -> int)
    requires forall i :: 0 <= i < |fs| ==> FieldOk(fs[i])
    requires forall i :: 0 <= i < |fs| ==> rank(fs[i].name) == i
    ensures Table(fs, rank)
  {}

  lemma V2RouteFound(rc: RouteCfg)
    ensures var ns := Fields(V2RouteFields(rc));
      && Find(ns, KUpstream) == UpstreamField(rc.servers).node
      && Find(ns, KUpstreams) == UpstreamsField(rc.servers).node
      && Find(ns, KMatchExpr) == TextField(KMatchExpr, rc.matchExpr).node
      && Find(ns, KSslEnabled) == FlagField(KSslEnabled, rc.ssl).node
      && Find(ns, KHttp2Enabled) == FlagField(KHttp2Enabled, rc.http2).node
      && Find(ns, KForceHttps) == ForceHttpsField(rc.forceHttps).node
      && Find(ns, KHealthCheck) == HealthCheckField(rc.healthcheck).node
      && Find(ns, KDisableAccessLog) == FlagField(KDisableAccessLog, rc.disableAccessLog).node
      && Find(ns, KMaxBodySize) == NumField(KMaxBodySize, rc.maxBodySize).node
      && Find(ns, KRedirect) == RedirectField(RedirectOf(rc)).node
      && Find(ns, KTimeouts) == BlockField(KTimeouts, Fields(TimeoutFields(rc))).node
      && Find(ns, KHeaders) == BlockField(KHeaders, Fields(HeaderFields(rc))).node
  {
    hide Find, Spell, Block, Leaf, Servers, Bullets, V2RouteFields, Fields, TimeoutFields, HeaderFields;
    V2RouteTable(rc);
    V2RouteFieldsAre(rc);
    var fs := V2RouteFields(rc);
    for i := 0 to 12
      invariant forall j :: 0 <= j < i ==> Find(Fields(fs), fs[j].name) == fs[j].node
    {
      FindField(fs, i, V2Rank);
    }
  }

  lemma ReadUpstreamsPrinted(ns: seq<Node>, bs: seq<Backend>)
    requires Find(ns, KUpstream) == UpstreamField(bs).node
    requires Find(ns, KUpstreams) == UpstreamsField(bs).node
    ensures ReadUpstreams(ns) == bs
  {
    if SinglePlain(bs) {
      assert bs == [Backend(bs[0].addr, 0)];
    } else {
      ReadKids(ns, KUpstreams, Servers(KAddr, bs));
      ServersRead(KAddr, bs);
    }
  }

  lemma ReadSwitches(ns: seq<Node>, force: Option<bool>, health: Option<bool>)
    requires Find(ns, KForceHttps) == ForceHttpsField(force).node
    requires Find(ns, KHealthCheck) == HealthCheckField(health).node
    ensures GetOr(FlagAt(ns, KForceHttps), false) == GetOr(force, false)
    ensures ReadHealthCheck(ns) == GetOr(health, false)
  {
    var tcp := Leaf(KType, Word("tcp"));
    assert Find([tcp], KType) == Some(tcp);
    if !IsTrue(health) { assert Find([], KType) == None; }
  }

  lemma ReadRouteV2Printed(rc: RouteCfg)
    ensures ReadRouteV2(Fields(V2RouteFields(rc))) == Meaning(rc)
  {
    hide Find, Fields, V2RouteFields, FlagField, NumField, TextField, BlockField, RedirectField, UpstreamField,
      UpstreamsField, ForceHttpsField, HealthCheckField, TimeoutFields, HeaderFields, ReadUpstreams,
      ReadHealthCheck, ReadRedirect, ReadBullets, FlagAt, NumAt, StrAt, KidsAt, RedirectOf, Spell;
    var ns := Fields(V2RouteFields(rc));
    V2RouteFound(rc);
    ReadUpstreamsPrinted(ns, rc.servers);
    ReadText(ns, KMatchExpr, rc.matchExpr);
    ReadFlag(ns, KSslEnabled, rc.ssl);
    ReadFlag(ns, KHttp2Enabled, rc.http2);
    ReadSwitches(ns, rc.forceHttps, rc.healthcheck);
    ReadFlag(ns, KDisableAccessLog, rc.disableAccessLog);
    ReadNum(ns, KMaxBodySize, rc.maxBodySize);
    ReadRedirectField(ns, RedirectOf(rc));
    ReadKids(ns, KTimeouts, Fields(TimeoutFields(rc)));
    ReadKids(ns, KHeaders, Fields(HeaderFields(rc)));
    TimeoutsRead(rc);
    HeadersRead(rc);
  }

  // ---- reading a v2 file back -------------------------------------------------------------

  lemma ReadPathsV2Snoc(ns: seq<Node>, k: string, kids: seq<Node>)
    ensures ReadPathsV2(ns + [Section(k, kids)]) == ReadPathsV2(ns)[k := ReadRouteV2(kids)]
  {
    hide ReadRouteV2;
    var all := ns + [Section(k, kids)];
    assert all[..|all| - 1] == ns;
  }

  lemma RouteSectionV2(k: string, rc: RouteCfg)
    ensures ValidForest([Section(k, Fields(V2RouteFields(rc)))])
    ensures ReadRouteV2(Fields(V2RouteFields(rc))) == Meaning(rc)
  {
    hide *;
    ReadRouteV2Printed(rc);
    V2RouteTable(rc);
    TableValid(V2RouteFields(rc), V2Rank);
    SectionValid(k, Fields(V2RouteFields(rc)));
  }

  lemma {:induction false} ReadPathsV2Printed(paths: map<string, RouteCfg>, keys: seq<string>)
    requires forall k :: k in keys ==> k in paths
    ensures var r := ReadPathsV2(V2Paths(paths, keys));
      && (forall k :: k in r <==> k in keys)
      && (forall k :: k in keys ==> r[k] == Meaning(paths[k]))
    ensures ValidForest(V2Paths(paths, keys))
  {
    hide ReadRouteV2, V2RouteFields, Fields, Meaning;
    if keys == [] {
    } else {
      var init, k := keys[..|keys| - 1], keys[|keys| - 1];
      ReadPathsV2Printed(paths, init);
      RouteSectionV2(k, paths[k]);
      ReadPathsV2Snoc(V2Paths(paths, init), k, Fields(V2RouteFields(paths[k])));
      hide ReadPathsV2, ValidForest;
      ValidAppend(V2Paths(paths, init), [Section(k, Fields(V2RouteFields(paths[k])))]);
      assert keys == init + [k];
    }
  }

  function PathsMeaning(paths: map<string, RouteCfg>): map<string, RouteMeaning> {
    map p | p in paths :: Meaning(paths[p])
  }

  lemma ReadPathListV2(paths: map<string, RouteCfg>)
    ensures ReadPathsV2(V2PathList(paths)) == PathsMeaning(paths)
    ensures ValidForest(V2PathList(paths))
  {
    hide Meaning, ReadPathsV2, V2Paths, ValidForest;
    SortedKeysMembers(paths.Keys);
    ReadPathsV2Printed(paths, SortedKeys(paths.Keys));
  }

  function PassthroughRank(n: Name): int {
    match n
    case KTls => 0
    case KUpstream => 1
    case _ => -1
  }

  lemma PassthroughRead(upstream: string)
    ensures Table(PassthroughFields(upstream), PassthroughRank)
    ensures var ns := Fields(PassthroughFields(upstream));
            ReadIsPassthrough(ns) && StrAt(ns, KUpstream) == Some(upstream)
  {
    hide FieldOk, Fields, Spell;
    var fs := PassthroughFields(upstream);
    var flag := Leaf(KPassthrough, Flag(true));
    LeafOk(KPassthrough, Flag(true));
    BlockOk(KTls, [flag]);
    LeafOk(KUpstream, Str(upstream));
    FindField(fs, 0, PassthroughRank);
    FindField(fs, 1, PassthroughRank);
    assert Find([flag], KPassthrough) == Some(flag);
  }

  function TerminateRank(n: Name): int {
    match n
    case KTls => 0
    case KPaths => 1
    case _ => -1
  }

  lemma CertFieldRead(cert: string)
    ensures ValidForest(NodeOf(TextField(KCert, cert)))
    ensures GetOr(StrAt(NodeOf(TextField(KCert, cert)), KCert), "") == cert
  {
    hide Spell;
    var f := TextField(KCert, cert);
    SimpleFieldsOk(KCert, None, None, cert);
    FindNode(f, KCert);
  }

  lemma TerminateBlockOk(cert: string)
    ensures var t := Block(KTerminate, NodeOf(TextField(KCert, cert)));
      && FieldOk(Field(KTls, Some(Block(KTls, [t]))))
      && Find([t], KPassthrough) == None
      && KidsAt([t], KTerminate) == NodeOf(TextField(KCert, cert))
  {
    hide Spell, TextField, NodeOf, ValidForest;
    var t := Block(KTerminate, NodeOf(TextField(KCert, cert)));
    CertFieldRead(cert);
    BlockOk(KTerminate, NodeOf(TextField(KCert, cert)));
    BlockOk(KTls, [t]);
    NamedOnce(t, KTerminate, KPassthrough);
    assert [t][1..] == [];
    FindNone(KPassthrough);
  }

  lemma TerminateTable(cert: string, paths: map<string, RouteCfg>)
    ensures Table(TerminateFields(cert, paths), TerminateRank)
  {
    hide FieldOk, V2PathList, ValidForest, ReadPathsV2, PathsMeaning, TextField, Spell, NodeOf;
    TerminateBlockOk(cert);
    ReadPathListV2(paths);
    BlockOk(KPaths, V2PathList(paths));
  }

  lemma TerminateRead(cert: string, paths: map<string, RouteCfg>)
    ensures Table(TerminateFields(cert, paths), TerminateRank)
    ensures var ns := Fields(TerminateFields(cert, paths));
            !ReadIsPassthrough(ns) && ReadTerminate(ns) == HostMeaning(cert, PathsMeaning(paths))
  {
    hide FieldOk, Fields, Spell, V2PathList, Find, TextField, PathsMeaning, Table;
    var fs := TerminateFields(cert, paths);
    var t := Block(KTerminate, NodeOf(TextField(KCert, cert)));
    TerminateTable(cert, paths);
    TerminateBlockOk(cert);
    CertFieldRead(cert);
    ReadPathListV2(paths);
    FindField(fs, 0, TerminateRank);
    FindField(fs, 1, TerminateRank);
    ReadKids(Fields(fs), KTls, [t]);
    ReadKids(Fields(fs), KPaths, V2PathList(paths));
  }

  /** What the model means, whichever schema it is printed in. */
  function ModelMeaning(m: Model): FileMeaning {
    FileMeaning(m.sticky, m.acme,
                map h | h in m.hosts && h !in m.passthroughHosts :: HostMeaning(CertOf(m, h), PathsMeaning(m.hosts[h])),
                m.passthroughHosts)
  }

  lemma ReadHostV2Printed(m: Model, h: string)
    requires IsHost(m, h)
    ensures var ns := Fields(V2HostFields(m, h));
      && ValidForest(ns)
      && ReadIsPassthrough(ns) == (h in m.passthroughHosts)
      && (h in m.passthroughHosts ==> GetOr(StrAt(ns, KUpstream), "") == m.passthroughHosts[h])
      && (h !in m.passthroughHosts ==> ReadTerminate(ns) == HostMeaning(CertOf(m, h), PathsMeaning(m.hosts[h])))
  {
    hide Fields, PassthroughFields, TerminateFields, PathsMeaning, ReadIsPassthrough, ReadTerminate, StrAt;
    if h in m.passthroughHosts {
      PassthroughRead(m.passthroughHosts[h]);
      TableValid(PassthroughFields(m.passthroughHosts[h]), PassthroughRank);
    } else {
      TerminateRead(CertOf(m, h), m.hosts[h]);
      TableValid(TerminateFields(CertOf(m, h), m.hosts[h]), TerminateRank);
    }
  }

  /** What the two host readers have collected from the hosts in keys. */
  ghost predicate HostsRead(m: Model, keys: seq<string>, t: map<string, HostMeaning>, p: map<string, string>)
    requires forall k :: k in keys ==> IsHost(m, k)
  {
    && (forall k :: k in t <==> k in keys && k !in m.passthroughHosts)
    && (forall k :: k in t ==> k in m.hosts && t[k] == HostMeaning(CertOf(m, k), PathsMeaning(m.hosts[k])))
    && (forall k :: k in p <==> k in keys && k in m.passthroughHosts)
    && (forall k :: k in p ==> p[k] == m.passthroughHosts[k])
  }

  lemma ReadHostsSnoc(ns: seq<Node>, h: string, kids: seq<Node>)
    ensures ReadTerminates(ns + [Section(h, kids)]) ==
      if ReadIsPassthrough(kids) then ReadTerminates(ns) else ReadTerminates(ns)[h := ReadTerminate(kids)]
    ensures ReadPassthroughs(ns + [Section(h, kids)]) ==
      if ReadIsPassthrough(kids) then ReadPassthroughs(ns)[h := GetOr(StrAt(kids, KUpstream), "")]
      else ReadPassthroughs(ns)
  {
    hide ReadIsPassthrough, ReadTerminate, StrAt;
    var all := ns + [Section(h, kids)];
    assert all[..|all| - 1] == ns;
  }

  lemma HostsReadSnoc(m: Model, init: seq<string>, k: string, t: map<string, HostMeaning>, p: map<string, string>)
    requires (forall h :: h in init ==> IsHost(m, h)) && IsHost(m, k)
    requires HostsRead(m, init, t, p)
    ensures k in m.passthroughHosts ==> HostsRead(m, init + [k], t, p[k := m.passthroughHosts[k]])
    ensures k !in m.passthroughHosts ==>
      HostsRead(m, init + [k], t[k := HostMeaning(CertOf(m, k), PathsMeaning(m.hosts[k]))], p)
  {
    hide PathsMeaning, CertOf;
  }

  lemma NoHostsRead(m: Model)
    ensures HostsRead(m, [], ReadTerminates([]), ReadPassthroughs([])) && ValidForest([])
  {}

  lemma {:induction false} ReadHostsV2Printed(m: Model, keys: seq<string>)
    requires forall k :: k in keys ==> IsHost(m, k)
    ensures HostsRead(m, keys, ReadTerminates(V2Hosts(m, keys)), ReadPassthroughs(V2Hosts(m, keys)))
    ensures ValidForest(V2Hosts(m, keys))
  {
    hide V2HostFields, Fields, PathsMeaning, CertOf, ReadIsPassthrough, ReadTerminate, StrAt,
      ReadTerminates, ReadPassthroughs, HostsRead, ValidForest, IsHost;
    if keys == [] {
      NoHostsRead(m);
    } else {
      var init, k := keys[..|keys| - 1], keys[|keys| - 1];
      var kids := Fields(V2HostFields(m, k));
      ReadHostsV2Printed(m, init);
      ReadHostV2Printed(m, k);
      ReadHostsSnoc(V2Hosts(m, init), k, kids);
      HostsReadSnoc(m, init, k, ReadTerminates(V2Hosts(m, init)), ReadPassthroughs(V2Hosts(m, init)));
      SectionValid(k, kids);
      ValidAppend(V2Hosts(m, init), [Section(k, kids)]);
      assert keys == init + [k];
    }
  }

  lemma HostsReadAll(m: Model, keys: seq<string>, t: map<string, HostMeaning>, p: map<string, string>)
    requires forall k :: k in keys <==> IsHost(m, k)
    requires HostsRead(m, keys, t, p)
    ensures t == ModelMeaning(m).terminate && p == ModelMeaning(m).passthrough
  {
    hide PathsMeaning, CertOf;
  }

  lemma ReadHostListV2(m: Model)
    ensures ReadTerminates(V2HostList(m)) == ModelMeaning(m).terminate
    ensures ReadPassthroughs(V2HostList(m)) == ModelMeaning(m).passthrough
    ensures ValidForest(V2HostList(m))
  {
    hide ModelMeaning, HostsRead, ReadTerminates, ReadPassthroughs, V2Hosts, ValidForest;
    var hosts := m.hosts.Keys + m.passthroughHosts.Keys;
    SortedKeysMembers(hosts);
    ReadHostsV2Printed(m, SortedKeys(hosts));
    HostsReadAll(m, SortedKeys(hosts), ReadTerminates(V2HostList(m)), ReadPassthroughs(V2HostList(m)));
  }

  function V2FileRank(n: Name): int {
    match n
    case KVersion => 0
    case KProxy => 1
    case KInternal => 2
    case KHosts => 3
    case _ => -1
  }

  lemma StickyV2Ok(sticky: bool)
    ensures FieldOk(StickyFieldV2(sticky))
    ensures StickyFieldV2(sticky).node.Some? ==>
      FlagAt(KidsAt(StickyFieldV2(sticky).node.value.kids, KStickySessions), KEnabled) == Some(true)
  {
    var enabled := Leaf(KEnabled, Flag(true));
    var sessions := Block(KStickySessions, [enabled]);
    LeafOk(KEnabled, Flag(true));
    BlockOk(KStickySessions, [enabled]);
    BlockOk(KProxy, [sessions]);
    assert Find([sessions], KStickySessions) == Some(sessions);
    assert Find([enabled], KEnabled) == Some(enabled);
  }

  lemma AcmeV2Ok(acme: string)
    ensures FieldOk(AcmeFieldV2(acme))
    ensures AcmeFieldV2(acme).node.Some? ==> ReadAcmeV2(AcmeFieldV2(acme).node.value.kids) == acme
  {
    var upstream := Leaf(KUpstream, Str(acme));
    var path := Node(DashEntry(Spell(KPath), Str(ACME_PATH)), [upstream]);
    LeafOk(KUpstream, Str(acme));
    assert Spells(Spell(KPath), KPath);
    assert [path][1..] == [];
    assert ValidForest([path]);
    BlockOk(KInternal, [path]);
    assert Find([upstream], KUpstream) == Some(upstream);
  }

  lemma V2FileTable(m: Model)
    ensures Table(V2Fields(m), V2FileRank)
  {
    hide FieldOk, V2HostList, V2Fields, StickyFieldV2, AcmeFieldV2, BlockField, Leaf, Block, ValidForest,
         ReadTerminates, ReadPassthroughs, ModelMeaning, FlagAt, KidsAt, ReadAcmeV2;
    V2FieldsAre(m);
    LeafOk(KVersion, Num(2));
    StickyV2Ok(m.sticky);
    AcmeV2Ok(m.acme);
    ReadHostListV2(m);
    BlockOk(KHosts, V2HostList(m));
    FileFieldNames(m.sticky, m.acme);
    FieldNames(KHosts, None, None, "", V2HostList(m));
  }

  lemma FileFieldNames(sticky: bool, acme: string)
    ensures StickyFieldV2(sticky).name == KProxy && AcmeFieldV2(acme).name == KInternal
  {}

  lemma KidsOf(ns: seq<Node>, name: Name, node: Option<Node>)
    requires Find(ns, name) == node
    ensures KidsAt(ns, name) == if node.Some? then node.value.kids else []
  {}

  lemma NothingRead(name: Name, inner: Name)
    ensures GetOr(FlagAt(KidsAt([], name), inner), false) == false
    ensures ReadAcmeV2([]) == ""
  {}

  lemma MeaningV2Printed(m: Model)
    ensures MeaningV2(V2Forest(m)) == ModelMeaning(m)
  {
    hide Find, FlagAt, KidsAt, V2HostList, Spell, ReadAcmeV2, ReadTerminates, ReadPassthroughs,
         Fields, PathsMeaning, CertOf;
    var fs := V2Fields(m);
    var ns := V2Forest(m);
    V2FileTable(m);
    FindField(fs, 1, V2FileRank);
    FindField(fs, 2, V2FileRank);
    FindField(fs, 3, V2FileRank);
    AfterHeader(Fields(fs), KProxy);
    AfterHeader(Fields(fs), KInternal);
    AfterHeader(Fields(fs), KHosts);
    KidsOf(ns, KProxy, StickyFieldV2(m.sticky).node);
    KidsOf(ns, KInternal, AcmeFieldV2(m.acme).node);
    ReadKids(ns, KHosts, V2HostList(m));
    StickyV2Ok(m.sticky);
    AcmeV2Ok(m.acme);
    NothingRead(KStickySessions, KEnabled);
    ReadHostListV2(m);
  }

  /** The v2 reader recovers what the model means from the text. */
  lemma V2RoundTrip(m: Model)
    ensures ReadV2(V2Text(m)) == Some(ModelMeaning(m))
  {
    hide *;
    V2FileTable(m);
    TableValid(V2Fields(m), V2FileRank);
    HeaderValid(Fields(V2Fields(m)));
    V2TextIsPrinted(m);
    ReadPrinted(V2Forest(m));
    MeaningV2Printed(m);
    ReadV2Is(V2Text(m));
  }

  lemma V2TextIsPrinted(m: Model)
    ensures V2Text(m) == Print(V2Forest(m), 0) && V2Forest(m) == [HEADER_NODE] + Fields(V2Fields(m))
  {}

  lemma ReadV2Is(text: string)
    ensures ReadForest(text).Some? ==> ReadV2(text) == Some(MeaningV2(ReadForest(text).value))
  {}

  lemma EffectiveMeaning(m: Model)
    requires ValidModel(m)
    ensures MeaningV1(Effective(m)).(passthrough := m.passthroughHosts) == ModelMeaning(m)
  {
    hide EffectiveRoute, RouteMeaningV1;
    var a, b := MeaningV1(Effective(m)).terminate, ModelMeaning(m).terminate;
    forall h | h in m.hosts ensures h in a && h in b && a[h] == b[h] {
      assert a[h].paths == b[h].paths;
    }
  }

  /** The two texts of any valid model mean the same: every terminated host and path,
      sticky sessions and the ACME backend; v2 adds the passthrough hosts. */
  lemma SchemasAgree(m: Model)
    requires ValidModel(m)
    ensures ReadV1(V1Text(Effective(m))).Some?
    ensures ReadV2(V2Text(m)) ==
      Some(MeaningV1(ReadV1(V1Text(Effective(m))).value).(passthrough := m.passthroughHosts))
    ensures ReadV1(V1Text(Effective(m))).value.acme == m.acme && ReadV1(V1Text(Effective(m))).value.sticky == m.sticky
  {
    hide *;
    V1RoundTrip(Effective(m));
    V2RoundTrip(m);
    EffectiveMeaning(m);
    EffectiveGlobals(m);
  }

  lemma EffectiveGlobals(m: Model)
    ensures Effective(m).acme == m.acme && Effective(m).sticky == m.sticky
  {}
}
