/** A reader for the v1 upstreams text, and what it proves about the printer: the text
    determines exactly the effective configuration, and nothing of it is lost or added. */
module UpstreamsReader {
  import opened Wrappers
  import opened Strings
  import opened Sorting
  import opened Layout
  import opened RouteModel
  import opened SchemaWords
  import opened RouteText
  import opened RouteTextV2

  // ---- looking fields up by name, in any order ------------------------------------

  predicate Named(n: Node, name: Name) {
    (n.item.Open? || n.item.Entry?) && n.item.k == Bare(Spell(name))
  }

  function Find(ns: seq<Node>, name: Name): Option<Node> {
    if ns == [] then None
    else if Named(ns[0], name) then Some(ns[0])
    else Find(ns[1..], name)
  }

  function FlagAt(ns: seq<Node>, name: Name): Option<bool> {
    match Find(ns, name)
    case Some(Node(Entry(_, Flag(b)), _)) => Some(b)
    case _ => None
  }

  function NumAt(ns: seq<Node>, name: Name): Option<nat> {
    match Find(ns, name)
    case Some(Node(Entry(_, Num(n)), _)) => Some(n)
    case _ => None
  }

  function StrAt(ns: seq<Node>, name: Name): Option<string> {
    match Find(ns, name)
    case Some(Node(Entry(_, Str(s)), _)) => Some(s)
    case _ => None
  }

  function KidsAt(ns: seq<Node>, name: Name): seq<Node> {
    match Find(ns, name)
    case Some(n) => n.kids
    case None => []
  }

  function ReadBullets(ns: seq<Node>): seq<string> {
    if ns == [] then [] else
      ReadBullets(ns[..|ns| - 1]) +
      match ns[|ns| - 1].item
      case Dash(s) => [s]
      case _ => []
  }

  function ReadServers(ns: seq<Node>, field: Name): seq<Backend> {
    if ns == [] then [] else
      ReadServers(ns[..|ns| - 1], field) +
      match ns[|ns| - 1].item
      case Dash(s) => [Backend(s, 0)]
      case DashWeighted(f, a, w) => if f == Spell(field) then [Backend(a, w)] else []
      case _ => []
  }

  function ReadRedirect(ns: seq<Node>): Option<Redirect> {
    match (NumAt(KidsAt(ns, KRedirect), KStatus), StrAt(KidsAt(ns, KRedirect), KLocation))
    case (Some(s), Some(l)) => Some(Redirect.Redirect(s, l))
    case _ => None
  }

  // ---- the v1 reader --------------------------------------------------------------

  function ReadRouteV1(ns: seq<Node>): V1Route {
    V1Route(ReadServers(KidsAt(ns, KServers), KAddress),
            GetOr(StrAt(ns, KMatchExpr), ""),
            GetOr(FlagAt(ns, KSslEnabled), false),
            FlagAt(ns, KHttp2Enabled),
            FlagAt(ns, KHttpsProxyEnabled),
            FlagAt(ns, KHealthcheck),
            FlagAt(ns, KDisableAccessLog),
            NumAt(ns, KConnectionTimeout),
            NumAt(ns, KReadTimeout),
            NumAt(ns, KWriteTimeout),
            NumAt(ns, KIdleTimeout),
            NumAt(ns, KMaxBodySize),
            ReadRedirect(ns),
            ReadBullets(KidsAt(ns, KRequestHeaders)),
            ReadBullets(KidsAt(ns, KResponseHeaders)))
  }

  function ReadPathsV1(ns: seq<Node>): map<string, V1Route> {
    if ns == [] then map[] else
      var before := ReadPathsV1(ns[..|ns| - 1]);
      match ns[|ns| - 1].item
      case Open(Quoted(k)) => before[k := ReadRouteV1(ns[|ns| - 1].kids)]
      case _ => before
  }

  function ReadHostV1(ns: seq<Node>): V1Host {
    V1Host(GetOr(StrAt(ns, KCertificate), ""), ReadPathsV1(KidsAt(ns, KPaths)))
  }

  function ReadHostsV1(ns: seq<Node>): map<string, V1Host> {
    if ns == [] then map[] else
      var before := ReadHostsV1(ns[..|ns| - 1]);
      match ns[|ns| - 1].item
      case Open(Quoted(k)) => before[k := ReadHostV1(ns[|ns| - 1].kids)]
      case _ => before
  }

  /** The ACME override is the server list of the one internal path. */
  function ReadAcmeV1(ns: seq<Node>): string {
    if ns == [] || ns[0].item != Open(Quoted(ACME_PATH)) then ""
    else
      var servers := ReadBullets(KidsAt(ns[0].kids, KServers));
      if servers == [] then "" else servers[0]
  }

  function ConfigV1(ns: seq<Node>): V1Config {
    V1Config(GetOr(FlagAt(ns, KStickySessions), false),
             ReadAcmeV1(KidsAt(ns, KInternalPaths)),
             ReadHostsV1(KidsAt(ns, KUpstreams)))
  }

  function ReadV1(text: string): Option<V1Config> {
    match ReadForest(text)
    case Some(ns) => Some(ConfigV1(ns))
    case None => None
  }

  // ---- what lookups find in printed fields ------------------------------------------

  /** The field's node carries the field's name and is printable. */
  predicate FieldOk(f: Field) {
    f.node.Some? ==> Named(f.node.value, f.name) && ValidForest([f.node.value])
  }

  /** Every field is well formed, and no two have the same name: rank tells them apart. */
  ghost predicate Table(fs: seq<Field>, rank: Name -> int) {
    forall i :: 0 <= i < |fs| ==> FieldOk(fs[i]) && rank(fs[i].name) == i
  }

  lemma NamedOnce(n: Node, a: Name, b: Name)
    requires Named(n, a) && a != b
    ensures !Named(n, b)
  {
    if Spell(a) == Spell(b) { SpellInjective(a, b); }
  }

  lemma {:induction false} FindAppend(a: seq<Node>, b: seq<Node>, name: Name)
    ensures Find(a + b, name) == if Find(a, name).Some? then Find(a, name) else Find(b, name)
  {
    hide Named;
    if a == [] {
      assert a + b == b;
    } else {
      assert (a + b)[1..] == a[1..] + b;
      FindAppend(a[1..], b, name);
    }
  }

  lemma FindNode(f: Field, name: Name)
    requires FieldOk(f)
    ensures Find(NodeOf(f), name) == if f.name == name then f.node else None
  {
    if f.node.Some? {
      assert NodeOf(f)[1..] == [];
      if f.name != name { NamedOnce(f.node.value, f.name, name); }
    }
  }

  lemma {:induction false} FindPresent(fs: seq<Field>, n: nat, i: nat, rank: Name -> int)
    requires Table(fs, rank) && n <= |fs| && i < |fs|
    ensures Find(Present(fs, n), fs[i].name) == if i < n then fs[i].node else None
  {
    hide FieldOk, Find, NodeOf;
    if n == 0 {
      FindNone(fs[i].name);
    } else {
      FindPresent(fs, n - 1, i, rank);
      FindAppend(Present(fs, n - 1), NodeOf(fs[n - 1]), fs[i].name);
      FindNode(fs[n - 1], fs[i].name);
      assert rank(fs[n - 1].name) == n - 1 && rank(fs[i].name) == i;
    }
  }

  lemma FindNone(name: Name)
    ensures Find([], name) == None
  {}

  lemma FindField(fs: seq<Field>, i: nat, rank: Name -> int)
    requires Table(fs, rank) && i < |fs|
    ensures Find(Fields(fs), fs[i].name) == fs[i].node
  {
    FindPresent(fs, |fs|, i, rank);
  }

  lemma {:induction false} PresentValid(fs: seq<Field>, n: nat)
    requires forall i :: 0 <= i < |fs| ==> FieldOk(fs[i])
    requires n <= |fs|
    ensures ValidForest(Present(fs, n))
  {
    if n == 0 {
    } else {
      PresentValid(fs, n - 1);
      assert FieldOk(fs[n - 1]);
      ValidAppend(Present(fs, n - 1), NodeOf(fs[n - 1]));
    }
  }

  lemma TableValid(fs: seq<Field>, rank: Name -> int)
    requires Table(fs, rank)
    ensures ValidForest(Fields(fs))
  {
    PresentValid(fs, |fs|);
  }

  // ---- well-formed fields ----------------------------------------------------------

  lemma SpelledKey(name: Name)
    ensures ValidKey(Bare(Spell(name)))
  {
    assert Spells(Spell(name), name);
  }

  lemma LeafOk(name: Name, v: Scalar)
    requires ValidScalar(v)
    ensures FieldOk(Field(name, Some(Leaf(name, v))))
    ensures ValidForest([Leaf(name, v)])
  {
    SpelledKey(name);
    assert [Leaf(name, v)][1..] == [];
  }

  lemma BlockOk(name: Name, kids: seq<Node>)
    requires ValidForest(kids)
    ensures FieldOk(Field(name, Some(Block(name, kids)))) && FieldOk(BlockField(name, kids))
    ensures ValidForest([Block(name, kids)])
  {
    SpelledKey(name);
    assert [Block(name, kids)][1..] == [];
  }

  lemma SimpleFieldsOk(name: Name, flag: Option<bool>, num: Option<nat>, text: string)
    ensures FieldOk(FlagField(name, flag)) && FieldOk(NumField(name, num)) && FieldOk(TextField(name, text))
  {
    hide FieldOk, Leaf, ValidForest;
    AbsentOk(name);
    if flag.Some? { LeafOk(name, Flag(flag.value)); }
    if num.Some? { LeafOk(name, Num(num.value)); }
    LeafOk(name, Str(text));
  }

  lemma RedirectOk(r: Option<Redirect>)
    ensures FieldOk(RedirectField(r))
  {
    if r.Some? {
      var status, location := Leaf(KStatus, Num(r.value.status)), Leaf(KLocation, Str(r.value.location));
      LeafOk(KStatus, Num(r.value.status));
      LeafOk(KLocation, Str(r.value.location));
      ValidAppend([status], [location]);
      assert [status] + [location] == [status, location];
      BlockOk(KRedirect, [status, location]);
    }
  }

  lemma {:induction false} BulletsRead(ss: seq<string>)
    ensures ReadBullets(Bullets(ss)) == ss
    ensures ValidForest(Bullets(ss))
  {
    if ss == [] {
    } else {
      var init, last := ss[..|ss| - 1], Bullet(ss[|ss| - 1]);
      BulletsRead(init);
      assert ValidForest([last]) by { assert [last][1..] == []; }
      ValidAppend(Bullets(init), [last]);
      assert Bullets(ss)[..|Bullets(ss)| - 1] == Bullets(init);
      assert init + [ss[|ss| - 1]] == ss;
    }
  }

  lemma ServerValid(field: Name, b: Backend)
    ensures ValidForest([Server(field, b)])
  {
    assert Spells(Spell(field), field);
    assert [Server(field, b)][1..] == [];
  }

  lemma ReadServersSnoc(field: Name, ns: seq<Node>, b: Backend)
    ensures ReadServers(ns + [Server(field, b)], field) == ReadServers(ns, field) + [b]
  {
    hide Spell;
    var all := ns + [Server(field, b)];
    assert all[..|all| - 1] == ns;
    assert b.weight == 0 ==> b == Backend(b.addr, 0);
  }

  lemma {:induction false} ServersRead(field: Name, bs: seq<Backend>)
    ensures ReadServers(Servers(field, bs), field) == bs
    ensures ValidForest(Servers(field, bs))
  {
    hide Server, Spell;
    if bs == [] {
    } else {
      var init, b := bs[..|bs| - 1], bs[|bs| - 1];
      ServersRead(field, init);
      hide ReadServers, ValidForest;
      ReadServersSnoc(field, Servers(field, init), b);
      ServerValid(field, b);
      ValidAppend(Servers(field, init), [Server(field, b)]);
      assert init + [b] == bs;
    }
  }

  // ---- reading one v1 route back -----------------------------------------------------

  function V1Rank(n: Name): int {
    match n
    case KServers => 0
    case KMatchExpr => 1
    case KSslEnabled => 2
    case KHttp2Enabled => 3
    case KHttpsProxyEnabled => 4
    case KHealthcheck => 5
    case KDisableAccessLog => 6
    case KConnectionTimeout => 7
    case KReadTimeout => 8
    case KWriteTimeout => 9
    case KIdleTimeout => 10
    case KMaxBodySize => 11
    case KRedirect => 12
    case KRequestHeaders => 13
    case KResponseHeaders => 14
    case _ => -1
  }

  lemma FieldNames(name: Name, flag: Option<bool>, num: Option<nat>, text: string, kids: seq<Node>)
    ensures FlagField(name, flag).name == name
    ensures NumField(name, num).name == name
    ensures TextField(name, text).name == name
    ensures BlockField(name, kids).name == name
  {}

  lemma V1RouteTable(r: V1Route)
    ensures Table(V1RouteFields(r), V1Rank)
  {
    hide FieldOk, FlagField, NumField, TextField, BlockField, RedirectField, V1RouteFields, Spell, Leaf,
         Block, Servers, Bullets;
    var fs := V1RouteFields(r);
    V1RouteFieldsAre(r);
    ServersRead(KAddress, r.servers);
    BlockOk(KServers, Servers(KAddress, r.servers));
    SimpleFieldsOk(KMatchExpr, None, None, r.matchExpr);
    LeafOk(KSslEnabled, Flag(r.ssl));
    SimpleFieldsOk(KHttp2Enabled, r.http2, None, "");
    SimpleFieldsOk(KHttpsProxyEnabled, r.forceHttps, None, "");
    SimpleFieldsOk(KHealthcheck, r.healthcheck, None, "");
    SimpleFieldsOk(KDisableAccessLog, r.disableAccessLog, None, "");
    SimpleFieldsOk(KConnectionTimeout, None, r.connectTimeout, "");
    SimpleFieldsOk(KReadTimeout, None, r.readTimeout, "");
    SimpleFieldsOk(KWriteTimeout, None, r.writeTimeout, "");
    SimpleFieldsOk(KIdleTimeout, None, r.idleTimeout, "");
    SimpleFieldsOk(KMaxBodySize, None, r.maxBodySize, "");
    RedirectOk(r.redirect);
    BulletsRead(r.reqHeaders);
    BulletsRead(r.respHeaders);
    BlockOk(KRequestHeaders, Bullets(r.reqHeaders));
    BlockOk(KResponseHeaders, Bullets(r.respHeaders));
    V1RouteNames(r);
  }

  lemma V1RouteNames(r: V1Route)
    ensures var fs := V1RouteFields(r);
            forall i :: 0 <= i < |fs| ==> V1Rank(fs[i].name) == i
  {
    hide Spell, Leaf, Block, Servers, Bullets;
    V1RouteFieldsAre(r);
  }

  lemma ReadFlag(ns: seq<Node>, name: Name, o: Option<bool>)
    requires Find(ns, name) == FlagField(name, o).node
    ensures FlagAt(ns, name) == o
  {}

  lemma ReadNum(ns: seq<Node>, name: Name, o: Option<nat>)
    requires Find(ns, name) == NumField(name, o).node
    ensures NumAt(ns, name) == o
  {}

  lemma ReadText(ns: seq<Node>, name: Name, s: string)
    requires Find(ns, name) == TextField(name, s).node
    ensures GetOr(StrAt(ns, name), "") == s
  {}

  lemma ReadKids(ns: seq<Node>, name: Name, kids: seq<Node>)
    requires Find(ns, name) == Some(Block(name, kids)) || Find(ns, name) == BlockField(name, kids).node
    ensures KidsAt(ns, name) == kids
  {}

  lemma ReadRedirectField(ns: seq<Node>, r: Option<Redirect>)
    requires Find(ns, KRedirect) == RedirectField(r).node
    ensures ReadRedirect(ns) == r
  {
    if r.Some? {
      var status, location := Leaf(KStatus, Num(r.value.status)), Leaf(KLocation, Str(r.value.location));
      var kids := [status, location];
      ReadKids(ns, KRedirect, kids);
      NamedOnce(status, KStatus, KLocation);
      assert kids[1..] == [location];
      assert Find(kids, KStatus) == Some(status);
      assert Find(kids, KLocation) == Find([location], KLocation) == Some(location);
    }
  }

  lemma ReadRouteV1Printed(r: V1Route)
    ensures ReadRouteV1(Fields(V1RouteFields(r))) == r
  {
    hide *;
    var fs := V1RouteFields(r);
    var ns := Fields(fs);
    V1RouteTable(r);
    V1RouteFieldsAre(r);
    V1RouteFound(r);
    ReadKids(ns, KServers, Servers(KAddress, r.servers));
    ServersRead(KAddress, r.servers);
    ReadText(ns, KMatchExpr, r.matchExpr);
    ReadFlag(ns, KSslEnabled, Some(r.ssl));
    ReadFlag(ns, KHttp2Enabled, r.http2);
    ReadFlag(ns, KHttpsProxyEnabled, r.forceHttps);
    ReadFlag(ns, KHealthcheck, r.healthcheck);
    ReadFlag(ns, KDisableAccessLog, r.disableAccessLog);
    ReadNum(ns, KConnectionTimeout, r.connectTimeout);
    ReadNum(ns, KReadTimeout, r.readTimeout);
    ReadNum(ns, KWriteTimeout, r.writeTimeout);
    ReadNum(ns, KIdleTimeout, r.idleTimeout);
    ReadNum(ns, KMaxBodySize, r.maxBodySize);
    ReadRedirectField(ns, r.redirect);
    ReadKids(ns, KRequestHeaders, Bullets(r.reqHeaders));
    ReadKids(ns, KResponseHeaders, Bullets(r.respHeaders));
    BulletsRead(r.reqHeaders);
    BulletsRead(r.respHeaders);
    ReadRouteV1Is(ns);
  }

  lemma ReadRouteV1Is(ns: seq<Node>)
    ensures ReadRouteV1(ns) == V1Route(
      ReadServers(KidsAt(ns, KServers), KAddress), GetOr(StrAt(ns, KMatchExpr), ""),
      if FlagAt(ns, KSslEnabled).Some? then FlagAt(ns, KSslEnabled).value else false,
      FlagAt(ns, KHttp2Enabled), FlagAt(ns, KHttpsProxyEnabled), FlagAt(ns, KHealthcheck),
      FlagAt(ns, KDisableAccessLog), NumAt(ns, KConnectionTimeout), NumAt(ns, KReadTimeout),
      NumAt(ns, KWriteTimeout), NumAt(ns, KIdleTimeout), NumAt(ns, KMaxBodySize), ReadRedirect(ns),
      ReadBullets(KidsAt(ns, KRequestHeaders)), ReadBullets(KidsAt(ns, KResponseHeaders)))
  {}

  lemma V1RouteFound(r: V1Route)
    ensures var ns := Fields(V1RouteFields(r));
      && Find(ns, KServers) == Some(Block(KServers, Servers(KAddress, r.servers)))
      && Find(ns, KMatchExpr) == TextField(KMatchExpr, r.matchExpr).node
      && Find(ns, KSslEnabled) == FlagField(KSslEnabled, Some(r.ssl)).node
      && Find(ns, KHttp2Enabled) == FlagField(KHttp2Enabled, r.http2).node
      && Find(ns, KHttpsProxyEnabled) == FlagField(KHttpsProxyEnabled, r.forceHttps).node
      && Find(ns, KHealthcheck) == FlagField(KHealthcheck, r.healthcheck).node
      && Find(ns, KDisableAccessLog) == FlagField(KDisableAccessLog, r.disableAccessLog).node
      && Find(ns, KConnectionTimeout) == NumField(KConnectionTimeout, r.connectTimeout).node
      && Find(ns, KReadTimeout) == NumField(KReadTimeout, r.readTimeout).node
      && Find(ns, KWriteTimeout) == NumField(KWriteTimeout, r.writeTimeout).node
      && Find(ns, KIdleTimeout) == NumField(KIdleTimeout, r.idleTimeout).node
      && Find(ns, KMaxBodySize) == NumField(KMaxBodySize, r.maxBodySize).node
      && Find(ns, KRedirect) == RedirectField(r.redirect).node
      && Find(ns, KRequestHeaders) == BlockField(KRequestHeaders, Bullets(r.reqHeaders)).node
      && Find(ns, KResponseHeaders) == BlockField(KResponseHeaders, Bullets(r.respHeaders)).node
  {
    hide Find, Spell, Block, Servers, Bullets, V1RouteFields, Fields;
    V1RouteTable(r);
    V1RouteFieldsAre(r);
    var fs := V1RouteFields(r);
    for i := 0 to 15
      invariant forall j :: 0 <= j < i ==> Find(Fields(fs), fs[j].name) == fs[j].node
    {
      FindField(fs, i, V1Rank);
    }
  }

  // ---- reading a v1 file back ----------------------------------------------------------

  lemma SectionValid(text: string, kids: seq<Node>)
    requires ValidForest(kids)
    ensures ValidForest([Section(text, kids)])
  {
    assert [Section(text, kids)][1..] == [];
  }

  lemma ReadPathsV1Snoc(ns: seq<Node>, k: string, kids: seq<Node>)
    ensures ReadPathsV1(ns + [Section(k, kids)]) == ReadPathsV1(ns)[k := ReadRouteV1(kids)]
  {
    hide ReadRouteV1;
    var all := ns + [Section(k, kids)];
    assert all[..|all| - 1] == ns;
  }

  lemma RouteSectionV1(k: string, r: V1Route)
    ensures ValidForest([Section(k, Fields(V1RouteFields(r)))])
    ensures ReadRouteV1(Fields(V1RouteFields(r))) == r
  {
    hide *;
    ReadRouteV1Printed(r);
    V1RouteTable(r);
    TableValid(V1RouteFields(r), V1Rank);
    SectionValid(k, Fields(V1RouteFields(r)));
  }

  lemma {:induction false} ReadPathsV1Printed(paths: map<string, V1Route>, keys: seq<string>)
    requires forall k :: k in keys ==> k in paths
    ensures var r := ReadPathsV1(V1Paths(paths, keys));
      && (forall k :: k in r <==> k in keys)
      && (forall k :: k in keys ==> r[k] == paths[k])
    ensures ValidForest(V1Paths(paths, keys))
  {
    hide V1RouteFields, Fields, ReadRouteV1;
    if keys == [] {
    } else {
      var init, k := keys[..|keys| - 1], keys[|keys| - 1];
      ReadPathsV1Printed(paths, init);
      RouteSectionV1(k, paths[k]);
      ReadPathsV1Snoc(V1Paths(paths, init), k, Fields(V1RouteFields(paths[k])));
      hide ReadPathsV1, ValidForest;
      ValidAppend(V1Paths(paths, init), [Section(k, Fields(V1RouteFields(paths[k])))]);
      assert keys == init + [k];
    }
  }

  lemma ReadPathListV1(paths: map<string, V1Route>)
    ensures ReadPathsV1(V1PathList(paths)) == paths
    ensures ValidForest(V1PathList(paths))
  {
    SortedKeysMembers(paths.Keys);
    ReadPathsV1Printed(paths, SortedKeys(paths.Keys));
  }

  function V1HostRank(n: Name): int {
    match n
    case KCertificate => 0
    case KPaths => 1
    case _ => -1
  }

  lemma V1HostTable(h: V1Host)
    ensures Table(V1HostFields(h), V1HostRank)
    ensures ReadHostV1(Fields(V1HostFields(h))) == h
  {
    hide FieldOk, TextField, Block, Fields, Find, V1PathList, Spell;
    var fs := V1HostFields(h);
    SimpleFieldsOk(KCertificate, None, None, h.cert);
    FieldNames(KCertificate, None, None, h.cert, []);
    ReadPathListV1(h.paths);
    BlockOk(KPaths, V1PathList(h.paths));
    FindField(fs, 0, V1HostRank);
    FindField(fs, 1, V1HostRank);
    ReadText(Fields(fs), KCertificate, h.cert);
    ReadKids(Fields(fs), KPaths, V1PathList(h.paths));
  }

  lemma ReadHostsV1Snoc(ns: seq<Node>, h: string, kids: seq<Node>)
    ensures ReadHostsV1(ns + [Section(h, kids)]) == ReadHostsV1(ns)[h := ReadHostV1(kids)]
  {
    hide ReadHostV1;
    var all := ns + [Section(h, kids)];
    assert all[..|all| - 1] == ns;
  }

  lemma HostSectionV1(k: string, h: V1Host)
    ensures ValidForest([Section(k, Fields(V1HostFields(h)))])
    ensures ReadHostV1(Fields(V1HostFields(h))) == h
  {
    hide *;
    V1HostTable(h);
    TableValid(V1HostFields(h), V1HostRank);
    SectionValid(k, Fields(V1HostFields(h)));
  }

  lemma {:induction false} ReadHostsV1Printed(hosts: map<string, V1Host>, keys: seq<string>)
    requires forall k :: k in keys ==> k in hosts
    ensures var r := ReadHostsV1(V1Hosts(hosts, keys));
      && (forall k :: k in r <==> k in keys)
      && (forall k :: k in keys ==> r[k] == hosts[k])
    ensures ValidForest(V1Hosts(hosts, keys))
  {
    hide ReadHostV1, V1HostFields, Fields, Section;
    if keys == [] {
    } else {
      var init, k := keys[..|keys| - 1], keys[|keys| - 1];
      var kids := Fields(V1HostFields(hosts[k]));
      ReadHostsV1Printed(hosts, init);
      HostSectionV1(k, hosts[k]);
      ReadHostsV1Snoc(V1Hosts(hosts, init), k, kids);
      hide ReadHostsV1, ValidForest;
      ValidAppend(V1Hosts(hosts, init), [Section(k, kids)]);
      assert keys == init + [k];
    }
  }

  lemma ReadHostListV1(hosts: map<string, V1Host>)
    ensures ReadHostsV1(V1HostList(hosts)) == hosts
    ensures ValidForest(V1HostList(hosts))
  {
    SortedKeysMembers(hosts.Keys);
    ReadHostsV1Printed(hosts, SortedKeys(hosts.Keys));
  }

  lemma ReadAcmeV1Printed(acme: string)
    requires acme != ""
    ensures ReadAcmeV1(AcmeV1(acme)) == acme
    ensures ValidForest(AcmeV1(acme))
  {
    var servers, ssl := Block(KServers, [Bullet(acme)]), Leaf(KSslEnabled, Flag(false));
    BulletsRead([acme]);
    assert [acme][..0] == [];
    assert Bullets([acme]) == [Bullet(acme)];
    BlockOk(KServers, [Bullet(acme)]);
    LeafOk(KSslEnabled, Flag(false));
    ValidAppend([servers], [ssl]);
    assert [servers] + [ssl] == [servers, ssl];
    SectionValid(ACME_PATH, [servers, ssl]);
    assert Find([servers, ssl], KServers) == Some(servers);
  }

  function V1FileRank(n: Name): int {
    match n
    case KInternalPaths => 0
    case KStickySessions => 1
    case KUpstreams => 2
    case _ => -1
  }

  lemma V1FileTable(c: V1Config)
    ensures Table(V1Fields(c), V1FileRank)
  {
    hide FieldOk, Block, AcmeV1, V1HostList, Spell, Leaf;
    if c.acme != "" {
      ReadAcmeV1Printed(c.acme);
      BlockOk(KInternalPaths, AcmeV1(c.acme));
    }
    assert FieldOk(AcmeFieldV1(c.acme)) by { AbsentOk(KInternalPaths); }
    LeafOk(KStickySessions, Flag(true));
    assert FieldOk(StickyFieldV1(c.sticky)) by { AbsentOk(KStickySessions); }
    ReadHostListV1(c.hosts);
    BlockOk(KUpstreams, V1HostList(c.hosts));
  }

  lemma AbsentOk(name: Name)
    ensures FieldOk(Field(name, None))
  {}

  lemma AfterHeader(ns: seq<Node>, name: Name)
    ensures Find([HEADER_NODE] + ns, name) == Find(ns, name)
  {
    assert ([HEADER_NODE] + ns)[1..] == ns;
  }

  lemma HeaderValid(ns: seq<Node>)
    requires ValidForest(ns)
    ensures ValidForest([HEADER_NODE] + ns)
  {
    assert ([HEADER_NODE] + ns)[1..] == ns;
    assert '\n' !in "Generated by synapse-operator " && '\n' !in "ingress controller. Do not edit.";
  }

  lemma ConfigV1Printed(c: V1Config)
    ensures ConfigV1(V1Forest(c)) == c
  {
    hide Block, Leaf, Find, AcmeV1, V1HostList, Spell, ReadAcmeV1, ReadHostsV1, Fields;
    var fs := V1Fields(c);
    var ns := V1Forest(c);
    V1FileTable(c);
    FindField(fs, 0, V1FileRank);
    FindField(fs, 1, V1FileRank);
    FindField(fs, 2, V1FileRank);
    AfterHeader(Fields(fs), KInternalPaths);
    AfterHeader(Fields(fs), KStickySessions);
    AfterHeader(Fields(fs), KUpstreams);
    ReadFlag(ns, KStickySessions, if c.sticky then Some(true) else None);
    ReadKids(ns, KUpstreams, V1HostList(c.hosts));
    ReadHostListV1(c.hosts);
    if c.acme != "" {
      ReadKids(ns, KInternalPaths, AcmeV1(c.acme));
      ReadAcmeV1Printed(c.acme);
    } else {
      NoAcmeV1();
    }
  }

  lemma NoAcmeV1()
    ensures ReadAcmeV1([]) == ""
  {}

  /** The v1 reader recovers the whole effective configuration from the text. */
  lemma V1RoundTrip(c: V1Config)
    ensures ReadV1(V1Text(c)) == Some(c)
  {
    hide *;
    V1FileTable(c);
    TableValid(V1Fields(c), V1FileRank);
    HeaderValid(Fields(V1Fields(c)));
    V1TextIsPrinted(c);
    ReadPrinted(V1Forest(c));
    ConfigV1Printed(c);
    ReadV1Is(V1Text(c));
  }

  lemma V1TextIsPrinted(c: V1Config)
    ensures V1Text(c) == Print(V1Forest(c), 0) && V1Forest(c) == [HEADER_NODE] + Fields(V1Fields(c))
  {}

  lemma ReadV1Is(text: string)
    ensures ReadForest(text).Some? ==> ReadV1(text) == Some(ConfigV1(ReadForest(text).value))
  {}

  /** Two models print the same v1 text exactly when they configure the same thing. */
  lemma V1TextExact(m: Model, m': Model)
    ensures V1Text(Effective(m)) == V1Text(Effective(m')) <==> Effective(m) == Effective(m')
  {
    V1RoundTrip(Effective(m));
    V1RoundTrip(Effective(m'));
  }
}
