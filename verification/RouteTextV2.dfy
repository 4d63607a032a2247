/** The v2 upstreams schema (renderUpstreamsV2 and writeRouteV2 in controllers/routes.go): the
    document for a model, and the loops that print it. One section per host, terminated or passed
    through, and every per-route option that v1 has. */
module RouteTextV2 {
  import opened Wrappers
  import opened Strings
  import opened Sorting
  import opened Layout
  import opened RouteModel
  import opened SchemaWords
  import opened RouteText

  // ---- the document -----------------------------------------------------------

  predicate IsTrue(o: Option<bool>) { o.Some? && o.value }

  predicate SinglePlain(bs: seq<Backend>) { |bs| == 1 && bs[0].weight == 0 }

  function UpstreamField(bs: seq<Backend>): Field {
    Field(KUpstream, if SinglePlain(bs) then Some(Leaf(KUpstream, Str(bs[0].addr))) else None)
  }

  function UpstreamsField(bs: seq<Backend>): Field {
    Field(KUpstreams, if SinglePlain(bs) then None else Some(Block(KUpstreams, Servers(KAddr, bs))))
  }

  function ForceHttpsField(o: Option<bool>): Field {
    Field(KForceHttps, if IsTrue(o) then Some(Leaf(KForceHttps, Flag(true))) else None)
  }

  function HealthCheckField(o: Option<bool>): Field {
    Field(KHealthCheck, if IsTrue(o) then Some(Block(KHealthCheck, [Leaf(KType, Word("tcp"))])) else None)
  }

  function TimeoutFields(rc: RouteCfg): seq<Field> {
    [ NumField(KConnect, rc.connectTimeout), NumField(KRead, rc.readTimeout),
      NumField(KWrite, rc.writeTimeout), NumField(KIdle, rc.idleTimeout) ]
  }

  function HeaderFields(rc: RouteCfg): seq<Field> {
    [ BlockField(KRequest, Bullets(rc.reqHeaders)), BlockField(KResponse, Bullets(rc.respHeaders)) ]
  }

  function V2RouteFields(rc: RouteCfg): seq<Field> {
    [ UpstreamField(rc.servers),
      UpstreamsField(rc.servers),
      TextField(KMatchExpr, rc.matchExpr),
      FlagField(KSslEnabled, rc.ssl),
      FlagField(KHttp2Enabled, rc.http2),
      ForceHttpsField(rc.forceHttps),
      HealthCheckField(rc.healthcheck),
      FlagField(KDisableAccessLog, rc.disableAccessLog),
      NumField(KMaxBodySize, rc.maxBodySize),
      RedirectField(RedirectOf(rc)),
      BlockField(KTimeouts, Fields(TimeoutFields(rc))),
      BlockField(KHeaders, Fields(HeaderFields(rc))) ]
  }

  function V2Paths(paths: map<string, RouteCfg>, keys: seq<string>): seq<Node>
    requires forall k :: k in keys ==> k in paths
  {
    if keys == [] then [] else
      var k := keys[|keys| - 1];
      V2Paths(paths, keys[..|keys| - 1]) + [Section(k, Fields(V2RouteFields(paths[k])))]
  }

  ghost function V2PathList(paths: map<string, RouteCfg>): seq<Node> {
    SortedKeysMembers(paths.Keys);
    V2Paths(paths, SortedKeys(paths.Keys))
  }

  function PassthroughFields(upstream: string): seq<Field> {
    [ Field(KTls, Some(Block(KTls, [Leaf(KPassthrough, Flag(true))]))),
      Field(KUpstream, Some(Leaf(KUpstream, Str(upstream)))) ]
  }

  ghost function TerminateFields(cert: string, paths: map<string, RouteCfg>): seq<Field> {
    [ Field(KTls, Some(Block(KTls, [Block(KTerminate, NodeOf(TextField(KCert, cert)))]))),
      Field(KPaths, Some(Block(KPaths, V2PathList(paths)))) ]
  }

  predicate IsHost(m: Model, h: string) { h in m.hosts || h in m.passthroughHosts }

  /** Passthrough is looked up first, as in the loop. */
  ghost function V2HostFields(m: Model, h: string): seq<Field>
    requires IsHost(m, h)
  {
    if h in m.passthroughHosts then PassthroughFields(m.passthroughHosts[h])
    else TerminateFields(CertOf(m, h), m.hosts[h])
  }

  ghost function V2Hosts(m: Model, keys: seq<string>): seq<Node>
    requires forall k :: k in keys ==> IsHost(m, k)
  {
    if keys == [] then [] else
      var k := keys[|keys| - 1];
      V2Hosts(m, keys[..|keys| - 1]) + [Section(k, Fields(V2HostFields(m, k)))]
  }

  /** Every host once, in order. */
  ghost function V2HostList(m: Model): seq<Node> {
    var hosts := m.hosts.Keys + m.passthroughHosts.Keys;
    SortedKeysMembers(hosts);
    V2Hosts(m, SortedKeys(hosts))
  }

  lemma {:induction false} HostsInOrder(m: Model, keys: seq<string>)
    requires forall k :: k in keys ==> IsHost(m, k)
    ensures |V2Hosts(m, keys)| == |keys|
    ensures forall i :: 0 <= i < |keys| ==> V2Hosts(m, keys)[i].item == Open(Quoted(keys[i]))
  {
    hide V2HostFields, Fields;
    if keys == [] {
    } else {
      HostsInOrder(m, keys[..|keys| - 1]);
    }
  }

  /** A valid model's v2 file has one section per terminated or passed-through host,
      and no host twice. */
  lemma EachHostOnce(m: Model)
    requires ValidModel(m)
    ensures |V2HostList(m)| == |m.hosts| + |m.passthroughHosts|
    ensures forall i :: 0 <= i < |V2HostList(m)| ==>
      V2HostList(m)[i].item.Open? && V2HostList(m)[i].item.k.Quoted? && IsHost(m, V2HostList(m)[i].item.k.text)
    ensures forall i, j :: 0 <= i < j < |V2HostList(m)| ==> V2HostList(m)[i].item != V2HostList(m)[j].item
  {
    hide V2Hosts;
    var hosts := m.hosts.Keys + m.passthroughHosts.Keys;
    SortedKeysMembers(hosts);
    HostsInOrder(m, SortedKeys(hosts));
    assert |hosts| == |m.hosts.Keys| + |m.passthroughHosts.Keys|;
  }

  function StickyFieldV2(sticky: bool): Field {
    Field(KProxy, if sticky then Some(Block(KProxy, [Block(KStickySessions, [Leaf(KEnabled, Flag(true))])])) else None)
  }

  function AcmeFieldV2(acme: string): Field {
    Field(KInternal,
          if acme != "" then
            Some(Block(KInternal, [Node(DashEntry(Spell(KPath), Str(ACME_PATH)), [Leaf(KUpstream, Str(acme))])]))
          else None)
  }

  ghost function V2Fields(m: Model): seq<Field> {
    [ Field(KVersion, Some(Leaf(KVersion, Num(2)))),
      StickyFieldV2(m.sticky),
      AcmeFieldV2(m.acme),
      BlockField(KHosts, V2HostList(m)) ]
  }

  ghost function V2Forest(m: Model): seq<Node> { [HEADER_NODE] + Fields(V2Fields(m)) }

  ghost function V2Text(m: Model): string { Print(V2Forest(m), 0) }

  // ---- printing one route -------------------------------------------------------

  method WriteUpstream(bs: seq<Backend>) returns (b: string)
    ensures b == Print(NodeOf(UpstreamField(bs)), 4) + Print(NodeOf(UpstreamsField(bs)), 4)
  {
    hide Print, Ln, Servers;
    PrintNone(4);
    if |bs| == 1 && bs[0].weight == 0 {
      LeafPrinted(KUpstream, Str(bs[0].addr), 4);
      b := Ln(4, Entry(Bare(Spell(KUpstream)), Str(bs[0].addr)));
    } else {
      BlockPrinted(KUpstreams, Servers(KAddr, bs), 4);
      var t := WriteServers(5, KAddr, bs);
      b := Ln(4, Open(Bare(Spell(KUpstreams)))) + t;
    }
  }

  method WriteForceHttps(o: Option<bool>) returns (b: string)
    ensures b == Print(NodeOf(ForceHttpsField(o)), 4)
  {
    hide Print, Ln;
    PrintNone(4);
    b := "";
    if o.Some? && o.value {
      LeafPrinted(KForceHttps, Flag(true), 4);
      b := Ln(4, Entry(Bare(Spell(KForceHttps)), Flag(true)));
    }
  }

  method WriteHealthCheck(o: Option<bool>) returns (b: string)
    ensures b == Print(NodeOf(HealthCheckField(o)), 4)
  {
    hide Print, Ln;
    PrintNone(4);
    b := "";
    if o.Some? && o.value {
      BlockPrinted(KHealthCheck, [Leaf(KType, Word("tcp"))], 4);
      PrintLeaf(Leaf(KType, Word("tcp")), 5);
      b := Ln(4, Open(Bare(Spell(KHealthCheck)))) + Ln(5, Entry(Bare(Spell(KType)), Word("tcp")));
    }
  }

  lemma TimeoutsAbsent(rc: RouteCfg)
    ensures Fields(TimeoutFields(rc)) == [] <==>
      rc.connectTimeout.None? && rc.readTimeout.None? && rc.writeTimeout.None? && rc.idleTimeout.None?
  {
    var fs := TimeoutFields(rc);
    assert Present(fs, 4) == Present(fs, 3) + NodeOf(fs[3]);
    assert Present(fs, 3) == Present(fs, 2) + NodeOf(fs[2]);
    assert Present(fs, 2) == Present(fs, 1) + NodeOf(fs[1]);
    assert Present(fs, 1) == Present(fs, 0) + NodeOf(fs[0]);
  }

  lemma TimeoutFieldsAre(rc: RouteCfg)
    ensures var fs := TimeoutFields(rc);
      && |fs| == 4
      && fs[0] == NumField(KConnect, rc.connectTimeout) && fs[1] == NumField(KRead, rc.readTimeout)
      && fs[2] == NumField(KWrite, rc.writeTimeout) && fs[3] == NumField(KIdle, rc.idleTimeout)
  {
    hide NumField;
  }

  method WriteTimeouts(rc: RouteCfg) returns (b: string)
    ensures b == Print(NodeOf(BlockField(KTimeouts, Fields(TimeoutFields(rc)))), 4)
  {
    TimeoutsAbsent(rc);
    TimeoutFieldsAre(rc);
    hide Print, Ln, Printed, Fields, NumField, Spell, TimeoutFields;
    PrintNone(4);
    b := "";
    if rc.connectTimeout.Some? || rc.readTimeout.Some? || rc.writeTimeout.Some? || rc.idleTimeout.Some? {
      ghost var fs := TimeoutFields(rc);
      BlockPrinted(KTimeouts, Fields(fs), 4);
      b := WriteNum(5, KConnect, rc.connectTimeout);
      PrintedStep(fs, 0, 5);
      var t := WriteNum(5, KRead, rc.readTimeout);
      b := b + t;
      PrintedStep(fs, 1, 5);
      t := WriteNum(5, KWrite, rc.writeTimeout);
      b := b + t;
      PrintedStep(fs, 2, 5);
      t := WriteNum(5, KIdle, rc.idleTimeout);
      b := b + t;
      PrintedStep(fs, 3, 5);
      PrintedFields(fs, 5);
      b := Ln(4, Open(Bare(Spell(KTimeouts)))) + b;
    }
  }

  lemma HeadersAbsent(rc: RouteCfg)
    ensures Fields(HeaderFields(rc)) == [] <==> rc.reqHeaders == [] && rc.respHeaders == []
  {
    var fs := HeaderFields(rc);
    assert Present(fs, 2) == Present(fs, 1) + NodeOf(fs[1]);
    assert Present(fs, 1) == Present(fs, 0) + NodeOf(fs[0]);
  }

  lemma HeaderFieldsAre(rc: RouteCfg)
    ensures var fs := HeaderFields(rc);
      && |fs| == 2
      && fs[0] == BlockField(KRequest, Bullets(rc.reqHeaders))
      && fs[1] == BlockField(KResponse, Bullets(rc.respHeaders))
  {
    hide BlockField, Bullets;
  }

  method WriteHeaders(rc: RouteCfg) returns (b: string)
    ensures b == Print(NodeOf(BlockField(KHeaders, Fields(HeaderFields(rc)))), 4)
  {
    HeadersAbsent(rc);
    HeaderFieldsAre(rc);
    hide Print, Ln, Printed, Fields, Bullets, Spell, HeaderFields;
    PrintNone(4);
    b := "";
    if |rc.reqHeaders| > 0 || |rc.respHeaders| > 0 {
      ghost var fs := HeaderFields(rc);
      BlockPrinted(KHeaders, Fields(fs), 4);
      b := WriteHeaderList(5, KRequest, rc.reqHeaders);
      PrintedStep(fs, 0, 5);
      var t := WriteHeaderList(5, KResponse, rc.respHeaders);
      b := b + t;
      PrintedStep(fs, 1, 5);
      PrintedFields(fs, 5);
      b := Ln(4, Open(Bare(Spell(KHeaders)))) + b;
    }
  }

  lemma V2RouteFieldsAre(rc: RouteCfg)
    ensures var fs := V2RouteFields(rc);
      && |fs| == 12
      && fs[0] == UpstreamField(rc.servers)
      && fs[1] == UpstreamsField(rc.servers)
      && fs[2] == TextField(KMatchExpr, rc.matchExpr)
      && fs[3] == FlagField(KSslEnabled, rc.ssl)
      && fs[4] == FlagField(KHttp2Enabled, rc.http2)
      && fs[5] == ForceHttpsField(rc.forceHttps)
      && fs[6] == HealthCheckField(rc.healthcheck)
      && fs[7] == FlagField(KDisableAccessLog, rc.disableAccessLog)
      && fs[8] == NumField(KMaxBodySize, rc.maxBodySize)
      && fs[9] == RedirectField(RedirectOf(rc))
      && fs[10] == BlockField(KTimeouts, Fields(TimeoutFields(rc)))
      && fs[11] == BlockField(KHeaders, Fields(HeaderFields(rc)))
  {
    hide UpstreamField, UpstreamsField, TextField, FlagField, ForceHttpsField, HealthCheckField,
      NumField, RedirectField, RedirectOf, BlockField, Fields, TimeoutFields, HeaderFields;
  }

  /** writeRouteV2. */
  method WriteRouteV2(rc: RouteCfg) returns (b: string)
    ensures b == Print(Fields(V2RouteFields(rc)), 4)
  {
    hide *;
    ghost var fs := V2RouteFields(rc);
    V2RouteFieldsAre(rc);
    b := WriteUpstream(rc.servers);
    PrintedStep(fs, 0, 4);
    PrintedStep(fs, 1, 4);
    assert b == Printed(fs, 2, 4);
    var t := WriteText(4, KMatchExpr, rc.matchExpr);
    b := b + t;
    PrintedStep(fs, 2, 4);
    assert b == Printed(fs, 3, 4);
    t := WriteFlag(4, KSslEnabled, rc.ssl);
    b := b + t;
    PrintedStep(fs, 3, 4);
    assert b == Printed(fs, 4, 4);
    t := WriteFlag(4, KHttp2Enabled, rc.http2);
    b := b + t;
    PrintedStep(fs, 4, 4);
    assert b == Printed(fs, 5, 4);
    t := WriteForceHttps(rc.forceHttps);
    b := b + t;
    PrintedStep(fs, 5, 4);
    assert b == Printed(fs, 6, 4);
    t := WriteHealthCheck(rc.healthcheck);
    b := b + t;
    PrintedStep(fs, 6, 4);
    assert b == Printed(fs, 7, 4);
    t := WriteFlag(4, KDisableAccessLog, rc.disableAccessLog);
    b := b + t;
    PrintedStep(fs, 7, 4);
    assert b == Printed(fs, 8, 4);
    t := WriteNum(4, KMaxBodySize, rc.maxBodySize);
    b := b + t;
    PrintedStep(fs, 8, 4);
    assert b == Printed(fs, 9, 4);
    t := WriteRedirect(4, rc);
    b := b + t;
    PrintedStep(fs, 9, 4);
    assert b == Printed(fs, 10, 4);
    t := WriteTimeouts(rc);
    b := b + t;
    PrintedStep(fs, 10, 4);
    assert b == Printed(fs, 11, 4);
    t := WriteHeaders(rc);
    b := b + t;
    PrintedStep(fs, 11, 4);
    assert b == Printed(fs, 12, 4);
    PrintedFields(fs, 4);
  }

  // ---- printing hosts and the file ----------------------------------------------

  lemma V2PathsSnoc(paths: map<string, RouteCfg>, keys: seq<string>, i: nat)
    requires i < |keys| && forall k :: k in keys ==> k in paths
    ensures Print(V2Paths(paths, keys[..i + 1]), 3)
         == Print(V2Paths(paths, keys[..i]), 3)
            + (Ln(3, Open(Quoted(keys[i]))) + Print(Fields(V2RouteFields(paths[keys[i]])), 4))
  {
    hide Print, Ln, V2RouteFields, Fields;
    assert keys[..i + 1][..i] == keys[..i];
    SectionPrinted(V2Paths(paths, keys[..i]), keys[i], Fields(V2RouteFields(paths[keys[i]])), 3);
  }

  lemma V2PathsNone(paths: map<string, RouteCfg>)
    ensures Print(V2Paths(paths, []), 3) == []
  {}

  method WritePathsV2(paths: map<string, RouteCfg>) returns (b: string)
    ensures b == Print(V2PathList(paths), 3)
  {
    hide Print, Ln, V2Paths, V2RouteFields, Fields;
    var keys := KeysInOrder(paths.Keys);
    SortedKeysMembers(paths.Keys);
    V2PathsNone(paths);
    b := "";
    for i := 0 to |keys|
      invariant b == Print(V2Paths(paths, keys[..i]), 3)
    {
      var t := WriteRouteV2(paths[keys[i]]);
      V2PathsSnoc(paths, keys, i);
      b := b + (Ln(3, Open(Quoted(keys[i]))) + t);
    }
    assert keys[..|keys|] == keys;
  }

  method WritePassthroughHost(upstream: string) returns (b: string)
    ensures b == Print(Fields(PassthroughFields(upstream)), 2)
  {
    hide Print, Ln, Printed, NodeOf, Present;
    ghost var fs := PassthroughFields(upstream);
    BlockPrinted(KTls, [Leaf(KPassthrough, Flag(true))], 2);
    PrintLeaf(Leaf(KPassthrough, Flag(true)), 3);
    b := Ln(2, Open(Bare(Spell(KTls)))) + Ln(3, Entry(Bare(Spell(KPassthrough)), Flag(true)));
    PrintedStep(fs, 0, 2);
    LeafPrinted(KUpstream, Str(upstream), 2);
    b := b + Ln(2, Entry(Bare(Spell(KUpstream)), Str(upstream)));
    PrintedStep(fs, 1, 2);
    PrintedFields(fs, 2);
  }

  method WriteTerminateHost(cert: string, paths: map<string, RouteCfg>) returns (b: string)
    ensures b == Print(Fields(TerminateFields(cert, paths)), 2)
  {
    hide Print, Ln, Printed, NodeOf, Present, V2PathList;
    ghost var fs := TerminateFields(cert, paths);
    ghost var terminate := Block(KTerminate, NodeOf(TextField(KCert, cert)));
    BlockPrinted(KTls, [terminate], 2);
    PrintOne(terminate, 3);
    var t := WriteText(4, KCert, cert);
    b := Ln(2, Open(Bare(Spell(KTls)))) + (Ln(3, Open(Bare(Spell(KTerminate)))) + t);
    PrintedStep(fs, 0, 2);
    t := WritePathsV2(paths);
    BlockPrinted(KPaths, V2PathList(paths), 2);
    b := b + (Ln(2, Open(Bare(Spell(KPaths)))) + t);
    PrintedStep(fs, 1, 2);
    PrintedFields(fs, 2);
  }

  lemma V2HostsSnoc(m: Model, keys: seq<string>, i: nat)
    requires i < |keys| && forall k :: k in keys ==> IsHost(m, k)
    ensures Print(V2Hosts(m, keys[..i + 1]), 1)
         == Print(V2Hosts(m, keys[..i]), 1)
            + (Ln(1, Open(Quoted(keys[i]))) + Print(Fields(V2HostFields(m, keys[i])), 2))
  {
    hide Print, Ln, V2HostFields, Fields;
    assert keys[..i + 1][..i] == keys[..i];
    SectionPrinted(V2Hosts(m, keys[..i]), keys[i], Fields(V2HostFields(m, keys[i])), 1);
  }

  lemma V2HostsNone(m: Model)
    ensures Print(V2Hosts(m, []), 1) == []
  {}

  lemma V2HostListEmpty(m: Model)
    ensures V2HostList(m) == [] <==> m.hosts.Keys + m.passthroughHosts.Keys == {}
  {
    var hosts := m.hosts.Keys + m.passthroughHosts.Keys;
    SortedKeysMembers(hosts);
    assert |SortedKeys(hosts)| == |hosts|;
  }

  /** The keys of both maps, one after the other: duplicate-free because the maps
      of a valid model share no host. */
  method HostKeys(m: RenderModel) returns (keys: seq<string>)
    requires m.Valid()
    ensures keys == SortedKeys(m.hosts.Keys + m.passthroughHosts.Keys)
    ensures forall k :: k in keys ==> IsHost(m.Snapshot(), k)
    ensures V2HostList(m.Snapshot()) == V2Hosts(m.Snapshot(), keys)
    ensures keys == [] <==> V2HostList(m.Snapshot()) == []
  {
    keys := CollectKeys(m.hosts.Keys);
    var more := CollectKeys(m.passthroughHosts.Keys);
    keys := keys + more;
    SortedKeysUnique(keys, m.hosts.Keys + m.passthroughHosts.Keys);
    keys := SortStrings(keys);
    SortedKeysMembers(m.hosts.Keys + m.passthroughHosts.Keys);
    V2HostListEmpty(m.Snapshot());
  }

  method WriteHostV2(m: RenderModel, h: string) returns (b: string)
    requires IsHost(m.Snapshot(), h)
    ensures b == Print(Fields(V2HostFields(m.Snapshot(), h)), 2)
  {
    hide Print, TerminateFields, PassthroughFields, Fields;
    if h in m.passthroughHosts {
      b := WritePassthroughHost(m.passthroughHosts[h]);
    } else {
      b := WriteTerminateHost(if h in m.hostCert then m.hostCert[h] else "", m.hosts[h]);
    }
  }

  method WriteHostsV2(m: RenderModel, keys: seq<string>) returns (b: string)
    requires forall k :: k in keys ==> IsHost(m.Snapshot(), k)
    ensures b == Print(V2Hosts(m.Snapshot(), keys), 1)
  {
    hide *;
    ghost var model := m.Snapshot();
    V2HostsNone(model);
    b := "";
    for i := 0 to |keys|
      invariant b == Print(V2Hosts(model, keys[..i]), 1)
    {
      var t := WriteHostV2(m, keys[i]);
      V2HostsSnoc(model, keys, i);
      b := b + (Ln(1, Open(Quoted(keys[i]))) + t);
    }
    assert keys[..|keys|] == keys;
  }

  method WriteStickyV2(sticky: bool) returns (b: string)
    ensures b == Print(NodeOf(StickyFieldV2(sticky)), 0)
  {
    hide Print, Ln;
    PrintNone(0);
    b := "";
    if sticky {
      var enabled := Leaf(KEnabled, Flag(true));
      BlockPrinted(KProxy, [Block(KStickySessions, [enabled])], 0);
      PrintOne(Block(KStickySessions, [enabled]), 1);
      PrintLeaf(enabled, 2);
      b := Ln(0, Open(Bare(Spell(KProxy))))
         + (Ln(1, Open(Bare(Spell(KStickySessions)))) + Ln(2, Entry(Bare(Spell(KEnabled)), Flag(true))));
    }
  }

  method WriteAcmeV2(acme: string) returns (b: string)
    ensures b == Print(NodeOf(AcmeFieldV2(acme)), 0)
  {
    hide Print, Ln;
    PrintNone(0);
    b := "";
    if acme != "" {
      var path, upstream := DashEntry(Spell(KPath), Str(ACME_PATH)), Leaf(KUpstream, Str(acme));
      BlockPrinted(KInternal, [Node(path, [upstream])], 0);
      PrintOne(Node(path, [upstream]), 1);
      PrintLeaf(upstream, 2);
      b := Ln(0, Open(Bare(Spell(KInternal)))) + (Ln(1, path) + Ln(2, Entry(Bare(Spell(KUpstream)), Str(acme))));
    }
  }

  lemma V2FieldsAre(m: Model)
    ensures var fs := V2Fields(m);
      && |fs| == 4
      && fs[0] == Field(KVersion, Some(Leaf(KVersion, Num(2))))
      && fs[1] == StickyFieldV2(m.sticky)
      && fs[2] == AcmeFieldV2(m.acme)
      && fs[3] == BlockField(KHosts, V2HostList(m))
  {}

  lemma V2TextIs(m: Model)
    ensures V2Text(m) == Ln(0, Comment(HEADER)) + Print(Fields(V2Fields(m)), 0)
  {
    PrintAppend([HEADER_NODE], Fields(V2Fields(m)), 0);
    PrintLeaf(HEADER_NODE, 0);
  }

  /** renderUpstreamsV2. */
  method RenderUpstreamsV2(m: RenderModel) returns (b: string)
    requires m.Valid()
    ensures b == V2Text(m.Snapshot())
  {
    hide *;
    ghost var model := m.Snapshot();
    SnapshotIs(m);
    ghost var fs := V2Fields(model);
    V2FieldsAre(model);
    LeafPrinted(KVersion, Num(2), 0);
    b := Ln(0, Entry(Bare(Spell(KVersion)), Num(2)));
    PrintedStep(fs, 0, 0);
    assert b == Printed(fs, 1, 0);
    var t := WriteStickyV2(m.sticky);
    b := b + t;
    PrintedStep(fs, 1, 0);
    assert b == Printed(fs, 2, 0);
    t := WriteAcmeV2(m.acme);
    b := b + t;
    PrintedStep(fs, 2, 0);
    assert b == Printed(fs, 3, 0);
    PrintedStep(fs, 3, 0);
    PrintedFields(fs, 0);
    V2TextIs(model);
    HostsFieldPrinted(V2HostList(model));
    var keys := HostKeys(m);
    if |keys| == 0 {
      return Ln(0, Comment(HEADER)) + b;
    }
    t := WriteHostsV2(m, keys);
    b := b + (Ln(0, Open(Bare(Spell(KHosts)))) + t);
    assert b == Printed(fs, 4, 0);
    b := Ln(0, Comment(HEADER)) + b;
  }

  lemma SnapshotIs(m: RenderModel)
    ensures m.Snapshot().sticky == m.sticky && m.Snapshot().acme == m.acme
  {}

  lemma HostsFieldPrinted(hosts: seq<Node>)
    ensures Print(NodeOf(BlockField(KHosts, hosts)), 0) ==
            if hosts == [] then [] else Ln(0, Open(Bare(Spell(KHosts)))) + Print(hosts, 1)
  {
    hide Ln;
    if hosts != [] { BlockPrinted(KHosts, hosts, 0); }
  }
}
