/** The v1 upstreams schema (renderUpstreams and writeHeaderList in controllers/routes.go): the
    effective configuration of a model, the document that describes it, and the loops that print
    that document from the maps of the model, keys in sorted order. */
module RouteText {
  import opened Wrappers
  import opened Strings
  import opened Sorting
  import opened Layout
  import opened RouteModel
  import opened SchemaWords

  // ---- small documents --------------------------------------------------------

  function Leaf(name: Name, v: Scalar): Node { Node(Entry(Bare(Spell(name)), v), []) }

  function Block(name: Name, kids: seq<Node>): Node { Node(Open(Bare(Spell(name))), kids) }

  function Section(text: string, kids: seq<Node>): Node { Node(Open(Quoted(text)), kids) }

  function Bullet(s: string): Node { Node(Dash(s), []) }

  function Bullets(ss: seq<string>): seq<Node> {
    if ss == [] then [] else Bullets(ss[..|ss| - 1]) + [Bullet(ss[|ss| - 1])]
  }

  /** A field of a block, present or left out. */
  datatype Field = Field(name: Name, node: Option<Node>)

  function NodeOf(f: Field): seq<Node> {
    match f.node
    case Some(n) => [n]
    case None => []
  }

  /** The first n fields, those that are present. */
  function Present(fs: seq<Field>, n: nat): seq<Node>
    requires n <= |fs|
  {
    if n == 0 then [] else Present(fs, n - 1) + NodeOf(fs[n - 1])
  }

  function Fields(fs: seq<Field>): seq<Node> { Present(fs, |fs|) }

  /** The printed form of the first n fields. */
  function Printed(fs: seq<Field>, n: nat, depth: nat): string
    requires n <= |fs|
  {
    if n == 0 then [] else Printed(fs, n - 1, depth) + Print(NodeOf(fs[n - 1]), depth)
  }

  lemma {:induction false} PrintedIsPrint(fs: seq<Field>, n: nat, depth: nat)
    requires n <= |fs|
    ensures Printed(fs, n, depth) == Print(Present(fs, n), depth)
  {
    hide Print;
    if n == 0 {
      PrintNone(depth);
    } else {
      PrintedIsPrint(fs, n - 1, depth);
      PrintAppend(Present(fs, n - 1), NodeOf(fs[n - 1]), depth);
    }
  }

  lemma PrintedFields(fs: seq<Field>, depth: nat)
    ensures Printed(fs, |fs|, depth) == Print(Fields(fs), depth)
  {
    PrintedIsPrint(fs, |fs|, depth);
  }

  lemma PrintedStep(fs: seq<Field>, n: nat, depth: nat)
    requires n < |fs|
    ensures Printed(fs, n + 1, depth) == Printed(fs, n, depth) + Print(NodeOf(fs[n]), depth)
    ensures Printed(fs, 0, depth) == []
  {}

  lemma BlockPrinted(name: Name, kids: seq<Node>, depth: nat)
    ensures Print(NodeOf(Field(name, Some(Block(name, kids)))), depth)
         == Ln(depth, Open(Bare(Spell(name)))) + Print(kids, depth + 1)
  {
    PrintOne(Block(name, kids), depth);
  }

  lemma LeafPrinted(name: Name, v: Scalar, depth: nat)
    ensures Print(NodeOf(Field(name, Some(Leaf(name, v)))), depth) == Ln(depth, Entry(Bare(Spell(name)), v))
  {
    PrintOne(Leaf(name, v), depth);
  }

  function FlagField(name: Name, o: Option<bool>): Field {
    Field(name, match o case Some(b) => Some(Leaf(name, Flag(b))) case None => None)
  }

  function NumField(name: Name, o: Option<nat>): Field {
    Field(name, match o case Some(n) => Some(Leaf(name, Num(n))) case None => None)
  }

  /** A string that is left out when empty. */
  function TextField(name: Name, s: string): Field {
    Field(name, if s != "" then Some(Leaf(name, Str(s))) else None)
  }

  /** A block that is left out when it would be empty. */
  function BlockField(name: Name, kids: seq<Node>): Field {
    Field(name, if kids != [] then Some(Block(name, kids)) else None)
  }

  // ---- the configuration the v1 text describes ----------------------------------

  datatype Redirect = Redirect(status: nat, location: string)

  /** A route as the v1 schema can express it: an unset ssl is false, and a
      redirect needs both its parts. */
  datatype V1Route = V1Route(
    servers: seq<Backend>,
    matchExpr: string,
    ssl: bool,
    http2: Option<bool>,
    forceHttps: Option<bool>,
    healthcheck: Option<bool>,
    disableAccessLog: Option<bool>,
    connectTimeout: Option<nat>,
    readTimeout: Option<nat>,
    writeTimeout: Option<nat>,
    idleTimeout: Option<nat>,
    maxBodySize: Option<nat>,
    redirect: Option<Redirect>,
    reqHeaders: seq<string>,
    respHeaders: seq<string>)

  datatype V1Host = V1Host(cert: string, paths: map<string, V1Route>)

  datatype V1Config = V1Config(sticky: bool, acme: string, hosts: map<string, V1Host>)

  function RedirectOf(rc: RouteCfg): Option<Redirect> {
    if rc.redirectStatus.Some? && rc.redirectLocation != ""
    then Some(Redirect(rc.redirectStatus.value, rc.redirectLocation)) else None
  }

  function EffectiveRoute(rc: RouteCfg): V1Route {
    V1Route(rc.servers, rc.matchExpr, GetOr(rc.ssl, false), rc.http2, rc.forceHttps, rc.healthcheck,
            rc.disableAccessLog, rc.connectTimeout, rc.readTimeout, rc.writeTimeout, rc.idleTimeout,
            rc.maxBodySize, RedirectOf(rc), rc.reqHeaders, rc.respHeaders)
  }

  function CertOf(m: Model, host: string): string {
    if host in m.hostCert then m.hostCert[host] else ""
  }

  function EffectivePaths(paths: map<string, RouteCfg>): map<string, V1Route> {
    map p | p in paths :: EffectiveRoute(paths[p])
  }

  function EffectiveHost(cert: string, paths: map<string, RouteCfg>): V1Host {
    V1Host(cert, EffectivePaths(paths))
  }

  function Effective(m: Model): V1Config {
    V1Config(m.sticky, m.acme, map h | h in m.hosts :: EffectiveHost(CertOf(m, h), m.hosts[h]))
  }

  // ---- the v1 document --------------------------------------------------------

  const HEADER := "Generated by synapse-operator ingress controller. Do not edit."
  const ACME_PATH := "/.well-known/acme-challenge/*"

  function Server(field: Name, b: Backend): Node {
    if b.weight > 0 then Node(DashWeighted(Spell(field), b.addr, b.weight), []) else Bullet(b.addr)
  }

  function Servers(field: Name, bs: seq<Backend>): seq<Node> {
    if bs == [] then [] else Servers(field, bs[..|bs| - 1]) + [Server(field, bs[|bs| - 1])]
  }

  function RedirectField(r: Option<Redirect>): Field {
    Field(KRedirect,
          match r
          case Some(d) => Some(Block(KRedirect, [Leaf(KStatus, Num(d.status)), Leaf(KLocation, Str(d.location))]))
          case None => None)
  }

  function V1RouteFields(r: V1Route): seq<Field> {
    [ Field(KServers, Some(Block(KServers, Servers(KAddress, r.servers)))),
      TextField(KMatchExpr, r.matchExpr),
      Field(KSslEnabled, Some(Leaf(KSslEnabled, Flag(r.ssl)))),
      FlagField(KHttp2Enabled, r.http2),
      FlagField(KHttpsProxyEnabled, r.forceHttps),
      FlagField(KHealthcheck, r.healthcheck),
      FlagField(KDisableAccessLog, r.disableAccessLog),
      NumField(KConnectionTimeout, r.connectTimeout),
      NumField(KReadTimeout, r.readTimeout),
      NumField(KWriteTimeout, r.writeTimeout),
      NumField(KIdleTimeout, r.idleTimeout),
      NumField(KMaxBodySize, r.maxBodySize),
      RedirectField(r.redirect),
      BlockField(KRequestHeaders, Bullets(r.reqHeaders)),
      BlockField(KResponseHeaders, Bullets(r.respHeaders)) ]
  }

  function V1Paths(paths: map<string, V1Route>, keys: seq<string>): seq<Node>
    requires forall k :: k in keys ==> k in paths
  {
    if keys == [] then [] else
      var k := keys[|keys| - 1];
      V1Paths(paths, keys[..|keys| - 1]) + [Section(k, Fields(V1RouteFields(paths[k])))]
  }

  ghost function V1PathList(paths: map<string, V1Route>): seq<Node> {
    SortedKeysMembers(paths.Keys);
    V1Paths(paths, SortedKeys(paths.Keys))
  }

  ghost function V1HostFields(h: V1Host): seq<Field> {
    [ TextField(KCertificate, h.cert),
      Field(KPaths, Some(Block(KPaths, V1PathList(h.paths)))) ]
  }

  ghost function V1Hosts(hosts: map<string, V1Host>, keys: seq<string>): seq<Node>
    requires forall k :: k in keys ==> k in hosts
  {
    if keys == [] then [] else
      var k := keys[|keys| - 1];
      V1Hosts(hosts, keys[..|keys| - 1]) + [Section(k, Fields(V1HostFields(hosts[k])))]
  }

  function AcmeV1(acme: string): seq<Node> {
    [Section(ACME_PATH, [Block(KServers, [Bullet(acme)]), Leaf(KSslEnabled, Flag(false))])]
  }

  function AcmeFieldV1(acme: string): Field {
    Field(KInternalPaths, if acme != "" then Some(Block(KInternalPaths, AcmeV1(acme))) else None)
  }

  function StickyFieldV1(sticky: bool): Field {
    Field(KStickySessions, if sticky then Some(Leaf(KStickySessions, Flag(true))) else None)
  }

  ghost function V1HostList(hosts: map<string, V1Host>): seq<Node> {
    SortedKeysMembers(hosts.Keys);
    V1Hosts(hosts, SortedKeys(hosts.Keys))
  }

  ghost function V1Fields(c: V1Config): seq<Field> {
    [ AcmeFieldV1(c.acme),
      StickyFieldV1(c.sticky),
      Field(KUpstreams, Some(Block(KUpstreams, V1HostList(c.hosts)))) ]
  }

  const HEADER_NODE := Node(Comment(HEADER), [])

  ghost function V1Forest(c: V1Config): seq<Node> {
    [HEADER_NODE] + Fields(V1Fields(c))
  }

  /** The v1 text: a function of the effective configuration alone. */
  ghost function V1Text(c: V1Config): string { Print(V1Forest(c), 0) }

  // ---- printing v1 ----------------------------------------------------------------

  lemma PrintLeaf(n: Node, depth: nat)
    requires n.kids == []
    ensures Print([n], depth) == Ln(depth, n.item)
  {
    PrintOne(n, depth);
  }

  method WriteServers(depth: nat, field: Name, bs: seq<Backend>) returns (b: string)
    ensures b == Print(Servers(field, bs), depth)
  {
    hide Print, Ln;
    PrintNone(depth);
    b := "";
    for i := 0 to |bs|
      invariant b == Print(Servers(field, bs[..i]), depth)
    {
      var sv := bs[i];
      assert bs[..i + 1][..i] == bs[..i];
      PrintAppend(Servers(field, bs[..i]), [Server(field, sv)], depth);
      PrintLeaf(Server(field, sv), depth);
      if sv.weight > 0 {
        b := b + Ln(depth, DashWeighted(Spell(field), sv.addr, sv.weight));
      } else {
        b := b + Ln(depth, Dash(sv.addr));
      }
    }
    assert bs[..|bs|] == bs;
  }

  method WriteBullets(depth: nat, ss: seq<string>) returns (b: string)
    ensures b == Print(Bullets(ss), depth)
  {
    hide Print, Ln;
    PrintNone(depth);
    b := "";
    for i := 0 to |ss|
      invariant b == Print(Bullets(ss[..i]), depth)
    {
      assert ss[..i + 1][..i] == ss[..i];
      PrintAppend(Bullets(ss[..i]), [Bullet(ss[i])], depth);
      PrintLeaf(Bullet(ss[i]), depth);
      b := b + Ln(depth, Dash(ss[i]));
    }
    assert ss[..|ss|] == ss;
  }

  method WriteFlag(depth: nat, name: Name, o: Option<bool>) returns (b: string)
    ensures b == Print(NodeOf(FlagField(name, o)), depth)
  {
    b := "";
    if o.Some? {
      PrintLeaf(Leaf(name, Flag(o.value)), depth);
      b := b + Ln(depth, Entry(Bare(Spell(name)), Flag(o.value)));
    }
  }

  method WriteNum(depth: nat, name: Name, o: Option<nat>) returns (b: string)
    ensures b == Print(NodeOf(NumField(name, o)), depth)
  {
    b := "";
    if o.Some? {
      PrintLeaf(Leaf(name, Num(o.value)), depth);
      b := b + Ln(depth, Entry(Bare(Spell(name)), Num(o.value)));
    }
  }

  method WriteText(depth: nat, name: Name, s: string) returns (b: string)
    ensures b == Print(NodeOf(TextField(name, s)), depth)
  {
    b := "";
    if s != "" {
      PrintLeaf(Leaf(name, Str(s)), depth);
      b := b + Ln(depth, Entry(Bare(Spell(name)), Str(s)));
    }
  }

  /** writeHeaderList. */
  method WriteHeaderList(depth: nat, name: Name, hs: seq<string>) returns (b: string)
    ensures b == Print(NodeOf(BlockField(name, Bullets(hs))), depth)
  {
    hide Print, Ln;
    PrintNone(depth);
    b := "";
    if |hs| == 0 {
      return;
    }
    PrintOne(Block(name, Bullets(hs)), depth);
    b := b + Ln(depth, Open(Bare(Spell(name))));
    var t := WriteBullets(depth + 1, hs);
    b := b + t;
  }

  method WriteRedirect(depth: nat, rc: RouteCfg) returns (b: string)
    ensures b == Print(NodeOf(RedirectField(RedirectOf(rc))), depth)
  {
    hide Print, Ln;
    PrintNone(depth);
    b := "";
    if rc.redirectStatus.Some? && rc.redirectLocation != "" {
      var status, location := Leaf(KStatus, Num(rc.redirectStatus.value)), Leaf(KLocation, Str(rc.redirectLocation));
      PrintOne(Block(KRedirect, [status, location]), depth);
      assert [status, location] == [status] + [location];
      PrintAppend([status], [location], depth + 1);
      PrintLeaf(status, depth + 1);
      PrintLeaf(location, depth + 1);
      b := b + Ln(depth, Open(Bare(Spell(KRedirect))));
      b := b + Ln(depth + 1, Entry(Bare(Spell(KStatus)), Num(rc.redirectStatus.value)));
      b := b + Ln(depth + 1, Entry(Bare(Spell(KLocation)), Str(rc.redirectLocation)));
    }
  }

  lemma V1RouteFieldsAre(r: V1Route)
    ensures var fs := V1RouteFields(r);
      && |fs| == 15
      && fs[0] == Field(KServers, Some(Block(KServers, Servers(KAddress, r.servers))))
      && fs[1] == TextField(KMatchExpr, r.matchExpr)
      && fs[2] == Field(KSslEnabled, Some(Leaf(KSslEnabled, Flag(r.ssl))))
      && fs[3] == FlagField(KHttp2Enabled, r.http2)
      && fs[4] == FlagField(KHttpsProxyEnabled, r.forceHttps)
      && fs[5] == FlagField(KHealthcheck, r.healthcheck)
      && fs[6] == FlagField(KDisableAccessLog, r.disableAccessLog)
      && fs[7] == NumField(KConnectionTimeout, r.connectTimeout)
      && fs[8] == NumField(KReadTimeout, r.readTimeout)
      && fs[9] == NumField(KWriteTimeout, r.writeTimeout)
      && fs[10] == NumField(KIdleTimeout, r.idleTimeout)
      && fs[11] == NumField(KMaxBodySize, r.maxBodySize)
      && fs[12] == RedirectField(r.redirect)
      && fs[13] == BlockField(KRequestHeaders, Bullets(r.reqHeaders))
      && fs[14] == BlockField(KResponseHeaders, Bullets(r.respHeaders))
  {
    hide Servers, Bullets, FlagField, NumField, TextField, BlockField, RedirectField, Leaf, Block;
  }

  lemma EffectiveRouteIs(rc: RouteCfg)
    ensures EffectiveRoute(rc) == V1Route(
      rc.servers, rc.matchExpr, if rc.ssl.Some? then rc.ssl.value else false, rc.http2, rc.forceHttps,
      rc.healthcheck, rc.disableAccessLog, rc.connectTimeout, rc.readTimeout, rc.writeTimeout, rc.idleTimeout,
      rc.maxBodySize, RedirectOf(rc), rc.reqHeaders, rc.respHeaders)
  {}

  method WriteRouteV1(rc: RouteCfg) returns (b: string)
    ensures b == Print(Fields(V1RouteFields(EffectiveRoute(rc))), 4)
  {
    hide *;
    ghost var fs := V1RouteFields(EffectiveRoute(rc));
    V1RouteFieldsAre(EffectiveRoute(rc));
    EffectiveRouteIs(rc);
    BlockPrinted(KServers, Servers(KAddress, rc.servers), 4);
    b := Ln(4, Open(Bare(Spell(KServers))));
    var t := WriteServers(5, KAddress, rc.servers);
    b := b + t;
    PrintedStep(fs, 0, 4);
    assert b == Printed(fs, 1, 4);
    t := WriteText(4, KMatchExpr, rc.matchExpr);
    b := b + t;
    PrintedStep(fs, 1, 4);
    assert b == Printed(fs, 2, 4);
    var ssl := false;
    if rc.ssl.Some? {
      ssl := rc.ssl.value;
    }
    LeafPrinted(KSslEnabled, Flag(ssl), 4);
    b := b + Ln(4, Entry(Bare(Spell(KSslEnabled)), Flag(ssl)));
    PrintedStep(fs, 2, 4);
    assert b == Printed(fs, 3, 4);
    t := WriteFlag(4, KHttp2Enabled, rc.http2);
    b := b + t;
    PrintedStep(fs, 3, 4);
    assert b == Printed(fs, 4, 4);
    t := WriteFlag(4, KHttpsProxyEnabled, rc.forceHttps);
    b := b + t;
    PrintedStep(fs, 4, 4);
    assert b == Printed(fs, 5, 4);
    t := WriteFlag(4, KHealthcheck, rc.healthcheck);
    b := b + t;
    PrintedStep(fs, 5, 4);
    assert b == Printed(fs, 6, 4);
    t := WriteFlag(4, KDisableAccessLog, rc.disableAccessLog);
    b := b + t;
    PrintedStep(fs, 6, 4);
    assert b == Printed(fs, 7, 4);
    t := WriteNum(4, KConnectionTimeout, rc.connectTimeout);
    b := b + t;
    PrintedStep(fs, 7, 4);
    assert b == Printed(fs, 8, 4);
    t := WriteNum(4, KReadTimeout, rc.readTimeout);
    b := b + t;
    PrintedStep(fs, 8, 4);
    assert b == Printed(fs, 9, 4);
    t := WriteNum(4, KWriteTimeout, rc.writeTimeout);
    b := b + t;
    PrintedStep(fs, 9, 4);
    assert b == Printed(fs, 10, 4);
    t := WriteNum(4, KIdleTimeout, rc.idleTimeout);
    b := b + t;
    PrintedStep(fs, 10, 4);
    assert b == Printed(fs, 11, 4);
    t := WriteNum(4, KMaxBodySize, rc.maxBodySize);
    b := b + t;
    PrintedStep(fs, 11, 4);
    assert b == Printed(fs, 12, 4);
    t := WriteRedirect(4, rc);
    b := b + t;
    PrintedStep(fs, 12, 4);
    assert b == Printed(fs, 13, 4);
    t := WriteHeaderList(4, KRequestHeaders, rc.reqHeaders);
    b := b + t;
    PrintedStep(fs, 13, 4);
    assert b == Printed(fs, 14, 4);
    t := WriteHeaderList(4, KResponseHeaders, rc.respHeaders);
    b := b + t;
    PrintedStep(fs, 14, 4);
    assert b == Printed(fs, 15, 4);
    PrintedFields(fs, 4);
  }

  lemma V1PathsSnoc(paths: map<string, V1Route>, keys: seq<string>, i: nat)
    requires i < |keys| && forall k :: k in keys ==> k in paths
    ensures Print(V1Paths(paths, keys[..i + 1]), 3)
         == Print(V1Paths(paths, keys[..i]), 3)
            + (Ln(3, Open(Quoted(keys[i]))) + Print(Fields(V1RouteFields(paths[keys[i]])), 4))
  {
    hide Print, Ln, V1RouteFields, Fields;
    assert keys[..i + 1][..i] == keys[..i];
    SectionPrinted(V1Paths(paths, keys[..i]), keys[i], Fields(V1RouteFields(paths[keys[i]])), 3);
  }

  method WritePathsV1(paths: map<string, RouteCfg>) returns (b: string)
    ensures b == Print(V1PathList(EffectivePaths(paths)), 3)
  {
    hide Print, Ln, V1Paths, EffectiveRoute, V1RouteFields, Fields;
    ghost var effective := EffectivePaths(paths);
    assert effective.Keys == paths.Keys;
    var keys := KeysInOrder(paths.Keys);
    SortedKeysMembers(paths.Keys);
    V1PathsNone(effective);
    b := "";
    for i := 0 to |keys|
      invariant b == Print(V1Paths(effective, keys[..i]), 3)
    {
      var t := WriteRouteV1(paths[keys[i]]);
      V1PathsSnoc(effective, keys, i);
      b := b + (Ln(3, Open(Quoted(keys[i]))) + t);
    }
    assert keys[..|keys|] == keys;
  }

  lemma V1PathsNone(paths: map<string, V1Route>)
    ensures Print(V1Paths(paths, []), 3) == []
  {}

  method WriteHostV1(cert: string, paths: map<string, RouteCfg>) returns (b: string)
    ensures b == Print(Fields(V1HostFields(EffectiveHost(cert, paths))), 2)
  {
    hide Print, Ln, Printed, NodeOf, V1PathList, EffectivePaths;
    ghost var fs := V1HostFields(EffectiveHost(cert, paths));
    b := WriteText(2, KCertificate, cert);
    PrintedStep(fs, 0, 2);
    var t := WritePathsV1(paths);
    BlockPrinted(KPaths, V1PathList(EffectivePaths(paths)), 2);
    b := b + (Ln(2, Open(Bare(Spell(KPaths)))) + t);
    PrintedStep(fs, 1, 2);
    PrintedFields(fs, 2);
  }

  lemma SectionPrinted(before: seq<Node>, text: string, kids: seq<Node>, depth: nat)
    ensures Print(before + [Section(text, kids)], depth)
         == Print(before, depth) + (Ln(depth, Open(Quoted(text))) + Print(kids, depth + 1))
  {
    PrintAppend(before, [Section(text, kids)], depth);
    PrintOne(Section(text, kids), depth);
  }

  lemma AcmeV1Printed(acme: string)
    ensures Print(AcmeV1(acme), 1)
         == Ln(1, Open(Quoted(ACME_PATH)))
            + (Ln(2, Open(Bare(Spell(KServers)))) + Ln(3, Dash(acme))
               + Ln(2, Entry(Bare(Spell(KSslEnabled)), Flag(false))))
  {
    hide Print, Ln;
    var servers, ssl := Block(KServers, [Bullet(acme)]), Leaf(KSslEnabled, Flag(false));
    PrintOne(Section(ACME_PATH, [servers, ssl]), 1);
    assert [servers, ssl] == [servers] + [ssl];
    PrintAppend([servers], [ssl], 2);
    PrintOne(servers, 2);
    PrintLeaf(Bullet(acme), 3);
    PrintLeaf(ssl, 2);
  }

  method WriteAcmeV1(acme: string) returns (b: string)
    ensures b == Print(NodeOf(AcmeFieldV1(acme)), 0)
  {
    hide Print, Ln, AcmeV1;
    b := "";
    PrintNone(0);
    if acme != "" {
      BlockPrinted(KInternalPaths, AcmeV1(acme), 0);
      AcmeV1Printed(acme);
      b := Ln(0, Open(Bare(Spell(KInternalPaths))));
      b := b + (Ln(1, Open(Quoted(ACME_PATH)))
                + (Ln(2, Open(Bare(Spell(KServers)))) + Ln(3, Dash(acme))
                   + Ln(2, Entry(Bare(Spell(KSslEnabled)), Flag(false)))));
    }
  }

  method WriteStickyV1(sticky: bool) returns (b: string)
    ensures b == Print(NodeOf(StickyFieldV1(sticky)), 0)
  {
    hide Print, Ln;
    b := "";
    PrintNone(0);
    if sticky {
      LeafPrinted(KStickySessions, Flag(true), 0);
      b := Ln(0, Entry(Bare(Spell(KStickySessions)), Flag(true)));
    }
  }

  lemma V1HostsSnoc(hosts: map<string, V1Host>, keys: seq<string>, i: nat)
    requires i < |keys| && forall k :: k in keys ==> k in hosts
    ensures Print(V1Hosts(hosts, keys[..i + 1]), 1)
         == Print(V1Hosts(hosts, keys[..i]), 1)
            + (Ln(1, Open(Quoted(keys[i]))) + Print(Fields(V1HostFields(hosts[keys[i]])), 2))
  {
    hide Print, Ln, V1HostFields, Fields;
    assert keys[..i + 1][..i] == keys[..i];
    SectionPrinted(V1Hosts(hosts, keys[..i]), keys[i], Fields(V1HostFields(hosts[keys[i]])), 1);
  }

  lemma V1HostsNone(hosts: map<string, V1Host>)
    ensures Print(V1Hosts(hosts, []), 1) == []
  {}

  method WriteHostsV1(m: RenderModel) returns (b: string)
    ensures b == Print(V1HostList(Effective(m.Snapshot()).hosts), 1)
  {
    hide Print, Ln, V1HostFields, Fields, V1Hosts, EffectiveHost;
    ghost var hosts := Effective(m.Snapshot()).hosts;
    assert hosts.Keys == m.hosts.Keys;
    var keys := KeysInOrder(m.hosts.Keys);
    SortedKeysMembers(m.hosts.Keys);
    V1HostsNone(hosts);
    b := "";
    for i := 0 to |keys|
      invariant b == Print(V1Hosts(hosts, keys[..i]), 1)
    {
      var h := keys[i];
      var cert := if h in m.hostCert then m.hostCert[h] else "";
      var t := WriteHostV1(cert, m.hosts[h]);
      V1HostsSnoc(hosts, keys, i);
      b := b + (Ln(1, Open(Quoted(h))) + t);
    }
    assert keys[..|keys|] == keys;
  }

  /** renderUpstreams. */
  method RenderUpstreams(m: RenderModel) returns (b: string)
    ensures b == V1Text(Effective(m.Snapshot()))
  {
    hide Print, Ln, Printed, NodeOf, AcmeFieldV1, StickyFieldV1, V1HostList, Effective;
    ghost var c := Effective(m.Snapshot());
    ghost var fs := V1Fields(c);
    EffectiveParts(m.Snapshot());
    b := WriteAcmeV1(m.acme);
    PrintedStep(fs, 0, 0);
    var t := WriteStickyV1(m.sticky);
    b := b + t;
    PrintedStep(fs, 1, 0);
    t := WriteHostsV1(m);
    BlockPrinted(KUpstreams, V1HostList(c.hosts), 0);
    b := b + (Ln(0, Open(Bare(Spell(KUpstreams)))) + t);
    PrintedStep(fs, 2, 0);
    PrintedFields(fs, 0);
    PrintAppend([HEADER_NODE], Fields(fs), 0);
    PrintLeaf(HEADER_NODE, 0);
    b := Ln(0, Comment(HEADER)) + b;
  }

  lemma EffectiveParts(m: Model)
    ensures Effective(m).acme == m.acme && Effective(m).sticky == m.sticky
  {}
}
