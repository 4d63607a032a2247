/** The two upstreams files, written out (controllers/routes.go). */
module UpstreamsText {
  // The text of either schema line by line, with its words, indentation and order as literals, and
  // every option taken from the model's own field: what the printers produce, for every model.

  import opened Wrappers
  import opened Strings
  import opened Sorting
  import opened RouteModel
  import opened SchemaWords
  import Layout
  import V1 = RouteText
  import V2 = RouteTextV2

  // ---- lines ------------------------------------------------------------------------------

  function Indent(depth: nat): string
    requires depth <= 6
  {
    match depth
    case 0 => ""
    case 1 => "  "
    case 2 => "    "
    case 3 => "      "
    case 4 => "        "
    case 5 => "          "
    case 6 => "            "
  }

  function Open(depth: nat, key: string): string
    requires depth <= 6
  {
    Indent(depth) + (key + ":") + "\n"
  }

  function Pair(depth: nat, key: string, value: string): string
    requires depth <= 6
  {
    Indent(depth) + (key + (": " + value)) + "\n"
  }

  function Item(depth: nat, value: string): string
    requires depth <= 6
  {
    Indent(depth) + ("- " + value) + "\n"
  }

  function Q(s: string): string { Layout.Quote(s) }

  function Bool(b: bool): string { if b then "true" else "false" }

  function OptBool(depth: nat, key: string, o: Option<bool>): string
    requires depth <= 6
  {
    if o.Some? then Pair(depth, key, Bool(o.value)) else ""
  }

  function OptNum(depth: nat, key: string, o: Option<nat>): string
    requires depth <= 6
  {
    if o.Some? then Pair(depth, key, NatText(o.value)) else ""
  }

  function OptText(depth: nat, key: string, s: string): string
    requires depth <= 6
  {
    if s != "" then Pair(depth, key, Q(s)) else ""
  }

  function Items(depth: nat, ss: seq<string>): string
    requires depth <= 6
  {
    if ss == [] then "" else Items(depth, ss[..|ss| - 1]) + Item(depth, Q(ss[|ss| - 1]))
  }

  function OptList(depth: nat, key: string, ss: seq<string>): string
    requires depth <= 5
  {
    if ss == [] then "" else Open(depth, key) + Items(depth + 1, ss)
  }

  function ServerLine(key: string, b: Backend): string {
    if b.weight > 0
    then Item(5, "{ " + (key + (": " + (Q(b.addr) + (", weight: " + (NatText(b.weight) + " }"))))))
    else Item(5, Q(b.addr))
  }

  function ServerLines(key: string, bs: seq<Backend>): string {
    if bs == [] then "" else ServerLines(key, bs[..|bs| - 1]) + ServerLine(key, bs[|bs| - 1])
  }

  function RedirectLines(rc: RouteCfg): string {
    if rc.redirectStatus.Some? && rc.redirectLocation != "" then
      Open(4, "redirect")
      + (Pair(5, "status", NatText(rc.redirectStatus.value)) + Pair(5, "location", Q(rc.redirectLocation)))
    else ""
  }

  function Title(): string {
    "# " + "Generated by synapse-operator ingress controller. Do not edit." + "\n"
  }

  function AcmePath(): string { "\"" + "/.well-known/acme-challenge/*" + "\"" }

  // ---- the v1 file ----------------------------------------------------------------------------

  function SwitchesV1(rc: RouteCfg): string {
    OptBool(4, "http2_enabled", rc.http2)
    + OptBool(4, "https_proxy_enabled", rc.forceHttps)
    + OptBool(4, "healthcheck", rc.healthcheck)
    + OptBool(4, "disable_access_log", rc.disableAccessLog)
  }

  function LimitsV1(rc: RouteCfg): string {
    OptNum(4, "connection_timeout", rc.connectTimeout)
    + OptNum(4, "read_timeout", rc.readTimeout)
    + OptNum(4, "write_timeout", rc.writeTimeout)
    + OptNum(4, "idle_timeout", rc.idleTimeout)
    + OptNum(4, "max_body_size", rc.maxBodySize)
  }

  function RouteV1(rc: RouteCfg): string {
    Open(4, "servers") + ServerLines("address", rc.servers)
    + OptText(4, "match_expr", rc.matchExpr)
    + Pair(4, "ssl_enabled", if rc.ssl == Some(true) then "true" else "false")
    + SwitchesV1(rc)
    + LimitsV1(rc)
    + RedirectLines(rc)
    + OptList(4, "request_headers", rc.reqHeaders)
    + OptList(4, "response_headers", rc.respHeaders)
  }

  function PathsV1(paths: map<string, RouteCfg>, keys: seq<string>): string
    requires forall k :: k in keys ==> k in paths
  {
    if keys == [] then "" else
      var k := keys[|keys| - 1];
      PathsV1(paths, keys[..|keys| - 1]) + (Open(3, Q(k)) + RouteV1(paths[k]))
  }

  ghost function PathListV1(paths: map<string, RouteCfg>): string {
    SortedKeysMembers(paths.Keys);
    PathsV1(paths, SortedKeys(paths.Keys))
  }

  ghost function HostV1(m: Model, h: string): string
    requires h in m.hosts
  {
    (if h in m.hostCert && m.hostCert[h] != "" then Pair(2, "certificate", Q(m.hostCert[h])) else "")
    + (Open(2, "paths") + PathListV1(m.hosts[h]))
  }

  ghost function HostsV1(m: Model, keys: seq<string>): string
    requires forall k :: k in keys ==> k in m.hosts
  {
    if keys == [] then "" else
      var k := keys[|keys| - 1];
      HostsV1(m, keys[..|keys| - 1]) + (Open(1, Q(k)) + HostV1(m, k))
  }

  function AcmeV1(m: Model): string {
    if m.acme != "" then
      Open(0, "internal_paths")
      + (Open(1, AcmePath()) + (Open(2, "servers") + Item(3, Q(m.acme)) + Pair(2, "ssl_enabled", "false")))
    else ""
  }

  ghost function HostListV1(m: Model): string {
    SortedKeysMembers(m.hosts.Keys);
    HostsV1(m, SortedKeys(m.hosts.Keys))
  }

  ghost function FileV1(m: Model): string {
    Title() + (AcmeV1(m) + (if m.sticky then Pair(0, "sticky_sessions", "true") else "")
               + (Open(0, "upstreams") + HostListV1(m)))
  }

  // ---- the v2 file ----------------------------------------------------------------------------

  function PoolV2(bs: seq<Backend>): string {
    if |bs| == 1 && bs[0].weight == 0 then Pair(4, "upstream", Q(bs[0].addr))
    else Open(4, "upstreams") + ServerLines("addr", bs)
  }

  function TimeoutsV2(rc: RouteCfg): string {
    if rc.connectTimeout.None? && rc.readTimeout.None? && rc.writeTimeout.None? && rc.idleTimeout.None? then ""
    else
      Open(4, "timeouts")
      + (OptNum(5, "connect", rc.connectTimeout) + OptNum(5, "read", rc.readTimeout)
         + OptNum(5, "write", rc.writeTimeout) + OptNum(5, "idle", rc.idleTimeout))
  }

  function HeadersV2(rc: RouteCfg): string {
    if rc.reqHeaders == [] && rc.respHeaders == [] then ""
    else Open(4, "headers") + (OptList(5, "request", rc.reqHeaders) + OptList(5, "response", rc.respHeaders))
  }

  function RouteV2(rc: RouteCfg): string {
    PoolV2(rc.servers)
    + OptText(4, "match_expr", rc.matchExpr)
    + OptBool(4, "ssl_enabled", rc.ssl)
    + OptBool(4, "http2_enabled", rc.http2)
    + (if rc.forceHttps == Some(true) then Pair(4, "force_https", "true") else "")
    + (if rc.healthcheck == Some(true) then Open(4, "health_check") + Pair(5, "type", "tcp") else "")
    + OptBool(4, "disable_access_log", rc.disableAccessLog)
    + OptNum(4, "max_body_size", rc.maxBodySize)
    + RedirectLines(rc)
    + TimeoutsV2(rc)
    + HeadersV2(rc)
  }

  function PathsV2(paths: map<string, RouteCfg>, keys: seq<string>): string
    requires forall k :: k in keys ==> k in paths
  {
    if keys == [] then "" else
      var k := keys[|keys| - 1];
      PathsV2(paths, keys[..|keys| - 1]) + (Open(3, Q(k)) + RouteV2(paths[k]))
  }

  ghost function PathListV2(paths: map<string, RouteCfg>): string {
    SortedKeysMembers(paths.Keys);
    PathsV2(paths, SortedKeys(paths.Keys))
  }

  function PassedThrough(upstream: string): string {
    Open(2, "tls") + Pair(3, "passthrough", "true") + Pair(2, "upstream", Q(upstream))
  }

  ghost function Terminated(cert: string, paths: map<string, RouteCfg>): string {
    Open(2, "tls") + (Open(3, "terminate") + OptText(4, "cert", cert)) + (Open(2, "paths") + PathListV2(paths))
  }

  ghost function HostV2(m: Model, h: string): string
    requires h in m.hosts || h in m.passthroughHosts
  {
    if h in m.passthroughHosts then PassedThrough(m.passthroughHosts[h])
    else Terminated(if h in m.hostCert then m.hostCert[h] else "", m.hosts[h])
  }

  ghost function HostsV2(m: Model, keys: seq<string>): string
    requires forall k :: k in keys ==> k in m.hosts || k in m.passthroughHosts
  {
    if keys == [] then "" else
      var k := keys[|keys| - 1];
      HostsV2(m, keys[..|keys| - 1]) + (Open(1, Q(k)) + HostV2(m, k))
  }

  ghost function HostListV2(m: Model): string {
    var hosts := m.hosts.Keys + m.passthroughHosts.Keys;
    SortedKeysMembers(hosts);
    if hosts == {} then "" else Open(0, "hosts") + HostsV2(m, SortedKeys(hosts))
  }

  function StickyV2(m: Model): string {
    if m.sticky then Open(0, "proxy") + (Open(1, "sticky_sessions") + Pair(2, "enabled", "true")) else ""
  }

  function AcmeV2(m: Model): string {
    if m.acme != "" then
      Open(0, "internal") + (Item(1, "path" + (": " + AcmePath())) + Pair(2, "upstream", Q(m.acme)))
    else ""
  }

  ghost function FileV2(m: Model): string {
    Title() + (Pair(0, "version", "2") + StickyV2(m) + AcmeV2(m) + HostListV2(m))
  }

  // ---- one printed line -------------------------------------------------------------------------

  lemma SpacesAre(depth: nat)
    requires depth <= 6
    ensures Layout.Spaces(2 * depth) == Indent(depth)
  {}

  lemma OpenLine(depth: nat, key: string)
    requires depth <= 6
    ensures Layout.Ln(depth, Layout.Open(Layout.Bare(key))) == Open(depth, key)
    ensures Layout.Ln(depth, Layout.Open(Layout.Quoted(key))) == Open(depth, Q(key))
  {
    SpacesAre(depth);
  }

  lemma PairLine(depth: nat, key: string, v: Layout.Scalar)
    requires depth <= 6
    ensures Layout.Ln(depth, Layout.Entry(Layout.Bare(key), v)) == Pair(depth, key, Layout.ScalarText(v))
  {
    SpacesAre(depth);
  }

  lemma ItemLine(depth: nat, s: string)
    requires depth <= 6
    ensures Layout.Ln(depth, Layout.Dash(s)) == Item(depth, Q(s))
  {
    SpacesAre(depth);
  }

  lemma WeightedLine(key: string, b: Backend)
    ensures Layout.Ln(5, if b.weight > 0 then Layout.DashWeighted(key, b.addr, b.weight) else Layout.Dash(b.addr))
         == ServerLine(key, b)
  {
    SpacesAre(5);
  }

  // ---- quoting ------------------------------------------------------------------------------------

  /** Printable ASCII without quotes and backslashes. */
  predicate IsPlain(s: string) { forall c :: c in s ==> ' ' <= c <= '~' && c != '"' && c != '\\' }

  lemma PlainKept(c: char)
    requires ' ' <= c <= '~' && c != '"' && c != '\\'
    ensures Layout.Escape(c) == [c]
  {}

  lemma {:induction false} PlainEscaped(s: string)
    requires IsPlain(s)
    ensures Layout.EscapeAll(s) == s
  {
    if s == "" {
    } else {
      hide Layout.Escape;
      assert s[0] in s && forall c :: c in s[1..] ==> c in s;
      PlainKept(s[0]);
      PlainEscaped(s[1..]);
      assert s == [s[0]] + s[1..];
    }
  }

  /** Plain text is quoted as it is. */
  lemma PlainQuoted(s: string)
    requires IsPlain(s)
    ensures Layout.Quote(s) == "\"" + s + "\""
  {
    PlainEscaped(s);
  }

  lemma AcmePathQuoted()
    ensures Layout.Quote(V1.ACME_PATH) == AcmePath()
  {
    PlainQuoted(V1.ACME_PATH);
  }

  // ---- the words ----------------------------------------------------------------------------------

  lemma FileWords()
    ensures Spell(KInternalPaths) == "internal_paths"
    ensures Spell(KStickySessions) == "sticky_sessions"
    ensures Spell(KUpstreams) == "upstreams"
    ensures Spell(KCertificate) == "certificate"
    ensures Spell(KPaths) == "paths"
    ensures Spell(KServers) == "servers"
    ensures Spell(KAddress) == "address"
  {
    hide Spells, WordWith;
  }

  lemma HeadWords()
    ensures Spell(KVersion) == "version"
    ensures Spell(KProxy) == "proxy"
    ensures Spell(KEnabled) == "enabled"
    ensures Spell(KInternal) == "internal"
    ensures Spell(KPath) == "path"
  {
    hide Spells, WordWith;
  }

  lemma HostWords()
    ensures Spell(KHosts) == "hosts"
    ensures Spell(KTls) == "tls"
    ensures Spell(KPassthrough) == "passthrough"
    ensures Spell(KTerminate) == "terminate"
    ensures Spell(KCert) == "cert"
  {
    hide Spells, WordWith;
  }

  lemma OptionWords()
    ensures Spell(KMatchExpr) == "match_expr"
    ensures Spell(KSslEnabled) == "ssl_enabled"
    ensures Spell(KHttp2Enabled) == "http2_enabled"
    ensures Spell(KHttpsProxyEnabled) == "https_proxy_enabled"
    ensures Spell(KHealthcheck) == "healthcheck"
    ensures Spell(KDisableAccessLog) == "disable_access_log"
  {
    hide Spells, WordWith;
  }

  lemma LimitWords()
    ensures Spell(KConnectionTimeout) == "connection_timeout"
    ensures Spell(KReadTimeout) == "read_timeout"
    ensures Spell(KWriteTimeout) == "write_timeout"
    ensures Spell(KIdleTimeout) == "idle_timeout"
    ensures Spell(KMaxBodySize) == "max_body_size"
    ensures Spell(KRequestHeaders) == "request_headers"
    ensures Spell(KResponseHeaders) == "response_headers"
  {
    hide Spells, WordWith;
  }

  lemma PartWords()
    ensures Spell(KRedirect) == "redirect"
    ensures Spell(KStatus) == "status"
    ensures Spell(KLocation) == "location"
    ensures Spell(KUpstream) == "upstream"
  {
    hide Spells, WordWith;
  }

  lemma CheckWords()
    ensures Spell(KForceHttps) == "force_https"
    ensures Spell(KHealthCheck) == "health_check"
    ensures Spell(KType) == "type"
    ensures Spell(KAddr) == "addr"
  {
    hide Spells, WordWith;
  }

  lemma TimeoutWords()
    ensures Spell(KTimeouts) == "timeouts"
    ensures Spell(KConnect) == "connect"
    ensures Spell(KRead) == "read"
    ensures Spell(KWrite) == "write"
    ensures Spell(KIdle) == "idle"
  {
    hide Spells, WordWith;
  }

  lemma HeaderWords()
    ensures Spell(KHeaders) == "headers"
    ensures Spell(KRequest) == "request"
    ensures Spell(KResponse) == "response"
  {
    hide Spells, WordWith;
  }

  // ---- one printed field ----------------------------------------------------------------------------

  lemma FlagLine(depth: nat, name: Name, o: Option<bool>)
    requires depth <= 6
    ensures Layout.Print(V1.NodeOf(V1.FlagField(name, o)), depth) == OptBool(depth, Spell(name), o)
  {
    hide Layout.Print, Layout.Ln, Pair, Spell;
    Layout.PrintNone(depth);
    if o.Some? {
      V1.LeafPrinted(name, Layout.Flag(o.value), depth);
      PairLine(depth, Spell(name), Layout.Flag(o.value));
    }
  }

  lemma NumLine(depth: nat, name: Name, o: Option<nat>)
    requires depth <= 6
    ensures Layout.Print(V1.NodeOf(V1.NumField(name, o)), depth) == OptNum(depth, Spell(name), o)
  {
    hide Layout.Print, Layout.Ln, Pair, Spell;
    Layout.PrintNone(depth);
    if o.Some? {
      V1.LeafPrinted(name, Layout.Num(o.value), depth);
      PairLine(depth, Spell(name), Layout.Num(o.value));
    }
  }

  lemma TextLine(depth: nat, name: Name, s: string)
    requires depth <= 6
    ensures Layout.Print(V1.NodeOf(V1.TextField(name, s)), depth) == OptText(depth, Spell(name), s)
  {
    hide Layout.Print, Layout.Ln, Pair, Spell;
    Layout.PrintNone(depth);
    if s != "" {
      V1.LeafPrinted(name, Layout.Str(s), depth);
      PairLine(depth, Spell(name), Layout.Str(s));
    }
  }

  lemma {:induction false} BulletLines(depth: nat, ss: seq<string>)
    requires depth <= 6
    ensures Layout.Print(V1.Bullets(ss), depth) == Items(depth, ss)
  {
    hide Layout.Print, Layout.Ln, Item;
    if ss == [] {
      Layout.PrintNone(depth);
    } else {
      var s := ss[|ss| - 1];
      BulletLines(depth, ss[..|ss| - 1]);
      Layout.PrintAppend(V1.Bullets(ss[..|ss| - 1]), [V1.Bullet(s)], depth);
      V1.PrintLeaf(V1.Bullet(s), depth);
      ItemLine(depth, s);
    }
  }

  lemma ListLines(depth: nat, name: Name, ss: seq<string>)
    requires depth <= 5
    ensures Layout.Print(V1.NodeOf(V1.BlockField(name, V1.Bullets(ss))), depth) == OptList(depth, Spell(name), ss)
  {
    hide Layout.Print, Layout.Ln, Items, Spell, Open;
    Layout.PrintNone(depth);
    if ss != [] {
      V1.BlockPrinted(name, V1.Bullets(ss), depth);
      OpenLine(depth, Spell(name));
      BulletLines(depth + 1, ss);
    }
  }

  lemma {:induction false} PoolLines(field: Name, bs: seq<Backend>)
    ensures Layout.Print(V1.Servers(field, bs), 5) == ServerLines(Spell(field), bs)
  {
    hide Layout.Print, Layout.Ln, Spell, ServerLine;
    if bs == [] {
      Layout.PrintNone(5);
    } else {
      var b := bs[|bs| - 1];
      PoolLines(field, bs[..|bs| - 1]);
      Layout.PrintAppend(V1.Servers(field, bs[..|bs| - 1]), [V1.Server(field, b)], 5);
      V1.PrintLeaf(V1.Server(field, b), 5);
      WeightedLine(Spell(field), b);
    }
  }

  lemma ServersBlock(name: Name, field: Name, bs: seq<Backend>)
    ensures Layout.Print(V1.NodeOf(V1.Field(name, Some(V1.Block(name, V1.Servers(field, bs))))), 4)
         == Open(4, Spell(name)) + ServerLines(Spell(field), bs)
  {
    hide *;
    V1.BlockPrinted(name, V1.Servers(field, bs), 4);
    OpenLine(4, Spell(name));
    PoolLines(field, bs);
  }

  lemma RedirectBlock(rc: RouteCfg)
    ensures Layout.Print(V1.NodeOf(V1.RedirectField(V1.RedirectOf(rc))), 4) == RedirectLines(rc)
  {
    hide Layout.Print, Layout.Ln, Spell, Open, Pair;
    Layout.PrintNone(4);
    if rc.redirectStatus.Some? && rc.redirectLocation != "" {
      var status := V1.Leaf(KStatus, Layout.Num(rc.redirectStatus.value));
      var location := V1.Leaf(KLocation, Layout.Str(rc.redirectLocation));
      V1.BlockPrinted(KRedirect, [status, location], 4);
      assert [status, location] == [status] + [location];
      Layout.PrintAppend([status], [location], 5);
      V1.PrintLeaf(status, 5);
      V1.PrintLeaf(location, 5);
      PartWords();
      OpenLine(4, "redirect");
      PairLine(5, "status", Layout.Num(rc.redirectStatus.value));
      PairLine(5, "location", Layout.Str(rc.redirectLocation));
    }
  }

  // ---- the v1 file as printed -----------------------------------------------------------------------

  lemma SslLine(rc: RouteCfg)
    ensures Layout.Print(V1.NodeOf(V1.Field(KSslEnabled, Some(V1.Leaf(KSslEnabled,
              Layout.Flag(if rc.ssl.Some? then rc.ssl.value else false))))), 4)
         == Pair(4, "ssl_enabled", if rc.ssl == Some(true) then "true" else "false")
  {
    hide Layout.Print, Layout.Ln, Pair;
    var v := Layout.Flag(if rc.ssl.Some? then rc.ssl.value else false);
    V1.LeafPrinted(KSslEnabled, v, 4);
    OptionWords();
    PairLine(4, "ssl_enabled", v);
  }

  lemma SwitchLines(fs: seq<V1.Field>, rc: RouteCfg)
    requires |fs| == 15
    requires fs[3] == V1.FlagField(KHttp2Enabled, rc.http2)
    requires fs[4] == V1.FlagField(KHttpsProxyEnabled, rc.forceHttps)
    requires fs[5] == V1.FlagField(KHealthcheck, rc.healthcheck)
    requires fs[6] == V1.FlagField(KDisableAccessLog, rc.disableAccessLog)
    ensures V1.Printed(fs, 7, 4) == V1.Printed(fs, 3, 4) + SwitchesV1(rc)
  {
    hide Layout.Print, Spell, V1.NodeOf, V1.Printed, V1.FlagField, OptBool;
    OptionWords();
    V1.PrintedStep(fs, 3, 4);
    FlagLine(4, KHttp2Enabled, rc.http2);
    V1.PrintedStep(fs, 4, 4);
    FlagLine(4, KHttpsProxyEnabled, rc.forceHttps);
    V1.PrintedStep(fs, 5, 4);
    FlagLine(4, KHealthcheck, rc.healthcheck);
    V1.PrintedStep(fs, 6, 4);
    FlagLine(4, KDisableAccessLog, rc.disableAccessLog);
  }

  lemma LimitLines(fs: seq<V1.Field>, rc: RouteCfg)
    requires |fs| == 15
    requires fs[7] == V1.NumField(KConnectionTimeout, rc.connectTimeout)
    requires fs[8] == V1.NumField(KReadTimeout, rc.readTimeout)
    requires fs[9] == V1.NumField(KWriteTimeout, rc.writeTimeout)
    requires fs[10] == V1.NumField(KIdleTimeout, rc.idleTimeout)
    requires fs[11] == V1.NumField(KMaxBodySize, rc.maxBodySize)
    ensures V1.Printed(fs, 12, 4) == V1.Printed(fs, 7, 4) + LimitsV1(rc)
  {
    hide Layout.Print, Spell, V1.NodeOf, V1.Printed, V1.NumField, OptNum;
    LimitWords();
    V1.PrintedStep(fs, 7, 4);
    NumLine(4, KConnectionTimeout, rc.connectTimeout);
    V1.PrintedStep(fs, 8, 4);
    NumLine(4, KReadTimeout, rc.readTimeout);
    V1.PrintedStep(fs, 9, 4);
    NumLine(4, KWriteTimeout, rc.writeTimeout);
    V1.PrintedStep(fs, 10, 4);
    NumLine(4, KIdleTimeout, rc.idleTimeout);
    V1.PrintedStep(fs, 11, 4);
    NumLine(4, KMaxBodySize, rc.maxBodySize);
  }

  lemma HeadLines(fs: seq<V1.Field>, rc: RouteCfg)
    requires |fs| == 15
    requires fs[0] == V1.Field(KServers, Some(V1.Block(KServers, V1.Servers(KAddress, rc.servers))))
    requires fs[1] == V1.TextField(KMatchExpr, rc.matchExpr)
    requires fs[2] == V1.Field(KSslEnabled, Some(V1.Leaf(KSslEnabled,
               Layout.Flag(if rc.ssl.Some? then rc.ssl.value else false))))
    ensures V1.Printed(fs, 3, 4)
         == Open(4, "servers") + ServerLines("address", rc.servers)
            + OptText(4, "match_expr", rc.matchExpr)
            + Pair(4, "ssl_enabled", if rc.ssl == Some(true) then "true" else "false")
  {
    hide *;
    FileWords();
    OptionWords();
    V1.PrintedStep(fs, 0, 4);
    ServersBlock(KServers, KAddress, rc.servers);
    V1.PrintedStep(fs, 1, 4);
    TextLine(4, KMatchExpr, rc.matchExpr);
    V1.PrintedStep(fs, 2, 4);
    SslLine(rc);
  }

  lemma TailLines(fs: seq<V1.Field>, rc: RouteCfg)
    requires |fs| == 15
    requires fs[12] == V1.RedirectField(V1.RedirectOf(rc))
    requires fs[13] == V1.BlockField(KRequestHeaders, V1.Bullets(rc.reqHeaders))
    requires fs[14] == V1.BlockField(KResponseHeaders, V1.Bullets(rc.respHeaders))
    ensures V1.Printed(fs, 15, 4)
         == V1.Printed(fs, 12, 4) + RedirectLines(rc) + OptList(4, "request_headers", rc.reqHeaders)
            + OptList(4, "response_headers", rc.respHeaders)
  {
    hide *;
    LimitWords();
    V1.PrintedStep(fs, 12, 4);
    RedirectBlock(rc);
    V1.PrintedStep(fs, 13, 4);
    ListLines(4, KRequestHeaders, rc.reqHeaders);
    V1.PrintedStep(fs, 14, 4);
    ListLines(4, KResponseHeaders, rc.respHeaders);
  }

  /** Every option of a route, in the words and the order of the v1 file. */
  lemma RouteTextV1(rc: RouteCfg)
    ensures Layout.Print(V1.Fields(V1.V1RouteFields(V1.EffectiveRoute(rc))), 4) == RouteV1(rc)
  {
    hide Layout.Print, V1.V1RouteFields, V1.EffectiveRoute, V1.Printed, V1.Fields, V1.Block, V1.Leaf,
      V1.FlagField, V1.NumField, V1.TextField, V1.BlockField, V1.RedirectField, V1.RedirectOf, V1.Bullets,
      V1.Servers, Open, Pair, ServerLines, OptText, OptList, RedirectLines, SwitchesV1, LimitsV1;
    var fs := V1.V1RouteFields(V1.EffectiveRoute(rc));
    V1.V1RouteFieldsAre(V1.EffectiveRoute(rc));
    V1.EffectiveRouteIs(rc);
    V1.PrintedFields(fs, 4);
    HeadLines(fs, rc);
    SwitchLines(fs, rc);
    LimitLines(fs, rc);
    TailLines(fs, rc);
  }

  lemma {:induction false} PathLinesV1(paths: map<string, RouteCfg>, keys: seq<string>)
    requires forall k :: k in keys ==> k in paths
    ensures Layout.Print(V1.V1Paths(V1.EffectivePaths(paths), keys), 3) == PathsV1(paths, keys)
  {
    hide Layout.Print, Layout.Ln, V1.EffectiveRoute, V1.V1RouteFields, V1.Fields, RouteV1, Open;
    var effective := V1.EffectivePaths(paths);
    if keys == [] {
      V1.V1PathsNone(effective);
    } else {
      var n := |keys| - 1;
      PathLinesV1(paths, keys[..n]);
      assert keys[..n + 1] == keys;
      V1.V1PathsSnoc(effective, keys, n);
      RouteTextV1(paths[keys[n]]);
      OpenLine(3, keys[n]);
    }
  }

  lemma PathListTextV1(paths: map<string, RouteCfg>)
    ensures Layout.Print(V1.V1PathList(V1.EffectivePaths(paths)), 3) == PathListV1(paths)
  {
    hide Layout.Print, V1.EffectivePaths, V1.V1Paths, PathsV1;
    EffectiveKeys(paths);
    SortedKeysMembers(paths.Keys);
    PathLinesV1(paths, SortedKeys(paths.Keys));
  }

  lemma PathBlockV1(paths: map<string, RouteCfg>)
    ensures Layout.Print(V1.NodeOf(V1.Field(KPaths,
              Some(V1.Block(KPaths, V1.V1PathList(V1.EffectivePaths(paths)))))), 2)
         == Open(2, "paths") + PathListV1(paths)
  {
    hide *;
    FileWords();
    V1.BlockPrinted(KPaths, V1.V1PathList(V1.EffectivePaths(paths)), 2);
    OpenLine(2, "paths");
    PathListTextV1(paths);
  }

  lemma HostFieldsAre(cert: string, paths: map<string, RouteCfg>)
    ensures V1.V1HostFields(V1.EffectiveHost(cert, paths))
         == [V1.TextField(KCertificate, cert),
             V1.Field(KPaths, Some(V1.Block(KPaths, V1.V1PathList(V1.EffectivePaths(paths)))))]
  {
    hide V1.TextField, V1.Block, V1.V1PathList, V1.EffectivePaths;
  }

  lemma HostTextV1(m: Model, h: string)
    requires h in m.hosts
    ensures Layout.Print(V1.Fields(V1.V1HostFields(V1.EffectiveHost(V1.CertOf(m, h), m.hosts[h]))), 2) == HostV1(m, h)
  {
    hide Layout.Print, V1.Printed, V1.NodeOf, V1.Fields, V1.V1HostFields, V1.EffectiveHost, V1.EffectivePaths,
      V1.V1PathList, V1.Block, V1.TextField, PathListV1, Open, Pair;
    var cert := V1.CertOf(m, h);
    var fs := V1.V1HostFields(V1.EffectiveHost(cert, m.hosts[h]));
    HostFieldsAre(cert, m.hosts[h]);
    V1.PrintedFields(fs, 2);
    FileWords();
    V1.PrintedStep(fs, 0, 2);
    TextLine(2, KCertificate, cert);
    V1.PrintedStep(fs, 1, 2);
    PathBlockV1(m.hosts[h]);
  }

  lemma EffectiveKeys(paths: map<string, RouteCfg>)
    ensures V1.EffectivePaths(paths).Keys == paths.Keys
  {}

  lemma {:induction false} HostLinesV1(m: Model, keys: seq<string>)
    requires forall k :: k in keys ==> k in m.hosts
    ensures Layout.Print(V1.V1Hosts(V1.Effective(m).hosts, keys), 1) == HostsV1(m, keys)
  {
    hide Layout.Print, Layout.Ln, V1.EffectiveHost, V1.V1HostFields, V1.Fields, HostV1, Open;
    var hosts := V1.Effective(m).hosts;
    if keys == [] {
      V1.V1HostsNone(hosts);
    } else {
      var n := |keys| - 1;
      HostLinesV1(m, keys[..n]);
      assert keys[..n + 1] == keys;
      V1.V1HostsSnoc(hosts, keys, n);
      HostTextV1(m, keys[n]);
      OpenLine(1, keys[n]);
    }
  }

  lemma AcmeLines(m: Model)
    ensures Layout.Print(V1.NodeOf(V1.AcmeFieldV1(m.acme)), 0) == AcmeV1(m)
  {
    hide Layout.Print, Layout.Ln, V1.AcmeV1, Spell, Open, Pair, Item, Layout.Quote;
    Layout.PrintNone(0);
    if m.acme != "" {
      FileWords();
      OptionWords();
      AcmePathQuoted();
      V1.BlockPrinted(KInternalPaths, V1.AcmeV1(m.acme), 0);
      V1.AcmeV1Printed(m.acme);
      OpenLine(0, "internal_paths");
      OpenLine(1, V1.ACME_PATH);
      OpenLine(2, "servers");
      ItemLine(3, m.acme);
      PairLine(2, "ssl_enabled", Layout.Flag(false));
    }
  }

  lemma StickyLines(m: Model)
    ensures Layout.Print(V1.NodeOf(V1.StickyFieldV1(m.sticky)), 0)
         == if m.sticky then Pair(0, "sticky_sessions", "true") else ""
  {
    hide Layout.Print, Layout.Ln, Spell, Pair;
    Layout.PrintNone(0);
    if m.sticky {
      FileWords();
      V1.LeafPrinted(KStickySessions, Layout.Flag(true), 0);
      PairLine(0, "sticky_sessions", Layout.Flag(true));
    }
  }

  lemma HostListTextV1(m: Model)
    ensures Layout.Print(V1.V1HostList(V1.Effective(m).hosts), 1) == HostListV1(m)
  {
    hide Layout.Print, V1.Effective, V1.V1Hosts, HostsV1;
    EffectiveHosts(m);
    SortedKeysMembers(m.hosts.Keys);
    HostLinesV1(m, SortedKeys(m.hosts.Keys));
  }

  lemma UpstreamLines(m: Model)
    ensures Layout.Print(V1.NodeOf(V1.Field(KUpstreams,
              Some(V1.Block(KUpstreams, V1.V1HostList(V1.Effective(m).hosts))))), 0)
         == Open(0, "upstreams") + HostListV1(m)
  {
    hide *;
    FileWords();
    V1.BlockPrinted(KUpstreams, V1.V1HostList(V1.Effective(m).hosts), 0);
    OpenLine(0, "upstreams");
    HostListTextV1(m);
  }

  lemma EffectiveHosts(m: Model)
    ensures V1.Effective(m).hosts.Keys == m.hosts.Keys
  {}

  lemma TitleLine()
    ensures Layout.Print([V1.HEADER_NODE], 0) == Title()
  {
    hide Layout.Print;
    V1.PrintLeaf(V1.HEADER_NODE, 0);
    SpacesAre(0);
  }

  /** The v1 file of every model, word for word. */
  lemma V1FileExact(m: Model)
    ensures V1.V1Text(V1.Effective(m)) == FileV1(m)
  {
    hide Layout.Print, V1.NodeOf, V1.Printed, V1.Fields, V1.AcmeFieldV1, V1.StickyFieldV1, V1.V1HostList, V1.Effective,
      V1.Block, HostListV1, AcmeV1, Open, Pair, Title;
    var c := V1.Effective(m);
    var fs := V1.V1Fields(c);
    V1.EffectiveParts(m);
    Layout.PrintAppend([V1.HEADER_NODE], V1.Fields(fs), 0);
    TitleLine();
    V1.PrintedFields(fs, 0);
    V1.PrintedStep(fs, 0, 0);
    AcmeLines(m);
    V1.PrintedStep(fs, 1, 0);
    StickyLines(m);
    V1.PrintedStep(fs, 2, 0);
    UpstreamLines(m);
  }

  // ---- the v2 file as printed -----------------------------------------------------------------------

  lemma PoolLinesV2(bs: seq<Backend>)
    ensures Layout.Print(V1.NodeOf(V2.UpstreamField(bs)), 4) + Layout.Print(V1.NodeOf(V2.UpstreamsField(bs)), 4)
         == PoolV2(bs)
  {
    hide Layout.Print, Layout.Ln, Spell, Open, Pair, ServerLines, V1.Servers;
    Layout.PrintNone(4);
    if |bs| == 1 && bs[0].weight == 0 {
      PartWords();
      V1.LeafPrinted(KUpstream, Layout.Str(bs[0].addr), 4);
      PairLine(4, "upstream", Layout.Str(bs[0].addr));
    } else {
      FileWords();
      CheckWords();
      ServersBlock(KUpstreams, KAddr, bs);
    }
  }

  lemma ForceHttpsLine(o: Option<bool>)
    ensures Layout.Print(V1.NodeOf(V2.ForceHttpsField(o)), 4)
         == if o == Some(true) then Pair(4, "force_https", "true") else ""
  {
    hide Layout.Print, Layout.Ln, Spell, Pair;
    assert Spell(KForceHttps) == "force_https" by { CheckWords(); }
    Layout.PrintNone(4);
    V1.LeafPrinted(KForceHttps, Layout.Flag(true), 4);
    PairLine(4, "force_https", Layout.Flag(true));
  }

  lemma NodesAre(name: Name, kids: seq<Layout.Node>, inner: Name, v: Layout.Scalar)
    ensures V1.Block(name, kids) == Layout.Node(Layout.Open(Layout.Bare(Spell(name))), kids)
    ensures V1.Leaf(inner, v) == Layout.Node(Layout.Entry(Layout.Bare(Spell(inner)), v), [])
  {
    hide Spell;
  }

  /** A block around a single entry. */
  lemma LeafBlock(depth: nat, name: Name, inner: Name, v: Layout.Scalar)
    requires depth <= 5
    ensures Layout.Print([V1.Block(name, [V1.Leaf(inner, v)])], depth)
         == Open(depth, Spell(name)) + Pair(depth + 1, Spell(inner), Layout.ScalarText(v))
  {
    hide *;
    NodesAre(name, [V1.Leaf(inner, v)], inner, v);
    Layout.PrintOne(V1.Block(name, [V1.Leaf(inner, v)]), depth);
    V1.PrintLeaf(V1.Leaf(inner, v), depth + 1);
    OpenLine(depth, Spell(name));
    PairLine(depth + 1, Spell(inner), v);
  }

  lemma HealthCheckLines(o: Option<bool>)
    ensures Layout.Print(V1.NodeOf(V2.HealthCheckField(o)), 4)
         == if o == Some(true) then Open(4, "health_check") + Pair(5, "type", "tcp") else ""
  {
    hide Layout.Print, V1.Block, V1.Leaf, Spell, Open, Pair;
    Layout.PrintNone(4);
    if o == Some(true) {
      CheckWords();
      LeafBlock(4, KHealthCheck, KType, Layout.Word("tcp"));
    }
  }

  lemma TimeoutGroup(rc: RouteCfg)
    ensures Layout.Print(V1.Fields(V2.TimeoutFields(rc)), 5)
         == OptNum(5, "connect", rc.connectTimeout) + OptNum(5, "read", rc.readTimeout)
            + OptNum(5, "write", rc.writeTimeout) + OptNum(5, "idle", rc.idleTimeout)
  {
    hide Layout.Print, V1.Printed, V1.Fields, V1.NodeOf, V1.NumField, Spell, OptNum;
    var fs := V2.TimeoutFields(rc);
    TimeoutWords();
    V1.PrintedFields(fs, 5);
    V1.PrintedStep(fs, 0, 5);
    NumLine(5, KConnect, rc.connectTimeout);
    V1.PrintedStep(fs, 1, 5);
    NumLine(5, KRead, rc.readTimeout);
    V1.PrintedStep(fs, 2, 5);
    NumLine(5, KWrite, rc.writeTimeout);
    V1.PrintedStep(fs, 3, 5);
    NumLine(5, KIdle, rc.idleTimeout);
  }

  /** A block of fields that is left out when it would be empty. */
  lemma GroupLines(name: Name, kids: seq<Layout.Node>)
    ensures Layout.Print(V1.NodeOf(V1.BlockField(name, kids)), 4)
         == if kids == [] then "" else Open(4, Spell(name)) + Layout.Print(kids, 5)
  {
    hide Layout.Print, Layout.Ln, Spell, Open;
    Layout.PrintNone(4);
    V1.BlockPrinted(name, kids, 4);
    OpenLine(4, Spell(name));
  }

  lemma TimeoutLinesV2(rc: RouteCfg)
    ensures Layout.Print(V1.NodeOf(V1.BlockField(KTimeouts, V1.Fields(V2.TimeoutFields(rc)))), 4) == TimeoutsV2(rc)
  {
    hide Layout.Print, V1.NodeOf, V1.BlockField, V1.Fields, V2.TimeoutFields, Spell, Open, OptNum;
    V2.TimeoutsAbsent(rc);
    assert Spell(KTimeouts) == "timeouts" by { TimeoutWords(); }
    GroupLines(KTimeouts, V1.Fields(V2.TimeoutFields(rc)));
    TimeoutGroup(rc);
  }

  lemma HeaderGroup(rc: RouteCfg)
    ensures Layout.Print(V1.Fields(V2.HeaderFields(rc)), 5)
         == OptList(5, "request", rc.reqHeaders) + OptList(5, "response", rc.respHeaders)
  {
    hide Layout.Print, V1.Printed, V1.Fields, V1.NodeOf, V1.BlockField, V1.Bullets, Spell, OptList;
    var fs := V2.HeaderFields(rc);
    HeaderWords();
    V1.PrintedFields(fs, 5);
    V1.PrintedStep(fs, 0, 5);
    ListLines(5, KRequest, rc.reqHeaders);
    V1.PrintedStep(fs, 1, 5);
    ListLines(5, KResponse, rc.respHeaders);
  }

  lemma HeaderLinesV2(rc: RouteCfg)
    ensures Layout.Print(V1.NodeOf(V1.BlockField(KHeaders, V1.Fields(V2.HeaderFields(rc)))), 4) == HeadersV2(rc)
  {
    hide Layout.Print, V1.NodeOf, V1.BlockField, V1.Fields, V2.HeaderFields, Spell, Open, OptList;
    V2.HeadersAbsent(rc);
    assert Spell(KHeaders) == "headers" by { HeaderWords(); }
    GroupLines(KHeaders, V1.Fields(V2.HeaderFields(rc)));
    HeaderGroup(rc);
  }

  lemma HeadLinesV2(fs: seq<V1.Field>, rc: RouteCfg)
    requires |fs| == 12
    requires fs[0] == V2.UpstreamField(rc.servers) && fs[1] == V2.UpstreamsField(rc.servers)
    requires fs[2] == V1.TextField(KMatchExpr, rc.matchExpr)
    requires fs[3] == V1.FlagField(KSslEnabled, rc.ssl) && fs[4] == V1.FlagField(KHttp2Enabled, rc.http2)
    ensures V1.Printed(fs, 5, 4)
         == PoolV2(rc.servers) + OptText(4, "match_expr", rc.matchExpr) + OptBool(4, "ssl_enabled", rc.ssl)
            + OptBool(4, "http2_enabled", rc.http2)
  {
    hide *;
    OptionWords();
    V1.PrintedStep(fs, 0, 4);
    V1.PrintedStep(fs, 1, 4);
    PoolLinesV2(rc.servers);
    V1.PrintedStep(fs, 2, 4);
    TextLine(4, KMatchExpr, rc.matchExpr);
    V1.PrintedStep(fs, 3, 4);
    FlagLine(4, KSslEnabled, rc.ssl);
    V1.PrintedStep(fs, 4, 4);
    FlagLine(4, KHttp2Enabled, rc.http2);
  }

  lemma TailLinesV2(fs: seq<V1.Field>, rc: RouteCfg)
    requires |fs| == 12
    requires fs[5] == V2.ForceHttpsField(rc.forceHttps) && fs[6] == V2.HealthCheckField(rc.healthcheck)
    requires fs[7] == V1.FlagField(KDisableAccessLog, rc.disableAccessLog)
    requires fs[8] == V1.NumField(KMaxBodySize, rc.maxBodySize)
    requires fs[9] == V1.RedirectField(V1.RedirectOf(rc))
    requires fs[10] == V1.BlockField(KTimeouts, V1.Fields(V2.TimeoutFields(rc)))
    requires fs[11] == V1.BlockField(KHeaders, V1.Fields(V2.HeaderFields(rc)))
    ensures V1.Printed(fs, 12, 4)
         == V1.Printed(fs, 5, 4)
            + (if rc.forceHttps == Some(true) then Pair(4, "force_https", "true") else "")
            + (if rc.healthcheck == Some(true) then Open(4, "health_check") + Pair(5, "type", "tcp") else "")
            + OptBool(4, "disable_access_log", rc.disableAccessLog)
            + OptNum(4, "max_body_size", rc.maxBodySize) + RedirectLines(rc) + TimeoutsV2(rc) + HeadersV2(rc)
  {
    hide *;
    OptionWords();
    LimitWords();
    V1.PrintedStep(fs, 5, 4);
    V1.PrintedStep(fs, 6, 4);
    ForceHttpsLine(rc.forceHttps);
    HealthCheckLines(rc.healthcheck);
    V1.PrintedStep(fs, 7, 4);
    FlagLine(4, KDisableAccessLog, rc.disableAccessLog);
    V1.PrintedStep(fs, 8, 4);
    NumLine(4, KMaxBodySize, rc.maxBodySize);
    V1.PrintedStep(fs, 9, 4);
    RedirectBlock(rc);
    V1.PrintedStep(fs, 10, 4);
    TimeoutLinesV2(rc);
    V1.PrintedStep(fs, 11, 4);
    HeaderLinesV2(rc);
  }

  /** Every option of a route, in the words and the order of the v2 file. */
  lemma RouteLinesV2(rc: RouteCfg)
    ensures Layout.Print(V1.Fields(V2.V2RouteFields(rc)), 4) == RouteV2(rc)
  {
    hide Layout.Print, V2.V2RouteFields, V2.UpstreamField, V2.UpstreamsField, V2.ForceHttpsField,
      V2.HealthCheckField, V2.TimeoutFields, V2.HeaderFields, V1.Printed, V1.Fields, V1.FlagField, V1.NumField,
      V1.TextField, V1.BlockField, V1.RedirectField, V1.RedirectOf, PoolV2, OptText, OptBool, OptNum,
      Open, Pair, RedirectLines, TimeoutsV2, HeadersV2;
    var fs := V2.V2RouteFields(rc);
    V2.V2RouteFieldsAre(rc);
    V1.PrintedFields(fs, 4);
    HeadLinesV2(fs, rc);
    TailLinesV2(fs, rc);
  }

  lemma {:induction false} PathLinesV2(paths: map<string, RouteCfg>, keys: seq<string>)
    requires forall k :: k in keys ==> k in paths
    ensures Layout.Print(V2.V2Paths(paths, keys), 3) == PathsV2(paths, keys)
  {
    hide Layout.Print, Layout.Ln, V2.V2RouteFields, V1.Fields, RouteV2, Open;
    if keys == [] {
      V2.V2PathsNone(paths);
    } else {
      var n := |keys| - 1;
      PathLinesV2(paths, keys[..n]);
      assert keys[..n + 1] == keys;
      V2.V2PathsSnoc(paths, keys, n);
      RouteLinesV2(paths[keys[n]]);
      OpenLine(3, keys[n]);
    }
  }

  lemma PathListTextV2(paths: map<string, RouteCfg>)
    ensures Layout.Print(V2.V2PathList(paths), 3) == PathListV2(paths)
  {
    hide Layout.Print, V2.V2Paths, PathsV2;
    SortedKeysMembers(paths.Keys);
    PathLinesV2(paths, SortedKeys(paths.Keys));
  }

  lemma PassedThroughLines(upstream: string)
    ensures Layout.Print(V1.Fields(V2.PassthroughFields(upstream)), 2) == PassedThrough(upstream)
  {
    hide Layout.Print, Layout.Ln, V1.Printed, V1.NodeOf, V1.Fields, Spell, Open, Pair;
    var fs := V2.PassthroughFields(upstream);
    var passthrough := V1.Leaf(KPassthrough, Layout.Flag(true));
    HostWords();
    PartWords();
    V1.PrintedFields(fs, 2);
    V1.PrintedStep(fs, 0, 2);
    V1.BlockPrinted(KTls, [passthrough], 2);
    V1.PrintLeaf(passthrough, 3);
    OpenLine(2, "tls");
    PairLine(3, "passthrough", Layout.Flag(true));
    V1.PrintedStep(fs, 1, 2);
    V1.LeafPrinted(KUpstream, Layout.Str(upstream), 2);
    PairLine(2, "upstream", Layout.Str(upstream));
  }

  lemma TerminateLines(cert: string)
    ensures Layout.Print(V1.NodeOf(V1.Field(KTls, Some(V1.Block(KTls,
              [V1.Block(KTerminate, V1.NodeOf(V1.TextField(KCert, cert)))])))), 2)
         == Open(2, "tls") + (Open(3, "terminate") + OptText(4, "cert", cert))
  {
    hide Layout.Print, Layout.Ln, V1.NodeOf, V1.TextField, Spell, Open, OptText;
    var terminate := V1.Block(KTerminate, V1.NodeOf(V1.TextField(KCert, cert)));
    HostWords();
    V1.BlockPrinted(KTls, [terminate], 2);
    Layout.PrintOne(terminate, 3);
    TextLine(4, KCert, cert);
    OpenLine(2, "tls");
    OpenLine(3, "terminate");
  }

  lemma PathBlockV2(paths: map<string, RouteCfg>)
    ensures Layout.Print(V1.NodeOf(V1.Field(KPaths, Some(V1.Block(KPaths, V2.V2PathList(paths))))), 2)
         == Open(2, "paths") + PathListV2(paths)
  {
    hide *;
    FileWords();
    V1.BlockPrinted(KPaths, V2.V2PathList(paths), 2);
    OpenLine(2, "paths");
    PathListTextV2(paths);
  }

  lemma TerminatedLines(cert: string, paths: map<string, RouteCfg>)
    ensures Layout.Print(V1.Fields(V2.TerminateFields(cert, paths)), 2) == Terminated(cert, paths)
  {
    hide Layout.Print, V1.Printed, V1.NodeOf, V1.Fields, V1.TextField, V1.Block, V2.V2PathList, PathListV2, Open,
      OptText;
    var fs := V2.TerminateFields(cert, paths);
    V1.PrintedFields(fs, 2);
    V1.PrintedStep(fs, 0, 2);
    TerminateLines(cert);
    V1.PrintedStep(fs, 1, 2);
    PathBlockV2(paths);
  }

  lemma HostLinesV2(m: Model, h: string)
    requires V2.IsHost(m, h)
    ensures Layout.Print(V1.Fields(V2.V2HostFields(m, h)), 2) == HostV2(m, h)
  {
    hide Layout.Print, V1.Fields, V2.PassthroughFields, V2.TerminateFields, PassedThrough, Terminated;
    if h in m.passthroughHosts {
      PassedThroughLines(m.passthroughHosts[h]);
    } else {
      TerminatedLines(V1.CertOf(m, h), m.hosts[h]);
    }
  }

  lemma {:induction false} AllHostLinesV2(m: Model, keys: seq<string>)
    requires forall k :: k in keys ==> V2.IsHost(m, k)
    ensures Layout.Print(V2.V2Hosts(m, keys), 1) == HostsV2(m, keys)
  {
    hide Layout.Print, Layout.Ln, V2.V2HostFields, V1.Fields, HostV2, Open;
    if keys == [] {
      V2.V2HostsNone(m);
    } else {
      var n := |keys| - 1;
      AllHostLinesV2(m, keys[..n]);
      assert keys[..n + 1] == keys;
      V2.V2HostsSnoc(m, keys, n);
      HostLinesV2(m, keys[n]);
      OpenLine(1, keys[n]);
    }
  }

  lemma HostListTextV2(m: Model)
    ensures var keys := m.hosts.Keys + m.passthroughHosts.Keys;
      && (forall k :: k in SortedKeys(keys) ==> k in m.hosts || k in m.passthroughHosts)
      && Layout.Print(V2.V2HostList(m), 1) == HostsV2(m, SortedKeys(keys))
  {
    hide Layout.Print, V2.V2Hosts, HostsV2;
    SortedKeysMembers(m.hosts.Keys + m.passthroughHosts.Keys);
    AllHostLinesV2(m, SortedKeys(m.hosts.Keys + m.passthroughHosts.Keys));
  }

  lemma HostBlockV2(m: Model)
    ensures Layout.Print(V1.NodeOf(V1.BlockField(KHosts, V2.V2HostList(m))), 0) == HostListV2(m)
  {
    hide Layout.Print, Layout.Ln, V2.V2HostList, HostsV2, Spell, Open;
    Layout.PrintNone(0);
    V2.V2HostListEmpty(m);
    HostListTextV2(m);
    assert Spell(KHosts) == "hosts" by { HostWords(); }
    V1.BlockPrinted(KHosts, V2.V2HostList(m), 0);
    OpenLine(0, "hosts");
  }

  lemma StickyBlock()
    ensures Layout.Print([V1.Block(KStickySessions, [V1.Leaf(KEnabled, Layout.Flag(true))])], 1)
         == Open(1, "sticky_sessions") + Pair(2, "enabled", "true")
  {
    hide Layout.Print, V1.Block, V1.Leaf, Spell, Open, Pair;
    assert Spell(KEnabled) == "enabled" by { HeadWords(); }
    assert Spell(KStickySessions) == "sticky_sessions" by { FileWords(); }
    LeafBlock(1, KStickySessions, KEnabled, Layout.Flag(true));
  }

  lemma StickyLinesV2(m: Model)
    ensures Layout.Print(V1.NodeOf(V2.StickyFieldV2(m.sticky)), 0) == StickyV2(m)
  {
    hide Layout.Print, Layout.Ln, V1.Block, V1.Leaf, Spell, Open, Pair;
    Layout.PrintNone(0);
    if m.sticky {
      assert Spell(KProxy) == "proxy" by { HeadWords(); }
      V1.BlockPrinted(KProxy, [V1.Block(KStickySessions, [V1.Leaf(KEnabled, Layout.Flag(true))])], 0);
      StickyBlock();
      OpenLine(0, "proxy");
    }
  }

  lemma PathItem()
    ensures Layout.Ln(1, Layout.DashEntry("path", Layout.Str(V1.ACME_PATH))) == Item(1, "path" + (": " + AcmePath()))
  {
    hide Layout.Quote;
    AcmePathQuoted();
    SpacesAre(1);
  }

  lemma AcmeLinesV2(m: Model)
    ensures Layout.Print(V1.NodeOf(V2.AcmeFieldV2(m.acme)), 0) == AcmeV2(m)
  {
    hide Layout.Print, Layout.Ln, Spell, Open, Pair, Item, Layout.Quote, AcmePath;
    Layout.PrintNone(0);
    if m.acme != "" {
      var path := Layout.DashEntry("path", Layout.Str(V1.ACME_PATH));
      var upstream := V1.Leaf(KUpstream, Layout.Str(m.acme));
      HeadWords();
      assert Spell(KUpstream) == "upstream" by { PartWords(); }
      V1.BlockPrinted(KInternal, [Layout.Node(path, [upstream])], 0);
      Layout.PrintOne(Layout.Node(path, [upstream]), 1);
      V1.PrintLeaf(upstream, 2);
      OpenLine(0, "internal");
      PathItem();
      PairLine(2, "upstream", Layout.Str(m.acme));
    }
  }

  lemma VersionLine()
    ensures Layout.Print(V1.NodeOf(V1.Field(KVersion, Some(V1.Leaf(KVersion, Layout.Num(2))))), 0)
         == Pair(0, "version", "2")
  {
    hide Layout.Print, Layout.Ln, Spell, Pair;
    assert Spell(KVersion) == "version" by { HeadWords(); }
    V1.LeafPrinted(KVersion, Layout.Num(2), 0);
    PairLine(0, "version", Layout.Num(2));
  }

  /** The v2 file of every model, word for word. */
  lemma V2FileExact(m: Model)
    ensures V2.V2Text(m) == FileV2(m)
  {
    hide Layout.Print, Layout.Ln, V1.NodeOf, V1.Printed, V1.Fields, V2.V2Fields, V2.V2Text, V2.StickyFieldV2,
      V2.AcmeFieldV2, V1.BlockField, V2.V2HostList, V1.Leaf, HostListV2, StickyV2, AcmeV2, Pair, Title;
    var fs := V2.V2Fields(m);
    V2.V2TextIs(m);
    V2.V2FieldsAre(m);
    TitleLine();
    V1.PrintLeaf(V1.HEADER_NODE, 0);
    V1.PrintedFields(fs, 0);
    V1.PrintedStep(fs, 0, 0);
    VersionLine();
    V1.PrintedStep(fs, 1, 0);
    StickyLinesV2(m);
    V1.PrintedStep(fs, 2, 0);
    AcmeLinesV2(m);
    V1.PrintedStep(fs, 3, 0);
    HostBlockV2(m);
  }
}
