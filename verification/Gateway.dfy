/** The Gateway API half of the renderer: renderGateways in controllers/gateway.go. */
module Gateway {
  import opened Wrappers
  import opened Strings
  import opened Sorting
  import opened RouteModel
  import opened RenderOps
  import opened Endpoints
  import opened CertNames
  import opened Ingress

  datatype GatewayClass = GatewayClass(name: string, controller: string)

  datatype CertRef = CertRef(kind: Option<string>, ns: Option<string>, name: string)

  datatype ListenerTls = ListenerTls(mode: Option<string>, refs: seq<CertRef>)

  datatype Listener = Listener(hostname: Option<string>, tls: Option<ListenerTls>)

  datatype Gateway = Gateway(ns: string, name: string, className: string, listeners: seq<Listener>)

  datatype ParentRef = ParentRef(kind: Option<string>, ns: Option<string>, name: string)

  datatype PathKind = PathPrefix | Exact | RegularExpression

  datatype PathMatch = PathMatch(kind: Option<PathKind>, value: Option<string>)

  /** A match; header, method and query conditions are dropped by the renderer. */
  datatype Match = Match(path: Option<PathMatch>)

  datatype Header = Header(name: string, value: string)

  datatype HeaderFilter = HeaderFilter(set_: seq<Header>, add: seq<Header>)

  datatype Filter =
    | RequestHeaders(change: Option<HeaderFilter>)
    | ResponseHeaders(change: Option<HeaderFilter>)
    | OtherFilter

  datatype BackendRef = BackendRef(
    kind: Option<string>, ns: Option<string>, name: string, port: Option<int>, weight: Option<int>)

  datatype RouteRule = RouteRule(matches: seq<Match>, filters: seq<Filter>, backends: seq<BackendRef>)

  datatype HttpRoute = HttpRoute(
    ns: string, name: string, parents: seq<ParentRef>, hostnames: seq<string>, settings: Settings,
    rules: seq<RouteRule>)

  // ---- classes and gateways ---------------------------------------------------------------

  ghost predicate ClassOurs(gcs: seq<GatewayClass>, name: string) {
    exists i :: 0 <= i < |gcs| && gcs[i].controller == CONTROLLER_NAME && gcs[i].name == name
  }

  method OurClasses(gcs: seq<GatewayClass>) returns (ours: set<string>)
    ensures forall name :: name in ours <==> ClassOurs(gcs, name)
  {
    ours := {};
    for i := 0 to |gcs|
      invariant forall name :: name in ours <==> ClassOurs(gcs[..i], name)
    {
      ghost var before := ours;
      if gcs[i].controller == CONTROLLER_NAME {
        ours := ours + {gcs[i].name};
      }
      forall name ensures name in ours <==> ClassOurs(gcs[..i + 1], name) {
        ClassOursSnoc(gcs, i, name);
      }
    }
    assert gcs[..|gcs|] == gcs;
  }

  lemma ClassOursSnoc(gcs: seq<GatewayClass>, i: nat, name: string)
    requires i < |gcs|
    ensures ClassOurs(gcs[..i + 1], name) <==>
      ClassOurs(gcs[..i], name) || (gcs[i].controller == CONTROLLER_NAME && gcs[i].name == name)
  {
    if ClassOurs(gcs[..i], name) {
      var j :| 0 <= j < i && gcs[j].controller == CONTROLLER_NAME && gcs[j].name == name;
      assert gcs[..i + 1][j] == gcs[j];
    }
    if gcs[i].controller == CONTROLLER_NAME && gcs[i].name == name { assert gcs[..i + 1][i] == gcs[i]; }
  }

  /** A Gateway of this namespace and name belongs to one of our classes. */
  ghost predicate GatewayOurs(gws: seq<Gateway>, classes: set<string>, key: (string, string)) {
    exists i :: 0 <= i < |gws| && gws[i].className in classes && (gws[i].ns, gws[i].name) == key
  }

  lemma GatewayOursSnoc(gws: seq<Gateway>, classes: set<string>, i: nat, key: (string, string))
    requires i < |gws|
    ensures GatewayOurs(gws[..i + 1], classes, key) <==>
      GatewayOurs(gws[..i], classes, key) || (gws[i].className in classes && (gws[i].ns, gws[i].name) == key)
  {
    if GatewayOurs(gws[..i], classes, key) {
      var j :| 0 <= j < i && gws[j].className in classes && (gws[j].ns, gws[j].name) == key;
      assert gws[..i + 1][j] == gws[j];
    }
    if gws[i].className in classes && (gws[i].ns, gws[i].name) == key { assert gws[..i + 1][i] == gws[i]; }
  }

  // ---- listener certificates -----------------------------------------------------------------

  function RefOps(ns: string, host: string): CertRef -> seq<Op> {
    (cr: CertRef) =>
      if cr.kind.Some? && cr.kind.value != "Secret" then []
      else [CertOp(host, GetOr(cr.ns, ns), cr.name)]
  }

  function ListenerF(ns: string): Listener -> seq<Op> {
    (l: Listener) =>
      if l.tls.None? || (l.tls.value.mode.Some? && l.tls.value.mode.value != "Terminate") then []
      else Flat(l.tls.value.refs, RefOps(ns, GetOr(l.hostname, "")))
  }

  function GatewayF(classes: set<string>): Gateway -> seq<Op> {
    (gw: Gateway) => if gw.className in classes then Flat(gw.listeners, ListenerF(gw.ns)) else []
  }

  method ProjectListener(m: RenderModel, ns: string, l: Listener)
    requires m.Valid()
    modifies m
    ensures m.Valid() && m.Snapshot() == RunOps(old(m.Snapshot()), ListenerF(ns)(l))
  {
    hide RunOps, Step, Flat, CertOp, ValidModel, Apply;
    ghost var m0 := m.Snapshot();
    RunOpsOne(m0, MarkSticky);
    if l.tls.None? {
      return;
    }
    if l.tls.value.mode.Some? && l.tls.value.mode.value != "Terminate" {
      return;
    }
    var host := "";
    if l.hostname.Some? {
      host := l.hostname.value;
    }
    var refs := l.tls.value.refs;
    FlatNone(m0, refs, RefOps(ns, host));
    for i := 0 to |refs|
      invariant m.Valid() && m.Snapshot() == RunOps(m0, Flat(refs[..i], RefOps(ns, host)))
    {
      var cr := refs[i];
      FlatStep(m0, refs, i, RefOps(ns, host));
      RunOpsOne(m.Snapshot(), CertOp(host, GetOr(cr.ns, ns), cr.name));
      if cr.kind.Some? && cr.kind.value != "Secret" {
        continue;
      }
      var refNs := ns;
      if cr.ns.Some? {
        refNs := cr.ns.value;
      }
      AddHostCert(m, host, refNs, cr.name);
    }
  }

  /** The Gateways of our classes, in listing order: their listener certificates and names. */
  method CollectGateways(m: RenderModel, gws: seq<Gateway>, classes: set<string>)
    returns (ours: set<(string, string)>)
    requires m.Valid()
    modifies m
    ensures m.Valid() && m.Snapshot() == RunOps(old(m.Snapshot()), Flat(gws, GatewayF(classes)))
    ensures forall key :: key in ours <==> GatewayOurs(gws, classes, key)
  {
    hide RunOps, Step, Flat, ValidModel, GatewayOurs, ListenerF;
    ghost var m0 := m.Snapshot();
    ours := {};
    FlatNone(m0, gws, GatewayF(classes));
    NoGateways(classes);
    for i := 0 to |gws|
      invariant m.Valid() && m.Snapshot() == RunOps(m0, Flat(gws[..i], GatewayF(classes)))
      invariant forall key :: key in ours <==> GatewayOurs(gws[..i], classes, key)
    {
      var gw := gws[i];
      FlatStep(m0, gws, i, GatewayF(classes));
      RunOpsOne(m.Snapshot(), MarkSticky);
      forall key ensures GatewayOurs(gws[..i + 1], classes, key) <==>
        GatewayOurs(gws[..i], classes, key) || (gw.className in classes && (gw.ns, gw.name) == key)
      {
        GatewayOursSnoc(gws, classes, i, key);
      }
      if gw.className !in classes {
        continue;
      }
      ours := ours + {(gw.ns, gw.name)};
      ProjectListeners(m, gw);
    }
  }

  lemma NoGateways(classes: set<string>)
    ensures forall key :: !GatewayOurs([], classes, key)
  {}

  method ProjectListeners(m: RenderModel, gw: Gateway)
    requires m.Valid()
    modifies m
    ensures m.Valid() && m.Snapshot() == RunOps(old(m.Snapshot()), Flat(gw.listeners, ListenerF(gw.ns)))
  {
    hide RunOps, Step, Flat, ValidModel, ListenerF;
    ghost var m0 := m.Snapshot();
    FlatNone(m0, gw.listeners, ListenerF(gw.ns));
    for i := 0 to |gw.listeners|
      invariant m.Valid() && m.Snapshot() == RunOps(m0, Flat(gw.listeners[..i], ListenerF(gw.ns)))
    {
      FlatStep(m0, gw.listeners, i, ListenerF(gw.ns));
      ProjectListener(m, gw.ns, gw.listeners[i]);
    }
  }

  // ---- rules -------------------------------------------------------------------------------------

  function HeaderLines(hs: seq<Header>): (r: seq<string>)
    ensures |r| == |hs| && forall i :: 0 <= i < |r| ==> r[i] == hs[i].name + ": " + hs[i].value
  {
    if hs == [] then []
    else HeaderLines(hs[..|hs| - 1]) + [hs[|hs| - 1].name + ": " + hs[|hs| - 1].value]
  }

  function ChangeLines(c: Option<HeaderFilter>): seq<string> {
    if c.None? then [] else HeaderLines(c.value.set_) + HeaderLines(c.value.add)
  }

  function FilterLines(fs: seq<Filter>, request: bool): seq<string> {
    if fs == [] then []
    else
      var init, last := FilterLines(fs[..|fs| - 1], request), fs[|fs| - 1];
      if !last.OtherFilter? && last.RequestHeaders? == request then init + ChangeLines(last.change) else init
  }

  method ConvertHeaders(change: Option<HeaderFilter>) returns (out: seq<string>)
    ensures out == ChangeLines(change)
  {
    if change.None? {
      return [];
    }
    var f := change.value;
    out := [];
    for i := 0 to |f.set_|
      invariant |out| == i && forall j :: 0 <= j < i ==> out[j] == f.set_[j].name + ": " + f.set_[j].value
    {
      out := out + [f.set_[i].name + ": " + f.set_[i].value];
    }
    assert out == HeaderLines(f.set_);
    for i := 0 to |f.add|
      invariant out == HeaderLines(f.set_) + HeaderLines(f.add)[..i]
    {
      out := out + [f.add[i].name + ": " + f.add[i].value];
    }
  }

  /** headerFilters. */
  method HeaderFilters(filters: seq<Filter>) returns (req: seq<string>, resp: seq<string>)
    ensures req == FilterLines(filters, true) && resp == FilterLines(filters, false)
  {
    req, resp := [], [];
    for i := 0 to |filters|
      invariant req == FilterLines(filters[..i], true) && resp == FilterLines(filters[..i], false)
    {
      assert filters[..i + 1][..i] == filters[..i];
      match filters[i] {
        case RequestHeaders(c) =>
          var lines := ConvertHeaders(c);
          req := req + lines;
        case ResponseHeaders(c) =>
          var lines := ConvertHeaders(c);
          resp := resp + lines;
        case OtherFilter =>
      }
    }
    assert filters[..|filters|] == filters;
  }

  function GwAddr(f: Flags, routeNs: string, br: BackendRef): Option<string> {
    if br.port.None? || (br.kind.Some? && br.kind.value != "Service") then None
    else Some(WithPort(Fqdn(br.name, GetOr(br.ns, routeNs), Domain(f)), br.port.value))
  }

  /** gwBackend. */
  method GwBackend(f: Flags, routeNs: string, br: BackendRef) returns (r: Option<string>)
    ensures r == GwAddr(f, routeNs, br)
  {
    if br.kind.Some? && br.kind.value != "Service" {
      return None;
    }
    var ns := routeNs;
    if br.ns.Some? {
      ns := br.ns.value;
    }
    if br.port.None? {
      return None;
    }
    var domain := f.clusterDomain;
    if domain == "" {
      domain := DEFAULT_DOMAIN;
    }
    return Some(WithPort(Fqdn(br.name, ns, domain), br.port.value));
  }

  ghost predicate Weighted(refs: seq<BackendRef>) {
    exists i :: 0 <= i < |refs| && refs[i].weight.Some?
  }

  /** One backend of a pool: an absent weight counts as one, weight zero takes no traffic. */
  function PoolMember(f: Flags, ns: string, weighted: bool, br: BackendRef): seq<Backend> {
    match GwAddr(f, ns, br)
    case None => []
    case Some(addr) =>
      if !weighted then [Backend(addr, 0)]
      else if GetOr(br.weight, 1) <= 0 then []
      else [Backend(addr, GetOr(br.weight, 1))]
  }

  function Pool(f: Flags, ns: string, weighted: bool, refs: seq<BackendRef>): seq<Backend> {
    if refs == [] then []
    else Pool(f, ns, weighted, refs[..|refs| - 1]) + PoolMember(f, ns, weighted, refs[|refs| - 1])
  }

  /** ruleBackends. */
  method RuleBackends(f: Flags, ns: string, refs: seq<BackendRef>) returns (servers: seq<Backend>)
    ensures servers == Pool(f, ns, Weighted(refs), refs)
  {
    hide GwAddr;
    var weighted := false;
    for i := 0 to |refs|
      invariant !weighted && forall j :: 0 <= j < i ==> refs[j].weight.None?
    {
      if refs[i].weight.Some? {
        weighted := true;
        break;
      }
    }
    servers := [];
    for i := 0 to |refs|
      invariant servers == Pool(f, ns, weighted, refs[..i])
    {
      assert refs[..i + 1][..i] == refs[..i];
      var addr := GwBackend(f, ns, refs[i]);
      if addr.None? {
        continue;
      }
      if !weighted {
        servers := servers + [Backend(addr.value, 0)];
        continue;
      }
      var w := 1;
      if refs[i].weight.Some? {
        w := refs[i].weight.value;
      }
      if w <= 0 {
        continue;
      }
      servers := servers + [Backend(addr.value, w)];
    }
    assert refs[..|refs|] == refs;
  }

  /** Weights are all or none: a pool mixes no weighted and unweighted servers. */
  lemma {:induction false} PoolUniform(f: Flags, ns: string, weighted: bool, refs: seq<BackendRef>)
    ensures forall b :: b in Pool(f, ns, weighted, refs) ==> (b.weight > 0 <==> weighted)
  {
    if refs == [] {
    } else {
      PoolUniform(f, ns, weighted, refs[..|refs| - 1]);
    }
  }

  function MatchPath(mt: Match): string {
    if mt.path.None? || mt.path.value.value.None? || mt.path.value.value.value == "" then "/"
    else mt.path.value.value.value
  }

  predicate IsRegex(mt: Match) { mt.path.Some? && mt.path.value.kind == Some(RegularExpression) }

  function MatchPaths(ms: seq<Match>, regex: bool): seq<string> {
    if ms == [] then []
    else
      var init, last := MatchPaths(ms[..|ms| - 1], regex), ms[|ms| - 1];
      if IsRegex(last) == regex then init + [MatchPath(last)] else init
  }

  /** The prefix paths of a rule; a rule without matches covers everything. */
  function PrefixPaths(ms: seq<Match>): seq<string> { if ms == [] then ["/"] else MatchPaths(ms, false) }

  /** rulePaths. */
  method RulePaths(ms: seq<Match>) returns (paths: seq<string>, regexes: seq<string>)
    ensures paths == PrefixPaths(ms) && regexes == MatchPaths(ms, true)
  {
    if |ms| == 0 {
      return ["/"], [];
    }
    paths, regexes := [], [];
    for i := 0 to |ms|
      invariant paths == MatchPaths(ms[..i], false) && regexes == MatchPaths(ms[..i], true)
    {
      assert ms[..i + 1][..i] == ms[..i];
      var value, kind := "/", PathPrefix;
      if ms[i].path.Some? {
        if ms[i].path.value.kind.Some? {
          kind := ms[i].path.value.kind.value;
        }
        if ms[i].path.value.value.Some? && ms[i].path.value.value.value != "" {
          value := ms[i].path.value.value.value;
        }
      }
      if kind == RegularExpression {
        regexes := regexes + [value];
        continue;
      }
      paths := paths + [value];
    }
    assert ms[..|ms|] == ms;
  }

  // ---- programming routes ----------------------------------------------------------------------------

  /** The rule's pool and headers, shared by its paths and hostnames. */
  datatype RuleParts = RuleParts(servers: seq<Backend>, a: Settings, req: seq<string>, resp: seq<string>)

  function PrefixF(p: RuleParts, path: string): string -> seq<Op>
    requires p.servers != []
  {
    host =>
      if HasPrefix(path, ACME_PREFIX) then [SetAcme(p.servers[0].addr)]
      else [Do(Route(host, path, p.servers, p.a, p.req, p.resp))]
  }

  function PathsF(p: RuleParts, hostnames: seq<string>): string -> seq<Op>
    requires p.servers != []
  {
    path => Flat(hostnames, PrefixF(p, path))
  }

  function RegexHostF(p: RuleParts, regex: string): string -> seq<Op> {
    host => [Do(Regex(host, regex, p.servers, p.a, p.req, p.resp))]
  }

  function RegexesF(p: RuleParts, hostnames: seq<string>): string -> seq<Op> {
    regex => Flat(hostnames, RegexHostF(p, regex))
  }

  function PartsOps(p: RuleParts, hostnames: seq<string>, ms: seq<Match>): seq<Op> {
    if p.servers == [] then []
    else Flat(PrefixPaths(ms), PathsF(p, hostnames)) + Flat(MatchPaths(ms, true), RegexesF(p, hostnames))
  }

  ghost function PartsOf(f: Flags, rt: HttpRoute, rule: RouteRule): RuleParts {
    RuleParts(Pool(f, rt.ns, Weighted(rule.backends), rule.backends), rt.settings,
              FilterLines(rule.filters, true), FilterLines(rule.filters, false))
  }

  ghost function RouteRuleF(f: Flags, rt: HttpRoute): RouteRule -> seq<Op> {
    (rule: RouteRule) => PartsOps(PartsOf(f, rt, rule), rt.hostnames, rule.matches)
  }

  method ProgramPrefix(m: RenderModel, p: RuleParts, path: string, hostnames: seq<string>)
    requires m.Valid() && p.servers != []
    modifies m
    ensures m.Valid() && m.Snapshot() == RunOps(old(m.Snapshot()), Flat(hostnames, PrefixF(p, path)))
  {
    hide RunOps, Step, Flat, ValidModel, Apply, HasPrefix;
    ghost var m0 := m.Snapshot();
    FlatNone(m0, hostnames, PrefixF(p, path));
    for i := 0 to |hostnames|
      invariant m.Valid() && m.Snapshot() == RunOps(m0, Flat(hostnames[..i], PrefixF(p, path)))
    {
      var host := hostnames[i];
      FlatStep(m0, hostnames, i, PrefixF(p, path));
      RunOpsOne(m.Snapshot(), SetAcme(p.servers[0].addr));
      RunOpsOne(m.Snapshot(), Do(Route(host, path, p.servers, p.a, p.req, p.resp)));
      DoIs(m.Snapshot(), Route(host, path, p.servers, p.a, p.req, p.resp));
      if HasPrefix(path, ACME_PREFIX) {
        SetSolver(m, p.servers[0].addr);
        continue;
      }
      var _ := m.AddRoute(host, path, p.servers, p.a, p.req, p.resp);
    }
  }

  lemma DoIs(m: Model, c: Call)
    ensures Step(m, Do(c)) == Apply(m, c)
  {}

  method ProgramRegex(m: RenderModel, p: RuleParts, regex: string, hostnames: seq<string>)
    requires m.Valid()
    modifies m
    ensures m.Valid() && m.Snapshot() == RunOps(old(m.Snapshot()), Flat(hostnames, RegexHostF(p, regex)))
  {
    hide RunOps, Step, Flat, ValidModel, Apply;
    ghost var m0 := m.Snapshot();
    FlatNone(m0, hostnames, RegexHostF(p, regex));
    for i := 0 to |hostnames|
      invariant m.Valid() && m.Snapshot() == RunOps(m0, Flat(hostnames[..i], RegexHostF(p, regex)))
    {
      var host := hostnames[i];
      FlatStep(m0, hostnames, i, RegexHostF(p, regex));
      RunOpsOne(m.Snapshot(), Do(Regex(host, regex, p.servers, p.a, p.req, p.resp)));
      DoIs(m.Snapshot(), Regex(host, regex, p.servers, p.a, p.req, p.resp));
      var _ := m.AddRegexRoute(host, regex, p.servers, p.a, p.req, p.resp);
    }
  }

  method ProgramParts(m: RenderModel, p: RuleParts, hostnames: seq<string>, ms: seq<Match>)
    requires m.Valid() && p.servers != []
    modifies m
    ensures m.Valid() && m.Snapshot() == RunOps(old(m.Snapshot()), PartsOps(p, hostnames, ms))
  {
    hide RunOps, Step, Flat, ValidModel, PrefixPaths, MatchPaths;
    ghost var m0 := m.Snapshot();
    var paths, regexes := RulePaths(ms);
    RunOpsAppend(m0, Flat(paths, PathsF(p, hostnames)), Flat(regexes, RegexesF(p, hostnames)));
    FlatNone(m0, paths, PathsF(p, hostnames));
    for i := 0 to |paths|
      invariant m.Valid() && m.Snapshot() == RunOps(m0, Flat(paths[..i], PathsF(p, hostnames)))
    {
      FlatStep(m0, paths, i, PathsF(p, hostnames));
      ProgramPrefix(m, p, paths[i], hostnames);
    }
    ghost var m1 := m.Snapshot();
    FlatNone(m1, regexes, RegexesF(p, hostnames));
    for i := 0 to |regexes|
      invariant m.Valid() && m.Snapshot() == RunOps(m1, Flat(regexes[..i], RegexesF(p, hostnames)))
    {
      FlatStep(m1, regexes, i, RegexesF(p, hostnames));
      ProgramRegex(m, p, regexes[i], hostnames);
    }
  }

  method ProgramRouteRule(m: RenderModel, f: Flags, rt: HttpRoute, rule: RouteRule)
    requires m.Valid()
    modifies m
    ensures m.Valid() && m.Snapshot() == RunOps(old(m.Snapshot()), RouteRuleF(f, rt)(rule))
  {
    hide RunOps, Step, Flat, ValidModel, Pool, FilterLines, PrefixPaths, MatchPaths, Weighted;
    RunOpsOne(m.Snapshot(), MarkSticky);
    var servers := RuleBackends(f, rt.ns, rule.backends);
    if |servers| == 0 {
      return;
    }
    var req, resp := HeaderFilters(rule.filters);
    ProgramParts(m, RuleParts(servers, rt.settings, req, resp), rt.hostnames, rule.matches);
  }

  /** The route names one of our Gateways as a parent. */
  ghost predicate Bound(rt: HttpRoute, ours: set<(string, string)>) {
    exists i :: 0 <= i < |rt.parents| && ParentOurs(rt, i, ours)
  }

  predicate ParentOurs(rt: HttpRoute, i: nat, ours: set<(string, string)>)
    requires i < |rt.parents|
  {
    var p := rt.parents[i];
    (p.kind.None? || p.kind.value == "Gateway") && (GetOr(p.ns, rt.ns), p.name) in ours
  }

  method IsBound(rt: HttpRoute, ours: set<(string, string)>) returns (bound: bool)
    ensures bound == Bound(rt, ours)
  {
    for i := 0 to |rt.parents|
      invariant forall j :: 0 <= j < i ==> !ParentOurs(rt, j, ours)
    {
      var p := rt.parents[i];
      if p.kind.Some? && p.kind.value != "Gateway" {
        continue;
      }
      var ns := rt.ns;
      if p.ns.Some? {
        ns := p.ns.value;
      }
      if (ns, p.name) in ours {
        assert ParentOurs(rt, i, ours);
        return true;
      }
    }
    return false;
  }

  ghost function HttpRouteOps(f: Flags, ours: set<(string, string)>, rt: HttpRoute): seq<Op> {
    if !Bound(rt, ours) then [] else StickyOps(rt.settings) + Flat(rt.rules, RouteRuleF(f, rt))
  }

  method ProgramHttpRoute(m: RenderModel, f: Flags, ours: set<(string, string)>, rt: HttpRoute)
    requires m.Valid()
    modifies m
    ensures m.Valid() && m.Snapshot() == RunOps(old(m.Snapshot()), HttpRouteOps(f, ours, rt))
  {
    hide RunOps, Step, Flat, ValidModel, Bound, RouteRuleF;
    ghost var m0, g := m.Snapshot(), RouteRuleF(f, rt);
    RunOpsAppend(m0, StickyOps(rt.settings), Flat(rt.rules, g));
    RunOpsOne(m0, MarkSticky);
    var bound := IsBound(rt, ours);
    if !bound {
      return;
    }
    if rt.settings.sticky {
      SetSticky(m);
    }
    ghost var m1 := m.Snapshot();
    FlatNone(m1, rt.rules, g);
    for i := 0 to |rt.rules|
      invariant m.Valid() && m.Snapshot() == RunOps(m1, Flat(rt.rules[..i], g))
    {
      FlatStep(m1, rt.rules, i, g);
      ProgramRouteRule(m, f, rt, rt.rules[i]);
    }
  }

  predicate RouteLe(a: HttpRoute, b: HttpRoute) { NameLe(a.ns, a.name, b.ns, b.name) }

  lemma RouteOrder()
    ensures Preorder(RouteLe)
  {
    hide NameLe;
    forall a, b ensures RouteLe(a, b) || RouteLe(b, a) { NameOrder(a.ns, a.name, b.ns, b.name, a.ns, a.name); }
    forall a, b, c | RouteLe(a, b) && RouteLe(b, c) ensures RouteLe(a, c) {
      NameOrder(a.ns, a.name, b.ns, b.name, c.ns, c.name);
    }
  }

  ghost predicate UniqueRoutes(rts: seq<HttpRoute>) {
    forall a, b :: a in rts && b in rts && a.ns == b.ns && a.name == b.name ==> a == b
  }

  function SortRoutes(rts: seq<HttpRoute>): seq<HttpRoute> {
    RouteOrder();
    Sort(rts, RouteLe)
  }

  lemma SortRoutesPermuted(a: seq<HttpRoute>, b: seq<HttpRoute>)
    requires multiset(a) == multiset(b) && UniqueRoutes(a)
    ensures SortRoutes(a) == SortRoutes(b)
  {
    hide NameLe;
    RouteOrder();
    forall x, y | x in a && y in a && RouteLe(x, y) && RouteLe(y, x) ensures x == y {
      NameOrder(x.ns, x.name, y.ns, y.name, x.ns, x.name);
    }
    SortPermuted(a, b, RouteLe);
  }

  ghost function HttpRouteF(f: Flags, ours: set<(string, string)>): HttpRoute -> seq<Op> {
    (rt: HttpRoute) => HttpRouteOps(f, ours, rt)
  }

  // ---- renderGateways ------------------------------------------------------------------------------

  /** What the API lists; None is a failed list, as when the CRDs are not installed. */
  datatype Listed = Listed(
    classes: Option<seq<GatewayClass>>, gateways: Option<seq<Gateway>>, routes: Option<seq<HttpRoute>>)

  ghost function ClassSet(gcs: seq<GatewayClass>): set<string> {
    set i | 0 <= i < |gcs| && gcs[i].controller == CONTROLLER_NAME :: gcs[i].name
  }

  ghost function GatewaySet(gws: seq<Gateway>, classes: set<string>): set<(string, string)> {
    set i | 0 <= i < |gws| && gws[i].className in classes :: (gws[i].ns, gws[i].name)
  }

  /** The listener certificates, in the order the Gateways are listed. */
  ghost function ListenerOps(l: Listed): seq<Op> {
    if l.classes.None? || ClassSet(l.classes.value) == {} || l.gateways.None? then []
    else Flat(l.gateways.value, GatewayF(ClassSet(l.classes.value)))
  }

  ghost function OurGateways(l: Listed): set<(string, string)> {
    if l.classes.None? || l.gateways.None? then {} else GatewaySet(l.gateways.value, ClassSet(l.classes.value))
  }

  ghost function AllRouteOps(f: Flags, l: Listed): seq<Op> {
    if OurGateways(l) == {} || l.routes.None? then []
    else Flat(SortRoutes(l.routes.value), HttpRouteF(f, OurGateways(l)))
  }

  method RenderGateways(m: RenderModel, f: Flags, l: Listed)
    requires m.Valid()
    modifies m
    ensures m.Valid() && m.Snapshot() == RunOps(old(m.Snapshot()), ListenerOps(l) + AllRouteOps(f, l))
  {
    hide RunOps, Step, Flat, ValidModel, HttpRouteOps, SortRoutes, GatewayF;
    ghost var m0 := m.Snapshot();
    RunOpsAppend(m0, ListenerOps(l), AllRouteOps(f, l));
    RunOpsOne(m0, MarkSticky);
    if l.classes.None? {
      return;
    }
    var classes := OurClasses(l.classes.value);
    assert classes == ClassSet(l.classes.value);
    if |classes| == 0 {
      return;
    }
    if l.gateways.None? {
      return;
    }
    var ours := CollectGateways(m, l.gateways.value, classes);
    assert ours == GatewaySet(l.gateways.value, classes);
    ghost var m1 := m.Snapshot();
    RunOpsOne(m1, MarkSticky);
    if |ours| == 0 {
      return;
    }
    if l.routes.None? {
      return;
    }
    var items := SortRoutes(l.routes.value);
    FlatNone(m1, items, HttpRouteF(f, ours));
    for i := 0 to |items|
      invariant m.Valid() && m.Snapshot() == RunOps(m1, Flat(items[..i], HttpRouteF(f, ours)))
    {
      FlatStep(m1, items, i, HttpRouteF(f, ours));
      ProgramHttpRoute(m, f, ours, items[i]);
    }
  }
}
