/** What Gateways and HTTPRoutes ask for, in the API's terms (controllers/gateway.go). */
module GatewaySpec {
  // The pool, the headers and the paths of a rule, the parents of a route and the certificates of a
  // listener, said of the objects alone; and the operations that come of them.

  import opened Wrappers
  import opened Strings
  import opened Sorting
  import opened RouteModel
  import opened RenderOps
  import opened Endpoints
  import opened Ingress
  import opened Gateway
  import opened IngressSpec

  // ---- pools --------------------------------------------------------------------------------------

  /** A reference to a Service with a port. */
  predicate Reachable(br: BackendRef) { br.port.Some? && (br.kind == None || br.kind == Some("Service")) }

  /** The name of the Service in the cluster's domain, with the port. */
  function TargetText(f: Flags, routeNs: string, br: BackendRef): string
    requires Reachable(br)
  {
    br.name + "." + (if br.ns.Some? then br.ns.value else routeNs) + ".svc."
    + (if |f.clusterDomain| == 0 then "cluster.local" else f.clusterDomain)
    + ":" + IntText(br.port.value)
  }

  /** The traffic a reference gets when some reference of its rule has a weight. */
  function Share(br: BackendRef): int { if br.weight.Some? then br.weight.value else 1 }

  predicate Taken(br: BackendRef, weighted: bool) { Reachable(br) && (weighted ==> Share(br) > 0) }

  /** The references that get traffic, in order. */
  function TakenRefs(refs: seq<BackendRef>, weighted: bool): (r: seq<BackendRef>)
    ensures forall br :: br in r <==> br in refs && Taken(br, weighted)
  {
    if refs == [] then [] else (if Taken(refs[0], weighted) then [refs[0]] else []) + TakenRefs(refs[1..], weighted)
  }

  lemma {:induction false} TakenSnoc(refs: seq<BackendRef>, br: BackendRef, weighted: bool)
    ensures TakenRefs(refs + [br], weighted)
         == TakenRefs(refs, weighted) + if Taken(br, weighted) then [br] else []
  {
    if refs == [] {
      assert (refs + [br])[1..] == [];
    } else {
      assert (refs + [br])[1..] == refs[1..] + [br];
      TakenSnoc(refs[1..], br, weighted);
    }
  }

  lemma MemberIs(f: Flags, ns: string, weighted: bool, br: BackendRef)
    ensures PoolMember(f, ns, weighted, br)
         == if Taken(br, weighted) then [Backend(TargetText(f, ns, br), if weighted then Share(br) else 0)] else []
  {
    hide IntText;
  }

  lemma {:induction false} PoolIs(f: Flags, ns: string, weighted: bool, refs: seq<BackendRef>)
    ensures var pool, taken := Pool(f, ns, weighted, refs), TakenRefs(refs, weighted);
      && |pool| == |taken|
      && forall i :: 0 <= i < |pool| ==>
        taken[i] in refs && Taken(taken[i], weighted)
        && pool[i] == Backend(TargetText(f, ns, taken[i]), if weighted then Share(taken[i]) else 0)
  {
    hide PoolMember, TargetText;
    if refs == [] {
    } else {
      var init, br := refs[..|refs| - 1], refs[|refs| - 1];
      PoolIs(f, ns, weighted, init);
      MemberIs(f, ns, weighted, br);
      assert refs == init + [br];
      TakenSnoc(init, br, weighted);
    }
  }

  /** The pool of a rule: its reachable Services in order. Without any weight they are unweighted;
      with one, each has its own, one when it has none, and a weight of zero takes it out. */
  lemma PoolExactly(f: Flags, ns: string, refs: seq<BackendRef>)
    ensures var weighted := exists br :: br in refs && br.weight != None;
      var pool, taken := Pool(f, ns, Weighted(refs), refs), TakenRefs(refs, weighted);
      && |pool| == |taken|
      && forall i :: 0 <= i < |pool| ==>
        taken[i] in refs && Taken(taken[i], weighted)
        && pool[i].addr == TargetText(f, ns, taken[i])
        && pool[i].weight == if weighted then Share(taken[i]) else 0
  {
    hide TargetText, Taken, Share, Pool, TakenRefs;
    if i :| 0 <= i < |refs| && refs[i].weight.Some? { assert refs[i] in refs; }
    PoolIs(f, ns, Weighted(refs), refs);
    assert Weighted(refs) <==> exists br :: br in refs && br.weight != None;
  }

  // ---- headers ------------------------------------------------------------------------------------

  function HeaderText(h: Header): string { h.name + ": " + h.value }

  function Texts(hs: seq<Header>): seq<string> { seq(|hs|, i requires 0 <= i < |hs| => HeaderText(hs[i])) }

  /** A modifier's lines: what it sets, then what it adds. */
  function ModifierLines(c: HeaderFilter): seq<string> { Texts(c.set_) + Texts(c.add) }

  lemma {:induction false} HeaderLinesAre(hs: seq<Header>)
    ensures HeaderLines(hs) == Texts(hs)
  {
    forall i | 0 <= i < |hs| ensures HeaderLines(hs)[i] == Texts(hs)[i] {}
  }

  /** The lines of request and of response modifiers are kept apart, in the order of the filters. */
  lemma HeadersExactly(before: seq<Filter>, last: Filter)
    ensures FilterLines([], true) == [] && FilterLines([], false) == []
    ensures last == OtherFilter || last == RequestHeaders(None) || last == ResponseHeaders(None) ==>
      FilterLines(before + [last], true) == FilterLines(before, true)
      && FilterLines(before + [last], false) == FilterLines(before, false)
    ensures forall c :: last == RequestHeaders(Some(c)) ==>
      FilterLines(before + [last], true) == FilterLines(before, true) + ModifierLines(c)
      && FilterLines(before + [last], false) == FilterLines(before, false)
    ensures forall c :: last == ResponseHeaders(Some(c)) ==>
      FilterLines(before + [last], true) == FilterLines(before, true)
      && FilterLines(before + [last], false) == FilterLines(before, false) + ModifierLines(c)
  {
    hide Texts, HeaderLines;
    assert (before + [last])[..|before|] == before;
    forall hs ensures HeaderLines(hs) == Texts(hs) { HeaderLinesAre(hs); }
  }

  // ---- paths --------------------------------------------------------------------------------------

  /** The path of a match: its value when it has one, else the root. */
  ghost predicate PathOf(mt: Match, path: string) {
    if mt.path.Some? && mt.path.value.value.Some? && |mt.path.value.value.value| > 0
    then path == mt.path.value.value.value else path == "/"
  }

  /** Only the regular expressions are matched as such; an exact path is matched as a prefix. */
  predicate ByRegex(mt: Match) {
    mt.path.Some? && mt.path.value.kind.Some? && mt.path.value.kind.value.RegularExpression?
  }

  lemma PathOfIs(mt: Match, path: string)
    ensures PathOf(mt, path) <==> path == MatchPath(mt)
    ensures ByRegex(mt) <==> IsRegex(mt)
  {}

  lemma {:induction false} MatchPathsAre(ms: seq<Match>, regex: bool, path: string)
    ensures path in MatchPaths(ms, regex) <==>
            exists mt :: mt in ms && PathOf(mt, path) && ByRegex(mt) == regex
  {
    hide PathOf, ByRegex, MatchPath, IsRegex;
    if ms == [] {
    } else {
      var init, last := ms[..|ms| - 1], ms[|ms| - 1];
      MatchPathsAre(init, regex, path);
      PathOfIs(last, path);
      assert forall mt :: mt in ms <==> mt in init || mt == last;
    }
  }

  /** A rule covers the prefixes and the regexes of its matches, and everything without any. */
  lemma PathsExactly(ms: seq<Match>, path: string)
    ensures path in PrefixPaths(ms) <==>
            if |ms| == 0 then path == "/" else exists mt :: mt in ms && PathOf(mt, path) && !ByRegex(mt)
    ensures path in MatchPaths(ms, true) <==> exists mt :: mt in ms && PathOf(mt, path) && ByRegex(mt)
  {
    hide PathOf, MatchPaths;
    MatchPathsAre(ms, true, path);
    MatchPathsAre(ms, false, path);
  }

  // ---- routes -------------------------------------------------------------------------------------

  /** The Gateway class is one of this controller's. */
  ghost predicate OurClass(l: Listed, name: string) {
    l.classes.Some? && exists gc :: gc in l.classes.value && gc.controller == "gen0sec.com/synapse" && gc.name == name
  }

  ghost predicate OurGateway(l: Listed, ns: string, name: string) {
    l.gateways.Some?
    && exists gw :: gw in l.gateways.value && gw.ns == ns && gw.name == name && OurClass(l, gw.className)
  }

  /** The route has one of our Gateways for a parent, in its own namespace unless it says so. */
  ghost predicate Attached(l: Listed, rt: HttpRoute) {
    exists p :: p in rt.parents && (p.kind == None || p.kind == Some("Gateway"))
                && OurGateway(l, if p.ns.Some? then p.ns.value else rt.ns, p.name)
  }

  lemma OurClassesAre(l: Listed, name: string)
    requires l.classes.Some?
    ensures name in ClassSet(l.classes.value) <==> OurClass(l, name)
  {
    var gcs := l.classes.value;
    if gc :| gc in gcs && gc.controller == "gen0sec.com/synapse" && gc.name == name {
      var i :| 0 <= i < |gcs| && gcs[i] == gc;
    }
  }

  lemma OurGatewaysAre(l: Listed, ns: string, name: string)
    ensures (ns, name) in OurGateways(l) <==> OurGateway(l, ns, name)
  {
    hide OurClass, ClassSet;
    if l.classes.Some? && l.gateways.Some? {
      var gws := l.gateways.value;
      forall c ensures c in ClassSet(l.classes.value) <==> OurClass(l, c) { OurClassesAre(l, c); }
      if gw :| gw in gws && gw.ns == ns && gw.name == name && OurClass(l, gw.className) {
        var i :| 0 <= i < |gws| && gws[i] == gw;
      }
    }
    if l.classes.None? { assert forall c :: !OurClass(l, c) by { NoClasses(l); } }
  }

  lemma NoClasses(l: Listed)
    requires l.classes.None?
    ensures forall c :: !OurClass(l, c)
  {}

  lemma AttachedIs(l: Listed, rt: HttpRoute)
    ensures Attached(l, rt) <==> Bound(rt, OurGateways(l))
  {
    hide OurGateways, OurGateway;
    forall ns, name ensures (ns, name) in OurGateways(l) <==> OurGateway(l, ns, name) { OurGatewaysAre(l, ns, name); }
    if Bound(rt, OurGateways(l)) {
      var i :| 0 <= i < |rt.parents| && ParentOurs(rt, i, OurGateways(l));
      assert rt.parents[i] in rt.parents;
    }
    if p :| p in rt.parents && (p.kind == None || p.kind == Some("Gateway"))
            && OurGateway(l, if p.ns.Some? then p.ns.value else rt.ns, p.name)
    {
      var i :| 0 <= i < |rt.parents| && rt.parents[i] == p;
      assert ParentOurs(rt, i, OurGateways(l));
    }
  }

  /** What a hostname and a path of a rule ask for. */
  ghost predicate PathAsked(rt: HttpRoute, r: RouteRule, pool: seq<Backend>, host: string, path: string, op: Op)
    requires pool != []
  {
    var req, resp := FilterLines(r.filters, true), FilterLines(r.filters, false);
    || (path in PrefixPaths(r.matches) && UnderAcme(path) && op == SetAcme(pool[0].addr))
    || (path in PrefixPaths(r.matches) && !UnderAcme(path)
        && op == Do(Route(host, path, pool, rt.settings, req, resp)))
    || (path in MatchPaths(r.matches, true) && op == Do(Regex(host, path, pool, rt.settings, req, resp)))
  }

  /** What a rule asks for: a route of each hostname and each path with its pool, its headers and
      the settings of the HTTPRoute; under the challenge prefix the solver's address. */
  ghost predicate RuleAsked(f: Flags, rt: HttpRoute, r: RouteRule, op: Op) {
    var pool := Pool(f, rt.ns, Weighted(r.backends), r.backends);
    pool != [] && exists host, path :: host in rt.hostnames && PathAsked(rt, r, pool, host, path, op)
  }

  /** What an HTTPRoute asks for. */
  ghost predicate RouteAsks(f: Flags, rt: HttpRoute, op: Op) {
    (op == MarkSticky && rt.settings.sticky) || exists r :: r in rt.rules && RuleAsked(f, rt, r, op)
  }

  lemma PrefixesAsk(p: RuleParts, hostnames: seq<string>, paths: seq<string>, op: Op)
    requires p.servers != []
    ensures op in Flat(paths, PathsF(p, hostnames)) <==>
      exists host, path :: host in hostnames && path in paths
        && op == if UnderAcme(path) then SetAcme(p.servers[0].addr)
                 else Do(Route(host, path, p.servers, p.a, p.req, p.resp))
  {
    hide Flat, UnderAcme, HasPrefix;
    InFlat(paths, PathsF(p, hostnames), op);
    forall path
      ensures op in PathsF(p, hostnames)(path) <==>
        exists host :: host in hostnames
          && op == if UnderAcme(path) then SetAcme(p.servers[0].addr)
                   else Do(Route(host, path, p.servers, p.a, p.req, p.resp))
    {
      UnderAcmeIs(path);
      InFlat(hostnames, PrefixF(p, path), op);
    }
  }

  lemma RegexesAsk(p: RuleParts, hostnames: seq<string>, regexes: seq<string>, op: Op)
    ensures op in Flat(regexes, RegexesF(p, hostnames)) <==>
      exists host, regex :: host in hostnames && regex in regexes
        && op == Do(Regex(host, regex, p.servers, p.a, p.req, p.resp))
  {
    hide Flat;
    InFlat(regexes, RegexesF(p, hostnames), op);
    forall regex
      ensures op in RegexesF(p, hostnames)(regex) <==>
        exists host :: host in hostnames && op == Do(Regex(host, regex, p.servers, p.a, p.req, p.resp))
    {
      InFlat(hostnames, RegexHostF(p, regex), op);
    }
  }

  lemma RuleAskedIs(f: Flags, rt: HttpRoute, r: RouteRule, op: Op)
    ensures op in RouteRuleF(f, rt)(r) <==> RuleAsked(f, rt, r, op)
  {
    hide Flat, Pool, Weighted, PrefixPaths, MatchPaths, FilterLines, UnderAcme;
    var p := PartsOf(f, rt, r);
    if p.servers != [] {
      var prefixes, regexes := PrefixPaths(r.matches), MatchPaths(r.matches, true);
      PrefixesAsk(p, rt.hostnames, prefixes, op);
      RegexesAsk(p, rt.hostnames, regexes, op);
      assert op in RouteRuleF(f, rt)(r) <==>
        op in Flat(prefixes, PathsF(p, rt.hostnames)) || op in Flat(regexes, RegexesF(p, rt.hostnames));
      if host, path :| host in rt.hostnames && path in prefixes
                       && op == if UnderAcme(path) then SetAcme(p.servers[0].addr)
                                else Do(Route(host, path, p.servers, p.a, p.req, p.resp))
      {
        assert PathAsked(rt, r, p.servers, host, path, op);
      }
      if host, regex :| host in rt.hostnames && regex in regexes
                        && op == Do(Regex(host, regex, p.servers, p.a, p.req, p.resp))
      {
        assert PathAsked(rt, r, p.servers, host, regex, op);
      }
    }
  }

  /** The renderer does what the HTTPRoutes attached to our Gateways ask for, and nothing else. */
  lemma AllRoutesAsk(f: Flags, l: Listed, op: Op)
    ensures op in AllRouteOps(f, l) <==>
      l.routes.Some?
      && exists rt :: rt in l.routes.value && Attached(l, rt) && RouteAsks(f, rt, op)
  {
    hide Flat, OurGateways, Attached, Bound, RuleAsked, RouteRuleF, NameLe;
    if l.routes.Some? {
      RouteOrder();
      var sorted, ours := SortRoutes(l.routes.value), OurGateways(l);
      PermutedMembers(sorted, l.routes.value);
      InFlat(sorted, HttpRouteF(f, ours), op);
      forall rt: HttpRoute
        ensures op in HttpRouteF(f, ours)(rt) <==> Attached(l, rt) && RouteAsks(f, rt, op)
        ensures Attached(l, rt) ==> ours != {}
      {
        AttachedIs(l, rt);
        BoundSome(rt, ours);
        InFlat(rt.rules, RouteRuleF(f, rt), op);
        forall r: RouteRule ensures op in RouteRuleF(f, rt)(r) <==> RuleAsked(f, rt, r, op) {
          RuleAskedIs(f, rt, r, op);
        }
      }
    }
  }

  /** They are taken by namespace, and within a namespace by name. */
  lemma TakenInOrder(rts: seq<HttpRoute>, i: nat, j: nat)
    requires i < j < |SortRoutes(rts)|
    ensures multiset(SortRoutes(rts)) == multiset(rts)
    ensures var a, b := SortRoutes(rts)[i], SortRoutes(rts)[j];
      if a.ns == b.ns then StrLe(a.name, b.name) else StrLe(a.ns, b.ns)
  {
    RouteOrder();
  }

  lemma BoundSome(rt: HttpRoute, ours: set<(string, string)>)
    ensures Bound(rt, ours) ==> ours != {}
  {}

  // ---- listeners ----------------------------------------------------------------------------------

  predicate RefAsks(ns: string, li: Listener, cr: CertRef, c: Call) {
    && (cr.kind == None || cr.kind == Some("Secret"))
    && CertFor(c, if li.hostname.Some? then li.hostname.value else "", if cr.ns.Some? then cr.ns.value else ns, cr.name)
  }

  /** A certificate of a terminating listener: a Secret, in the Gateway's namespace unless the
      reference says so, for the listener's hostname. */
  ghost predicate ListenerAsks(ns: string, li: Listener, op: Op) {
    && li.tls.Some? && (li.tls.value.mode == None || li.tls.value.mode == Some("Terminate"))
    && op.Do? && exists cr :: cr in li.tls.value.refs && RefAsks(ns, li, cr, op.call)
  }

  lemma ListenerAsksIs(ns: string, li: Listener, op: Op)
    ensures op in ListenerF(ns)(li) <==> ListenerAsks(ns, li, op)
  {
    hide Flat, CertOp, CertFor;
    if li.tls.Some? {
      var host := GetOr(li.hostname, "");
      InFlat(li.tls.value.refs, RefOps(ns, host), op);
      forall cr: CertRef
        ensures op == CertOp(host, GetOr(cr.ns, ns), cr.name) <==>
                op.Do? && CertFor(op.call, host, GetOr(cr.ns, ns), cr.name)
      {
        CertOpIs(op, host, GetOr(cr.ns, ns), cr.name);
      }
    }
  }

  /** The certificates of the listeners of our Gateways, and no others. */
  lemma AllListenersAsk(l: Listed, op: Op)
    ensures op in ListenerOps(l) <==>
      l.gateways.Some?
      && exists gw, li :: gw in l.gateways.value && OurClass(l, gw.className) && li in gw.listeners
                          && ListenerAsks(gw.ns, li, op)
  {
    hide Flat, OurClass, ClassSet, ListenerF, ListenerAsks;
    if l.classes.None? { NoClasses(l); }
    if l.classes.Some? && l.gateways.Some? {
      var classes := ClassSet(l.classes.value);
      forall c ensures c in classes <==> OurClass(l, c) { OurClassesAre(l, c); }
      InFlat(l.gateways.value, GatewayF(classes), op);
      forall gw: Gateway
        ensures op in GatewayF(classes)(gw) <==>
          OurClass(l, gw.className) && exists li :: li in gw.listeners && ListenerAsks(gw.ns, li, op)
      {
        InFlat(gw.listeners, ListenerF(gw.ns), op);
        forall li: Listener ensures op in ListenerF(gw.ns)(li) <==> ListenerAsks(gw.ns, li, op) {
          ListenerAsksIs(gw.ns, li, op);
        }
      }
    }
  }
}
