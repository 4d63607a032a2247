/** What every rendered route can count on (ingress_controller.go, gateway.go). */
module RouteServing {
  // A route without servers would answer every request with an error, and a route keyed under the
  // ACME challenge path would shadow it: neither reaches the rendered model. (A route keyed "/"
  // still is a prefix of the challenge path.)

  import opened Wrappers
  import opened Strings
  import opened RouteModel
  import opened RenderOps
  import opened Endpoints
  import opened Ingress
  import opened Gateway
  import opened Render

  /** A route is only asked for with servers, and never as a prefix under the challenge path. */
  predicate OpServes(op: Op) {
    match op
    case Do(Route(_, path, servers, _, _, _)) => servers != [] && !HasPrefix(path, ACME_PREFIX)
    case Do(Regex(_, _, servers, _, _, _)) => servers != []
    case _ => true
  }

  ghost predicate AllServe(ops: seq<Op>) {
    forall op :: op in ops ==> OpServes(op)
  }

  /** Every route of the model has servers, and no prefix route is keyed under the challenge
      path. */
  ghost predicate ModelServes(m: Model) {
    forall h, k :: Terminates(m, h, k) ==> CfgServes(k, m.hosts[h][k])
  }

  predicate CfgServes(key: string, rc: RouteCfg) {
    rc.servers != [] && (rc.matchExpr == "" ==> !HasPrefix(key, ACME_PREFIX))
  }

  // ---- the model ------------------------------------------------------------------------

  lemma {:induction false} TrimmedStart(s: string)
    ensures TrimRightSlashes(s) <= s
  {
    if s == [] || s[|s| - 1] != '/' {
    } else {
      TrimmedStart(s[..|s| - 1]);
    }
  }

  lemma KeyOutside(path: string)
    requires !HasPrefix(path, ACME_PREFIX)
    ensures !HasPrefix(RouteKey(path), ACME_PREFIX)
  {
    hide TrimRightSlashes;
    TrimmedStart(path);
  }

  lemma WriteServes(c: Call)
    requires OpServes(Do(c)) && Write(c).Some?
    ensures CfgServes(Write(c).value.0, Write(c).value.1)
  {
    hide RouteKey, HasPrefix, Layout.Quote;
    match c {
      case Route(_, path, _, _, _, _) => KeyOutside(path);
      case Regex(_, regex, _, _, _, _) => assert RegexExpr(regex)[0] == 'h';
      case _ =>
    }
  }

  lemma ClaimServes(m: Model, host: string, key: string, rc: RouteCfg, sticky: bool)
    requires ModelServes(m) && CfgServes(key, rc)
    ensures ModelServes(Claim(m, host, key, rc, sticky))
  {
    hide CfgServes;
    var m' := Claim(m, host, key, rc, sticky);
    forall h, k | Terminates(m', h, k) ensures CfgServes(k, m'.hosts[h][k]) {
      assert Terminates(m, h, k) || (h == host && k == key);
    }
  }

  lemma StepServes(m: Model, op: Op)
    requires ModelServes(m) && OpServes(op)
    ensures ModelServes(Step(m, op))
  {
    hide CfgServes, Claim, Write, OpServes;
    if op.Do? && (op.call.Route? || op.call.Regex?) {
      if Write(op.call).Some? {
        WriteServes(op.call);
        var (key, rc) := Write(op.call).value;
        ClaimServes(m, op.call.host, key, rc, op.call.a.sticky);
      }
    } else {
      assert forall h, k :: Terminates(Step(m, op), h, k) <==> Terminates(m, h, k);
    }
  }

  lemma {:induction false} RunServes(m: Model, ops: seq<Op>)
    requires ModelServes(m) && AllServe(ops)
    ensures ModelServes(RunOps(m, ops))
  {
    hide Step, ModelServes, OpServes;
    if ops == [] {
    } else {
      RunServes(m, ops[..|ops| - 1]);
      StepServes(RunOps(m, ops[..|ops| - 1]), ops[|ops| - 1]);
    }
  }

  // ---- the sources -----------------------------------------------------------------------

  lemma FlatServes<T>(xs: seq<T>, f: T -> seq<Op>)
    requires forall i :: 0 <= i < |xs| ==> AllServe(f(xs[i]))
    ensures AllServe(Flat(xs, f))
  {
    hide Flat, OpServes;
    forall op | op in Flat(xs, f) ensures OpServes(op) {
      FlatMembers(xs, f, op);
    }
  }

  lemma BothServe(a: seq<Op>, b: seq<Op>)
    requires AllServe(a) && AllServe(b)
    ensures AllServe(a + b)
  {
    hide OpServes;
  }

  lemma CertsServe(host: string, ns: string, secret: string)
    ensures AllServe([CertOp(host, ns, secret)])
  {}

  lemma TlsServes(ing: Ingress, t: IngressTls)
    ensures AllServe(TlsF(ing)(t))
  {
    hide AllServe, Flat, CertOp;
    CertsServe("", ing.ns, t.secretName);
    NothingServes();
    forall i | 0 <= i < |TlsHosts(ing, t)| ensures AllServe(CertF(ing.ns, t.secretName)(TlsHosts(ing, t)[i])) {
      CertsServe(TlsHosts(ing, t)[i], ing.ns, t.secretName);
    }
    FlatServes(TlsHosts(ing, t), CertF(ing.ns, t.secretName));
  }

  lemma NothingServes()
    ensures AllServe([])
  {}

  lemma TargetsServe(ing: Ingress, host: string, path: string, servers: seq<Backend>)
    requires servers != [] && (ing.settings.useRegex || !HasPrefix(path, ACME_PREFIX))
    ensures AllServe(TargetOps(ing, host, path, servers))
  {
    hide HasPrefix, Flat;
    var f := AliasF(ing, host, path, servers);
    forall i | 0 <= i < |ing.settings.serverAliases| ensures AllServe(f(ing.settings.serverAliases[i])) {}
    FlatServes(ing.settings.serverAliases, f);
    BothServe([Do(RouteCall(ing, host, path, servers))], Flat(ing.settings.serverAliases, f));
  }

  lemma PathServes(v: View, f: Flags, ing: Ingress, host: string, p: HttpPath)
    ensures AllServe(PathOps(v, f, ing, host, p))
  {
    hide AllServe, HasPrefix, TargetOps, LiveAddrs, AddrOf, SolverOps;
    NothingServes();
    SolverServes(v, f, ing.ns, p.backend);
    var servers := ServersOf(v, f, ing.ns, p.backend);
    if servers.Some? && (ing.settings.useRegex || !HasPrefix(PathText(p), ACME_PREFIX)) {
      TargetsServe(ing, host, PathText(p), servers.value);
    }
  }

  lemma SolverServes(v: View, f: Flags, ns: string, backend: Option<ServiceRef>)
    ensures AllServe(SolverOps(v, f, ns, backend))
  {
    hide AddrOf;
  }

  lemma RuleServes(v: View, f: Flags, ing: Ingress, rule: IngressRule)
    ensures AllServe(RuleOps(v, f, ing, rule))
  {
    hide PathOps, FirstAddr, Flat;
    if rule.http.Some? {
      var paths := rule.http.value;
      forall i | 0 <= i < |paths| ensures AllServe(PathF(v, f, ing, rule.host)(paths[i])) {
        PathServes(v, f, ing, rule.host, paths[i]);
      }
      FlatServes(paths, PathF(v, f, ing, rule.host));
    }
  }

  lemma StickyServes(a: Settings)
    ensures AllServe(StickyOps(a))
  {}

  lemma IngressServes(v: View, f: Flags, ing: Ingress)
    ensures AllServe(IngressOps(v, f, ing))
  {
    hide AllServe, TlsF, RuleOps, Flat, StickyOps;
    StickyServes(ing.settings);
    forall i | 0 <= i < |ing.tls| ensures AllServe(TlsF(ing)(ing.tls[i])) { TlsServes(ing, ing.tls[i]); }
    forall i | 0 <= i < |ing.rules| ensures AllServe(RuleF(v, f, ing)(ing.rules[i])) {
      RuleServes(v, f, ing, ing.rules[i]);
    }
    FlatServes(ing.tls, TlsF(ing));
    FlatServes(ing.rules, RuleF(v, f, ing));
    BothServe(StickyOps(ing.settings), Flat(ing.tls, TlsF(ing)));
    BothServe(StickyOps(ing.settings) + Flat(ing.tls, TlsF(ing)), Flat(ing.rules, RuleF(v, f, ing)));
  }

  lemma IngressesServe(v: View, f: Flags, className: string, classes: Option<seq<IngressClass>>, ings: seq<Ingress>)
    ensures AllServe(AllIngressOps(v, f, className, classes, ings))
  {
    hide AllServe, IngressOps, Flat, SortIngresses, DefaultOurs, IsOurs;
    var items, g := SortIngresses(ings), OursF(v, f, className, DefaultOurs(classes));
    NothingServes();
    forall i | 0 <= i < |items| ensures AllServe(g(items[i])) { IngressServes(v, f, items[i]); }
    FlatServes(items, g);
  }

  lemma PartsServe(p: RuleParts, hostnames: seq<string>, ms: seq<Match>)
    ensures AllServe(PartsOps(p, hostnames, ms))
  {
    hide AllServe, Flat, PrefixPaths, MatchPaths;
    NothingServes();
    if p.servers != [] {
      forall i | 0 <= i < |PrefixPaths(ms)| ensures AllServe(PathsF(p, hostnames)(PrefixPaths(ms)[i])) {
        PrefixServes(p, PrefixPaths(ms)[i], hostnames);
      }
      forall i | 0 <= i < |MatchPaths(ms, true)| ensures AllServe(RegexesF(p, hostnames)(MatchPaths(ms, true)[i])) {
        RegexServes(p, MatchPaths(ms, true)[i], hostnames);
      }
      FlatServes(PrefixPaths(ms), PathsF(p, hostnames));
      FlatServes(MatchPaths(ms, true), RegexesF(p, hostnames));
      BothServe(Flat(PrefixPaths(ms), PathsF(p, hostnames)), Flat(MatchPaths(ms, true), RegexesF(p, hostnames)));
    }
  }

  lemma PrefixServes(p: RuleParts, path: string, hostnames: seq<string>)
    requires p.servers != []
    ensures AllServe(Flat(hostnames, PrefixF(p, path)))
  {
    hide HasPrefix, Flat;
    forall i | 0 <= i < |hostnames| ensures AllServe(PrefixF(p, path)(hostnames[i])) {}
    FlatServes(hostnames, PrefixF(p, path));
  }

  lemma RegexServes(p: RuleParts, regex: string, hostnames: seq<string>)
    requires p.servers != []
    ensures AllServe(Flat(hostnames, RegexHostF(p, regex)))
  {
    hide Flat;
    forall i | 0 <= i < |hostnames| ensures AllServe(RegexHostF(p, regex)(hostnames[i])) {}
    FlatServes(hostnames, RegexHostF(p, regex));
  }

  lemma HttpRouteServes(f: Flags, ours: set<(string, string)>, rt: HttpRoute)
    ensures AllServe(HttpRouteOps(f, ours, rt))
  {
    hide AllServe, Flat, PartsOps, PartsOf, Bound, StickyOps;
    NothingServes();
    StickyServes(rt.settings);
    forall i | 0 <= i < |rt.rules| ensures AllServe(RouteRuleF(f, rt)(rt.rules[i])) {
      PartsServe(PartsOf(f, rt, rt.rules[i]), rt.hostnames, rt.rules[i].matches);
    }
    FlatServes(rt.rules, RouteRuleF(f, rt));
    BothServe(StickyOps(rt.settings), Flat(rt.rules, RouteRuleF(f, rt)));
  }

  lemma GatewaysServe(c: Cluster, cfg: Config)
    ensures AllServe(GatewayApiOps(c, cfg))
  {
    hide AllServe, ListenerOps, AllRouteOps;
    NothingServes();
    ListenersServe(c.listed);
    RoutesServe(cfg.flags, c.listed);
    BothServe(ListenerOps(c.listed), AllRouteOps(cfg.flags, c.listed));
  }

  lemma ListenersServe(l: Listed)
    ensures AllServe(ListenerOps(l))
  {
    hide ListenerOps;
    forall op | op in ListenerOps(l) ensures OpServes(op) { ListenerOpsHostStem(l, op); }
  }

  lemma RoutesServe(f: Flags, l: Listed)
    ensures AllServe(AllRouteOps(f, l))
  {
    hide AllServe, Flat, HttpRouteOps, SortRoutes, OurGateways;
    NothingServes();
    if l.routes.Some? {
      var items, g := SortRoutes(l.routes.value), HttpRouteF(f, OurGateways(l));
      forall i | 0 <= i < |items| ensures AllServe(g(items[i])) { HttpRouteServes(f, OurGateways(l), items[i]); }
      FlatServes(items, g);
    }
  }

  /** For every cluster: each rendered route has at least one server, and no prefix route is
      keyed under the ACME challenge path. */
  lemma EveryRouteServes(c: Cluster, cfg: Config, ings: seq<Ingress>)
    ensures ModelServes(ClusterModel(c, cfg, ings))
  {
    hide AllServe, CfgServes, RunOps, AllIngressOps, GatewayApiOps;
    var ops := AllIngressOps(c.view, cfg.flags, cfg.className, c.classes, ings);
    assert ModelServes(EMPTY_MODEL);
    IngressesServe(c.view, cfg.flags, cfg.className, c.classes, ings);
    RunServes(EMPTY_MODEL, ops);
    GatewaysServe(c, cfg);
    RunServes(RunOps(EMPTY_MODEL, ops), GatewayApiOps(c, cfg));
  }
}
