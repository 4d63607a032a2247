/** The Ingress half of the renderer: render in controllers/ingress_controller.go. */
module Ingress {
  import opened Wrappers
  import opened Strings
  import opened Sorting
  import opened RouteModel
  import opened RenderOps
  import opened Endpoints
  import opened CertNames

  datatype HttpPath = HttpPath(path: string, backend: Option<ServiceRef>)

  datatype IngressRule = IngressRule(host: string, http: Option<seq<HttpPath>>)

  datatype IngressTls = IngressTls(hosts: seq<string>, secretName: string)

  /** settings: the parsed annotations; classAnnotation: the legacy class annotation. */
  datatype Ingress = Ingress(
    ns: string,
    name: string,
    className: Option<string>,
    classAnnotation: string,
    settings: Settings,
    tls: seq<IngressTls>,
    rules: seq<IngressRule>)

  datatype IngressClass = IngressClass(name: string, controller: string, isDefault: string)

  const CONTROLLER_NAME := "gen0sec.com/synapse"
  const ACME_PREFIX := "/.well-known/acme-challenge"

  // ---- which Ingresses are ours ------------------------------------------------------

  predicate IsOurs(ing: Ingress, className: string, defaultOurs: bool) {
    if ing.className.Some? then ing.className.value == className
    else if TrimSpace(ing.classAnnotation) != "" then TrimSpace(ing.classAnnotation) == className
    else defaultOurs
  }

  ghost predicate DefaultOurs(classes: Option<seq<IngressClass>>) {
    classes.Some? && exists c :: c in classes.value && c.controller == CONTROLLER_NAME && c.isDefault == "true"
  }

  method DefaultClassIsOurs(classes: Option<seq<IngressClass>>) returns (ours: bool)
    ensures ours == DefaultOurs(classes)
  {
    if classes.None? {
      return false;
    }
    for i := 0 to |classes.value|
      invariant forall j :: 0 <= j < i ==>
        classes.value[j].controller != CONTROLLER_NAME || classes.value[j].isDefault != "true"
    {
      if classes.value[i].controller != CONTROLLER_NAME {
        continue;
      }
      if classes.value[i].isDefault == "true" {
        return true;
      }
    }
    return false;
  }

  // ---- certificates ---------------------------------------------------------------------

  function CertOp(host: string, ns: string, secret: string): Op {
    Do(Cert(if HostBound(host) then host else "", CertStem(host, ns, secret), ns, secret))
  }

  function CertF(ns: string, secret: string): string -> seq<Op> { host => [CertOp(host, ns, secret)] }

  method AddHostCert(m: RenderModel, host: string, ns: string, secret: string)
    requires m.Valid()
    modifies m
    ensures m.Valid() && m.Snapshot() == Step(old(m.Snapshot()), CertOp(host, ns, secret))
  {
    var stem := CertStem(host, ns, secret);
    if HostBound(host) {
      m.AddCert(host, stem, ns, secret);
    } else {
      m.AddCert("", stem, ns, secret);
    }
  }

  function RuleHosts(rules: seq<IngressRule>): seq<string> {
    if rules == [] then []
    else
      var init, last := RuleHosts(rules[..|rules| - 1]), rules[|rules| - 1];
      if last.host != "" then init + [last.host] else init
  }

  /** The hosts one TLS entry covers: its own, or those of the rules. */
  function TlsHosts(ing: Ingress, t: IngressTls): seq<string> {
    if t.hosts == [] then RuleHosts(ing.rules) else t.hosts
  }

  function TlsF(ing: Ingress): IngressTls -> seq<Op> {
    (t: IngressTls) =>
      if t.secretName == "" then []
      else if TlsHosts(ing, t) == [] then [CertOp("", ing.ns, t.secretName)]
      else Flat(TlsHosts(ing, t), CertF(ing.ns, t.secretName))
  }

  method ProjectTls(m: RenderModel, ing: Ingress, t: IngressTls)
    requires m.Valid()
    modifies m
    ensures m.Valid() && m.Snapshot() == RunOps(old(m.Snapshot()), TlsF(ing)(t))
  {
    hide RunOps, Step, Flat, Apply, CertOp, ValidModel;
    ghost var m0 := m.Snapshot();
    RunOpsOne(m0, CertOp("", ing.ns, t.secretName));
    if t.secretName == "" {
      return;
    }
    var hosts := t.hosts;
    if |hosts| == 0 {
      for i := 0 to |ing.rules|
        invariant hosts == RuleHosts(ing.rules[..i])
        invariant m.Valid() && m.Snapshot() == m0
      {
        assert ing.rules[..i + 1][..i] == ing.rules[..i];
        if ing.rules[i].host != "" {
          hosts := hosts + [ing.rules[i].host];
        }
      }
      assert ing.rules[..|ing.rules|] == ing.rules;
    }
    if |hosts| == 0 {
      AddHostCert(m, "", ing.ns, t.secretName);
      return;
    }
    ProjectHosts(m, hosts, ing.ns, t.secretName);
  }

  method ProjectHosts(m: RenderModel, hosts: seq<string>, ns: string, secret: string)
    requires m.Valid()
    modifies m
    ensures m.Valid() && m.Snapshot() == RunOps(old(m.Snapshot()), Flat(hosts, CertF(ns, secret)))
  {
    hide RunOps, Step, Flat, Apply, CertOp, ValidModel;
    ghost var m0 := m.Snapshot();
    FlatNone(m0, hosts, CertF(ns, secret));
    for i := 0 to |hosts|
      invariant m.Valid() && m.Snapshot() == RunOps(m0, Flat(hosts[..i], CertF(ns, secret)))
    {
      FlatStep(m0, hosts, i, CertF(ns, secret));
      RunOpsOne(m.Snapshot(), CertOp(hosts[i], ns, secret));
      AddHostCert(m, hosts[i], ns, secret);
    }
  }

  // ---- routes -----------------------------------------------------------------------------

  function RouteCall(ing: Ingress, host: string, path: string, servers: seq<Backend>): Call {
    if ing.settings.useRegex then Regex(host, path, servers, ing.settings, [], [])
    else Route(host, path, servers, ing.settings, [], [])
  }

  function AliasF(ing: Ingress, host: string, path: string, servers: seq<Backend>): string -> seq<Op> {
    alias => if alias == "" || alias == host then [] else [Do(RouteCall(ing, alias, path, servers))]
  }

  /** The route under its host and under every server alias. */
  function TargetOps(ing: Ingress, host: string, path: string, servers: seq<Backend>): seq<Op> {
    [Do(RouteCall(ing, host, path, servers))] + Flat(ing.settings.serverAliases, AliasF(ing, host, path, servers))
  }

  function PathText(p: HttpPath): string { if p.path == "" then "/" else p.path }

  /** The Service address of a backend. */
  function SolverOps(v: View, f: Flags, ns: string, backend: Option<ServiceRef>): seq<Op> {
    if backend.None? then []
    else
      match AddrOf(v, f, ns, backend.value)
      case Some(addr) => [SetAcme(addr)]
      case None => []
  }

  ghost function PathOps(v: View, f: Flags, ing: Ingress, host: string, p: HttpPath): seq<Op> {
    var servers := ServersOf(v, f, ing.ns, p.backend);
    if servers.None? then []
    else if !ing.settings.useRegex && HasPrefix(PathText(p), ACME_PREFIX) then SolverOps(v, f, ing.ns, p.backend)
    else TargetOps(ing, host, PathText(p), servers.value)
  }

  method AddTarget(m: RenderModel, ing: Ingress, host: string, path: string, servers: seq<Backend>)
    requires m.Valid()
    modifies m
    ensures m.Valid() && m.Snapshot() == Step(old(m.Snapshot()), Do(RouteCall(ing, host, path, servers)))
  {
    if ing.settings.useRegex {
      var _ := m.AddRegexRoute(host, path, servers, ing.settings, [], []);
    } else {
      var _ := m.AddRoute(host, path, servers, ing.settings, [], []);
    }
  }

  /** A route and its aliases. */
  method AddTargets(m: RenderModel, ing: Ingress, host: string, path: string, servers: seq<Backend>)
    requires m.Valid()
    modifies m
    ensures m.Valid() && m.Snapshot() == RunOps(old(m.Snapshot()), TargetOps(ing, host, path, servers))
  {
    hide RunOps, Step, Flat, Apply, ValidModel, RouteCall;
    ghost var m0 := m.Snapshot();
    ghost var first, f := Do(RouteCall(ing, host, path, servers)), AliasF(ing, host, path, servers);
    var aliases := ing.settings.serverAliases;
    RunOpsAppend(m0, [first], Flat(aliases, f));
    RunOpsOne(m0, first);
    AddTarget(m, ing, host, path, servers);
    ghost var m1 := m.Snapshot();
    FlatNone(m1, aliases, f);
    for i := 0 to |aliases|
      invariant m.Valid() && m.Snapshot() == RunOps(m1, Flat(aliases[..i], f))
    {
      var alias := aliases[i];
      FlatStep(m1, aliases, i, f);
      RunOpsOne(m.Snapshot(), Do(RouteCall(ing, alias, path, servers)));
      if alias == "" || alias == host {
        continue;
      }
      AddTarget(m, ing, alias, path, servers);
    }
  }

  method ProgramPath(m: RenderModel, v: View, f: Flags, ing: Ingress, host: string, p: HttpPath)
    requires m.Valid()
    modifies m
    ensures m.Valid() && m.Snapshot() == RunOps(old(m.Snapshot()), PathOps(v, f, ing, host, p))
  {
    hide RunOps, Step, Apply, ValidModel, ServersOf, AddrOf, TargetOps, HasPrefix;
    ghost var m0 := m.Snapshot();
    var servers := BackendServers(v, f, ing.ns, p.backend);
    RunOpsOne(m0, MarkSticky);
    if servers.None? {
      return;
    }
    var path := p.path;
    if path == "" {
      path := "/";
    }
    if ing.settings.useRegex {
      AddTargets(m, ing, host, path, servers.value);
      return;
    }
    if HasPrefix(path, ACME_PREFIX) {
      var addr := BackendAddr(v, f, ing.ns, p.backend);
      if addr.Some? {
        RunOpsOne(m0, SetAcme(addr.value));
        SetSolver(m, addr.value);
      }
      return;
    }
    AddTargets(m, ing, host, path, servers.value);
  }

  ghost function PathF(v: View, f: Flags, ing: Ingress, host: string): HttpPath -> seq<Op> {
    (p: HttpPath) => PathOps(v, f, ing, host, p)
  }

  /** The first backend with an address. */
  function FirstAddr(v: View, f: Flags, ns: string, paths: seq<HttpPath>): Option<string> {
    if paths == [] then None
    else if paths[0].backend.Some? && AddrOf(v, f, ns, paths[0].backend.value).Some? then
      AddrOf(v, f, ns, paths[0].backend.value)
    else FirstAddr(v, f, ns, paths[1..])
  }

  ghost function RuleOps(v: View, f: Flags, ing: Ingress, rule: IngressRule): seq<Op> {
    if rule.host == "" || rule.http.None? then []
    else if ing.settings.passthrough then
      match FirstAddr(v, f, ing.ns, rule.http.value)
      case Some(addr) => [Do(Passthrough(rule.host, addr))]
      case None => []
    else Flat(rule.http.value, PathF(v, f, ing, rule.host))
  }

  lemma AddrNotEmpty(v: View, f: Flags, ns: string, b: ServiceRef)
    requires AddrOf(v, f, ns, b).Some?
    ensures AddrOf(v, f, ns, b).value != ""
  {}

  /** The passthrough target: the first resolvable backend, "" for none. */
  method PassthroughTarget(v: View, f: Flags, ns: string, paths: seq<HttpPath>) returns (addr: string)
    ensures FirstAddr(v, f, ns, paths) == if addr == "" then None else Some(addr)
  {
    hide AddrOf;
    for i := 0 to |paths|
      invariant FirstAddr(v, f, ns, paths) == FirstAddr(v, f, ns, paths[i..])
    {
      var a := BackendAddr(v, f, ns, paths[i].backend);
      if a.Some? {
        AddrNotEmpty(v, f, ns, paths[i].backend.value);
        return a.value;
      }
    }
    return "";
  }

  method ProgramRule(m: RenderModel, v: View, f: Flags, ing: Ingress, rule: IngressRule)
    requires m.Valid()
    modifies m
    ensures m.Valid() && m.Snapshot() == RunOps(old(m.Snapshot()), RuleOps(v, f, ing, rule))
  {
    hide RunOps, Flat, PathOps, FirstAddr, ValidModel, Apply;
    ghost var m0 := m.Snapshot();
    RunOpsOne(m0, MarkSticky);
    var host := rule.host;
    if host == "" || rule.http.None? {
      return;
    }
    var paths := rule.http.value;
    if ing.settings.passthrough {
      var target := PassthroughTarget(v, f, ing.ns, paths);
      if target == "" {
        return;
      }
      RunOpsOne(m0, Do(Passthrough(host, target)));
      var _ := m.AddPassthroughHost(host, target);
      return;
    }
    ghost var g := PathF(v, f, ing, host);
    FlatNone(m0, paths, g);
    for i := 0 to |paths|
      invariant m.Valid() && m.Snapshot() == RunOps(m0, Flat(paths[..i], g))
    {
      FlatStep(m0, paths, i, g);
      ProgramPath(m, v, f, ing, host, paths[i]);
    }
  }

  ghost function RuleF(v: View, f: Flags, ing: Ingress): IngressRule -> seq<Op> {
    (rule: IngressRule) => RuleOps(v, f, ing, rule)
  }

  function StickyOps(a: Settings): seq<Op> { if a.sticky then [MarkSticky] else [] }

  /** Everything one Ingress does to the model. */
  ghost function IngressOps(v: View, f: Flags, ing: Ingress): seq<Op> {
    StickyOps(ing.settings) + Flat(ing.tls, TlsF(ing)) + Flat(ing.rules, RuleF(v, f, ing))
  }

  method ProgramIngress(m: RenderModel, v: View, f: Flags, ing: Ingress)
    requires m.Valid()
    modifies m
    ensures m.Valid() && m.Snapshot() == RunOps(old(m.Snapshot()), IngressOps(v, f, ing))
  {
    hide RunOps, Step, Flat, RuleOps, ValidModel;
    ghost var m0, sticky := m.Snapshot(), StickyOps(ing.settings);
    ghost var tlsF, ruleF := TlsF(ing), RuleF(v, f, ing);
    RunOpsAppend(m0, sticky + Flat(ing.tls, tlsF), Flat(ing.rules, ruleF));
    RunOpsAppend(m0, sticky, Flat(ing.tls, tlsF));
    RunOpsOne(m0, MarkSticky);
    if ing.settings.sticky {
      SetSticky(m);
    }
    ghost var m1 := m.Snapshot();
    FlatNone(m1, ing.tls, tlsF);
    for i := 0 to |ing.tls|
      invariant m.Valid() && m.Snapshot() == RunOps(m1, Flat(ing.tls[..i], tlsF))
    {
      FlatStep(m1, ing.tls, i, tlsF);
      ProjectTls(m, ing, ing.tls[i]);
    }
    ghost var m2 := m.Snapshot();
    FlatNone(m2, ing.rules, ruleF);
    for i := 0 to |ing.rules|
      invariant m.Valid() && m.Snapshot() == RunOps(m2, Flat(ing.rules[..i], ruleF))
    {
      FlatStep(m2, ing.rules, i, ruleF);
      ProgramRule(m, v, f, ing, ing.rules[i]);
    }
  }

  // ---- all Ingresses, in name order -----------------------------------------------------------

  predicate NameLe(ns: string, name: string, ns': string, name': string) {
    if ns != ns' then StrLe(ns, ns') else StrLe(name, name')
  }

  lemma NameOrder(ns: string, name: string, ns': string, name': string, ns'': string, name'': string)
    ensures NameLe(ns, name, ns', name') || NameLe(ns', name', ns, name)
    ensures NameLe(ns, name, ns', name') && NameLe(ns', name', ns'', name'') ==> NameLe(ns, name, ns'', name'')
    ensures NameLe(ns, name, ns', name') && NameLe(ns', name', ns, name) ==> ns == ns' && name == name'
  {
    StringOrder();
    if StrLe(ns, ns') && StrLe(ns', ns) { StrLeAntisymmetric(ns, ns'); }
    if StrLe(name, name') && StrLe(name', name) { StrLeAntisymmetric(name, name'); }
    if NameLe(ns, name, ns', name') && NameLe(ns', name', ns'', name'') && ns == ns'' && ns != ns' {
      StrLeAntisymmetric(ns, ns');
    }
  }

  predicate IngressLe(a: Ingress, b: Ingress) { NameLe(a.ns, a.name, b.ns, b.name) }

  lemma IngressOrder()
    ensures Preorder(IngressLe)
  {
    hide NameLe;
    forall a, b ensures IngressLe(a, b) || IngressLe(b, a) { NameOrder(a.ns, a.name, b.ns, b.name, a.ns, a.name); }
    forall a, b, c | IngressLe(a, b) && IngressLe(b, c) ensures IngressLe(a, c) {
      NameOrder(a.ns, a.name, b.ns, b.name, c.ns, c.name);
    }
  }

  /** Namespace and name identify an object. */
  ghost predicate UniqueIngresses(ings: seq<Ingress>) {
    forall a, b :: a in ings && b in ings && a.ns == b.ns && a.name == b.name ==> a == b
  }

  function SortIngresses(ings: seq<Ingress>): seq<Ingress> {
    IngressOrder();
    Sort(ings, IngressLe)
  }

  lemma SortIngressesPermuted(a: seq<Ingress>, b: seq<Ingress>)
    requires multiset(a) == multiset(b) && UniqueIngresses(a)
    ensures SortIngresses(a) == SortIngresses(b)
  {
    hide NameLe;
    IngressOrder();
    forall x, y | x in a && y in a && IngressLe(x, y) && IngressLe(y, x) ensures x == y {
      NameOrder(x.ns, x.name, y.ns, y.name, x.ns, x.name);
    }
    SortPermuted(a, b, IngressLe);
  }

  ghost function OursF(v: View, f: Flags, className: string, defaultOurs: bool): Ingress -> seq<Op> {
    (ing: Ingress) => if IsOurs(ing, className, defaultOurs) then IngressOps(v, f, ing) else []
  }

  ghost function AllIngressOps(v: View, f: Flags, className: string, classes: Option<seq<IngressClass>>,
                               ings: seq<Ingress>): seq<Op>
  {
    Flat(SortIngresses(ings), OursF(v, f, className, DefaultOurs(classes)))
  }

  /** The Ingress loop of render. */
  method RenderIngresses(m: RenderModel, v: View, f: Flags, className: string, classes: Option<seq<IngressClass>>,
                         ings: seq<Ingress>)
    requires m.Valid()
    modifies m
    ensures m.Valid() && m.Snapshot() == RunOps(old(m.Snapshot()), AllIngressOps(v, f, className, classes, ings))
  {
    hide RunOps, Step, Flat, IngressOps, ValidModel, IsOurs, SortIngresses, DefaultOurs;
    ghost var m0 := m.Snapshot();
    var items := SortIngresses(ings);
    var defaultOurs := DefaultClassIsOurs(classes);
    ghost var g := OursF(v, f, className, defaultOurs);
    FlatNone(m0, items, g);
    for i := 0 to |items|
      invariant m.Valid() && m.Snapshot() == RunOps(m0, Flat(items[..i], g))
    {
      FlatStep(m0, items, i, g);
      RunOpsOne(m.Snapshot(), MarkSticky);
      if !IsOurs(items[i], className, defaultOurs) {
        continue;
      }
      ProgramIngress(m, v, f, items[i]);
    }
  }
}
