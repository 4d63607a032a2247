/** The whole render (render and writeIfChanged in controllers/ingress_controller.go): the upstreams
    text is a function of the cluster's objects, not of the order in which the informers happen to
    list them. */
module Render {
  import opened Wrappers
  import opened Strings
  import opened Sorting
  import opened RouteModel
  import opened RouteText
  import opened RouteTextV2
  import opened RenderOps
  import opened Endpoints
  import opened CertNames
  import opened Ingress
  import opened Gateway
  import UpstreamsReader
  import UpstreamsAgreement
  import UpstreamsText

  /** One reading of the API. */
  datatype Cluster = Cluster(
    ingresses: Option<seq<Ingress>>, classes: Option<seq<IngressClass>>, view: View, listed: Listed)

  datatype Config = Config(flags: Flags, className: string, gatewayApi: bool)

  // ---- what the render computes ---------------------------------------------------------

  ghost function GatewayApiOps(c: Cluster, cfg: Config): seq<Op> {
    if cfg.gatewayApi then ListenerOps(c.listed) + AllRouteOps(cfg.flags, c.listed) else []
  }

  /** The model of a cluster whose Ingresses are ings: Ingresses before HTTPRoutes. */
  ghost function ClusterModel(c: Cluster, cfg: Config, ings: seq<Ingress>): Model {
    RunOps(RunOps(EMPTY_MODEL, AllIngressOps(c.view, cfg.flags, cfg.className, c.classes, ings)), GatewayApiOps(c, cfg))
  }

  /** Any passthrough host forces the v2 schema. */
  ghost function TextOf(m: Model): string {
    if m.passthroughHosts != map[] then V2Text(m) else V1Text(Effective(m))
  }

  /** None is a failed listing of Ingresses: nothing is rendered. */
  ghost function Rendered(c: Cluster, cfg: Config): Option<string> {
    match c.ingresses
    case None => None
    case Some(ings) => Some(TextOf(ClusterModel(c, cfg, ings)))
  }

  /** The model of the listed sources. */
  method BuildModel(c: Cluster, cfg: Config, ings: seq<Ingress>) returns (m: RenderModel)
    ensures fresh(m) && m.Valid() && m.Snapshot() == ClusterModel(c, cfg, ings)
  {
    hide RunOps, AllIngressOps, ListenerOps, AllRouteOps, ValidModel;
    m := new RenderModel();
    RenderIngresses(m, c.view, cfg.flags, cfg.className, c.classes, ings);
    RunOpsOne(m.Snapshot(), MarkSticky);
    if cfg.gatewayApi {
      RenderGateways(m, cfg.flags, c.listed);
    }
  }

  /** The text of a model, in the schema it needs. */
  method RenderText(m: RenderModel) returns (yaml: string)
    requires m.Valid()
    ensures yaml == TextOf(m.Snapshot())
    ensures m.passthroughHosts == map[] ==> yaml == UpstreamsText.FileV1(m.Snapshot())
    ensures m.passthroughHosts != map[] ==> yaml == UpstreamsText.FileV2(m.Snapshot())
  {
    hide V2Text, V1Text, Effective, ValidModel, UpstreamsText.FileV1, UpstreamsText.FileV2;
    UpstreamsText.V1FileExact(m.Snapshot());
    UpstreamsText.V2FileExact(m.Snapshot());
    if |m.passthroughHosts| > 0 {
      yaml := RenderUpstreamsV2(m);
    } else {
      yaml := RenderUpstreams(m);
    }
  }

  // ---- what every rendered file says ------------------------------------------------------

  lemma EmptyValid()
    ensures ValidModel(EMPTY_MODEL)
  {}

  lemma ClusterModelValid(c: Cluster, cfg: Config, ings: seq<Ingress>)
    ensures ValidModel(ClusterModel(c, cfg, ings))
  {
    hide ValidModel, RunOps, AllIngressOps, GatewayApiOps;
    EmptyValid();
    var ops := AllIngressOps(c.view, cfg.flags, cfg.className, c.classes, ings);
    RunOpsValid(EMPTY_MODEL, ops);
    RunOpsValid(RunOps(EMPTY_MODEL, ops), GatewayApiOps(c, cfg));
  }

  /** The reader of the schema the render chose. */
  ghost function ReadRendered(m: Model, text: string): Option<UpstreamsAgreement.FileMeaning> {
    if m.passthroughHosts != map[] then UpstreamsAgreement.ReadV2(text)
    else
      match UpstreamsReader.ReadV1(text)
      case None => None
      case Some(v1) => Some(UpstreamsAgreement.MeaningV1(v1))
  }

  /** Whichever schema a cluster selects, its file reads back as the meaning of its model. */
  lemma RenderedMeaning(c: Cluster, cfg: Config, ings: seq<Ingress>)
    requires c.ingresses == Some(ings)
    ensures var m := ClusterModel(c, cfg, ings);
      && Rendered(c, cfg).Some?
      && ReadRendered(m, Rendered(c, cfg).value) == Some(UpstreamsAgreement.ModelMeaning(m))
  {
    hide ClusterModel, ValidModel, V2Text, V1Text, Effective, UpstreamsAgreement.ReadV2, UpstreamsReader.ReadV1,
         UpstreamsAgreement.ModelMeaning;
    var m := ClusterModel(c, cfg, ings);
    ClusterModelValid(c, cfg, ings);
    UpstreamsReader.V1RoundTrip(Effective(m));
    UpstreamsAgreement.V2RoundTrip(m);
    UpstreamsAgreement.EffectiveMeaning(m);
    NoPassthrough(m);
  }

  /** For every cluster, its model printed in either schema means the same; the v2 text only
      adds the passthrough hosts. */
  lemma ClusterSchemasAgree(c: Cluster, cfg: Config, ings: seq<Ingress>)
    ensures var m := ClusterModel(c, cfg, ings);
      && UpstreamsReader.ReadV1(V1Text(Effective(m))).Some?
      && var v1 := UpstreamsReader.ReadV1(V1Text(Effective(m))).value;
         && v1.acme == m.acme && v1.sticky == m.sticky
         && UpstreamsAgreement.ReadV2(V2Text(m)) ==
              Some(UpstreamsAgreement.MeaningV1(v1).(passthrough := m.passthroughHosts))
  {
    hide *;
    ClusterModelValid(c, cfg, ings);
    UpstreamsAgreement.SchemasAgree(ClusterModel(c, cfg, ings));
  }

  lemma NoPassthrough(m: Model)
    ensures m.passthroughHosts == map[] ==>
      UpstreamsAgreement.MeaningV1(Effective(m)).(passthrough := m.passthroughHosts)
        == UpstreamsAgreement.MeaningV1(Effective(m))
  {
    hide UpstreamsAgreement.RouteMeaningV1;
  }

  /** Ingress beats Gateway: what the Ingresses put into the model, and the ACME solver they
      chose, the HTTPRoutes do not change. */
  lemma IngressBeatsGateway(c: Cluster, cfg: Config, ings: seq<Ingress>, host: string, key: string)
    ensures var before := RunOps(EMPTY_MODEL, AllIngressOps(c.view, cfg.flags, cfg.className, c.classes, ings));
      && KeepsClaim(before, ClusterModel(c, cfg, ings), host, key)
      && (before.acme != "" ==> ClusterModel(c, cfg, ings).acme == before.acme)
  {
    hide ValidModel, RunOps, AllIngressOps, GatewayApiOps, KeepsClaim;
    EmptyValid();
    var ops := AllIngressOps(c.view, cfg.flags, cfg.className, c.classes, ings);
    RunOpsValid(EMPTY_MODEL, ops);
    LaterSourcesKeep(RunOps(EMPTY_MODEL, ops), GatewayApiOps(c, cfg), host, key);
  }

  /** Over all sources in their order - our Ingresses by namespace and name, then our
      HTTPRoutes - each host is of the kind its first claimant asked for, and each of its
      paths holds the configuration of its first writer. */
  lemma FirstSourceWins(c: Cluster, cfg: Config, ings: seq<Ingress>, host: string)
    ensures var ops := AllIngressOps(c.view, cfg.flags, cfg.className, c.classes, ings)
                       + if cfg.gatewayApi then ListenerOps(c.listed) + AllRouteOps(cfg.flags, c.listed) else [];
      HostAsClaimed(ClusterModel(c, cfg, ings), CallsOf(ops), host)
  {
    hide HostAsClaimed, RunOps, AllIngressOps, CallsOf, ListenerOps, AllRouteOps;
    var ops := AllIngressOps(c.view, cfg.flags, cfg.className, c.classes, ings);
    RunOpsAppend(EMPTY_MODEL, ops, GatewayApiOps(c, cfg));
    FirstOpWins(ops + GatewayApiOps(c, cfg), host);
  }

  // ---- the same objects in another order ----------------------------------------------------

  ghost predicate Permuted<T>(a: Option<seq<T>>, b: Option<seq<T>>) {
    (a.Some? <==> b.Some?) && (a.Some? ==> multiset(a.value) == multiset(b.value))
  }

  /** b lists the objects of a in other orders. */
  ghost predicate SameCluster(a: Cluster, b: Cluster) {
    && Permuted(a.ingresses, b.ingresses) && Permuted(a.classes, b.classes)
    && SameView(a.view, b.view)
    && Permuted(a.listed.classes, b.listed.classes)
    && Permuted(a.listed.gateways, b.listed.gateways)
    && Permuted(a.listed.routes, b.listed.routes)
  }

  /** Namespace and name identify Ingresses and HTTPRoutes. */
  ghost predicate WellNamed(c: Cluster) {
    && (c.ingresses.Some? ==> UniqueIngresses(c.ingresses.value))
    && (c.listed.routes.Some? ==> UniqueRoutes(c.listed.routes.value))
  }

  // Ingresses

  lemma PathOpsSame(v: View, w: View, f: Flags, ing: Ingress, host: string, p: HttpPath)
    requires SameView(v, w)
    ensures PathOps(v, f, ing, host, p) == PathOps(w, f, ing, host, p)
  {
    hide SameView, AddrOf, ServersOf, TargetOps, HasPrefix;
    ServersOrderFree(v, w, f, ing.ns, p.backend);
  }

  lemma {:induction false} FirstAddrSame(v: View, w: View, f: Flags, ns: string, paths: seq<HttpPath>)
    requires SameView(v, w)
    ensures FirstAddr(v, f, ns, paths) == FirstAddr(w, f, ns, paths)
  {
    hide SameView, AddrOf, ServersOf;
    if paths == [] {
    } else {
      ServersOrderFree(v, w, f, ns, paths[0].backend);
      FirstAddrSame(v, w, f, ns, paths[1..]);
    }
  }

  lemma RuleOpsSame(v: View, w: View, f: Flags, ing: Ingress, rule: IngressRule)
    requires SameView(v, w)
    ensures RuleOps(v, f, ing, rule) == RuleOps(w, f, ing, rule)
  {
    hide SameView, PathOps, FirstAddr, Flat;
    if rule.http.Some? {
      FirstAddrSame(v, w, f, ing.ns, rule.http.value);
      forall p ensures PathF(v, f, ing, rule.host)(p) == PathF(w, f, ing, rule.host)(p) {
        PathOpsSame(v, w, f, ing, rule.host, p);
      }
      FlatSame(rule.http.value, PathF(v, f, ing, rule.host), PathF(w, f, ing, rule.host));
    }
  }

  lemma IngressOpsSame(v: View, w: View, f: Flags, ing: Ingress)
    requires SameView(v, w)
    ensures IngressOps(v, f, ing) == IngressOps(w, f, ing)
  {
    hide SameView, RuleOps, Flat, TlsF;
    forall r ensures RuleF(v, f, ing)(r) == RuleF(w, f, ing)(r) { RuleOpsSame(v, w, f, ing, r); }
    FlatSame(ing.rules, RuleF(v, f, ing), RuleF(w, f, ing));
  }

  lemma DefaultOursSame(a: Option<seq<IngressClass>>, b: Option<seq<IngressClass>>)
    requires Permuted(a, b)
    ensures DefaultOurs(a) == DefaultOurs(b)
  {
    if a.Some? { PermutedMembers(a.value, b.value); }
  }

  lemma AllIngressOpsSame(a: Cluster, b: Cluster, cfg: Config, x: seq<Ingress>, y: seq<Ingress>)
    requires SameCluster(a, b) && multiset(x) == multiset(y) && UniqueIngresses(x)
    ensures AllIngressOps(a.view, cfg.flags, cfg.className, a.classes, x)
         == AllIngressOps(b.view, cfg.flags, cfg.className, b.classes, y)
  {
    hide SameView, IngressOps, Flat, SortIngresses, IsOurs, DefaultOurs;
    SortIngressesPermuted(x, y);
    DefaultOursSame(a.classes, b.classes);
    var f := OursF(a.view, cfg.flags, cfg.className, DefaultOurs(a.classes));
    var g := OursF(b.view, cfg.flags, cfg.className, DefaultOurs(b.classes));
    forall i ensures f(i) == g(i) { IngressOpsSame(a.view, b.view, cfg.flags, i); }
    FlatSame(SortIngresses(x), f, g);
  }

  // Gateways: the order of their certificates cannot show

  /** A certificate call that binds a host uses the host's own stem. */
  predicate HostStem(op: Op) {
    op.Do? && op.call.Cert? && (op.call.host != "" ==> op.call.stem == SanitizeStem(op.call.host))
  }

  predicate Binds(op: Op, host: string) {
    op.Do? && op.call.Cert? && op.call.host == host && host != ""
    && op.call.stem != "" && op.call.ns != "" && op.call.name != ""
  }

  ghost function BoundHosts(ops: seq<Op>): set<string> {
    set i | 0 <= i < |ops| && ops[i].Do? && Binds(ops[i], ops[i].call.host) :: ops[i].call.host
  }

  lemma BoundHostsMember(ops: seq<Op>, h: string)
    ensures h in BoundHosts(ops) <==> exists op :: op in ops && Binds(op, h)
  {}

  /** The bindings after certificate calls, whatever their order. */
  ghost function HostCertAfter(hostCert: map<string, string>, hosts: set<string>): map<string, string> {
    map h | h in hostCert.Keys + hosts :: if h in hostCert then hostCert[h] else SanitizeStem(h)
  }

  lemma {:induction false} CertOpsShown(m: Model, ops: seq<Op>)
    requires forall op :: op in ops ==> HostStem(op)
    ensures Shown(RunOps(m, ops)) == Shown(m).(hostCert := HostCertAfter(m.hostCert, BoundHosts(ops)))
  {
    hide Step, BoundHosts, HostStem, Shown, HostCertAfter;
    if ops == [] {
      NothingBound(m);
    } else {
      var init, op := ops[..|ops| - 1], ops[|ops| - 1];
      CertOpsShown(m, init);
      var before := m.(hostCert := HostCertAfter(m.hostCert, BoundHosts(init)));
      ShownHostCert(m, HostCertAfter(m.hostCert, BoundHosts(init)));
      StepShown(RunOps(m, init), before, op);
      OneCertShown(before, op);
      BoundSnoc(m.hostCert, init, op);
      assert ops == init + [op];
      ShownHostCert(m, HostCertAfter(m.hostCert, BoundHosts(ops)));
    }
  }

  lemma NothingBound(m: Model)
    ensures Shown(m) == Shown(m).(hostCert := HostCertAfter(m.hostCert, BoundHosts([])))
  {
    assert HostCertAfter(m.hostCert, {}) == m.hostCert;
  }

  lemma ShownHostCert(m: Model, hostCert: map<string, string>)
    ensures Shown(m.(hostCert := hostCert)) == Shown(m).(hostCert := hostCert)
  {}

  function OneBound(hostCert: map<string, string>, op: Op): map<string, string> {
    if op.Do? && Binds(op, op.call.host) && op.call.host !in hostCert
    then hostCert[op.call.host := SanitizeStem(op.call.host)] else hostCert
  }

  lemma OneCertShown(m: Model, op: Op)
    requires HostStem(op)
    ensures Shown(Step(m, op)) == Shown(m.(hostCert := OneBound(m.hostCert, op)))
  {}

  lemma BoundSnoc(hostCert: map<string, string>, ops: seq<Op>, op: Op)
    ensures HostCertAfter(hostCert, BoundHosts(ops + [op])) == OneBound(HostCertAfter(hostCert, BoundHosts(ops)), op)
  {
    hide SanitizeStem;
    forall h ensures h in BoundHosts(ops + [op]) <==> h in BoundHosts(ops) || Binds(op, h) {
      BoundHostsMember(ops + [op], h);
      BoundHostsMember(ops, h);
    }
  }

  lemma RefOpsHostStem(ns: string, host: string, cr: CertRef, op: Op)
    requires op in RefOps(ns, host)(cr)
    ensures HostStem(op)
  {}

  lemma ListenerHostStem(ns: string, l: Listener, op: Op)
    requires op in ListenerF(ns)(l)
    ensures HostStem(op)
  {
    hide Flat, HostStem, RefOps;
    var refs, host := l.tls.value.refs, GetOr(l.hostname, "");
    FlatMembers(refs, RefOps(ns, host), op);
    var i :| 0 <= i < |refs| && op in RefOps(ns, host)(refs[i]);
    RefOpsHostStem(ns, host, refs[i], op);
  }

  lemma GatewayHostStem(classes: set<string>, gw: Gateway, op: Op)
    requires op in GatewayF(classes)(gw)
    ensures HostStem(op)
  {
    hide Flat, HostStem, ListenerF;
    FlatMembers(gw.listeners, ListenerF(gw.ns), op);
    var i :| 0 <= i < |gw.listeners| && op in ListenerF(gw.ns)(gw.listeners[i]);
    ListenerHostStem(gw.ns, gw.listeners[i], op);
  }

  lemma ListenerOpsHostStem(l: Listed, op: Op)
    requires op in ListenerOps(l)
    ensures HostStem(op)
  {
    hide Flat, HostStem, GatewayF, ClassSet;
    var gws, f := l.gateways.value, GatewayF(ClassSet(l.classes.value));
    FlatMembers(gws, f, op);
    var i :| 0 <= i < |gws| && op in f(gws[i]);
    GatewayHostStem(ClassSet(l.classes.value), gws[i], op);
  }

  lemma ClassSetSame(a: seq<GatewayClass>, b: seq<GatewayClass>)
    requires multiset(a) == multiset(b)
    ensures ClassSet(a) == ClassSet(b)
  {
    PermutedMembers(a, b);
    ClassSetIn(a, b);
    ClassSetIn(b, a);
  }

  lemma ClassSetIn(a: seq<GatewayClass>, b: seq<GatewayClass>)
    requires forall c :: c in a ==> c in b
    ensures ClassSet(a) <= ClassSet(b)
  {
    forall name | name in ClassSet(a) ensures name in ClassSet(b) {
      var i :| 0 <= i < |a| && a[i].controller == CONTROLLER_NAME && a[i].name == name;
      assert a[i] in b;
    }
  }

  lemma GatewaySetIn(a: seq<Gateway>, b: seq<Gateway>, classes: set<string>)
    requires forall g :: g in a ==> g in b
    ensures GatewaySet(a, classes) <= GatewaySet(b, classes)
  {
    forall key | key in GatewaySet(a, classes) ensures key in GatewaySet(b, classes) {
      var i :| 0 <= i < |a| && a[i].className in classes && (a[i].ns, a[i].name) == key;
      assert a[i] in b;
    }
  }

  lemma OurGatewaysSame(a: Listed, b: Listed)
    requires Permuted(a.classes, b.classes) && Permuted(a.gateways, b.gateways)
    ensures OurGateways(a) == OurGateways(b)
  {
    hide ClassSet, GatewaySet;
    if a.classes.Some? && a.gateways.Some? {
      ClassSetSame(a.classes.value, b.classes.value);
      PermutedMembers(a.gateways.value, b.gateways.value);
      GatewaySetIn(a.gateways.value, b.gateways.value, ClassSet(a.classes.value));
      GatewaySetIn(b.gateways.value, a.gateways.value, ClassSet(a.classes.value));
    }
  }

  lemma FlatMemberOf(xs: seq<Gateway>, ys: seq<Gateway>, f: Gateway -> seq<Op>, op: Op)
    requires (forall g :: g in xs ==> g in ys) && op in Flat(xs, f)
    ensures op in Flat(ys, f)
  {
    hide Flat;
    FlatMembers(xs, f, op);
    FlatMembers(ys, f, op);
    var i :| 0 <= i < |xs| && op in f(xs[i]);
    assert xs[i] in ys;
  }

  lemma ListenerOpsSame(a: Listed, b: Listed)
    requires Permuted(a.classes, b.classes) && Permuted(a.gateways, b.gateways)
    ensures forall op :: op in ListenerOps(a) <==> op in ListenerOps(b)
  {
    hide ClassSet, GatewayF, Flat;
    if a.classes.Some? && a.gateways.Some? {
      ClassSetSame(a.classes.value, b.classes.value);
      var x, y, f := a.gateways.value, b.gateways.value, GatewayF(ClassSet(a.classes.value));
      PermutedMembers(x, y);
      forall op ensures op in Flat(x, f) <==> op in Flat(y, f) {
        if op in Flat(x, f) { FlatMemberOf(x, y, f, op); }
        if op in Flat(y, f) { FlatMemberOf(y, x, f, op); }
      }
    }
  }

  lemma BoundHostsSame(a: seq<Op>, b: seq<Op>)
    requires forall op :: op in a <==> op in b
    ensures BoundHosts(a) == BoundHosts(b)
  {
    hide BoundHosts, Binds;
    forall h ensures h in BoundHosts(a) <==> h in BoundHosts(b) {
      BoundHostsMember(a, h);
      BoundHostsMember(b, h);
    }
  }

  /** Permuted Gateways leave every field but the projected Secrets as it is. */
  lemma ListenersShown(m: Model, a: Listed, b: Listed)
    requires Permuted(a.classes, b.classes) && Permuted(a.gateways, b.gateways)
    ensures Shown(RunOps(m, ListenerOps(a))) == Shown(RunOps(m, ListenerOps(b)))
  {
    hide Permuted, ListenerOps, HostStem, BoundHosts, RunOps, Shown, HostCertAfter;
    ListenerOpsSame(a, b);
    BoundHostsSame(ListenerOps(a), ListenerOps(b));
    forall op | op in ListenerOps(a) ensures HostStem(op) { ListenerOpsHostStem(a, op); }
    forall op | op in ListenerOps(b) ensures HostStem(op) { ListenerOpsHostStem(b, op); }
    CertOpsShown(m, ListenerOps(a));
    CertOpsShown(m, ListenerOps(b));
  }

  lemma AllRouteOpsSame(f: Flags, a: Listed, b: Listed)
    requires Permuted(a.classes, b.classes) && Permuted(a.gateways, b.gateways) && Permuted(a.routes, b.routes)
    requires a.routes.Some? ==> UniqueRoutes(a.routes.value)
    ensures AllRouteOps(f, a) == AllRouteOps(f, b)
  {
    hide OurGateways, Flat, SortRoutes, HttpRouteOps;
    OurGatewaysSame(a, b);
    if a.routes.Some? { SortRoutesPermuted(a.routes.value, b.routes.value); }
  }

  lemma GatewayApiShown(m: Model, a: Cluster, b: Cluster, cfg: Config)
    requires SameCluster(a, b) && WellNamed(a)
    ensures Shown(RunOps(m, GatewayApiOps(a, cfg))) == Shown(RunOps(m, GatewayApiOps(b, cfg)))
  {
    hide Permuted, SameView, RunOps, Shown, AllRouteOps, ListenerOps, UniqueRoutes, UniqueIngresses;
    if cfg.gatewayApi {
      var f := cfg.flags;
      AllRouteOpsSame(f, a.listed, b.listed);
      RunOpsAppend(m, ListenerOps(a.listed), AllRouteOps(f, a.listed));
      RunOpsAppend(m, ListenerOps(b.listed), AllRouteOps(f, a.listed));
      ListenersShown(m, a.listed, b.listed);
      RunOpsShown(RunOps(m, ListenerOps(a.listed)), RunOps(m, ListenerOps(b.listed)), AllRouteOps(f, a.listed));
    }
  }

  // the text shows only the shown part

  lemma {:induction false} V2HostsShown(m: Model, keys: seq<string>)
    requires forall k :: k in keys ==> IsHost(m, k)
    ensures V2Hosts(m, keys) == V2Hosts(Shown(m), keys)
  {
    hide Fields, PassthroughFields, TerminateFields;
    if keys == [] {
    } else {
      V2HostsShown(m, keys[..|keys| - 1]);
    }
  }

  lemma TextOfShown(m: Model)
    ensures TextOf(m) == TextOf(Shown(m))
  {
    hide V2Hosts, Fields, V1Text, EffectiveHost;
    var hosts := m.hosts.Keys + m.passthroughHosts.Keys;
    SortedKeysMembers(hosts);
    V2HostsShown(m, SortedKeys(hosts));
    EffectiveShown(m);
  }

  lemma EffectiveShown(m: Model)
    ensures Effective(m) == Effective(Shown(m))
  {
    hide EffectiveHost;
  }

  /** The upstreams text depends on the cluster alone: listing Ingresses, IngressClasses,
      EndpointSlices, GatewayClasses, Gateways and HTTPRoutes in any order gives it. */
  lemma RenderOrderFree(a: Cluster, b: Cluster, cfg: Config)
    requires SameCluster(a, b) && WellNamed(a)
    ensures Rendered(a, cfg) == Rendered(b, cfg)
  {
    hide AllIngressOps, GatewayApiOps, RunOps, TextOf, Shown, SameView, UniqueIngresses, UniqueRoutes;
    if a.ingresses.Some? {
      var x, y := a.ingresses.value, b.ingresses.value;
      AllIngressOpsSame(a, b, cfg, x, y);
      var m := RunOps(EMPTY_MODEL, AllIngressOps(a.view, cfg.flags, cfg.className, a.classes, x));
      GatewayApiShown(m, a, b, cfg);
      TextOfShown(RunOps(m, GatewayApiOps(a, cfg)));
      TextOfShown(RunOps(m, GatewayApiOps(b, cfg)));
    }
  }

  // ---- writing the file --------------------------------------------------------------------------

  /** How the file operations of one write end. */
  datatype Io = Works | NoDirectory | WriteFails(partial: string) | RenameFails

  class UpstreamsFile {
    var content: Option<string>
    var temp: Option<string>

    /** writeIfChanged: a temporary file, then a rename. A reader of the file only ever
        sees the former content or the whole new one. */
    method WriteIfChanged(text: string, io: Io) returns (changed: bool, ok: bool)
      modifies this
      ensures content == old(content) || content == Some(text)
      ensures changed <==> old(content) != Some(text) && io.Works?
      ensures changed ==> content == Some(text) && temp == None
      ensures !changed ==> content == old(content)
      ensures ok <==> old(content) == Some(text) || io.Works?
      ensures old(content) == Some(text) ==> temp == old(temp)
    {
      if content == Some(text) {
        return false, true;
      }
      if io.NoDirectory? {
        return false, false;
      }
      if io.WriteFails? {
        temp := Some(io.partial);
        return false, false;
      }
      temp := Some(text);
      if io.RenameFails? {
        temp := None;
        return false, false;
      }
      content, temp := temp, None;
      return true, true;
    }
  }
}
