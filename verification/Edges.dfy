/** The NetworkPolicy compiler (controllers/edge_producer.go). */
module Edges {
  // Policies, pods and namespaces to a sorted list of allow lines:
  //   E <src> > <dst> : <port>    a declared edge
  //   G <dst>                     a workload whose ingress is governed
  //   S <src>                     a workload whose egress is governed

  import opened Wrappers
  import opened Strings
  import opened Sorting
  import opened Kube
  import Workload

  const ANY_REF := "*/*"
  const ANY_PORT := "*"

  function EdgeLine(src: string, dst: string, port: string): string {
    "E " + src + " > " + dst + " : " + port
  }

  // ---- what the compiler selects ------------------------------------------------

  type NsLabels = map<string, Labels>

  predicate HasIngress(np: NetworkPolicy) {
    np.policyTypes == [] || IngressType in np.policyTypes
  }

  predicate HasEgress(np: NetworkPolicy) {
    EgressType in np.policyTypes || np.egress != []
  }

  predicate Picks(p: Pod, ns: string, sel: LabelSelector) {
    p.ns == ns && !p.hostNetwork && Matches(sel, p.labels)
  }

  ghost function Picked(pods: seq<Pod>, ns: string, sel: LabelSelector): set<Pod> {
    set p | p in pods && Picks(p, ns, sel)
  }

  predicate InScope(sel: Option<LabelSelector>, policyNs: string, nsl: NsLabels, ns: string) {
    match sel
    case None => ns == policyNs
    case Some(s) => ns in nsl && Matches(s, nsl[ns])
  }

  predicate UsablePeer(peer: Peer) {
    && !peer.ipBlock
    && (peer.namespaceSelector.Some? ==> ValidSelector(peer.namespaceSelector.value))
    && (peer.podSelector.Some? ==> ValidSelector(peer.podSelector.value))
  }

  predicate PeerPicks(peer: Peer, policyNs: string, nsl: NsLabels, p: Pod) {
    && UsablePeer(peer)
    && !p.hostNetwork
    && InScope(peer.namespaceSelector, policyNs, nsl, p.ns)
    && Matches(GetOr(peer.podSelector, EVERYTHING), p.labels)
  }

  /** The pods some peer of the list picks. */
  ghost function PeersPicked(peers: seq<Peer>, policyNs: string, pods: seq<Pod>, nsl: NsLabels): set<Pod> {
    set p, peer | p in pods && peer in peers && PeerPicks(peer, policyNs, nsl, p) :: p
  }

  function SetOf<T>(xs: seq<T>): set<T> { set x | x in xs }

  ghost function Refs(ps: set<Pod>): set<string> {
    set p | p in ps && Workload.Name(p) != "" :: Workload.Ref(p)
  }

  ghost function NamedPorts(ps: set<Pod>, name: string): set<int> {
    set p, c, cp | p in ps && c in p.containers && cp in c && cp.name == name :: cp.port
  }

  ghost function PortTexts(q: Option<PortRef>, ps: set<Pod>): set<string> {
    match q
    case None => {ANY_PORT}
    case Some(Number(n)) => {IntText(n)}
    case Some(PortName(name)) =>
      if NamedPorts(ps, name) == {} then {ANY_PORT} else set n | n in NamedPorts(ps, name) :: IntText(n)
  }

  ghost function PortsUnion(ports: seq<Option<PortRef>>, ps: set<Pod>): set<string> {
    set q, t | q in ports && t in PortTexts(q, ps) :: t
  }

  ghost function RulePorts(ports: seq<Option<PortRef>>, ps: set<Pod>): set<string> {
    if ports == [] then {ANY_PORT} else PortsUnion(ports, ps)
  }

  ghost function PeerRefs(peers: seq<Peer>, policyNs: string, pods: seq<Pod>, nsl: NsLabels): set<string> {
    if peers == [] then {ANY_REF} else Refs(PeersPicked(peers, policyNs, pods, nsl))
  }

  ghost function Product(srcs: set<string>, dsts: set<string>, ports: set<string>): set<string> {
    set s, d, p | s in srcs && d in dsts && p in ports :: EdgeLine(s, d, p)
  }

  ghost function IngressEdges(np: NetworkPolicy, r: Rule, pods: seq<Pod>, nsl: NsLabels): set<string> {
    var selected := Picked(pods, np.ns, np.podSelector);
    Product(PeerRefs(r.peers, np.ns, pods, nsl), Refs(selected), RulePorts(r.ports, selected))
  }

  ghost function EgressEdges(np: NetworkPolicy, r: Rule, pods: seq<Pod>, nsl: NsLabels): set<string> {
    Product(Refs(Picked(pods, np.ns, np.podSelector)), PeerRefs(r.peers, np.ns, pods, nsl),
            RulePorts(r.ports, PeersPicked(r.peers, np.ns, pods, nsl)))
  }

  ghost function RuleEdges(np: NetworkPolicy, r: Rule, ingress: bool, pods: seq<Pod>, nsl: NsLabels): set<string> {
    if ingress then IngressEdges(np, r, pods, nsl) else EgressEdges(np, r, pods, nsl)
  }

  ghost function RulesEdges(np: NetworkPolicy, rules: seq<Rule>, ingress: bool, pods: seq<Pod>, nsl: NsLabels)
    : set<string>
  {
    set r, l | r in rules && l in RuleEdges(np, r, ingress, pods, nsl) :: l
  }

  ghost function PolicyEdges(np: NetworkPolicy, pods: seq<Pod>, nsl: NsLabels): set<string> {
    if !ValidSelector(np.podSelector) then {} else
      (if HasIngress(np) then RulesEdges(np, np.ingress, true, pods, nsl) else {})
      + (if HasEgress(np) then RulesEdges(np, np.egress, false, pods, nsl) else {})
  }

  ghost function GovernedDst(np: NetworkPolicy, pods: seq<Pod>): set<string> {
    if ValidSelector(np.podSelector) && HasIngress(np) then Refs(Picked(pods, np.ns, np.podSelector)) else {}
  }

  ghost function GovernedSrc(np: NetworkPolicy, pods: seq<Pod>): set<string> {
    if ValidSelector(np.podSelector) && HasEgress(np) then Refs(Picked(pods, np.ns, np.podSelector)) else {}
  }

  ghost function NsLabelsOf(nss: seq<Namespace>): NsLabels {
    if nss == [] then map[]
    else NsLabelsOf(nss[..|nss| - 1])[nss[|nss| - 1].name := nss[|nss| - 1].labels]
  }

  ghost function EdgesOf(nps: seq<NetworkPolicy>, pods: seq<Pod>, nsl: NsLabels): set<string> {
    set np, l | np in nps && l in PolicyEdges(np, pods, nsl) :: l
  }

  ghost function DstsOf(nps: seq<NetworkPolicy>, pods: seq<Pod>): set<string> {
    set np, g | np in nps && g in GovernedDst(np, pods) :: g
  }

  ghost function SrcsOf(nps: seq<NetworkPolicy>, pods: seq<Pod>): set<string> {
    set np, g | np in nps && g in GovernedSrc(np, pods) :: g
  }

  ghost function Marked(prefix: string, refs: set<string>): set<string> {
    set g | g in refs :: prefix + g
  }

  /** Every line the compiler emits. */
  ghost function LineSet(nps: seq<NetworkPolicy>, pods: seq<Pod>, nss: seq<Namespace>): set<string> {
    EdgesOf(nps, pods, NsLabelsOf(nss)) + Marked("G ", DstsOf(nps, pods)) + Marked("S ", SrcsOf(nps, pods))
  }

  // ---- resolving pods, refs and ports -----------------------------------------------

  method PodsMatching(pods: seq<Pod>, ns: string, sel: LabelSelector) returns (out: seq<Pod>)
    ensures SetOf(out) == Picked(pods, ns, sel)
  {
    out := [];
    for i := 0 to |pods|
      invariant SetOf(out) == Picked(pods[..i], ns, sel)
    {
      var p := pods[i];
      assert pods[..i + 1] == pods[..i] + [p];
      assert Picked(pods[..i + 1], ns, sel) == Picked(pods[..i], ns, sel) + if Picks(p, ns, sel) then {p} else {};
      assert SetOf(out + [p]) == SetOf(out) + {p};
      if p.ns != ns || p.hostNetwork {
        continue;
      }
      if Matches(sel, p.labels) {
        out := out + [p];
      }
    }
    assert pods[..|pods|] == pods;
  }

  /** The refs of the pods in ns, as the workload names of podsMatching qualify them. */
  method WorkloadRefs(pods: seq<Pod>) returns (refs: seq<string>)
    ensures SetOf(refs) == Refs(SetOf(pods))
  {
    refs := [];
    var seen: set<string> := {};
    for i := 0 to |pods|
      invariant seen == SetOf(refs) == Refs(SetOf(pods[..i]))
    {
      var p := pods[i];
      assert SetOf(pods[..i + 1]) == SetOf(pods[..i]) + {p} by {
        assert pods[..i + 1] == pods[..i] + [p];
      }
      RefsAdd(SetOf(pods[..i]), p);
      var wl, _ := Workload.WorkloadIdentity(p);
      if wl == "" {
        continue;
      }
      var ref := p.ns + "/" + wl;
      if ref !in seen {
        seen := seen + {ref};
        refs := refs + [ref];
      }
    }
    assert pods[..|pods|] == pods;
  }

  lemma RefsAdd(ps: set<Pod>, p: Pod)
    ensures Refs(ps + {p}) == Refs(ps) + if Workload.Name(p) != "" then {Workload.Ref(p)} else {}
  {}

  method PeerPods(peer: Peer, policyNs: string, pods: seq<Pod>, nsl: NsLabels) returns (out: seq<Pod>)
    ensures SetOf(out) == PeersPicked([peer], policyNs, pods, nsl)
  {
    if peer.ipBlock {
      return [];
    }
    if peer.namespaceSelector.Some? && !ValidSelector(peer.namespaceSelector.value) {
      return [];
    }
    if peer.podSelector.Some? && !ValidSelector(peer.podSelector.value) {
      return [];
    }
    // The namespaces in scope, in whatever order the map yields them.
    var namespaces: seq<string>;
    if peer.namespaceSelector.None? {
      namespaces := [policyNs];
    } else {
      namespaces := NamespacesMatching(peer.namespaceSelector.value, nsl);
    }
    var podSel := EVERYTHING;
    if peer.podSelector.Some? {
      podSel := peer.podSelector.value;
    }
    out := [];
    for i := 0 to |namespaces|
      invariant SetOf(out) == (set p | p in pods && p.ns in namespaces[..i] && Picks(p, p.ns, podSel))
    {
      var more := PodsMatching(pods, namespaces[i], podSel);
      assert namespaces[..i + 1] == namespaces[..i] + [namespaces[i]];
      assert SetOf(out + more) == SetOf(out) + SetOf(more);
      out := out + more;
    }
    assert namespaces[..|namespaces|] == namespaces;
    assert forall p: Pod :: p in pods ==>
      ((p.ns in namespaces && Picks(p, p.ns, podSel)) <==> PeerPicks(peer, policyNs, nsl, p));
  }

  method NamespacesMatching(sel: LabelSelector, nsl: NsLabels) returns (out: seq<string>)
    ensures forall ns :: ns in out <==> InScope(Some(sel), "", nsl, ns)
  {
    var keys := CollectKeys(nsl.Keys);
    SetElementsNoDuplicates(keys, nsl.Keys);
    out := [];
    for i := 0 to |keys|
      invariant forall ns :: ns in out <==> ns in keys[..i] && Matches(sel, nsl[ns])
    {
      assert keys[..i + 1] == keys[..i] + [keys[i]];
      if Matches(sel, nsl[keys[i]]) {
        out := out + [keys[i]];
      }
    }
    assert keys[..|keys|] == keys;
  }

  /** All peers of a rule: the pods they pick, in order, and the refs of those pods. */
  method RulePeers(peers: seq<Peer>, policyNs: string, pods: seq<Pod>, nsl: NsLabels)
    returns (picked: seq<Pod>, refs: seq<string>)
    ensures SetOf(picked) == PeersPicked(peers, policyNs, pods, nsl)
    ensures SetOf(refs) == PeerRefs(peers, policyNs, pods, nsl)
  {
    picked, refs := [], [];
    if |peers| == 0 {
      refs := [ANY_REF];
      return;
    }
    for i := 0 to |peers|
      invariant SetOf(picked) == PeersPicked(peers[..i], policyNs, pods, nsl)
      invariant SetOf(refs) == Refs(PeersPicked(peers[..i], policyNs, pods, nsl))
    {
      var more := PeerPods(peers[i], policyNs, pods, nsl);
      var moreRefs := WorkloadRefs(more);
      assert peers[..i + 1] == peers[..i] + [peers[i]];
      PeersPickedSplit(peers[..i], peers[i], policyNs, pods, nsl);
      assert SetOf(picked + more) == SetOf(picked) + SetOf(more);
      assert SetOf(refs + moreRefs) == SetOf(refs) + SetOf(moreRefs);
      picked := picked + more;
      refs := refs + moreRefs;
    }
    assert peers[..|peers|] == peers;
  }

  lemma PeersPickedSplit(peers: seq<Peer>, peer: Peer, policyNs: string, pods: seq<Pod>, nsl: NsLabels)
    ensures var a, b := PeersPicked(peers, policyNs, pods, nsl), PeersPicked([peer], policyNs, pods, nsl);
            PeersPicked(peers + [peer], policyNs, pods, nsl) == a + b && Refs(a + b) == Refs(a) + Refs(b)
  {
    var a, b := PeersPicked(peers, policyNs, pods, nsl), PeersPicked([peer], policyNs, pods, nsl);
    var all := PeersPicked(peers + [peer], policyNs, pods, nsl);
    forall p ensures p in all <==> p in a + b {
      assert p in b <==> p in pods && PeerPicks(peer, policyNs, nsl, p) by { assert peer in [peer]; }
      if p in a {
        var q :| q in peers && p in pods && PeerPicks(q, policyNs, nsl, p);
        assert q in peers + [peer];
      }
      if p in b { assert peer in peers + [peer]; }
    }
  }

  method ResolveNamedPort(pods: seq<Pod>, name: string) returns (out: seq<int>)
    ensures SetOf(out) == NamedPorts(SetOf(pods), name)
  {
    out := [];
    for i := 0 to |pods|
      invariant SetOf(out) == NamedPorts(SetOf(pods[..i]), name)
    {
      var more := ContainerPortsNamed(pods[i].containers, name);
      assert pods[..i + 1] == pods[..i] + [pods[i]];
      assert SetOf(pods[..i + 1]) == SetOf(pods[..i]) + {pods[i]};
      assert NamedPorts(SetOf(pods[..i + 1]), name) ==
        NamedPorts(SetOf(pods[..i]), name) + PortsOf(pods[i].containers, name);
      out := AddDistinct(out, more);
    }
    assert pods[..|pods|] == pods;
  }

  ghost function PortsOf(containers: seq<seq<ContainerPort>>, name: string): set<int> {
    set c, cp | c in containers && cp in c && cp.name == name :: cp.port
  }

  method ContainerPortsNamed(containers: seq<seq<ContainerPort>>, name: string) returns (out: seq<int>)
    ensures SetOf(out) == PortsOf(containers, name)
  {
    out := [];
    for i := 0 to |containers|
      invariant SetOf(out) == PortsOf(containers[..i], name)
    {
      var c := containers[i];
      assert containers[..i + 1] == containers[..i] + [c];
      assert PortsOf(containers[..i + 1], name) == PortsOf(containers[..i], name) + PortsOf([c], name) by {
        PortsOfSplit(containers[..i], c, name);
      }
      ghost var before := out;
      for j := 0 to |c|
        invariant SetOf(out) == SetOf(before) + PortsOf([c[..j]], name)
      {
        assert c[..j + 1] == c[..j] + [c[j]];
        PortsOfOne(c[..j], c[j], name);
        if c[j].name == name {
          if c[j].port !in out {
            assert SetOf(out + [c[j].port]) == SetOf(out) + {c[j].port};
            out := out + [c[j].port];
          }
        }
      }
      assert c[..|c|] == c;
    }
    assert containers[..|containers|] == containers;
  }

  lemma PortsOfSplit(cs: seq<seq<ContainerPort>>, c: seq<ContainerPort>, name: string)
    ensures PortsOf(cs + [c], name) == PortsOf(cs, name) + PortsOf([c], name)
  {
    forall n ensures n in PortsOf(cs + [c], name) <==> n in PortsOf(cs, name) + PortsOf([c], name) {
      if n in PortsOf(cs, name) {
        var d, cp :| d in cs && cp in d && cp.name == name && cp.port == n;
        assert d in cs + [c];
      }
      if n in PortsOf([c], name) { assert c in cs + [c] && c in [c]; }
    }
  }

  lemma PortsOfOne(c: seq<ContainerPort>, cp: ContainerPort, name: string)
    ensures PortsOf([c + [cp]], name) == PortsOf([c], name) + if cp.name == name then {cp.port} else {}
  {
    forall n ensures n in PortsOf([c + [cp]], name) <==>
                     n in PortsOf([c], name) + if cp.name == name then {cp.port} else {}
    {
      assert c in [c] && c + [cp] in [c + [cp]];
    }
  }

  method AddDistinct<T(==)>(xs: seq<T>, ys: seq<T>) returns (out: seq<T>)
    ensures SetOf(out) == SetOf(xs) + SetOf(ys)
  {
    out := xs;
    for i := 0 to |ys|
      invariant SetOf(out) == SetOf(xs) + SetOf(ys[..i])
    {
      assert SetOf(ys[..i + 1]) == SetOf(ys[..i]) + {ys[i]} by { assert ys[..i + 1] == ys[..i] + [ys[i]]; }
      if ys[i] !in out {
        assert SetOf(out + [ys[i]]) == SetOf(out) + {ys[i]};
        out := out + [ys[i]];
      }
    }
    assert ys[..|ys|] == ys;
  }

  method TextsOf(nums: seq<int>) returns (out: seq<string>)
    ensures SetOf(out) == (set n | n in nums :: IntText(n))
    ensures |out| == |nums|
  {
    out := [];
    for i := 0 to |nums|
      invariant SetOf(out) == (set n | n in nums[..i] :: IntText(n)) && |out| == i
    {
      assert nums[..i + 1] == nums[..i] + [nums[i]];
      assert SetOf(out + [IntText(nums[i])]) == SetOf(out) + {IntText(nums[i])};
      out := out + [IntText(nums[i])];
    }
    assert nums[..|nums|] == nums;
  }

  lemma PortsUnionSnoc(ports: seq<Option<PortRef>>, i: nat, ps: set<Pod>)
    requires i < |ports|
    ensures PortsUnion(ports[..i + 1], ps) == PortsUnion(ports[..i], ps) + PortTexts(ports[i], ps)
  {
    hide PortTexts;
    assert ports[..i + 1] == ports[..i] + [ports[i]];
  }

  method PortStrings(ports: seq<Option<PortRef>>, dstPods: seq<Pod>) returns (out: seq<string>)
    ensures SetOf(out) == RulePorts(ports, SetOf(dstPods))
  {
    if |ports| == 0 {
      return [ANY_PORT];
    }
    out := [];
    ghost var ps := SetOf(dstPods);
    for i := 0 to |ports|
      invariant SetOf(out) == PortsUnion(ports[..i], ps)
    {
      var q := ports[i];
      PortsUnionSnoc(ports, i, ps);
      var more: seq<string>;
      match q {
        case None => more := [ANY_PORT];
        case Some(Number(n)) => more := [IntText(n)];
        case Some(PortName(name)) =>
          var nums := ResolveNamedPort(dstPods, name);
          if |nums| == 0 {
            more := [ANY_PORT];
          } else {
            assert nums[0] in SetOf(nums);
            more := TextsOf(nums);
          }
      }
      assert SetOf(more) == PortTexts(q, ps);
      out := AddDistinct(out, more);
    }
    assert ports[..|ports|] == ports;
  }

  // ---- walking the policies -----------------------------------------------------------

  /** Where walkPolicyEdges' callbacks collect edges and governed workloads. */
  class EdgeSink {
    var edges: set<string>
    var governedDst: set<string>
    var governedSrc: set<string>

    constructor ()
      ensures edges == {} && governedDst == {} && governedSrc == {}
    {
      edges, governedDst, governedSrc := {}, {}, {};
    }

    method Emit(src: string, dst: string, ports: seq<string>)
      modifies this`edges
      ensures edges == old(edges) + Product({src}, {dst}, SetOf(ports))
    {
      for i := 0 to |ports|
        invariant edges == old(edges) + Product({src}, {dst}, SetOf(ports[..i]))
      {
        assert SetOf(ports[..i + 1]) == SetOf(ports[..i]) + {ports[i]} by {
          assert ports[..i + 1] == ports[..i] + [ports[i]];
        }
        assert Product({src}, {dst}, SetOf(ports[..i + 1]))
            == Product({src}, {dst}, SetOf(ports[..i])) + {EdgeLine(src, dst, ports[i])};
        edges := edges + {EdgeLine(src, dst, ports[i])};
      }
      assert ports[..|ports|] == ports;
    }

    method MarkGovDst(ref: string)
      modifies this`governedDst
      ensures governedDst == old(governedDst) + {ref}
    {
      governedDst := governedDst + {ref};
    }

    method MarkGovSrc(ref: string)
      modifies this`governedSrc
      ensures governedSrc == old(governedSrc) + {ref}
    {
      governedSrc := governedSrc + {ref};
    }
  }

  lemma ProductAddDst(srcs: set<string>, dsts: set<string>, d: string, ports: set<string>)
    ensures Product(srcs, dsts + {d}, ports) == Product(srcs, dsts, ports) + Product(srcs, {d}, ports)
  {}

  lemma ProductAddSrc(srcs: set<string>, s: string, dsts: set<string>, ports: set<string>)
    ensures Product(srcs + {s}, dsts, ports) == Product(srcs, dsts, ports) + Product({s}, dsts, ports)
  {}

  lemma ProductNone(srcs: set<string>, dsts: set<string>, ports: set<string>)
    requires srcs == {} || dsts == {}
    ensures Product(srcs, dsts, ports) == {}
  {}

  lemma NoMembers<T>(xs: seq<T>)
    ensures SetOf(xs[..0]) == {}
  {}

  lemma SetOfTake<T>(xs: seq<T>, i: nat)
    requires i < |xs|
    ensures SetOf(xs[..i + 1]) == SetOf(xs[..i]) + {xs[i]}
    ensures SetOf(xs[..0]) == {} && xs[..|xs|] == xs
  {
    assert xs[..i + 1] == xs[..i] + [xs[i]];
  }

  method EmitAll(sink: EdgeSink, srcs: seq<string>, dsts: seq<string>, ports: seq<string>)
    modifies sink`edges
    ensures sink.edges == old(sink.edges) + Product(SetOf(srcs), SetOf(dsts), SetOf(ports))
  {
    hide Product, SetOf;
    ProductNone(SetOf(srcs), {}, SetOf(ports));
    NoMembers(dsts);
    for i := 0 to |dsts|
      invariant sink.edges == old(sink.edges) + Product(SetOf(srcs), SetOf(dsts[..i]), SetOf(ports))
    {
      SetOfTake(dsts, i);
      NoMembers(srcs);
      ProductNone({}, {dsts[i]}, SetOf(ports));
      ProductAddDst(SetOf(srcs), SetOf(dsts[..i]), dsts[i], SetOf(ports));
      ghost var before := sink.edges;
      for j := 0 to |srcs|
        invariant sink.edges == before + Product(SetOf(srcs[..j]), {dsts[i]}, SetOf(ports))
      {
        SetOfTake(srcs, j);
        ProductAddSrc(SetOf(srcs[..j]), srcs[j], {dsts[i]}, SetOf(ports));
        sink.Emit(srcs[j], dsts[i], ports);
      }
      assert srcs[..|srcs|] == srcs;
    }
    assert dsts[..|dsts|] == dsts;
  }

  lemma RulesEdgesSnoc(np: NetworkPolicy, rules: seq<Rule>, i: nat, ingress: bool, pods: seq<Pod>, nsl: NsLabels)
    requires i < |rules|
    ensures RulesEdges(np, rules[..i + 1], ingress, pods, nsl)
         == RulesEdges(np, rules[..i], ingress, pods, nsl) + RuleEdges(np, rules[i], ingress, pods, nsl)
  {
    hide RuleEdges;
    assert rules[..i + 1] == rules[..i] + [rules[i]];
  }

  method WalkIngress(np: NetworkPolicy, pods: seq<Pod>, nsl: NsLabels, selPods: seq<Pod>, selRefs: seq<string>,
                     sink: EdgeSink)
    requires SetOf(selPods) == Picked(pods, np.ns, np.podSelector)
    requires SetOf(selRefs) == Refs(Picked(pods, np.ns, np.podSelector))
    modifies sink`edges, sink`governedDst
    ensures sink.edges == old(sink.edges) + RulesEdges(np, np.ingress, true, pods, nsl)
    ensures sink.governedDst == old(sink.governedDst) + SetOf(selRefs)
  {
    hide Refs, Picked, PeerRefs, RulePorts, Product, RulesEdges;
    for i := 0 to |selRefs|
      invariant sink.governedDst == old(sink.governedDst) + SetOf(selRefs[..i])
      invariant sink.edges == old(sink.edges)
    {
      SetOfTake(selRefs, i);
      sink.MarkGovDst(selRefs[i]);
    }
    assert selRefs[..|selRefs|] == selRefs;
    NoRules(np, true, pods, nsl);
    for ri := 0 to |np.ingress|
      invariant sink.edges == old(sink.edges) + RulesEdges(np, np.ingress[..ri], true, pods, nsl)
      invariant sink.governedDst == old(sink.governedDst) + SetOf(selRefs)
    {
      var rule := np.ingress[ri];
      RulesEdgesSnoc(np, np.ingress, ri, true, pods, nsl);
      var ports := PortStrings(rule.ports, selPods);
      var _, srcRefs := RulePeers(rule.peers, np.ns, pods, nsl);
      EmitAll(sink, srcRefs, selRefs, ports);
    }
    assert np.ingress[..|np.ingress|] == np.ingress;
  }

  lemma NoRules(np: NetworkPolicy, ingress: bool, pods: seq<Pod>, nsl: NsLabels)
    ensures RulesEdges(np, [], ingress, pods, nsl) == {}
  {}

  method WalkEgress(np: NetworkPolicy, pods: seq<Pod>, nsl: NsLabels, selRefs: seq<string>, sink: EdgeSink)
    requires SetOf(selRefs) == Refs(Picked(pods, np.ns, np.podSelector))
    modifies sink`edges, sink`governedSrc
    ensures sink.edges == old(sink.edges) + RulesEdges(np, np.egress, false, pods, nsl)
    ensures sink.governedSrc == old(sink.governedSrc) + SetOf(selRefs)
  {
    hide Refs, Picked, PeerRefs, RulePorts, Product, RulesEdges, PeersPicked;
    for i := 0 to |selRefs|
      invariant sink.governedSrc == old(sink.governedSrc) + SetOf(selRefs[..i])
      invariant sink.edges == old(sink.edges)
    {
      SetOfTake(selRefs, i);
      sink.MarkGovSrc(selRefs[i]);
    }
    assert selRefs[..|selRefs|] == selRefs;
    NoRules(np, false, pods, nsl);
    for ri := 0 to |np.egress|
      invariant sink.edges == old(sink.edges) + RulesEdges(np, np.egress[..ri], false, pods, nsl)
      invariant sink.governedSrc == old(sink.governedSrc) + SetOf(selRefs)
    {
      var rule := np.egress[ri];
      RulesEdgesSnoc(np, np.egress, ri, false, pods, nsl);
      var toPods, dstRefs := RulePeers(rule.peers, np.ns, pods, nsl);
      var ports := PortStrings(rule.ports, toPods);
      EmitAll(sink, selRefs, dstRefs, ports);
    }
    assert np.egress[..|np.egress|] == np.egress;
  }

  lemma NoWorkloadNoEdges(np: NetworkPolicy, pods: seq<Pod>, nsl: NsLabels)
    requires Refs(Picked(pods, np.ns, np.podSelector)) == {}
    ensures PolicyEdges(np, pods, nsl) == {} && GovernedDst(np, pods) == {} && GovernedSrc(np, pods) == {}
  {
    hide Refs, Picked, PeerRefs, RulePorts, PeersPicked;
  }

  method WalkPolicy(np: NetworkPolicy, pods: seq<Pod>, nsl: NsLabels, sink: EdgeSink)
    modifies sink
    ensures sink.edges == old(sink.edges) + PolicyEdges(np, pods, nsl)
    ensures sink.governedDst == old(sink.governedDst) + GovernedDst(np, pods)
    ensures sink.governedSrc == old(sink.governedSrc) + GovernedSrc(np, pods)
  {
    hide Refs, Picked, RulesEdges;
    if !ValidSelector(np.podSelector) {
      return;
    }
    var selPods := PodsMatching(pods, np.ns, np.podSelector);
    var selRefs := WorkloadRefs(selPods);
    if |selRefs| == 0 {
      NoWorkloadNoEdges(np, pods, nsl);
      return;
    }
    if HasIngress(np) {
      WalkIngress(np, pods, nsl, selPods, selRefs, sink);
    }
    if HasEgress(np) {
      WalkEgress(np, pods, nsl, selRefs, sink);
    }
  }

  method WalkPolicyEdges(nps: seq<NetworkPolicy>, pods: seq<Pod>, nss: seq<Namespace>, sink: EdgeSink)
    modifies sink
    ensures sink.edges == old(sink.edges) + EdgesOf(nps, pods, NsLabelsOf(nss))
    ensures sink.governedDst == old(sink.governedDst) + DstsOf(nps, pods)
    ensures sink.governedSrc == old(sink.governedSrc) + SrcsOf(nps, pods)
  {
    hide PolicyEdges, GovernedDst, GovernedSrc;
    var nsl: NsLabels := map[];
    for i := 0 to |nss|
      invariant nsl == NsLabelsOf(nss[..i])
      invariant unchanged(sink)
    {
      assert nss[..i + 1][..i] == nss[..i];
      nsl := nsl[nss[i].name := nss[i].labels];
    }
    assert nss[..|nss|] == nss;
    for i := 0 to |nps|
      invariant sink.edges == old(sink.edges) + EdgesOf(nps[..i], pods, nsl)
      invariant sink.governedDst == old(sink.governedDst) + DstsOf(nps[..i], pods)
      invariant sink.governedSrc == old(sink.governedSrc) + SrcsOf(nps[..i], pods)
    {
      assert nps[..i + 1] == nps[..i] + [nps[i]];
      UnionOverPolicies(nps[..i], [nps[i]], pods, nsl);
      OnePolicy(nps[i], pods, nsl);
      WalkPolicy(nps[i], pods, nsl, sink);
    }
    assert nps[..|nps|] == nps;
  }

  /** The result is the union over the policies. */
  lemma UnionOverPolicies(a: seq<NetworkPolicy>, b: seq<NetworkPolicy>, pods: seq<Pod>, nsl: NsLabels)
    ensures EdgesOf(a + b, pods, nsl) == EdgesOf(a, pods, nsl) + EdgesOf(b, pods, nsl)
    ensures DstsOf(a + b, pods) == DstsOf(a, pods) + DstsOf(b, pods)
    ensures SrcsOf(a + b, pods) == SrcsOf(a, pods) + SrcsOf(b, pods)
  {
    hide PolicyEdges, GovernedDst, GovernedSrc;
    assert forall np :: np in a + b <==> np in a || np in b;
  }

  lemma OnePolicy(np: NetworkPolicy, pods: seq<Pod>, nsl: NsLabels)
    ensures EdgesOf([np], pods, nsl) == PolicyEdges(np, pods, nsl)
    ensures DstsOf([np], pods) == GovernedDst(np, pods) && SrcsOf([np], pods) == GovernedSrc(np, pods)
  {
    hide PolicyEdges, GovernedDst, GovernedSrc;
    assert np in [np];
  }

  // ---- the lines -------------------------------------------------------------------------

  lemma EdgeLinesMarked(l: string, nps: seq<NetworkPolicy>, pods: seq<Pod>, nsl: NsLabels)
    requires l in EdgesOf(nps, pods, nsl)
    ensures l != "" && l[0] == 'E'
  {
    hide PeerRefs, RulePorts, Refs, Picked, PeersPicked;
    var np :| np in nps && l in PolicyEdges(np, pods, nsl);
    assert exists s, d, p :: l == EdgeLine(s, d, p);
  }

  lemma PrefixInjective(prefix: string, a: string, b: string)
    ensures prefix + a == prefix + b ==> a == b
  {
    assert (prefix + a)[|prefix|..] == a && (prefix + b)[|prefix|..] == b;
  }

  method MarkAll(prefix: string, refs: set<string>) returns (out: seq<string>)
    ensures multiset(out) == multiset(Marked(prefix, refs))
  {
    var keys := CollectKeys(refs);
    SetElementsNoDuplicates(keys, refs);
    out := [];
    for i := 0 to |keys|
      invariant multiset(out) == multiset(Marked(prefix, SetOf(keys[..i])))
    {
      SetOfTake(keys, i);
      var done := Marked(prefix, SetOf(keys[..i]));
      forall j | 0 <= j < i ensures prefix + keys[j] != prefix + keys[i] {
        PrefixInjective(prefix, keys[j], keys[i]);
      }
      assert prefix + keys[i] !in done;
      assert Marked(prefix, SetOf(keys[..i + 1])) == done + {prefix + keys[i]};
      out := out + [prefix + keys[i]];
    }
    assert keys[..|keys|] == keys;
    assert SetOf(keys) == refs;
  }

  /** computeEdgeLines: the sorted lines and the number of edges. */
  method ComputeEdgeLines(nps: seq<NetworkPolicy>, pods: seq<Pod>, nss: seq<Namespace>)
    returns (lines: seq<string>, count: nat)
    ensures lines == SortedKeys(LineSet(nps, pods, nss))
    ensures count == |EdgesOf(nps, pods, NsLabelsOf(nss))|
  {
    hide EdgesOf, DstsOf, SrcsOf;
    var sink := new EdgeSink();
    WalkPolicyEdges(nps, pods, nss, sink);
    lines := CollectKeys(sink.edges);
    var gs := MarkAll("G ", sink.governedDst);
    var ss := MarkAll("S ", sink.governedSrc);
    lines := lines + gs + ss;
    forall l | l in sink.edges ensures l != "" && l[0] == 'E' {
      EdgeLinesMarked(l, nps, pods, NsLabelsOf(nss));
    }
    ThreeKinds(sink.edges, sink.governedDst, sink.governedSrc);
    SortedKeysUnique(lines, LineSet(nps, pods, nss));
    lines := SortStrings(lines);
    count := |sink.edges|;
  }

  lemma ThreeKinds(edges: set<string>, dsts: set<string>, srcs: set<string>)
    requires forall l :: l in edges ==> l != "" && l[0] == 'E'
    ensures var g, s := Marked("G ", dsts), Marked("S ", srcs);
      multiset(edges + g + s) == multiset(edges) + multiset(g) + multiset(s)
  {
    var g, s := Marked("G ", dsts), Marked("S ", srcs);
    forall l | l in g ensures l[0] == 'G' {}
    forall l | l in s ensures l[0] == 'S' {}
  }

  /** In parts, because the verifier does not look inside longer literals. */
  const TITLE := "# " + ("NetworkPolicy-derived " + "declared-edge allow-list")
  const DOC_HEADER := TITLE + "\n"

  function DocBody(lines: seq<string>): string {
    if lines == [] then "" else DocBody(lines[..|lines| - 1]) + (lines[|lines| - 1] + "\n")
  }

  /** buildEdgeDoc: the document, the preimage of its version, and the edge count. The
      version is "edges-" and the hash of the lines joined by newlines. */
  method BuildEdgeDoc(nps: seq<NetworkPolicy>, pods: seq<Pod>, nss: seq<Namespace>)
    returns (doc: string, hashed: string, count: nat)
    ensures var lines := SortedKeys(LineSet(nps, pods, nss));
      && doc == "# " + ("NetworkPolicy-derived " + "declared-edge allow-list") + "\n" + DocBody(lines)
      && hashed == Join(lines, "\n")
    ensures count == |EdgesOf(nps, pods, NsLabelsOf(nss))|
  {
    hide LineSet, EdgesOf;
    var lines;
    lines, count := ComputeEdgeLines(nps, pods, nss);
    hashed := Join(lines, "\n");
    var body := "";
    for i := 0 to |lines|
      invariant body == DocBody(lines[..i])
    {
      assert lines[..i + 1][..i] == lines[..i];
      body := body + (lines[i] + "\n");
    }
    assert lines[..|lines|] == lines;
    doc := DOC_HEADER + body;
  }
}
