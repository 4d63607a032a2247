/** What NetworkPolicies allow, and what the compiler says. */
module NetworkPolicySpec {
  // The allow semantics of networking.k8s.io/v1 NetworkPolicySpec (podSelector, policyTypes, ingress
  // and egress peers and ports): every allowed flow is covered by a line, every line has a reason.

  import opened Wrappers
  import opened Strings
  import opened Sorting
  import opened Kube
  import opened Edges
  import Workload

  // ---- the API's meaning ------------------------------------------------------------

  /** One requirement of a label selector holds of a label set. */
  ghost predicate Holds(r: Requirement, labels: Labels) {
    && (r.op == In ==> exists v :: v in r.values && r.key in labels && labels[r.key] == v)
    && (r.op == NotIn ==> forall v :: v in r.values && r.key in labels ==> labels[r.key] != v)
    && (r.op == Exists ==> r.key in labels.Keys)
    && (r.op == DoesNotExist ==> r.key !in labels.Keys)
    && r.op != OtherOp
  }

  /** Every listed label and every requirement of the selector. */
  ghost predicate Fits(s: LabelSelector, labels: Labels) {
    && (forall k :: k in s.matchLabels ==> (k, s.matchLabels[k]) in labels.Items)
    && (forall r :: r in s.matchExpressions ==> Holds(r, labels))
  }

  /** A selector that can be evaluated: In and NotIn have values, the others none. */
  ghost predicate Sound(s: LabelSelector) {
    forall r :: r in s.matchExpressions ==>
      (r.op == In || r.op == NotIn) == (|r.values| > 0) && r.op != OtherOp
  }

  lemma HoldsIsMeets(r: Requirement, labels: Labels)
    ensures Holds(r, labels) <==> Meets(r, labels)
  {}

  /** The compiler's selectors are the API's. */
  lemma SelectorsAgree(s: LabelSelector, labels: Labels)
    ensures Fits(s, labels) <==> Matches(s, labels)
    ensures Sound(s) <==> ValidSelector(s)
  {
    hide Holds, Meets;
    forall r ensures Holds(r, labels) <==> Meets(r, labels) { HoldsIsMeets(r, labels); }
    forall k | k in s.matchLabels
      ensures (k, s.matchLabels[k]) in labels.Items <==> k in labels && labels[k] == s.matchLabels[k]
    {}
  }

  ghost predicate Selects(np: NetworkPolicy, p: Pod) {
    p.ns == np.ns && Fits(np.podSelector, p.labels)
  }

  ghost predicate Lists(np: NetworkPolicy, t: PolicyType) {
    exists i :: 0 <= i < |np.policyTypes| && np.policyTypes[i] == t
  }

  /** Ingress is governed by a policy that lists it, and by one that lists nothing. */
  ghost predicate GovernsIngress(np: NetworkPolicy) { |np.policyTypes| == 0 || Lists(np, IngressType) }

  /** Egress is governed by a policy that lists it, and by one with an egress rule. */
  ghost predicate GovernsEgress(np: NetworkPolicy) { Lists(np, EgressType) || |np.egress| > 0 }

  lemma DirectionsAgree(np: NetworkPolicy)
    ensures GovernsIngress(np) <==> HasIngress(np)
    ensures GovernsEgress(np) <==> HasEgress(np)
  {}

  /** A selector peer admits a pod; address-block peers are outside the pod network. */
  ghost predicate PeerAdmits(peer: Peer, policyNs: string, nss: seq<Namespace>, p: Pod) {
    && !peer.ipBlock
    && (match peer.namespaceSelector
        case None => p.ns == policyNs
        case Some(s) => exists n :: n in nss && n.name == p.ns && Fits(s, n.labels))
    && (peer.podSelector.Some? ==> Fits(peer.podSelector.value, p.labels))
  }

  /** An empty list admits everyone, inside the cluster or not. */
  ghost predicate PeersAdmit(peers: seq<Peer>, policyNs: string, pods: seq<Pod>, nss: seq<Namespace>, p: Pod) {
    peers == []
    || (Addressable(pods, p)
        && exists peer :: peer in peers && ValidPeer(peer) && PeerAdmits(peer, policyNs, nss, p))
  }

  ghost predicate ValidPeer(peer: Peer) {
    && (peer.namespaceSelector.Some? ==> Sound(peer.namespaceSelector.value))
    && (peer.podSelector.Some? ==> Sound(peer.podSelector.value))
  }

  /** d has a container port with this name and number. */
  predicate HasNamedPort(d: Pod, name: string, port: int) {
    exists c, cp | c in d.containers && cp in c :: cp.name == name && cp.port == port
  }

  predicate EntryAdmits(q: Option<PortRef>, d: Pod, port: int) {
    match q
    case None => true
    case Some(Number(n)) => n == port
    case Some(PortName(name)) => HasNamedPort(d, name, port)
  }

  /** The rule's ports admit port on the destination pod. */
  predicate PortsAdmit(ports: seq<Option<PortRef>>, d: Pod, port: int) {
    ports == [] || exists q | q in ports :: EntryAdmits(q, d, port)
  }

  /** A pod with a workload identity of its own. */
  predicate Addressable(pods: seq<Pod>, p: Pod) {
    p in pods && !p.hostNetwork && p.name != ""
  }

  /** Some ingress rule of np lets src reach d on port. */
  ghost predicate IngressAllows(np: NetworkPolicy, pods: seq<Pod>, nss: seq<Namespace>, src: Pod, d: Pod, port: int) {
    && Sound(np.podSelector) && GovernsIngress(np) && Selects(np, d) && Addressable(pods, d)
    && exists r :: r in np.ingress && PeersAdmit(r.peers, np.ns, pods, nss, src) && PortsAdmit(r.ports, d, port)
  }

  /** Some egress rule of np lets src reach d on port. */
  ghost predicate EgressAllows(np: NetworkPolicy, pods: seq<Pod>, nss: seq<Namespace>, src: Pod, d: Pod, port: int) {
    && Sound(np.podSelector) && GovernsEgress(np) && Selects(np, src) && Addressable(pods, src)
    && exists r :: r in np.egress && PeersAdmit(r.peers, np.ns, pods, nss, d) && PortsAdmit(r.ports, d, port)
  }

  // ---- completeness ---------------------------------------------------------------------

  datatype Edge = Edge(src: string, dst: string, port: string)

  /** The agent's reading of an edge: the wildcards cover everything. */
  predicate Covers(e: Edge, src: string, dst: string, port: int) {
    && (e.src == src || e.src == "*/*")
    && (e.dst == dst || e.dst == "*/*")
    && (e.port == IntText(port) || e.port == "*")
  }

  ghost predicate Covered(lines: set<string>, src: Pod, d: Pod, port: int) {
    exists e: Edge :: EdgeLine(e.src, e.dst, e.port) in lines && Covers(e, Workload.Ref(src), Workload.Ref(d), port)
  }

  lemma {:induction false} NsLabelsFaithful(nss: seq<Namespace>)
    requires UniqueNames(nss)
    ensures var nsl := NsLabelsOf(nss);
      && (forall n :: n in nss ==> n.name in nsl && nsl[n.name] == n.labels)
      && (forall ns :: ns in nsl ==> exists n :: n in nss && n.name == ns)
  {
    if nss == [] {
    } else {
      var init := nss[..|nss| - 1];
      assert nss == init + [nss[|nss| - 1]];
      NsLabelsFaithful(init);
    }
  }

  /** A peer admits a pod in the API's terms exactly when the compiler picks it. */
  lemma PeersAgree(peer: Peer, policyNs: string, nss: seq<Namespace>, p: Pod)
    requires UniqueNames(nss)
    ensures ValidPeer(peer) && PeerAdmits(peer, policyNs, nss, p) && !p.hostNetwork
            <==> PeerPicks(peer, policyNs, NsLabelsOf(nss), p)
  {
    hide Fits, Matches, Sound, ValidSelector;
    NsLabelsFaithful(nss);
    var podSel := GetOr(peer.podSelector, EVERYTHING);
    SelectorsAgree(podSel, p.labels);
    EverythingMatches(p.labels);
    if peer.namespaceSelector.Some? {
      var s := peer.namespaceSelector.value;
      SelectorsAgree(s, map[]);
      forall n: Namespace ensures Fits(s, n.labels) <==> Matches(s, n.labels) { SelectorsAgree(s, n.labels); }
      if p.ns in NsLabelsOf(nss) {
        var n :| n in nss && n.name == p.ns;
      }
    }
  }

  lemma EverythingMatches(labels: Labels)
    ensures Matches(EVERYTHING, labels)
  {}

  lemma AdmittedIsPicked(peers: seq<Peer>, policyNs: string, pods: seq<Pod>, nss: seq<Namespace>, p: Pod)
    requires UniqueNames(nss)
    requires peers != [] && PeersAdmit(peers, policyNs, pods, nss, p)
    ensures p in PeersPicked(peers, policyNs, pods, NsLabelsOf(nss))
  {
    hide PeerAdmits, ValidPeer, PeerPicks, NsLabelsOf, UniqueNames;
    var peer :| peer in peers && ValidPeer(peer) && PeerAdmits(peer, policyNs, nss, p);
    PeersAgree(peer, policyNs, nss, p);
    assert PeerPicks(peer, policyNs, NsLabelsOf(nss), p);
  }

  /** The refs of a rule's peers cover every pod the peers admit. */
  lemma PeerCovered(peers: seq<Peer>, policyNs: string, pods: seq<Pod>, nss: seq<Namespace>, p: Pod)
    returns (ref: string)
    requires UniqueNames(nss)
    requires PeersAdmit(peers, policyNs, pods, nss, p)
    ensures ref in PeerRefs(peers, policyNs, pods, NsLabelsOf(nss)) && (ref == Workload.Ref(p) || ref == "*/*")
  {
    if peers == [] {
      ref := "*/*";
    } else {
      AdmittedIsPicked(peers, policyNs, pods, nss, p);
      ref := Workload.Ref(p);
    }
  }

  /** The rule's port texts cover every port the rule admits on d, when d is one of the
      pods the names are resolved on. */
  lemma PortCovered(ports: seq<Option<PortRef>>, ps: set<Pod>, d: Pod, port: int) returns (t: string)
    requires PortsAdmit(ports, d, port)
    requires d in ps || ps == {}
    ensures t in RulePorts(ports, ps) && (t == IntText(port) || t == "*")
  {
    if ports == [] {
      t := "*";
    } else {
      var q :| q in ports && EntryAdmits(q, d, port);
      t := "*";
      if q.Some? && (q.value.Number? || NamedPorts(ps, q.value.name) != {}) { t := IntText(port); }
      if q.Some? && q.value.PortName? && d in ps {
        var c, cp :| c in d.containers && cp in c && cp.name == q.value.name && cp.port == port;
        assert port in NamedPorts(ps, q.value.name);
      }
      assert t in PortTexts(q, ps);
    }
  }

  lemma IngressComplete(nps: seq<NetworkPolicy>, pods: seq<Pod>, nss: seq<Namespace>,
                        np: NetworkPolicy, src: Pod, d: Pod, port: int)
    requires UniqueNames(nss) && np in nps
    requires IngressAllows(np, pods, nss, src, d, port)
    ensures Covered(LineSet(nps, pods, nss), src, d, port)
  {
    hide PeersAdmit, PortsAdmit, PeerRefs, RulePorts, Refs, Picked;
    var r :| r in np.ingress && PeersAdmit(r.peers, np.ns, pods, nss, src) && PortsAdmit(r.ports, d, port);
    var s := PeerCovered(r.peers, np.ns, pods, nss, src);
    SelectedRef(np, pods, d);
    var t := PortCovered(r.ports, Picked(pods, np.ns, np.podSelector), d, port);
    var e := Edge(s, Workload.Ref(d), t);
    assert EdgeLine(e.src, e.dst, e.port) in RuleEdges(np, r, true, pods, NsLabelsOf(nss));
    RuleLine(nps, pods, nss, np, r, true, EdgeLine(e.src, e.dst, e.port));
    assert Covers(e, Workload.Ref(src), Workload.Ref(d), port);
  }

  lemma SelectedRef(np: NetworkPolicy, pods: seq<Pod>, d: Pod)
    requires Addressable(pods, d) && Selects(np, d)
    ensures d in Picked(pods, np.ns, np.podSelector)
    ensures Workload.Ref(d) in Refs(Picked(pods, np.ns, np.podSelector))
  {
  }

  lemma RuleLine(nps: seq<NetworkPolicy>, pods: seq<Pod>, nss: seq<Namespace>, np: NetworkPolicy, r: Rule,
                 ingress: bool, line: string)
    requires np in nps && ValidSelector(np.podSelector)
    requires if ingress then HasIngress(np) && r in np.ingress else HasEgress(np) && r in np.egress
    requires line in RuleEdges(np, r, ingress, pods, NsLabelsOf(nss))
    ensures line in LineSet(nps, pods, nss)
  {
    hide RuleEdges;
    assert line in PolicyEdges(np, pods, NsLabelsOf(nss));
  }

  lemma EgressComplete(nps: seq<NetworkPolicy>, pods: seq<Pod>, nss: seq<Namespace>,
                       np: NetworkPolicy, src: Pod, d: Pod, port: int)
    requires UniqueNames(nss) && np in nps
    requires EgressAllows(np, pods, nss, src, d, port)
    ensures Covered(LineSet(nps, pods, nss), src, d, port)
  {
    hide PeersAdmit, PortsAdmit, PeerRefs, RulePorts, Refs, Picked, PeersPicked;
    var r :| r in np.egress && PeersAdmit(r.peers, np.ns, pods, nss, d) && PortsAdmit(r.ports, d, port);
    SelectedRef(np, pods, src);
    var dst := PeerCovered(r.peers, np.ns, pods, nss, d);
    if r.peers == [] {
      NobodyPicked(np.ns, pods, NsLabelsOf(nss));
    } else {
      AdmittedIsPicked(r.peers, np.ns, pods, nss, d);
    }
    var t := PortCovered(r.ports, PeersPicked(r.peers, np.ns, pods, NsLabelsOf(nss)), d, port);
    var e := Edge(Workload.Ref(src), dst, t);
    assert EdgeLine(e.src, e.dst, e.port) in RuleEdges(np, r, false, pods, NsLabelsOf(nss));
    RuleLine(nps, pods, nss, np, r, false, EdgeLine(e.src, e.dst, e.port));
    assert Covers(e, Workload.Ref(src), Workload.Ref(d), port);
  }

  lemma NobodyPicked(policyNs: string, pods: seq<Pod>, nsl: NsLabels)
    ensures PeersPicked([], policyNs, pods, nsl) == {}
  {}

  /** No flow a policy allows is missing from the lines. */
  lemma CompilationComplete(nps: seq<NetworkPolicy>, pods: seq<Pod>, nss: seq<Namespace>)
    requires UniqueNames(nss)
    ensures forall np, src, d, port ::
      np in nps && (IngressAllows(np, pods, nss, src, d, port) || EgressAllows(np, pods, nss, src, d, port))
      ==> Covered(LineSet(nps, pods, nss), src, d, port)
  {
    hide *;
    forall np, src, d, port |
      np in nps && (IngressAllows(np, pods, nss, src, d, port) || EgressAllows(np, pods, nss, src, d, port))
      ensures Covered(LineSet(nps, pods, nss), src, d, port)
    {
      if IngressAllows(np, pods, nss, src, d, port) {
        IngressComplete(nps, pods, nss, np, src, d, port);
      } else {
        EgressComplete(nps, pods, nss, np, src, d, port);
      }
    }
  }

  // ---- justification ----------------------------------------------------------------------

  /** The pods a policy selects, and the pods a rule's peers admit. */
  ghost function SelectedPods(np: NetworkPolicy, pods: seq<Pod>): set<Pod> {
    set p | p in pods && !p.hostNetwork && Selects(np, p)
  }

  ghost predicate AdmittedByPeer(peers: seq<Peer>, policyNs: string, nss: seq<Namespace>, p: Pod) {
    !p.hostNetwork && exists peer :: peer in peers && ValidPeer(peer) && PeerAdmits(peer, policyNs, nss, p)
  }

  ghost function AdmittedPods(peers: seq<Peer>, policyNs: string, pods: seq<Pod>, nss: seq<Namespace>): set<Pod> {
    set p | p in pods && AdmittedByPeer(peers, policyNs, nss, p)
  }

  /** ref names the workload of one of the pods. */
  ghost predicate RefOf(ps: set<Pod>, ref: string) {
    exists p :: p in ps && Workload.Name(p) != "" && ref == Workload.Ref(p)
  }

  /** Why a rule's peers produce ref. */
  ghost predicate PeerReason(peers: seq<Peer>, policyNs: string, pods: seq<Pod>, nss: seq<Namespace>, ref: string) {
    if peers == [] then ref == "*/*" else RefOf(AdmittedPods(peers, policyNs, pods, nss), ref)
  }

  ghost predicate Unresolved(ps: set<Pod>, name: string) {
    forall p, port :: p in ps ==> !HasNamedPort(p, name, port)
  }

  /** Why one port entry produces t, with names resolved on ps. */
  ghost predicate EntryReason(q: Option<PortRef>, ps: set<Pod>, t: string) {
    match q
    case None => t == "*"
    case Some(Number(n)) => t == IntText(n)
    case Some(PortName(name)) =>
      || (exists p, port :: p in ps && HasNamedPort(p, name, port) && t == IntText(port))
      || (Unresolved(ps, name) && t == "*")
  }

  ghost predicate PortReason(ports: seq<Option<PortRef>>, ps: set<Pod>, t: string) {
    if ports == [] then t == "*" else exists q :: q in ports && EntryReason(q, ps, t)
  }

  ghost predicate IngressReason(np: NetworkPolicy, r: Rule, pods: seq<Pod>, nss: seq<Namespace>, e: Edge) {
    && Sound(np.podSelector) && GovernsIngress(np) && r in np.ingress
    && RefOf(SelectedPods(np, pods), e.dst)
    && PeerReason(r.peers, np.ns, pods, nss, e.src)
    && PortReason(r.ports, SelectedPods(np, pods), e.port)
  }

  ghost predicate EgressReason(np: NetworkPolicy, r: Rule, pods: seq<Pod>, nss: seq<Namespace>, e: Edge) {
    && Sound(np.podSelector) && GovernsEgress(np) && r in np.egress
    && RefOf(SelectedPods(np, pods), e.src)
    && PeerReason(r.peers, np.ns, pods, nss, e.dst)
    && PortReason(r.ports, AdmittedPods(r.peers, np.ns, pods, nss), e.port)
  }

  lemma SelectedIsPicked(np: NetworkPolicy, pods: seq<Pod>)
    ensures SelectedPods(np, pods) == Picked(pods, np.ns, np.podSelector)
  {}

  lemma AdmittedIsPeersPicked(peers: seq<Peer>, policyNs: string, pods: seq<Pod>, nss: seq<Namespace>)
    requires UniqueNames(nss)
    ensures AdmittedPods(peers, policyNs, pods, nss) == PeersPicked(peers, policyNs, pods, NsLabelsOf(nss))
  {
    hide PeerAdmits, ValidPeer, PeerPicks, NsLabelsOf, UniqueNames;
    forall peer, p ensures (ValidPeer(peer) && PeerAdmits(peer, policyNs, nss, p) && !p.hostNetwork)
                      <==> PeerPicks(peer, policyNs, NsLabelsOf(nss), p)
    {
      PeersAgree(peer, policyNs, nss, p);
    }
  }

  lemma RefOfIsRefs(ps: set<Pod>, ref: string)
    ensures RefOf(ps, ref) <==> ref in Refs(ps)
  {}

  lemma NamedPortsAre(ps: set<Pod>, name: string)
    ensures forall n :: n in NamedPorts(ps, name) <==> exists p :: p in ps && HasNamedPort(p, name, n)
    ensures NamedPorts(ps, name) == {} <==> Unresolved(ps, name)
  {
    forall n ensures n in NamedPorts(ps, name) <==> exists p :: p in ps && HasNamedPort(p, name, n) {
      if n in NamedPorts(ps, name) {
        var p, c, cp :| p in ps && c in p.containers && cp in c && cp.name == name && cp.port == n;
        assert HasNamedPort(p, name, n);
      }
    }
    if NamedPorts(ps, name) == {} {
      forall p, port | p in ps ensures !HasNamedPort(p, name, port) {
        assert port !in NamedPorts(ps, name);
      }
    } else {
      var n :| n in NamedPorts(ps, name);
      var p :| p in ps && HasNamedPort(p, name, n);
    }
  }

  lemma EntryReasonIsPortTexts(q: Option<PortRef>, ps: set<Pod>, t: string)
    ensures EntryReason(q, ps, t) <==> t in PortTexts(q, ps)
  {
    hide HasNamedPort, Unresolved, NamedPorts, IntText;
    if q.Some? && q.value.PortName? {
      var name := q.value.name;
      NamedPortsAre(ps, name);
      if p, port :| p in ps && HasNamedPort(p, name, port) && t == IntText(port) {
        assert port in NamedPorts(ps, name);
      }
    }
  }

  lemma PortReasonIsRulePorts(ports: seq<Option<PortRef>>, ps: set<Pod>, t: string)
    ensures PortReason(ports, ps, t) <==> t in RulePorts(ports, ps)
  {
    hide EntryReason, PortTexts;
    forall q ensures EntryReason(q, ps, t) <==> t in PortTexts(q, ps) {
      EntryReasonIsPortTexts(q, ps, t);
    }
  }

  lemma RuleReason(np: NetworkPolicy, r: Rule, pods: seq<Pod>, nss: seq<Namespace>, e: Edge)
    requires UniqueNames(nss) && ValidSelector(np.podSelector)
    ensures GovernsIngress(np) && r in np.ingress ==>
      (IngressReason(np, r, pods, nss, e) <==>
        && e.src in PeerRefs(r.peers, np.ns, pods, NsLabelsOf(nss))
        && e.dst in Refs(Picked(pods, np.ns, np.podSelector))
        && e.port in RulePorts(r.ports, Picked(pods, np.ns, np.podSelector)))
    ensures GovernsEgress(np) && r in np.egress ==>
      (EgressReason(np, r, pods, nss, e) <==>
        && e.src in Refs(Picked(pods, np.ns, np.podSelector))
        && e.dst in PeerRefs(r.peers, np.ns, pods, NsLabelsOf(nss))
        && e.port in RulePorts(r.ports, PeersPicked(r.peers, np.ns, pods, NsLabelsOf(nss))))
  {
    hide SelectedPods, AdmittedPods, RefOf, PortReason, Refs, RulePorts, Picked, PeersPicked;
    SelectedIsPicked(np, pods);
    AdmittedIsPeersPicked(r.peers, np.ns, pods, nss);
    var selected, admitted := SelectedPods(np, pods), AdmittedPods(r.peers, np.ns, pods, nss);
    RefOfIsRefs(selected, e.src);
    RefOfIsRefs(selected, e.dst);
    RefOfIsRefs(admitted, e.src);
    RefOfIsRefs(admitted, e.dst);
    PortReasonIsRulePorts(r.ports, selected, e.port);
    PortReasonIsRulePorts(r.ports, admitted, e.port);
  }

  ghost predicate EdgeReason(nps: seq<NetworkPolicy>, pods: seq<Pod>, nss: seq<Namespace>, e: Edge) {
    exists np, r :: np in nps && (IngressReason(np, r, pods, nss, e) || EgressReason(np, r, pods, nss, e))
  }

  /** The kinds of line are told apart by their first letter. */
  lemma LineKinds(nps: seq<NetworkPolicy>, pods: seq<Pod>, nss: seq<Namespace>)
    ensures forall l :: l in LineSet(nps, pods, nss) && HasPrefix(l, "E ") <==> l in EdgesOf(nps, pods, NsLabelsOf(nss))
    ensures forall ref :: "G " + ref in LineSet(nps, pods, nss) <==> ref in DstsOf(nps, pods)
    ensures forall ref :: "S " + ref in LineSet(nps, pods, nss) <==> ref in SrcsOf(nps, pods)
  {
    var edges, dsts, srcs := EdgesOf(nps, pods, NsLabelsOf(nss)), DstsOf(nps, pods), SrcsOf(nps, pods);
    forall l | l in edges ensures HasPrefix(l, "E ") { EdgeStart(nps, pods, NsLabelsOf(nss), l); }
    hide EdgesOf, DstsOf, SrcsOf, NsLabelsOf;
    forall ref
      ensures ("G " + ref)[0] == 'G' && ("G " + ref)[2..] == ref
      ensures ("S " + ref)[0] == 'S' && ("S " + ref)[2..] == ref
    {}
  }

  lemma EdgeStart(nps: seq<NetworkPolicy>, pods: seq<Pod>, nsl: NsLabels, l: string)
    requires l in EdgesOf(nps, pods, nsl)
    ensures HasPrefix(l, "E ")
  {
    hide PeerRefs, Refs, RulePorts, Picked, PeersPicked;
  }

  /** Every E line has a witness policy, rule, selected pod, peer and port, and every such
      witness has its line. */
  lemma EdgesJustified(nps: seq<NetworkPolicy>, pods: seq<Pod>, nss: seq<Namespace>, l: string)
    requires UniqueNames(nss)
    ensures l in LineSet(nps, pods, nss) && HasPrefix(l, "E ") <==>
            exists e: Edge :: l == EdgeLine(e.src, e.dst, e.port) && EdgeReason(nps, pods, nss, e)
  {
    hide LineSet, EdgesOf, DstsOf, SrcsOf, EdgeReason, EdgeLine;
    LineKinds(nps, pods, nss);
    EdgeWitness(nps, pods, nss, l);
  }

  lemma EdgeWitness(nps: seq<NetworkPolicy>, pods: seq<Pod>, nss: seq<Namespace>, l: string)
    requires UniqueNames(nss)
    ensures l in EdgesOf(nps, pods, NsLabelsOf(nss)) <==>
            exists e: Edge :: l == EdgeLine(e.src, e.dst, e.port) && EdgeReason(nps, pods, nss, e)
  {
    hide IngressReason, EgressReason, PeerRefs, Refs, RulePorts, Picked, PeersPicked, EdgeLine;
    var nsl := NsLabelsOf(nss);
    if l in EdgesOf(nps, pods, nsl) {
      var np :| np in nps && l in PolicyEdges(np, pods, nsl);
      var e, r := LineWitness(np, pods, nss, l);
      assert EdgeReason(nps, pods, nss, e);
    }
    if e: Edge :| l == EdgeLine(e.src, e.dst, e.port) && EdgeReason(nps, pods, nss, e) {
      var np, r :| np in nps && (IngressReason(np, r, pods, nss, e) || EgressReason(np, r, pods, nss, e));
      ReasonLine(np, r, pods, nss, e);
      assert l in PolicyEdges(np, pods, nsl);
    }
  }

  lemma LineWitness(np: NetworkPolicy, pods: seq<Pod>, nss: seq<Namespace>, l: string) returns (e: Edge, r: Rule)
    requires UniqueNames(nss) && l in PolicyEdges(np, pods, NsLabelsOf(nss))
    ensures l == EdgeLine(e.src, e.dst, e.port)
    ensures IngressReason(np, r, pods, nss, e) || EgressReason(np, r, pods, nss, e)
  {
    hide IngressReason, EgressReason, PeerRefs, Refs, RulePorts, Picked, PeersPicked, EdgeLine;
    var nsl := NsLabelsOf(nss);
    if HasIngress(np) && l in RulesEdges(np, np.ingress, true, pods, nsl) {
      r :| r in np.ingress && l in RuleEdges(np, r, true, pods, nsl);
      var selected := Picked(pods, np.ns, np.podSelector);
      var s, d, p :| s in PeerRefs(r.peers, np.ns, pods, nsl) && d in Refs(selected)
                     && p in RulePorts(r.ports, selected) && l == EdgeLine(s, d, p);
      e := Edge(s, d, p);
      RuleReason(np, r, pods, nss, e);
    } else {
      r :| r in np.egress && l in RuleEdges(np, r, false, pods, nsl);
      var s, d, p :| s in Refs(Picked(pods, np.ns, np.podSelector)) && d in PeerRefs(r.peers, np.ns, pods, nsl)
                     && p in RulePorts(r.ports, PeersPicked(r.peers, np.ns, pods, nsl)) && l == EdgeLine(s, d, p);
      e := Edge(s, d, p);
      RuleReason(np, r, pods, nss, e);
    }
  }

  lemma ReasonLine(np: NetworkPolicy, r: Rule, pods: seq<Pod>, nss: seq<Namespace>, e: Edge)
    requires UniqueNames(nss)
    requires IngressReason(np, r, pods, nss, e) || EgressReason(np, r, pods, nss, e)
    ensures EdgeLine(e.src, e.dst, e.port) in PolicyEdges(np, pods, NsLabelsOf(nss))
  {
    assert ValidSelector(np.podSelector);
    assert IngressReason(np, r, pods, nss, e) ==> GovernsIngress(np) && r in np.ingress;
    assert EgressReason(np, r, pods, nss, e) ==> GovernsEgress(np) && r in np.egress;
    hide IngressReason, EgressReason, PeerRefs, Refs, RulePorts, Picked, PeersPicked, EdgeLine;
    RuleReason(np, r, pods, nss, e);
    if IngressReason(np, r, pods, nss, e) {
      assert EdgeLine(e.src, e.dst, e.port) in RuleEdges(np, r, true, pods, NsLabelsOf(nss));
    } else {
      assert EdgeLine(e.src, e.dst, e.port) in RuleEdges(np, r, false, pods, NsLabelsOf(nss));
    }
  }

  /** The ports of a rule do not restrict: an empty list, a nil port or an unresolved name. */
  ghost predicate Unrestricted(ports: seq<Option<PortRef>>, ps: set<Pod>) {
    || ports == [] || None in ports
    || exists name :: Some(PortName(name)) in ports && Unresolved(ps, name)
  }

  /** A policy, a direction and a rule without port restriction lead from src to dst. */
  ghost predicate WildcardReason(nps: seq<NetworkPolicy>, pods: seq<Pod>, nss: seq<Namespace>, src: string,
                                 dst: string)
  {
    exists np, r ::
      np in nps && (WildcardIngress(np, r, pods, nss, src, dst) || WildcardEgress(np, r, pods, nss, src, dst))
  }

  ghost predicate WildcardIngress(np: NetworkPolicy, r: Rule, pods: seq<Pod>, nss: seq<Namespace>, src: string,
                                  dst: string)
  {
    && Sound(np.podSelector) && GovernsIngress(np) && r in np.ingress
    && RefOf(SelectedPods(np, pods), dst) && PeerReason(r.peers, np.ns, pods, nss, src)
    && Unrestricted(r.ports, SelectedPods(np, pods))
  }

  ghost predicate WildcardEgress(np: NetworkPolicy, r: Rule, pods: seq<Pod>, nss: seq<Namespace>, src: string,
                                 dst: string)
  {
    && Sound(np.podSelector) && GovernsEgress(np) && r in np.egress
    && RefOf(SelectedPods(np, pods), src) && PeerReason(r.peers, np.ns, pods, nss, dst)
    && Unrestricted(r.ports, AdmittedPods(r.peers, np.ns, pods, nss))
  }

  lemma NumberText(n: int)
    ensures IntText(n) != "" && IntText(n)[|IntText(n)| - 1] != '*'
  {
    var t := NatText(if n < 0 then -n else n);
    assert t[|t| - 1] in t;
  }

  /** The last character of a port text tells the wildcard from a number. */
  lemma PortEnds(ports: seq<Option<PortRef>>, ps: set<Pod>, t: string)
    requires PortReason(ports, ps, t)
    ensures t != "" && (t[|t| - 1] == '*' <==> t == "*")
  {
    hide IntText, HasNamedPort, Unresolved;
    forall n ensures IntText(n) != "" && IntText(n)[|IntText(n)| - 1] != '*' { NumberText(n); }
  }

  lemma WildcardText(ports: seq<Option<PortRef>>, ps: set<Pod>)
    ensures PortReason(ports, ps, "*") <==> Unrestricted(ports, ps)
  {
    hide IntText, HasNamedPort, Unresolved;
    forall n ensures IntText(n) != "*" { NumberText(n); }
  }

  lemma WildcardEdge(nps: seq<NetworkPolicy>, pods: seq<Pod>, nss: seq<Namespace>, src: string, dst: string)
    ensures EdgeReason(nps, pods, nss, Edge(src, dst, "*")) <==> WildcardReason(nps, pods, nss, src, dst)
  {
    hide RefOf, PeerReason, PortReason, Unrestricted, SelectedPods, AdmittedPods, ValidSelector;
    var e := Edge(src, dst, "*");
    forall np, r
      ensures IngressReason(np, r, pods, nss, e) <==> WildcardIngress(np, r, pods, nss, src, dst)
      ensures EgressReason(np, r, pods, nss, e) <==> WildcardEgress(np, r, pods, nss, src, dst)
    {
      WildcardText(r.ports, SelectedPods(np, pods));
      WildcardText(r.ports, AdmittedPods(r.peers, np.ns, pods, nss));
    }
    hide IngressReason, EgressReason, WildcardIngress, WildcardEgress;
  }

  lemma EdgePort(nps: seq<NetworkPolicy>, pods: seq<Pod>, nss: seq<Namespace>, e: Edge)
    requires EdgeReason(nps, pods, nss, e)
    ensures HasSuffix(EdgeLine(e.src, e.dst, e.port), " : " + "*") <==> e.port == "*"
  {
    hide RefOf, PeerReason, PortReason, SelectedPods, AdmittedPods, ValidSelector;
    var np, r :| np in nps && (IngressReason(np, r, pods, nss, e) || EgressReason(np, r, pods, nss, e));
    if IngressReason(np, r, pods, nss, e) {
      PortEnds(r.ports, SelectedPods(np, pods), e.port);
    } else {
      PortEnds(r.ports, AdmittedPods(r.peers, np.ns, pods, nss), e.port);
    }
    LineEnd("E " + e.src + " > " + e.dst, e.port);
  }

  lemma LineEnd(start: string, port: string)
    requires port != "" && (port[|port| - 1] == '*' <==> port == "*")
    ensures HasSuffix(start + " : " + port, " : " + "*") <==> port == "*"
  {
    var l := start + " : " + port;
    assert l[|l| - 1] == port[|port| - 1];
    if port == "*" {
      assert l == start + (" : " + "*");
      assert l[|start|..] == " : " + "*";
    }
  }

  /** The E lines that end in the wildcard port are exactly those of rules that do not
      restrict ports: an empty list, a nil port or a name no destination pod declares. */
  lemma WildcardPorts(nps: seq<NetworkPolicy>, pods: seq<Pod>, nss: seq<Namespace>, l: string)
    requires UniqueNames(nss)
    ensures l in LineSet(nps, pods, nss) && HasPrefix(l, "E ") && HasSuffix(l, " : " + "*") <==>
      exists src, dst :: l == EdgeLine(src, dst, "*") && WildcardReason(nps, pods, nss, src, dst)
  {
    hide LineSet, EdgeReason, WildcardReason, EdgeLine, HasPrefix, HasSuffix;
    EdgesJustified(nps, pods, nss, l);
    if l in LineSet(nps, pods, nss) && HasPrefix(l, "E ") && HasSuffix(l, " : " + "*") {
      var e: Edge :| l == EdgeLine(e.src, e.dst, e.port) && EdgeReason(nps, pods, nss, e);
      EdgePort(nps, pods, nss, e);
      WildcardEdge(nps, pods, nss, e.src, e.dst);
      assert e == Edge(e.src, e.dst, "*");
    }
    if src, dst :| l == EdgeLine(src, dst, "*") && WildcardReason(nps, pods, nss, src, dst) {
      var e := Edge(src, dst, "*");
      WildcardEdge(nps, pods, nss, src, dst);
      EdgePort(nps, pods, nss, e);
      assert l == EdgeLine(e.src, e.dst, e.port) && EdgeReason(nps, pods, nss, e);
    }
  }

  lemma GovernedByOne(np: NetworkPolicy, pods: seq<Pod>, ref: string)
    ensures ref in GovernedDst(np, pods) <==>
      Sound(np.podSelector) && GovernsIngress(np) && RefOf(SelectedPods(np, pods), ref)
    ensures ref in GovernedSrc(np, pods) <==>
      Sound(np.podSelector) && GovernsEgress(np) && RefOf(SelectedPods(np, pods), ref)
  {
    SelectedIsPicked(np, pods);
    RefOfIsRefs(SelectedPods(np, pods), ref);
  }

  /** G and S lines name exactly the workloads of the selected pods. */
  lemma GovernedExactly(nps: seq<NetworkPolicy>, pods: seq<Pod>, nss: seq<Namespace>, ref: string)
    ensures "G " + ref in LineSet(nps, pods, nss) <==>
      exists np :: np in nps && Sound(np.podSelector) && GovernsIngress(np) && RefOf(SelectedPods(np, pods), ref)
    ensures "S " + ref in LineSet(nps, pods, nss) <==>
      exists np :: np in nps && Sound(np.podSelector) && GovernsEgress(np) && RefOf(SelectedPods(np, pods), ref)
  {
    hide LineSet, EdgesOf, DstsOf, SrcsOf, RefOf, SelectedPods, ValidSelector;
    LineKinds(nps, pods, nss);
    GovernedRefs(nps, pods, ref);
  }

  lemma GovernedRefs(nps: seq<NetworkPolicy>, pods: seq<Pod>, ref: string)
    ensures ref in DstsOf(nps, pods) <==>
      exists np :: np in nps && Sound(np.podSelector) && GovernsIngress(np) && RefOf(SelectedPods(np, pods), ref)
    ensures ref in SrcsOf(nps, pods) <==>
      exists np :: np in nps && Sound(np.podSelector) && GovernsEgress(np) && RefOf(SelectedPods(np, pods), ref)
  {
    hide GovernedDst, GovernedSrc, RefOf, SelectedPods, ValidSelector;
    forall np | np in nps
      ensures ref in GovernedDst(np, pods) <==>
        Sound(np.podSelector) && GovernsIngress(np) && RefOf(SelectedPods(np, pods), ref)
      ensures ref in GovernedSrc(np, pods) <==>
        Sound(np.podSelector) && GovernsEgress(np) && RefOf(SelectedPods(np, pods), ref)
    {
      GovernedByOne(np, pods, ref);
    }
  }

  /** A policy that lists egress alone and has no rules: an S line for every selected workload,
      and no other line. */
  lemma DefaultDenyEgress(np: NetworkPolicy, pods: seq<Pod>, nss: seq<Namespace>, l: string)
    requires np.policyTypes == [EgressType] && np.egress == [] && Sound(np.podSelector)
    ensures l in LineSet([np], pods, nss) <==>
            exists p :: p in SelectedPods(np, pods) && Workload.Name(p) != "" && l == "S " + Workload.Ref(p)
  {
    hide Edges.RuleEdges, Workload.Name, Workload.Ref, Refs;
    DirectionsAgree(np);
    SelectorsAgree(np.podSelector, map[]);
    OnePolicy(np, pods, NsLabelsOf(nss));
    assert PolicyEdges(np, pods, NsLabelsOf(nss)) == {} && GovernedDst(np, pods) == {};
    SelectedIsPicked(np, pods);
    RefOfMembers(SelectedPods(np, pods), l);
  }

  lemma RefOfMembers(ps: set<Pod>, l: string)
    ensures l in Marked("S ", Refs(ps)) <==>
            exists p :: p in ps && Workload.Name(p) != "" && l == "S " + Workload.Ref(p)
  {
    hide Workload.Name, Workload.Ref;
    if p :| p in ps && Workload.Name(p) != "" && l == "S " + Workload.Ref(p) {
      assert Workload.Ref(p) in Refs(ps);
    }
  }

  // ---- canonical form --------------------------------------------------------------------------

  lemma SamePodsSamePicks(pods: seq<Pod>, pods': seq<Pod>, nps: seq<NetworkPolicy>, nsl: NsLabels)
    requires forall p :: p in pods <==> p in pods'
    ensures forall np :: PolicyEdges(np, pods, nsl) == PolicyEdges(np, pods', nsl)
    ensures forall np :: GovernedDst(np, pods) == GovernedDst(np, pods')
    ensures forall np :: GovernedSrc(np, pods) == GovernedSrc(np, pods')
  {
    forall ns, sel ensures Picked(pods, ns, sel) == Picked(pods', ns, sel) {}
    forall peers, ns ensures PeersPicked(peers, ns, pods, nsl) == PeersPicked(peers, ns, pods', nsl) {}
    hide Picked, PeersPicked, Refs, RulePorts, Product;
    forall np, r, dir ensures RuleEdges(np, r, dir, pods, nsl) == RuleEdges(np, r, dir, pods', nsl) {}
    hide RuleEdges;
    forall np, rules, dir ensures RulesEdges(np, rules, dir, pods, nsl) == RulesEdges(np, rules, dir, pods', nsl) {}
  }

  lemma SameNamespacesSameLabels(nss: seq<Namespace>, nss': seq<Namespace>)
    requires multiset(nss) == multiset(nss') && UniqueNames(nss)
    ensures NsLabelsOf(nss) == NsLabelsOf(nss') && UniqueNames(nss')
  {
    PermutedMembers(nss, nss');
    NsLabelsFaithful(nss);
    NsLabelsFaithful(nss');
    var a, b := NsLabelsOf(nss), NsLabelsOf(nss');
    forall ns ensures ns in a <==> ns in b {
      if ns in a { var n :| n in nss && n.name == ns; assert n in nss'; }
      if ns in b { var n :| n in nss' && n.name == ns; assert n in nss; }
    }
    forall ns | ns in a ensures a[ns] == b[ns] {
      var n :| n in nss && n.name == ns;
      assert n in nss';
    }
  }

  /** The lines do not depend on the order policies, pods or namespaces are listed in. */
  lemma ListingOrderIrrelevant(nps: seq<NetworkPolicy>, pods: seq<Pod>, nss: seq<Namespace>,
                               nps': seq<NetworkPolicy>, pods': seq<Pod>, nss': seq<Namespace>)
    requires multiset(nps) == multiset(nps') && multiset(pods) == multiset(pods') && multiset(nss) == multiset(nss')
    requires UniqueNames(nss)
    ensures LineSet(nps, pods, nss) == LineSet(nps', pods', nss')
    ensures SortedKeys(LineSet(nps, pods, nss)) == SortedKeys(LineSet(nps', pods', nss'))
  {
    PermutedMembers(nps, nps');
    PermutedMembers(pods, pods');
    SameNamespacesSameLabels(nss, nss');
    SamePodsSamePicks(pods, pods', nps, NsLabelsOf(nss));
    SameMembersSameLines(nps, nps', pods, pods', NsLabelsOf(nss));
    hide EdgesOf, DstsOf, SrcsOf, NsLabelsOf;
  }

  lemma SameMembersSameLines(nps: seq<NetworkPolicy>, nps': seq<NetworkPolicy>, pods: seq<Pod>, pods': seq<Pod>,
                             nsl: NsLabels)
    requires forall np :: np in nps <==> np in nps'
    requires forall np :: PolicyEdges(np, pods, nsl) == PolicyEdges(np, pods', nsl)
    requires forall np :: GovernedDst(np, pods) == GovernedDst(np, pods')
    requires forall np :: GovernedSrc(np, pods) == GovernedSrc(np, pods')
    ensures EdgesOf(nps, pods, nsl) == EdgesOf(nps', pods', nsl)
    ensures DstsOf(nps, pods) == DstsOf(nps', pods')
    ensures SrcsOf(nps, pods) == SrcsOf(nps', pods')
  {
    hide PolicyEdges, GovernedDst, GovernedSrc;
  }

  /** The lines of a list of policies are the union of the lines of its parts. */
  lemma LinesUnion(a: seq<NetworkPolicy>, b: seq<NetworkPolicy>, pods: seq<Pod>, nss: seq<Namespace>)
    ensures LineSet(a + b, pods, nss) == LineSet(a, pods, nss) + LineSet(b, pods, nss)
  {
    hide EdgesOf, DstsOf, SrcsOf;
    UnionOverPolicies(a, b, pods, NsLabelsOf(nss));
  }

  /** The emitted list is sorted and has no duplicates. */
  lemma LinesCanonical(nps: seq<NetworkPolicy>, pods: seq<Pod>, nss: seq<Namespace>)
    ensures var lines := SortedKeys(LineSet(nps, pods, nss));
      Sorted(lines, StrLe) && NoDuplicates(lines) && forall l :: l in lines <==> l in LineSet(nps, pods, nss)
  {
    hide LineSet;
    SortedKeysMembers(LineSet(nps, pods, nss));
  }

  // ---- reading a line ------------------------------------------------------------------------------

  /** An edge line split at its blanks. */
  function ReadEdge(line: string): Option<Edge> {
    var parts := Split(line, ' ');
    if |parts| == 6 && parts[0] == "E" && parts[2] == ">" && parts[4] == ":"
    then Some(Edge(parts[1], parts[3], parts[5])) else None
  }

  /** A line whose refs and port hold no blank names its edge unambiguously. */
  lemma ReadEdgeLine(e: Edge)
    requires ' ' !in e.src && ' ' !in e.dst && ' ' !in e.port
    ensures ReadEdge(EdgeLine(e.src, e.dst, e.port)) == Some(e)
  {
    hide Split;
    var src, dst, port := e.src, e.dst, e.port;
    var tail3 := ":" + [' '] + port;
    var tail2 := dst + [' '] + tail3;
    var tail1 := ">" + [' '] + tail2;
    var tail0 := src + [' '] + tail1;
    EdgeLineNested(src, dst, port);
    SplitNone(port, ' ');
    SplitCons(":", ' ', port);
    SplitCons(dst, ' ', tail3);
    SplitCons(">", ' ', tail2);
    SplitCons(src, ' ', tail1);
    SplitCons("E", ' ', tail0);
    assert Split(EdgeLine(src, dst, port), ' ') == ["E", src, ">", dst, ":", port];
  }

  lemma EdgeLineNested(src: string, dst: string, port: string)
    ensures EdgeLine(src, dst, port)
         == "E" + [' '] + (src + [' '] + (">" + [' '] + (dst + [' '] + (":" + [' '] + port))))
  {
    assert "E " == "E" + [' '] && " > " == [' '] + (">" + [' ']) && " : " == [' '] + (":" + [' ']);
  }
}
