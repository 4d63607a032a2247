/** The parts of the Kubernetes API objects that several of the controllers read. */
module Kube {
  import opened Wrappers

  // ---- label selectors ----------------------------------------------------------

  datatype Op = In | NotIn | Exists | DoesNotExist | OtherOp

  datatype Requirement = Requirement(key: string, op: Op, values: seq<string>)

  datatype LabelSelector = LabelSelector(matchLabels: map<string, string>, matchExpressions: seq<Requirement>)

  type Labels = map<string, string>

  const EVERYTHING := LabelSelector(map[], [])

  predicate ValidRequirement(r: Requirement) {
    match r.op
    case In | NotIn => r.values != []
    case Exists | DoesNotExist => r.values == []
    case OtherOp => false
  }

  /** metav1.LabelSelectorAsSelector succeeds. */
  predicate ValidSelector(s: LabelSelector) {
    forall r :: r in s.matchExpressions ==> ValidRequirement(r)
  }

  predicate Meets(r: Requirement, labels: Labels) {
    match r.op
    case In => r.key in labels && labels[r.key] in r.values
    case NotIn => r.key !in labels || labels[r.key] !in r.values
    case Exists => r.key in labels
    case DoesNotExist => r.key !in labels
    case OtherOp => false
  }

  predicate Matches(s: LabelSelector, labels: Labels) {
    && (forall k :: k in s.matchLabels ==> k in labels && labels[k] == s.matchLabels[k])
    && (forall r :: r in s.matchExpressions ==> Meets(r, labels))
  }

  // ---- pods and namespaces ----------------------------------------------------------

  datatype Owner = Owner(kind: string, name: string, controller: bool)

  datatype ContainerPort = ContainerPort(name: string, port: int)

  datatype Phase = Running | OtherPhase

  datatype Condition = Condition(ready: bool, isTrue: bool)

  datatype Pod = Pod(
    ns: string,
    name: string,
    labels: Labels,
    owners: seq<Owner>,
    hostNetwork: bool,
    containers: seq<seq<ContainerPort>>,
    terminating: bool,
    phase: Phase,
    conditions: seq<Condition>,
    startTime: Option<int>,
    podIP: string,
    podIPs: seq<string>)

  datatype Namespace = Namespace(name: string, labels: Labels)

  ghost predicate UniqueNames(nss: seq<Namespace>) {
    forall a, b :: a in nss && b in nss && a.name == b.name ==> a == b
  }

  // ---- network policies -----------------------------------------------------------------

  datatype PortRef = Number(n: int) | PortName(name: string)

  datatype Peer = Peer(
    ipBlock: bool,
    namespaceSelector: Option<LabelSelector>,
    podSelector: Option<LabelSelector>)

  /** ports: None is a port entry without a port. */
  datatype Rule = Rule(ports: seq<Option<PortRef>>, peers: seq<Peer>)

  datatype PolicyType = IngressType | EgressType | OtherType

  datatype NetworkPolicy = NetworkPolicy(
    ns: string,
    name: string,
    podSelector: LabelSelector,
    policyTypes: seq<PolicyType>,
    ingress: seq<Rule>,
    egress: seq<Rule>)
}
