/** HOME_NET management by annotation (controllers/netvars_resolver.go). */
module NetVars {
  // The value derived from the cluster, who decides it, and what repeated reconciles converge to.

  import opened Wrappers
  import opened Strings
  import opened Sorting
  import opened Yaml

  // ---- the derived value ------------------------------------------------------------

  datatype AddressKind = InternalIP | ExternalIP | OtherAddress

  datatype Address = Address(kind: AddressKind, address: string)

  datatype Node = Node(addresses: seq<Address>, podCidr: string, podCidrs: seq<string>)

  /** The addresses a Service brings: load balancer ingress, externalIPs, loadBalancerIP. */
  datatype Service = Service(ingress: seq<string>, externalIPs: seq<string>, loadBalancerIP: string)

  datatype IpKind = NotIp | V4 | V6

  /** net.ParseIP and net.ParseCIDR. */
  datatype IpLib = IpLib(kind: string -> IpKind, isCidr: string -> bool)

  const SUPERNETS: seq<string> :=
    ["10.0.0.0/8", "172.16.0.0/12", "192.168.0.0/16", "100.64.0.0/10", "fc00::/7", "fe80::/10"]

  /** A bare address as a network of one host. */
  function HostCidr(lib: IpLib, ip: string): Option<string> {
    match lib.kind(ip)
    case NotIp => None
    case V4 => Some(ip + "/32")
    case V6 => Some(ip + "/128")
  }

  /** The networks a Node brings: its addresses' hosts and its pod networks. */
  ghost function NodeNets(lib: IpLib, n: Node): set<string> {
    (set a | a in n.addresses && !a.kind.OtherAddress? && HostCidr(lib, a.address).Some? ::
       HostCidr(lib, a.address).value)
    + (if n.podCidr != "" && lib.isCidr(n.podCidr) then {n.podCidr} else {})
    + (set c | c in n.podCidrs && lib.isCidr(c))
  }

  /** The hosts of a list of addresses. */
  ghost function HostNets(lib: IpLib, ips: seq<string>): set<string> {
    set ip | ip in ips && HostCidr(lib, TrimSpace(ip)).Some? :: HostCidr(lib, TrimSpace(ip)).value
  }

  ghost function ServiceNets(lib: IpLib, s: Service): set<string> {
    HostNets(lib, s.ingress) + HostNets(lib, s.externalIPs)
    + (if s.loadBalancerIP != "" then HostNets(lib, [s.loadBalancerIP]) else {})
  }

  /** The home networks: the supernets and what the Nodes and Services bring. */
  ghost function HomeSet(lib: IpLib, nodes: seq<Node>, svcs: seq<Service>): set<string> {
    (set c | c in SUPERNETS)
    + (set n, c | n in nodes && c in NodeNets(lib, n) :: c)
    + (set s, c | s in svcs && c in ServiceNets(lib, s) :: c)
  }

  ghost function HomeText(home: set<string>): string { "[" + Join(SortedKeys(home), ",") + "]" }

  /** The derived value: the home networks in order; None when a list fails. */
  ghost function AutoText(lib: IpLib, nodes: Option<seq<Node>>, svcs: Option<seq<Service>>): Option<string> {
    if nodes.None? || svcs.None? then None else Some(HomeText(HomeSet(lib, nodes.value, svcs.value)))
  }

  /** The value depends only on which Nodes and Services there are. */
  lemma HomeNetCanonical(lib: IpLib, nodes: seq<Node>, svcs: seq<Service>, nodes': seq<Node>, svcs': seq<Service>)
    requires (forall n :: n in nodes <==> n in nodes') && (forall s :: s in svcs <==> s in svcs')
    ensures AutoText(lib, Some(nodes), Some(svcs)) == AutoText(lib, Some(nodes'), Some(svcs'))
  {
    hide NodeNets, ServiceNets, HomeText;
    assert HomeSet(lib, nodes, svcs) == HomeSet(lib, nodes', svcs');
  }

  method NodeNetworks(lib: IpLib, n: Node) returns (home: set<string>)
    ensures home == NodeNets(lib, n)
  {
    hide HostCidr;
    home := {};
    for i := 0 to |n.addresses|
      invariant home == set a | a in n.addresses[..i] && !a.kind.OtherAddress? && HostCidr(lib, a.address).Some? ::
        HostCidr(lib, a.address).value
    {
      assert n.addresses[..i + 1] == n.addresses[..i] + [n.addresses[i]];
      var a := n.addresses[i];
      if a.kind != InternalIP && a.kind != ExternalIP {
        continue;
      }
      var cidr := HostCidr(lib, a.address);
      if cidr.Some? {
        home := home + {cidr.value};
      }
    }
    assert n.addresses[..|n.addresses|] == n.addresses;
    if n.podCidr != "" {
      if lib.isCidr(n.podCidr) {
        home := home + {n.podCidr};
      }
    }
    ghost var before := home;
    for i := 0 to |n.podCidrs|
      invariant home == before + set c | c in n.podCidrs[..i] && lib.isCidr(c)
    {
      assert n.podCidrs[..i + 1] == n.podCidrs[..i] + [n.podCidrs[i]];
      if lib.isCidr(n.podCidrs[i]) {
        home := home + {n.podCidrs[i]};
      }
    }
    assert n.podCidrs[..|n.podCidrs|] == n.podCidrs;
  }

  method AddressNetworks(lib: IpLib, ips: seq<string>) returns (home: set<string>)
    ensures home == HostNets(lib, ips)
  {
    hide TrimSpace, HostCidr;
    home := {};
    for i := 0 to |ips|
      invariant home == HostNets(lib, ips[..i])
    {
      assert ips[..i + 1] == ips[..i] + [ips[i]];
      var cidr := HostCidr(lib, TrimSpace(ips[i]));
      if cidr.Some? {
        home := home + {cidr.value};
      }
    }
    assert ips[..|ips|] == ips;
  }

  method ServiceNetworks(lib: IpLib, s: Service) returns (home: set<string>)
    ensures home == ServiceNets(lib, s)
  {
    hide TrimSpace, HostCidr;
    home := AddressNetworks(lib, s.ingress);
    var external := AddressNetworks(lib, s.externalIPs);
    home := home + external;
    if s.loadBalancerIP != "" {
      var cidr := HostCidr(lib, TrimSpace(s.loadBalancerIP));
      if cidr.Some? {
        home := home + {cidr.value};
      }
    }
  }

  /** autoHomeNet; None is a failed list. */
  method AutoHomeNet(lib: IpLib, nodes: Option<seq<Node>>, svcs: Option<seq<Service>>) returns (text: Option<string>)
    ensures text == AutoText(lib, nodes, svcs)
  {
    hide NodeNets, ServiceNets;
    if nodes.None? {
      return None;
    }
    var home := set c | c in SUPERNETS;
    for i := 0 to |nodes.value|
      invariant home == HomeSet(lib, nodes.value[..i], [])
    {
      assert nodes.value[..i + 1] == nodes.value[..i] + [nodes.value[i]];
      var more := NodeNetworks(lib, nodes.value[i]);
      home := home + more;
    }
    assert nodes.value[..|nodes.value|] == nodes.value;
    if svcs.None? {
      return None;
    }
    for i := 0 to |svcs.value|
      invariant home == HomeSet(lib, nodes.value, svcs.value[..i])
    {
      assert svcs.value[..i + 1] == svcs.value[..i] + [svcs.value[i]];
      var more := ServiceNetworks(lib, svcs.value[i]);
      home := home + more;
    }
    assert svcs.value[..|svcs.value|] == svcs.value;
    var cidrs := KeysInOrder(home);
    return Some("[" + Join(cidrs, ",") + "]");
  }

  // ---- the two variables in the document -----------------------------------------------

  const EXTERNAL := "!$HOME_NET"

  /** The maps the variables live in, empty where missing or of another type. */
  function IdsOf(root: Entries): Entries { GetOr(SubMap(root, "ids"), map[]) }

  function VarsOf(root: Entries): Entries { GetOr(SubMap(IdsOf(root), "address_vars"), map[]) }

  /** A string value, or "". */
  function StringAt(m: Entries, k: string): string {
    if k in m && m[k].Str? then m[k].s else ""
  }

  function RootOf(d: Doc): Entries { if d.Root? then d.root else map[] }

  function HomeIn(root: Entries): string { StringAt(VarsOf(root), "HOME_NET") }

  predicate VarsSet(root: Entries, home: string) {
    HomeIn(root) == home && StringAt(VarsOf(root), "EXTERNAL_NET") == EXTERNAL
  }

  function WithVars(root: Entries, home: string): Entries {
    var vars := VarsOf(root)["HOME_NET" := Str(home)]["EXTERNAL_NET" := Str(EXTERNAL)];
    root["ids" := Map(IdsOf(root)["address_vars" := Map(vars)])]
  }

  /** setIdsAddressVars: the new text and whether it differs; None for an unreadable one. */
  function SetVars(c: Codec, raw: string, home: string): Option<(string, bool)> {
    var d := c.parse(raw);
    if d.Bad? then None
    else if VarsSet(RootOf(d), home) then Some((raw, false))
    else Some((c.print_(WithVars(RootOf(d), home)), true))
  }

  method SetIdsAddressVars(c: Codec, raw: string, home: string) returns (r: Option<(string, bool)>)
    ensures r == SetVars(c, raw, home)
  {
    var d := c.parse(raw);
    if d.Bad? {
      return None;
    }
    var root: Entries := map[];
    if d.Root? {
      root := d.root;
    }
    var ids := SubMap(root, "ids");
    if ids.None? {
      ids := Some(map[]);
    }
    var vars := SubMap(ids.value, "address_vars");
    if vars.None? {
      vars := Some(map[]);
    }
    var curHome := StringAt(vars.value, "HOME_NET");
    var curExt := StringAt(vars.value, "EXTERNAL_NET");
    if curHome == home && curExt == EXTERNAL {
      return Some((raw, false));
    }
    var newVars := vars.value["HOME_NET" := Str(home)];
    newVars := newVars["EXTERNAL_NET" := Str(EXTERNAL)];
    root := root["ids" := Map(ids.value["address_vars" := Map(newVars)])];
    return Some((c.print_(root), true));
  }

  /** The path of one of the two variables, or below it. */
  predicate UnderVars(path: seq<string>) {
    |path| >= 3 && path[0] == "ids" && path[1] == "address_vars" && path[2] in ["HOME_NET", "EXTERNAL_NET"]
  }

  /** The maps around the variables are missing or are maps. */
  predicate RoomForVars(root: Entries) {
    && ("ids" in root ==> root["ids"].Map?)
    && ("address_vars" in IdsOf(root) ==> IdsOf(root)["address_vars"].Map?)
  }

  /** Whatever the document held elsewhere, it still holds. */
  ghost predicate KeepsOthers(root: Entries, root': Entries) {
    forall path :: !UnderVars(path) && Lookup(Map(root), path).Some? ==>
      Lookup(Map(root'), path) == Lookup(Map(root), path)
  }

  lemma LookupOver(m: Entries, k: string, v: Val, path: seq<string>)
    ensures Lookup(Map(m[k := v]), path) ==
      if path != [] && path[0] == k then Lookup(v, path[1..]) else Lookup(Map(m), path)
  {}

  lemma VarsLookup(vars: Entries, home: string, path: seq<string>)
    requires path == [] || path[0] !in ["HOME_NET", "EXTERNAL_NET"]
    ensures Lookup(Map(vars["HOME_NET" := Str(home)]["EXTERNAL_NET" := Str(EXTERNAL)]), path) == Lookup(Map(vars), path)
  {
    hide Lookup;
    LookupOver(vars["HOME_NET" := Str(home)], "EXTERNAL_NET", Str(EXTERNAL), path);
    LookupOver(vars, "HOME_NET", Str(home), path);
  }

  /** Nothing else in the document is lost, exactly when ids and address_vars are maps or
      missing: a value of another type in their place is replaced. */
  lemma FrameExact(root: Entries, home: string)
    ensures KeepsOthers(root, WithVars(root, home)) <==> RoomForVars(root)
  {
    var root' := WithVars(root, home);
    if RoomForVars(root) {
      forall path | !UnderVars(path) && Lookup(Map(root), path).Some?
        ensures Lookup(Map(root'), path) == Lookup(Map(root), path)
      {
        FrameLookup(root, home, path);
      }
    } else if "ids" in root && !root["ids"].Map? {
      assert ["ids"][1..] == [];
      assert Lookup(Map(root), ["ids"]) == Some(Leaf(root["ids"]));
      assert Lookup(Map(root'), ["ids"]) == Some(Branch);
    } else {
      var path := ["ids", "address_vars"];
      assert path[1..] == ["address_vars"] && ["address_vars"][1..] == [];
      assert Lookup(Map(root), path) == Some(Leaf(IdsOf(root)["address_vars"]));
      assert Lookup(Map(root'), path) == Some(Branch);
    }
  }

  lemma FrameLookup(root: Entries, home: string, path: seq<string>)
    requires RoomForVars(root) && !UnderVars(path) && Lookup(Map(root), path).Some?
    ensures Lookup(Map(WithVars(root, home)), path) == Lookup(Map(root), path)
  {
    var vars := VarsOf(root)["HOME_NET" := Str(home)]["EXTERNAL_NET" := Str(EXTERNAL)];
    var ids := IdsOf(root)["address_vars" := Map(vars)];
    LookupOver(root, "ids", Map(ids), path);
    if path != [] && path[0] == "ids" {
      var p := path[1..];
      LookupOver(IdsOf(root), "address_vars", Map(vars), p);
      if p != [] && p[0] == "address_vars" {
        VarsLookup(VarsOf(root), home, p[1..]);
      }
    }
  }

  // ---- one reconcile ------------------------------------------------------------------------

  const OVERRIDE_KEY := "synapse.gen0sec.com/home-net"
  const MANAGED_KEY := "synapse.gen0sec.com/netvars-managed"

  lemma KeysApart()
    ensures OVERRIDE_KEY != MANAGED_KEY
  {
    assert |OVERRIDE_KEY| != |MANAGED_KEY|;
  }

  /** The config ConfigMap; source: it carries the label that asks for management. */
  datatype Cm = Cm(source: bool, data: map<string, string>, annotations: map<string, string>)

  function Annotation(cm: Cm, k: string): string { if k in cm.annotations then cm.annotations[k] else "" }

  /** strings.EqualFold(s, "any"). */
  predicate IsAny(s: string) { |s| == 3 && s[0] in ['a', 'A'] && s[1] in ['n', 'N'] && s[2] in ['y', 'Y'] }

  /** currentHomeNet. */
  function CurrentHome(c: Codec, raw: string): string {
    var d := c.parse(raw);
    if d.Root? then TrimSpace(HomeIn(d.root)) else ""
  }

  predicate Overridden(cm: Cm) { TrimSpace(Annotation(cm, OVERRIDE_KEY)) != "" }

  /** A value the operator never wrote. */
  predicate Pinned(c: Codec, cm: Cm, raw: string) {
    CurrentHome(c, raw) != "" && !IsAny(CurrentHome(c, raw)) && Annotation(cm, MANAGED_KEY) != "auto"
  }

  datatype Desired = Desired(home: string, manual: bool) | ListFailed

  function DesiredHome(c: Codec, cm: Cm, raw: string, auto: Option<string>): Desired {
    if Overridden(cm) then Desired(TrimSpace(Annotation(cm, OVERRIDE_KEY)), true)
    else if Pinned(c, cm, raw) then Desired(CurrentHome(c, raw), true)
    else
      match auto
      case Some(home) => Desired(home, false)
      case None => ListFailed
  }

  function Marker(d: Desired): string
    requires d.Desired?
  {
    if d.manual then "manual" else "auto"
  }

  /** What a reconcile wants to write; None when it writes nothing. */
  function Wish(c: Codec, cm: Cm, auto: Option<string>): Option<Cm> {
    if !cm.source || CONFIG_KEY !in cm.data then None
    else
      var d := DesiredHome(c, cm, cm.data[CONFIG_KEY], auto);
      if d.ListFailed? || d.home == "" then None
      else
        match SetVars(c, cm.data[CONFIG_KEY], d.home)
        case None => None
        case Some((raw, changed)) =>
          if !changed && Annotation(cm, MANAGED_KEY) == Marker(d) then None
          else Some(cm.(data := cm.data[CONFIG_KEY := raw], annotations := cm.annotations[MANAGED_KEY := Marker(d)]))
  }

  /** auto: the derived value, None when a list fails; works: the update succeeds. */
  function Step(c: Codec, cm: Cm, auto: Option<string>, works: bool): Cm {
    match Wish(c, cm, auto)
    case Some(cm') => if works then cm' else cm
    case None => cm
  }

  class ConfigMapObject {
    const source: bool
    var data: map<string, string>
    var annotations: map<string, string>

    function Snapshot(): Cm
      reads this
    {
      Cm(source, data, annotations)
    }

    constructor (cm: Cm)
      ensures Snapshot() == cm
    {
      source, data, annotations := cm.source, cm.data, cm.annotations;
    }
  }

  /** desiredHomeNet; the cluster is only read when the value is derived. */
  method DecideHome(lib: IpLib, c: Codec, cm: ConfigMapObject, raw: string, nodes: Option<seq<Node>>,
                    svcs: Option<seq<Service>>)
    returns (d: Desired)
    ensures d == DesiredHome(c, cm.Snapshot(), raw, AutoText(lib, nodes, svcs))
  {
    hide TrimSpace, HomeIn, AutoText;
    if OVERRIDE_KEY in cm.annotations && TrimSpace(cm.annotations[OVERRIDE_KEY]) != "" {
      return Desired(TrimSpace(cm.annotations[OVERRIDE_KEY]), true);
    }
    assert !Overridden(cm.Snapshot()) by { NoBlank(); }
    var cur := CurrentHome(c, raw);
    var operatorManaged := MANAGED_KEY in cm.annotations && cm.annotations[MANAGED_KEY] == "auto";
    if cur != "" && !IsAny(cur) && !operatorManaged {
      return Desired(cur, true);
    }
    var text := AutoHomeNet(lib, nodes, svcs);
    if text.None? {
      return ListFailed;
    }
    return Desired(text.value, false);
  }

  lemma NoBlank()
    ensures TrimSpace("") == ""
  {}

  /** Reconcile on the stored object. */
  method Reconcile(lib: IpLib, c: Codec, cm: ConfigMapObject, nodes: Option<seq<Node>>, svcs: Option<seq<Service>>,
                   works: bool)
    returns (wrote: bool)
    modifies cm
    ensures cm.Snapshot() == Step(c, old(cm.Snapshot()), AutoText(lib, nodes, svcs), works)
    ensures wrote <==> works && Wish(c, old(cm.Snapshot()), AutoText(lib, nodes, svcs)).Some?
  {
    hide DesiredHome, SetVars, AutoText;
    if !cm.source {
      return false;
    }
    if CONFIG_KEY !in cm.data {
      return false;
    }
    var raw := cm.data[CONFIG_KEY];
    var d := DecideHome(lib, c, cm, raw, nodes, svcs);
    if d.ListFailed? || d.home == "" {
      return false;
    }
    var r := SetIdsAddressVars(c, raw, d.home);
    if r.None? {
      return false;
    }
    var marker := if d.manual then "manual" else "auto";
    var managed := if MANAGED_KEY in cm.annotations then cm.annotations[MANAGED_KEY] else "";
    if !r.value.1 && managed == marker {
      return false;
    }
    if !works {
      return false;
    }
    cm.data := cm.data[CONFIG_KEY := r.value.0];
    cm.annotations := cm.annotations[MANAGED_KEY := marker];
    return true;
  }

  // ---- runs of reconciles ----------------------------------------------------------------------

  /** The document's HOME_NET as written. */
  function StoredHome(c: Codec, cm: Cm): string {
    if CONFIG_KEY in cm.data then HomeIn(RootOf(c.parse(cm.data[CONFIG_KEY]))) else ""
  }

  /** The object can be managed: labelled, with a readable document, and no override. */
  predicate Manageable(c: Codec, cm: Cm) {
    cm.source && CONFIG_KEY in cm.data && !c.parse(cm.data[CONFIG_KEY]).Bad? && !Overridden(cm)
  }

  /** HOME_NET is the operator's: marked so, unset, or "any". */
  predicate AutoMode(c: Codec, cm: Cm) {
    Manageable(c, cm) && !Pinned(c, cm, cm.data[CONFIG_KEY])
  }

  predicate PinnedMode(c: Codec, cm: Cm) {
    Manageable(c, cm) && Pinned(c, cm, cm.data[CONFIG_KEY])
  }

  ghost predicate GoodAuto(auto: Option<string>) { auto.Some? ==> Trimmed(auto.value) && auto.value != "" }

  lemma AutoTextTrimmed(lib: IpLib, nodes: Option<seq<Node>>, svcs: Option<seq<Service>>)
    ensures GoodAuto(AutoText(lib, nodes, svcs))
  {
    hide Join, HomeSet;
    if nodes.Some? && svcs.Some? {
      var text := HomeText(HomeSet(lib, nodes.value, svcs.value));
      assert text[0] == '[' && text[|text| - 1] == ']';
    }
  }

  /** What a reconcile finds in the cluster; None is a failed list. */
  datatype Listing = Listing(nodes: Option<seq<Node>>, svcs: Option<seq<Service>>)

  ghost function Derived(lib: IpLib, l: Listing): Option<string> { AutoText(lib, l.nodes, l.svcs) }

  /** Reconciles of one object while the cluster changes and writes fail. */
  ghost predicate IsRun(lib: IpLib, c: Codec, trace: seq<Cm>, listings: seq<Listing>, works: seq<bool>) {
    && |trace| == |listings| + 1 && |works| == |listings|
    && forall i :: 0 <= i < |listings| ==> trace[i + 1] == Step(c, trace[i], Derived(lib, listings[i]), works[i])
  }

  /** After a write the stored value is what was wanted, and the marker says by whom. */
  lemma Written(c: Codec, cm: Cm, auto: Option<string>)
    requires RoundTrips(c) && Wish(c, cm, auto).Some?
    ensures var cm', d := Wish(c, cm, auto).value, DesiredHome(c, cm, cm.data[CONFIG_KEY], auto);
      && d.Desired? && Annotation(cm', MANAGED_KEY) == Marker(d)
      && StoredHome(c, cm') == d.home
      && Overridden(cm') == Overridden(cm) && cm'.source == cm.source
      && CONFIG_KEY in cm'.data && !c.parse(cm'.data[CONFIG_KEY]).Bad?
      && VarsSet(RootOf(c.parse(cm'.data[CONFIG_KEY])), d.home)
  {
    hide TrimSpace, Pinned, Join;
    KeysApart();
    var raw, d := cm.data[CONFIG_KEY], DesiredHome(c, cm, cm.data[CONFIG_KEY], auto);
    hide DesiredHome;
    hide WithVars;
    assert c.parse(c.print_(WithVars(RootOf(c.parse(raw)), d.home))) == Root(WithVars(RootOf(c.parse(raw)), d.home));
  }

  lemma TrimmedAgain(s: string)
    ensures TrimSpace(TrimSpace(s)) == TrimSpace(s)
  {
    TrimSpaceTrimmed(s);
  }

  /** Nothing to write means the object already is as wanted. */
  lemma Settled(c: Codec, cm: Cm, auto: Option<string>)
    requires Manageable(c, cm) && Wish(c, cm, auto).None?
    ensures var d := DesiredHome(c, cm, cm.data[CONFIG_KEY], auto);
      d.Desired? && d.home != "" ==>
        StoredHome(c, cm) == d.home && Annotation(cm, MANAGED_KEY) == Marker(d)
  {
    hide TrimSpace, DesiredHome;
  }

  lemma CurrentIsStored(c: Codec, cm: Cm)
    requires CONFIG_KEY in cm.data
    ensures CurrentHome(c, cm.data[CONFIG_KEY]) == TrimSpace(StoredHome(c, cm))
  {
    NoBlank();
    assert HomeIn(map[]) == "";
  }

  lemma AutoStep(c: Codec, cm: Cm, auto: Option<string>, works: bool)
    requires RoundTrips(c) && AutoMode(c, cm) && GoodAuto(auto)
    ensures AutoMode(c, Step(c, cm, auto, works))
    ensures auto.Some? && works ==>
      && StoredHome(c, Step(c, cm, auto, works)) == auto.value
      && Annotation(Step(c, cm, auto, works), MANAGED_KEY) == "auto"
  {
    hide StoredHome, CurrentHome, Overridden, RoundTrips, IsAny, SetVars;
    if Wish(c, cm, auto).Some? {
      Written(c, cm, auto);
    } else {
      Settled(c, cm, auto);
    }
  }

  /** A config that starts unset, "any" or marked as the operator's keeps the marker, and
      after every reconcile that reads the cluster and writes holds the list of its Nodes'
      and Services' networks, whatever failed before. */
  lemma {:induction false} AutoConverges(lib: IpLib, c: Codec, trace: seq<Cm>, listings: seq<Listing>,
                                         works: seq<bool>, n: nat)
    requires RoundTrips(c) && IsRun(lib, c, trace, listings, works) && AutoMode(c, trace[0]) && n < |trace|
    ensures AutoMode(c, trace[n])
    ensures n > 0 && listings[n - 1].nodes.Some? && listings[n - 1].svcs.Some? && works[n - 1] ==>
      && StoredHome(c, trace[n]) == HomeText(HomeSet(lib, listings[n - 1].nodes.value, listings[n - 1].svcs.value))
      && Annotation(trace[n], MANAGED_KEY) == "auto"
  {
    hide AutoMode, Step, StoredHome, GoodAuto, RoundTrips, HomeText, HomeSet;
    if n == 0 {
    } else {
      AutoConverges(lib, c, trace, listings, works, n - 1);
      AutoTextTrimmed(lib, listings[n - 1].nodes, listings[n - 1].svcs);
      AutoStep(c, trace[n - 1], Derived(lib, listings[n - 1]), works[n - 1]);
    }
  }

  lemma PinnedStep(c: Codec, cm: Cm, auto: Option<string>, works: bool)
    requires RoundTrips(c) && PinnedMode(c, cm)
    ensures var cm' := Step(c, cm, auto, works);
      && PinnedMode(c, cm') && TrimSpace(StoredHome(c, cm')) == TrimSpace(StoredHome(c, cm))
      && (works ==> StoredHome(c, cm') == TrimSpace(StoredHome(c, cm)) && Annotation(cm', MANAGED_KEY) == "manual")
  {
    hide StoredHome, Overridden, RoundTrips, IsAny, SetVars, TrimSpace;
    hide CurrentHome;
    CurrentIsStored(c, cm);
    TrimmedAgain(StoredHome(c, cm));
    if Wish(c, cm, auto).Some? {
      Written(c, cm, auto);
      CurrentIsStored(c, Wish(c, cm, auto).value);
    } else {
      Settled(c, cm, auto);
    }
  }

  /** A value pinned by the user stays that value, trimmed, forever, whatever the cluster
      does. */
  lemma {:induction false} PinnedForever(lib: IpLib, c: Codec, trace: seq<Cm>, listings: seq<Listing>,
                                         works: seq<bool>, n: nat)
    requires RoundTrips(c) && IsRun(lib, c, trace, listings, works) && PinnedMode(c, trace[0]) && n < |trace|
    ensures PinnedMode(c, trace[n]) && TrimSpace(StoredHome(c, trace[n])) == TrimSpace(StoredHome(c, trace[0]))
    ensures n > 0 && works[n - 1] ==>
      StoredHome(c, trace[n]) == TrimSpace(StoredHome(c, trace[0])) && Annotation(trace[n], MANAGED_KEY) == "manual"
  {
    hide PinnedMode, Step, StoredHome, RoundTrips, TrimSpace, Derived;
    if n == 0 {
    } else {
      PinnedForever(lib, c, trace, listings, works, n - 1);
      PinnedStep(c, trace[n - 1], Derived(lib, listings[n - 1]), works[n - 1]);
    }
  }

  /** What is wanted does not change by being written. */
  lemma SameDesire(c: Codec, cm: Cm, auto: Option<string>)
    requires RoundTrips(c) && Wish(c, cm, auto).Some?
    ensures var cm' := Wish(c, cm, auto).value;
      DesiredHome(c, cm', cm'.data[CONFIG_KEY], auto) == DesiredHome(c, cm, cm.data[CONFIG_KEY], auto)
  {
    hide StoredHome, RoundTrips, IsAny, SetVars, TrimSpace, CurrentHome;
    var cm' := Wish(c, cm, auto).value;
    KeysApart();
    Written(c, cm, auto);
    CurrentIsStored(c, cm);
    CurrentIsStored(c, cm');
    TrimmedAgain(StoredHome(c, cm));
    assert Annotation(cm', OVERRIDE_KEY) == Annotation(cm, OVERRIDE_KEY);
  }

  lemma WrittenQuiet(c: Codec, cm: Cm, auto: Option<string>)
    requires RoundTrips(c)
    ensures Wish(c, Step(c, cm, auto, true), auto).None?
  {
    hide StoredHome, RoundTrips, IsAny, TrimSpace, CurrentHome, VarsSet;
    if Wish(c, cm, auto).Some? {
      Written(c, cm, auto);
      SameDesire(c, cm, auto);
      hide DesiredHome;
    }
  }

  /** The same Nodes and Services, in whatever order they are listed, or the same failures. */
  ghost predicate SameObjects(l: Listing, l': Listing) {
    && (l.nodes.Some? <==> l'.nodes.Some?) && (l.svcs.Some? <==> l'.svcs.Some?)
    && (l.nodes.Some? && l'.nodes.Some? ==> forall n :: n in l.nodes.value <==> n in l'.nodes.value)
    && (l.svcs.Some? && l'.svcs.Some? ==> forall s :: s in l.svcs.value <==> s in l'.svcs.value)
  }

  lemma SameDerived(lib: IpLib, l: Listing, l': Listing)
    requires SameObjects(l, l')
    ensures Derived(lib, l) == Derived(lib, l')
  {
    hide HomeText, HomeSet;
    if l.nodes.Some? && l.svcs.Some? {
      HomeNetCanonical(lib, l.nodes.value, l.svcs.value, l'.nodes.value, l'.svcs.value);
    }
  }

  /** Reconciling again while the cluster holds the same Nodes and Services writes nothing. */
  lemma SecondReconcileQuiet(lib: IpLib, c: Codec, cm: Cm, l: Listing, l': Listing)
    requires RoundTrips(c) && SameObjects(l, l')
    ensures Wish(c, Step(c, cm, Derived(lib, l), true), Derived(lib, l')).None?
  {
    hide *;
    SameDerived(lib, l, l');
    WrittenQuiet(c, cm, Derived(lib, l));
  }
}
