/** Backend addresses from EndpointSlices (controllers/endpoints.go). */
module Endpoints {
  // And from Services: backendAddr in controllers/ingress_controller.go.

  import opened Wrappers
  import opened Strings
  import opened Sorting
  import opened RouteModel

  datatype ServicePort = ServicePort(name: string, port: int)

  datatype Service = Service(externalName: bool, clusterIP: string, ports: seq<ServicePort>)

  datatype AddressType = IPv4 | IPv6 | FQDN

  datatype SlicePort = SlicePort(name: Option<string>, port: Option<int>)

  datatype Endpoint = Endpoint(addresses: seq<string>, ready: Option<bool>, terminating: Option<bool>)

  datatype EndpointSlice = EndpointSlice(
    ns: string,
    name: string,
    service: string,
    addressType: AddressType,
    ports: seq<SlicePort>,
    endpoints: seq<Endpoint>)

  /** A backend of an Ingress path: a named Service and its port by name or by number. */
  datatype ServiceRef = ServiceRef(name: string, portName: string, portNumber: int)

  /** What the API answers: Services by namespace and name, and the listed slices, None
      for a failed list. */
  datatype View = View(services: map<(string, string), Service>, slices: Option<seq<EndpointSlice>>)

  datatype Flags = Flags(clusterDomain: string, resolveClusterIPs: bool, resolveEndpoints: bool)

  // ---- ports ------------------------------------------------------------------------

  predicate PortMatches(sp: ServicePort, portName: string, portNumber: int) {
    if portName != "" then sp.name == portName else portNumber != 0 && sp.port == portNumber
  }

  /** servicePortName: the first port of the Service that the backend names. */
  method ServicePortName(svc: Service, portName: string, portNumber: int) returns (r: Option<ServicePort>)
    ensures r.Some? <==> exists sp :: sp in svc.ports && PortMatches(sp, portName, portNumber)
    ensures r == FirstPort(svc.ports, portName, portNumber)
    ensures r.Some? ==> exists i ::
      (0 <= i < |svc.ports| && svc.ports[i] == r.value && PortMatches(svc.ports[i], portName, portNumber)
       && forall j :: 0 <= j < i ==> !PortMatches(svc.ports[j], portName, portNumber))
  {
    for i := 0 to |svc.ports|
      invariant forall j :: 0 <= j < i ==> !PortMatches(svc.ports[j], portName, portNumber)
      invariant FirstPort(svc.ports, portName, portNumber) == FirstPort(svc.ports[i..], portName, portNumber)
    {
      var sp := svc.ports[i];
      if portName != "" && sp.name == portName {
        return Some(sp);
      }
      if portName == "" && portNumber != 0 && sp.port == portNumber {
        return Some(sp);
      }
    }
    return None;
  }

  function FirstPort(ports: seq<ServicePort>, portName: string, portNumber: int): Option<ServicePort> {
    if ports == [] then None
    else if PortMatches(ports[0], portName, portNumber) then Some(ports[0])
    else FirstPort(ports[1..], portName, portNumber)
  }

  function SlicePortFor(ports: seq<SlicePort>, portName: string, svcPort: int): Option<int> {
    if ports == [] then None
    else if GetOr(ports[0].name, "") == portName then Some(GetOr(ports[0].port, svcPort))
    else SlicePortFor(ports[1..], portName, svcPort)
  }

  /** The port a slice's addresses are paired with; None leaves the slice out. */
  function PortOf(slice: EndpointSlice, portName: string, svcPort: int): Option<int> {
    var port := if slice.ports == [] then Some(svcPort) else SlicePortFor(slice.ports, portName, svcPort);
    if port == Some(0) then None else port
  }

  method ResolvePort(slice: EndpointSlice, portName: string, svcPort: int) returns (r: Option<int>)
    ensures r == PortOf(slice, portName, svcPort)
  {
    var port := svcPort;
    if |slice.ports| > 0 {
      var matched := false;
      for i := 0 to |slice.ports|
        invariant !matched && port == svcPort
        invariant SlicePortFor(slice.ports, portName, svcPort) == SlicePortFor(slice.ports[i..], portName, svcPort)
      {
        var p := slice.ports[i];
        var name := "";
        if p.name.Some? {
          name := p.name.value;
        }
        if name != portName {
          continue;
        }
        if p.port.Some? {
          port := p.port.value;
        }
        matched := true;
        break;
      }
      if !matched {
        return None;
      }
    }
    if port == 0 {
      return None;
    }
    return Some(port);
  }

  // ---- addresses ----------------------------------------------------------------------

  predicate Usable(ep: Endpoint) { ep.ready != Some(false) && ep.terminating != Some(true) }

  /** endpointUsable: an unknown readiness counts as ready. */
  method EndpointUsable(ep: Endpoint) returns (ok: bool)
    ensures ok == Usable(ep)
  {
    if ep.ready.Some? && !ep.ready.value {
      return false;
    }
    if ep.terminating.Some? && ep.terminating.value {
      return false;
    }
    return true;
  }

  function JoinHostPort(host: string, port: string): string {
    if ':' in host then "[" + host + "]:" + port else host + ":" + port
  }

  function Total<T(!new)>(xs: seq<T>, f: T -> multiset<string>): multiset<string> {
    if xs == [] then multiset{} else Total(xs[..|xs| - 1], f) + f(xs[|xs| - 1])
  }

  lemma {:induction false} TotalAppend<T(!new)>(xs: seq<T>, ys: seq<T>, f: T -> multiset<string>)
    ensures Total(xs + ys, f) == Total(xs, f) + Total(ys, f)
  {
    if ys == [] {
      assert xs + ys == xs;
    } else {
      assert (xs + ys)[..|xs + ys| - 1] == xs + ys[..|ys| - 1];
      TotalAppend(xs, ys[..|ys| - 1], f);
    }
  }

  lemma TotalWithout<T(!new)>(ys: seq<T>, j: nat, f: T -> multiset<string>)
    requires j < |ys|
    ensures Total(ys, f) == Total(ys[..j] + ys[j + 1..], f) + f(ys[j])
  {
    hide Total;
    assert ys == ys[..j] + ([ys[j]] + ys[j + 1..]);
    TotalAppend(ys[..j], ys[j + 1..], f);
    TotalAppend(ys[..j], [ys[j]] + ys[j + 1..], f);
    TotalAppend([ys[j]], ys[j + 1..], f);
    TotalOne(ys[j], f);
  }

  lemma TotalOne<T(!new)>(x: T, f: T -> multiset<string>)
    ensures Total([x], f) == f(x)
  {
    assert [x][..0] == [];
  }

  lemma LastIn<T>(xs: seq<T>, ys: seq<T>) returns (j: nat)
    requires multiset(xs) == multiset(ys) && xs != []
    ensures j < |ys| && ys[j] == xs[|xs| - 1]
    ensures multiset(xs[..|xs| - 1]) == multiset(ys[..j] + ys[j + 1..])
  {
    var init, x := xs[..|xs| - 1], xs[|xs| - 1];
    assert xs == init + [x];
    assert x in multiset(ys);
    j :| 0 <= j < |ys| && ys[j] == x;
    assert ys == ys[..j] + ([x] + ys[j + 1..]);
    var rest := ys[..j] + ys[j + 1..];
    assert multiset(ys) == multiset(rest) + multiset{x};
    assert multiset(xs) == multiset(init) + multiset{x};
    assert multiset(init) == multiset(xs) - multiset{x};
    assert multiset(rest) == multiset(ys) - multiset{x};
  }

  /** A sum does not depend on the order of its terms. */
  lemma {:induction false} TotalPermuted<T(!new)>(xs: seq<T>, ys: seq<T>, f: T -> multiset<string>)
    requires multiset(xs) == multiset(ys)
    ensures Total(xs, f) == Total(ys, f)
  {
    PermutedMembers(xs, ys);
    if xs == [] {
    } else {
      var j := LastIn(xs, ys);
      TotalPermuted(xs[..|xs| - 1], ys[..j] + ys[j + 1..], f);
      TotalWithout(ys, j, f);
    }
  }

  lemma TotalSnoc<T(!new)>(xs: seq<T>, i: nat, f: T -> multiset<string>)
    requires i < |xs|
    ensures Total(xs[..i + 1], f) == Total(xs[..i], f) + f(xs[i])
    ensures xs[..|xs|] == xs
  {
    assert xs[..i + 1][..i] == xs[..i];
  }

  lemma TotalNone<T(!new)>(f: T -> multiset<string>)
    ensures Total([], f) == multiset{}
  {}

  function AddrOn(port: int): string -> multiset<string> {
    addr => multiset{JoinHostPort(addr, IntText(port))}
  }

  function EndpointOn(port: int): Endpoint -> multiset<string> {
    ep => if Usable(ep) then Total(ep.addresses, AddrOn(port)) else multiset{}
  }

  /** What one slice contributes to the addresses of a family. */
  function SliceIn(family: AddressType, portName: string, svcPort: int): EndpointSlice -> multiset<string> {
    (slice: EndpointSlice) =>
      if slice.addressType != family || PortOf(slice, portName, svcPort).None? then multiset{}
      else Total(slice.endpoints, EndpointOn(PortOf(slice, portName, svcPort).value))
  }

  /** The addresses the Service is rendered with: all usable IPv4 endpoints, or all usable
      IPv6 endpoints when there is no IPv4 one. */
  function ServedAddrs(slices: seq<EndpointSlice>, portName: string, svcPort: int): multiset<string> {
    var v4 := Total(slices, SliceIn(IPv4, portName, svcPort));
    if v4 != multiset{} then v4 else Total(slices, SliceIn(IPv6, portName, svcPort))
  }

  /** The canonical list: sorted, each usable endpoint address once per occurrence. */
  ghost predicate IsAddrList(out: seq<string>, slices: seq<EndpointSlice>, portName: string, svcPort: int) {
    Sorted(out, StrLe) && multiset(out) == ServedAddrs(slices, portName, svcPort)
  }

  method HostPorts(addresses: seq<string>, port: int) returns (out: seq<string>)
    ensures multiset(out) == Total(addresses, AddrOn(port))
  {
    hide JoinHostPort, IntText;
    out := [];
    for j := 0 to |addresses|
      invariant multiset(out) == Total(addresses[..j], AddrOn(port))
    {
      TotalSnoc(addresses, j, AddrOn(port));
      out := out + [JoinHostPort(addresses[j], IntText(port))];
    }
    assert addresses[..|addresses|] == addresses;
  }

  /** The formatted addresses of one slice's usable endpoints. */
  method EndpointList(slice: EndpointSlice, port: int) returns (out: seq<string>)
    ensures multiset(out) == Total(slice.endpoints, EndpointOn(port))
  {
    hide Total, AddrOn;
    out := [];
    TotalNone(EndpointOn(port));
    for i := 0 to |slice.endpoints|
      invariant multiset(out) == Total(slice.endpoints[..i], EndpointOn(port))
    {
      var ep := slice.endpoints[i];
      TotalSnoc(slice.endpoints, i, EndpointOn(port));
      var usable := EndpointUsable(ep);
      if !usable {
        continue;
      }
      var addrs := HostPorts(ep.addresses, port);
      out := out + addrs;
    }
    assert slice.endpoints[..|slice.endpoints|] == slice.endpoints;
  }

  lemma SliceContributes(slice: EndpointSlice, family: AddressType, portName: string, svcPort: int)
    ensures SliceIn(family, portName, svcPort)(slice) ==
      if slice.addressType != family || PortOf(slice, portName, svcPort).None? then multiset{}
      else Total(slice.endpoints, EndpointOn(PortOf(slice, portName, svcPort).value))
  {}

  /** sliceEndpointAddrs. */
  method SliceEndpointAddrs(slices: seq<EndpointSlice>, portName: string, svcPort: int) returns (out: seq<string>)
    ensures IsAddrList(out, slices, portName, svcPort)
  {
    hide *;
    var v4, v6 := [], [];
    ghost var f4, f6 := SliceIn(IPv4, portName, svcPort), SliceIn(IPv6, portName, svcPort);
    TotalNone(f4);
    TotalNone(f6);
    assert slices[..0] == [];
    for i := 0 to |slices|
      invariant multiset(v4) == Total(slices[..i], f4)
      invariant multiset(v6) == Total(slices[..i], f6)
    {
      var slice := slices[i];
      TotalSnoc(slices, i, f4);
      TotalSnoc(slices, i, f6);
      SliceContributes(slice, IPv4, portName, svcPort);
      SliceContributes(slice, IPv6, portName, svcPort);
      if slice.addressType != IPv4 && slice.addressType != IPv6 {
        continue;
      }
      var port := ResolvePort(slice, portName, svcPort);
      if port.None? {
        continue;
      }
      var addrs := EndpointList(slice, port.value);
      if slice.addressType == IPv6 {
        v6 := v6 + addrs;
      } else {
        v4 := v4 + addrs;
      }
    }
    assert slices[..|slices|] == slices;
    ListServed(slices, portName, svcPort, v4, v6);
    out := v4;
    if |out| == 0 {
      out := v6;
    }
    out := SortStrings(out);
  }

  lemma ListServed(slices: seq<EndpointSlice>, portName: string, svcPort: int, v4: seq<string>, v6: seq<string>)
    requires multiset(v4) == Total(slices, SliceIn(IPv4, portName, svcPort))
    requires multiset(v6) == Total(slices, SliceIn(IPv6, portName, svcPort))
    ensures IsAddrList(SortStrings(if |v4| == 0 then v6 else v4), slices, portName, svcPort)
  {
    hide Total, SliceIn, StrLe;
    if v4 != [] { assert v4[0] in multiset(v4); }
  }

  // ---- the list does not depend on listing order ------------------------------------------

  ghost predicate SameEndpoints(a: EndpointSlice, b: EndpointSlice) {
    b == a.(endpoints := b.endpoints) && multiset(a.endpoints) == multiset(b.endpoints)
  }

  /** b lists the slices of a in another order, each with its endpoints in another order. */
  ghost predicate Reordered(a: seq<EndpointSlice>, b: seq<EndpointSlice>) {
    exists c: seq<EndpointSlice> :: multiset(c) == multiset(b) && SlicewiseSame(a, c)
  }

  ghost predicate SlicewiseSame(a: seq<EndpointSlice>, c: seq<EndpointSlice>) {
    |a| == |c| && forall i :: 0 <= i < |a| ==> SameEndpoints(a[i], c[i])
  }

  lemma SameContribution(a: EndpointSlice, b: EndpointSlice, family: AddressType, portName: string, svcPort: int)
    requires SameEndpoints(a, b)
    ensures SliceIn(family, portName, svcPort)(a) == SliceIn(family, portName, svcPort)(b)
  {
    hide EndpointOn;
    var port := PortOf(a, portName, svcPort);
    if port.Some? { TotalPermuted(a.endpoints, b.endpoints, EndpointOn(port.value)); }
  }

  lemma {:induction false} SlicewiseTotal(a: seq<EndpointSlice>, c: seq<EndpointSlice>, family: AddressType,
                                          portName: string, svcPort: int)
    requires SlicewiseSame(a, c)
    ensures Total(a, SliceIn(family, portName, svcPort)) == Total(c, SliceIn(family, portName, svcPort))
  {
    hide SliceIn, SameEndpoints;
    if a == [] {
    } else {
      SlicewiseTotal(a[..|a| - 1], c[..|c| - 1], family, portName, svcPort);
      SameContribution(a[|a| - 1], c[|c| - 1], family, portName, svcPort);
    }
  }

  lemma ReorderedTotal(a: seq<EndpointSlice>, b: seq<EndpointSlice>, family: AddressType,
                       portName: string, svcPort: int)
    requires Reordered(a, b)
    ensures Total(a, SliceIn(family, portName, svcPort)) == Total(b, SliceIn(family, portName, svcPort))
  {
    hide SliceIn, SlicewiseSame;
    var c :| multiset(c) == multiset(b) && SlicewiseSame(a, c);
    SlicewiseTotal(a, c, family, portName, svcPort);
    TotalPermuted(c, b, SliceIn(family, portName, svcPort));
  }

  /** Reordering slices, or endpoints inside slices, leaves the rendered list as it is. */
  lemma AddrListCanonical(a: seq<EndpointSlice>, b: seq<EndpointSlice>, portName: string, svcPort: int,
                          out: seq<string>, out': seq<string>)
    requires Reordered(a, b)
    requires IsAddrList(out, a, portName, svcPort) && IsAddrList(out', b, portName, svcPort)
    ensures out == out'
  {
    hide SliceIn, Reordered;
    ReorderedTotal(a, b, IPv4, portName, svcPort);
    ReorderedTotal(a, b, IPv6, portName, svcPort);
    StringsDistinct(out);
    SortedUnique(out, out', StrLe);
  }

  // ---- one backend ---------------------------------------------------------------------------

  /** The slices the label selector of a Service finds. */
  function SlicesOf(slices: seq<EndpointSlice>, ns: string, service: string): seq<EndpointSlice> {
    if slices == [] then []
    else
      var init := SlicesOf(slices[..|slices| - 1], ns, service);
      var s := slices[|slices| - 1];
      if s.ns == ns && s.service == service then init + [s] else init
  }

  lemma {:induction false} SlicesOfCount(slices: seq<EndpointSlice>, ns: string, service: string, s: EndpointSlice)
    ensures multiset(SlicesOf(slices, ns, service))[s] ==
      if s.ns == ns && s.service == service then multiset(slices)[s] else 0
  {
    if slices == [] {
    } else {
      SlicesOfCount(slices[..|slices| - 1], ns, service, s);
      assert slices == slices[..|slices| - 1] + [slices[|slices| - 1]];
    }
  }

  lemma SlicesOfPermuted(a: seq<EndpointSlice>, b: seq<EndpointSlice>, ns: string, service: string)
    requires multiset(a) == multiset(b)
    ensures multiset(SlicesOf(a, ns, service)) == multiset(SlicesOf(b, ns, service))
  {
    forall s ensures multiset(SlicesOf(a, ns, service))[s] == multiset(SlicesOf(b, ns, service))[s] {
      SlicesOfCount(a, ns, service, s);
      SlicesOfCount(b, ns, service, s);
    }
  }

  lemma {:induction false} SlicesOfSlicewise(a: seq<EndpointSlice>, c: seq<EndpointSlice>, ns: string, service: string)
    requires SlicewiseSame(a, c)
    ensures SlicewiseSame(SlicesOf(a, ns, service), SlicesOf(c, ns, service))
  {
    if a == [] {
    } else {
      SlicesOfSlicewise(a[..|a| - 1], c[..|c| - 1], ns, service);
      assert SameEndpoints(a[|a| - 1], c[|c| - 1]);
    }
  }

  lemma SlicesOfReordered(a: seq<EndpointSlice>, b: seq<EndpointSlice>, ns: string, service: string)
    requires Reordered(a, b)
    ensures Reordered(SlicesOf(a, ns, service), SlicesOf(b, ns, service))
  {
    hide SlicesOf, SlicewiseSame;
    var c :| multiset(c) == multiset(b) && SlicewiseSame(a, c);
    SlicesOfSlicewise(a, c, ns, service);
    SlicesOfPermuted(c, b, ns, service);
  }

  /** The live addresses of a backend; None falls back to Service addressing. */
  ghost function LiveAddrs(v: View, ns: string, b: ServiceRef): (r: Option<seq<string>>)
    ensures r.Some? ==> r.value != []
  {
    if (ns, b.name) !in v.services || v.slices.None? then None
    else
      var svc := v.services[(ns, b.name)];
      var port := FirstPort(svc.ports, b.portName, b.portNumber);
      if svc.externalName || port.None? then None
      else
        var addrs := AddrList(SlicesOf(v.slices.value, ns, b.name), port.value.name, port.value.port);
        if addrs == [] then None else Some(addrs)
  }

  ghost function Listing(s: multiset<string>): (r: seq<string>)
    ensures multiset(r) == s
  {
    if s == multiset{} then [] else var x :| x in s; [x] + Listing(s - multiset{x})
  }

  ghost function AddrList(slices: seq<EndpointSlice>, portName: string, svcPort: int): (out: seq<string>)
    ensures IsAddrList(out, slices, portName, svcPort)
  {
    SortStrings(Listing(ServedAddrs(slices, portName, svcPort)))
  }

  lemma AddrListUnique(slices: seq<EndpointSlice>, portName: string, svcPort: int, out: seq<string>)
    requires IsAddrList(out, slices, portName, svcPort)
    ensures out == AddrList(slices, portName, svcPort)
  {
    hide ServedAddrs;
    StringsDistinct(out);
    SortedUnique(out, AddrList(slices, portName, svcPort), StrLe);
  }

  /** endpointAddrs. */
  method EndpointAddrs(v: View, ns: string, b: ServiceRef) returns (r: Option<seq<string>>)
    ensures r == LiveAddrs(v, ns, b)
  {
    hide AddrList, IsAddrList;
    if (ns, b.name) !in v.services {
      return None;
    }
    var svc := v.services[(ns, b.name)];
    if svc.externalName {
      return None;
    }
    var port := ServicePortName(svc, b.portName, b.portNumber);
    if port.None? {
      return None;
    }
    if v.slices.None? {
      return None;
    }
    var addrs := SliceEndpointAddrs(SlicesOf(v.slices.value, ns, b.name), port.value.name, port.value.port);
    AddrListUnique(SlicesOf(v.slices.value, ns, b.name), port.value.name, port.value.port, addrs);
    if |addrs| == 0 {
      return None;
    }
    return Some(addrs);
  }

  const DEFAULT_DOMAIN := "cluster.local"

  function Domain(f: Flags): string { if f.clusterDomain == "" then DEFAULT_DOMAIN else f.clusterDomain }

  function Fqdn(name: string, ns: string, domain: string): string { name + "." + ns + ".svc." + domain }

  function WithPort(host: string, port: int): string { host + ":" + IntText(port) }

  function NamedPort(ports: seq<ServicePort>, name: string): Option<int> {
    if ports == [] then None
    else if ports[0].name == name then Some(ports[0].port)
    else NamedPort(ports[1..], name)
  }

  /** The host part: the ClusterIP when there is one and it is asked for, else the FQDN. */
  function ServiceHost(f: Flags, ns: string, b: ServiceRef, svc: Service): string {
    if f.resolveClusterIPs && svc.clusterIP != "" && svc.clusterIP != "None" then svc.clusterIP
    else Fqdn(b.name, ns, Domain(f))
  }

  function AddrOf(v: View, f: Flags, ns: string, b: ServiceRef): Option<string> {
    if (ns, b.name) !in v.services then
      if b.portNumber != 0 then Some(WithPort(Fqdn(b.name, ns, Domain(f)), b.portNumber)) else None
    else
      var svc := v.services[(ns, b.name)];
      if b.portNumber != 0 then Some(WithPort(ServiceHost(f, ns, b, svc), b.portNumber))
      else if b.portName == "" then None
      else
        match NamedPort(svc.ports, b.portName)
        case Some(port) => Some(WithPort(ServiceHost(f, ns, b, svc), port))
        case None => None
  }

  /** backendAddr: the Service is looked up only when its ports or its ClusterIP are needed. */
  method BackendAddr(v: View, f: Flags, ns: string, backend: Option<ServiceRef>) returns (r: Option<string>)
    ensures r == if backend.None? then None else AddrOf(v, f, ns, backend.value)
  {
    if backend.None? {
      return None;
    }
    var b := backend.value;
    var domain := f.clusterDomain;
    if domain == "" {
      domain := DEFAULT_DOMAIN;
    }
    var fqdn := Fqdn(b.name, ns, domain);
    var needLookup := b.portName != "" || f.resolveClusterIPs;
    var svc := Service(false, "", []);
    if needLookup {
      if (ns, b.name) !in v.services {
        if b.portNumber != 0 {
          return Some(WithPort(fqdn, b.portNumber));
        }
        return None;
      }
      svc := v.services[(ns, b.name)];
    }
    var host := fqdn;
    if f.resolveClusterIPs {
      if svc.clusterIP != "" && svc.clusterIP != "None" {
        host := svc.clusterIP;
      }
    }
    if b.portNumber != 0 {
      return Some(WithPort(host, b.portNumber));
    }
    if b.portName != "" {
      for i := 0 to |svc.ports|
        invariant NamedPort(svc.ports, b.portName) == NamedPort(svc.ports[i..], b.portName)
      {
        if svc.ports[i].name == b.portName {
          return Some(WithPort(host, svc.ports[i].port));
        }
      }
    }
    return None;
  }

  function Unweighted(addrs: seq<string>): (bs: seq<Backend>)
    ensures |bs| == |addrs| && forall i :: 0 <= i < |bs| ==> bs[i] == Backend(addrs[i], 0)
  {
    if addrs == [] then [] else Unweighted(addrs[..|addrs| - 1]) + [Backend(addrs[|addrs| - 1], 0)]
  }

  ghost function ServersOf(v: View, f: Flags, ns: string, backend: Option<ServiceRef>): (r: Option<seq<Backend>>)
    ensures r.Some? ==> r.value != []
  {
    if backend.None? then None
    else
      var live := if f.resolveEndpoints then LiveAddrs(v, ns, backend.value) else None;
      if live.Some? then Some(Unweighted(live.value))
      else
        match AddrOf(v, f, ns, backend.value)
        case Some(addr) => Some([Backend(addr, 0)])
        case None => None
  }

  /** backendServers: live endpoints, else the Service address; a pool is never empty. */
  method BackendServers(v: View, f: Flags, ns: string, backend: Option<ServiceRef>) returns (r: Option<seq<Backend>>)
    ensures r == ServersOf(v, f, ns, backend)
    ensures r.Some? ==> r.value != []
  {
    hide LiveAddrs, AddrOf;
    if f.resolveEndpoints && backend.Some? {
      var addrs := EndpointAddrs(v, ns, backend.value);
      if addrs.Some? {
        var out: seq<Backend> := [];
        for i := 0 to |addrs.value|
          invariant out == Unweighted(addrs.value[..i])
        {
          assert addrs.value[..i + 1][..i] == addrs.value[..i];
          out := out + [Backend(addrs.value[i], 0)];
        }
        assert addrs.value[..|addrs.value|] == addrs.value;
        return Some(out);
      }
    }
    var addr := BackendAddr(v, f, ns, backend);
    if addr.None? {
      return None;
    }
    return Some([Backend(addr.value, 0)]);
  }

  ghost predicate SameView(v: View, w: View) {
    && v.services == w.services
    && (v.slices.Some? <==> w.slices.Some?)
    && (v.slices.Some? ==> Reordered(v.slices.value, w.slices.value))
  }

  /** A backend resolves alike whatever order the slices, and the endpoints inside them, are
      listed in. */
  lemma ServersOrderFree(v: View, w: View, f: Flags, ns: string, backend: Option<ServiceRef>)
    requires SameView(v, w)
    ensures ServersOf(v, f, ns, backend) == ServersOf(w, f, ns, backend)
    ensures backend.Some? ==> AddrOf(v, f, ns, backend.value) == AddrOf(w, f, ns, backend.value)
  {
    hide AddrList, IsAddrList, Reordered, SlicesOf;
    if backend.Some? && v.slices.Some? {
      var b := backend.value;
      var x, y := SlicesOf(v.slices.value, ns, b.name), SlicesOf(w.slices.value, ns, b.name);
      SlicesOfReordered(v.slices.value, w.slices.value, ns, b.name);
      forall name, port ensures AddrList(x, name, port) == AddrList(y, name, port) {
        AddrListCanonical(x, y, name, port, AddrList(x, name, port), AddrList(y, name, port));
      }
    }
  }
}
