/** What a backend resolves to, in the API's terms (controllers/endpoints.go, backendAddr). */
module EndpointsSpec {
  // Which addresses of which EndpointSlices a Service is rendered with, and the text of a Service's
  // own address, said of the objects alone.

  import opened Wrappers
  import opened Strings
  import opened Sorting
  import opened RouteModel
  import opened Endpoints

  // ---- endpoints ----------------------------------------------------------------------------

  /** An absent name is the empty name. */
  predicate IsNamed(p: SlicePort, name: string) { p.name == Some(name) || (p.name == None && name == "") }

  /** The port of a slice's addresses: the Service's when the slice lists no ports or none on the
      entry of that name, else the entry's; no address has port zero. */
  ghost predicate PairedWith(slice: EndpointSlice, portName: string, svcPort: int, port: int) {
    && port != 0
    && if |slice.ports| == 0 then port == svcPort
       else exists i ::
         (&& 0 <= i < |slice.ports| && IsNamed(slice.ports[i], portName)
          && (forall j :: 0 <= j < i ==> !IsNamed(slice.ports[j], portName))
          && (slice.ports[i].port == Some(port) || (slice.ports[i].port == None && port == svcPort)))
  }

  lemma {:induction false} EntryIs(ports: seq<SlicePort>, i: nat, portName: string, svcPort: int)
    requires i < |ports| && IsNamed(ports[i], portName) && forall j :: 0 <= j < i ==> !IsNamed(ports[j], portName)
    ensures SlicePortFor(ports, portName, svcPort)
         == Some(if ports[i].port.Some? then ports[i].port.value else svcPort)
  {
    if i == 0 {
    } else {
      assert !IsNamed(ports[0], portName);
      forall j | 0 <= j < i - 1 ensures !IsNamed(ports[1..][j], portName) { assert ports[1..][j] == ports[j + 1]; }
      EntryIs(ports[1..], i - 1, portName, svcPort);
    }
  }

  lemma {:induction false} EntryFound(ports: seq<SlicePort>, portName: string, svcPort: int) returns (i: nat)
    requires SlicePortFor(ports, portName, svcPort).Some?
    ensures i < |ports| && IsNamed(ports[i], portName) && forall j :: 0 <= j < i ==> !IsNamed(ports[j], portName)
  {
    if IsNamed(ports[0], portName) {
      i := 0;
    } else {
      var rest := EntryFound(ports[1..], portName, svcPort);
      i := rest + 1;
      forall j | 0 <= j < i ensures !IsNamed(ports[j], portName) {
        assert j > 0 ==> ports[j] == ports[1..][j - 1];
      }
    }
  }

  lemma PairedIs(slice: EndpointSlice, portName: string, svcPort: int, port: int)
    ensures PairedWith(slice, portName, svcPort, port) <==> PortOf(slice, portName, svcPort) == Some(port)
  {
    hide SlicePortFor, IsNamed;
    if slice.ports != [] {
      if PortOf(slice, portName, svcPort) == Some(port) {
        var i := EntryFound(slice.ports, portName, svcPort);
        EntryIs(slice.ports, i, portName, svcPort);
      }
      if PairedWith(slice, portName, svcPort, port) {
        var i :| 0 <= i < |slice.ports| && IsNamed(slice.ports[i], portName)
                 && (forall j :: 0 <= j < i ==> !IsNamed(slice.ports[j], portName))
                 && (slice.ports[i].port == Some(port) || (slice.ports[i].port == None && port == svcPort));
        EntryIs(slice.ports, i, portName, svcPort);
      }
    }
  }

  /** An address with colons is put into brackets. */
  ghost function HostPort(addr: string, port: int): string {
    if exists i :: 0 <= i < |addr| && addr[i] == ':' then "[" + addr + "]:" + IntText(port)
    else addr + ":" + IntText(port)
  }

  /** Neither known to be unready nor terminating. */
  predicate Live(ep: Endpoint) {
    !(ep.ready.Some? && !ep.ready.value) && !(ep.terminating.Some? && ep.terminating.value)
  }

  /** The slice serves text, an address of one of its live endpoints with its port. */
  ghost predicate Serves(slice: EndpointSlice, portName: string, svcPort: int, text: string) {
    exists port, ep, addr ::
      && PairedWith(slice, portName, svcPort, port)
      && ep in slice.endpoints && Live(ep) && addr in ep.addresses
      && text == HostPort(addr, port)
  }

  ghost predicate FamilyServes(slices: seq<EndpointSlice>, family: AddressType, portName: string, svcPort: int,
                               text: string)
  {
    exists slice :: slice in slices && slice.addressType == family && Serves(slice, portName, svcPort, text)
  }

  lemma {:induction false} InTotal<T(!new)>(xs: seq<T>, f: T -> multiset<string>, text: string)
    ensures text in Total(xs, f) <==> exists x :: x in xs && text in f(x)
  {
    if xs == [] {
    } else {
      InTotal(xs[..|xs| - 1], f, text);
      assert xs == xs[..|xs| - 1] + [xs[|xs| - 1]];
    }
  }

  lemma HostPortIs(addr: string, port: int)
    ensures HostPort(addr, port) == JoinHostPort(addr, IntText(port))
  {}

  lemma SliceServes(slice: EndpointSlice, family: AddressType, portName: string, svcPort: int, text: string)
    ensures text in SliceIn(family, portName, svcPort)(slice) <==>
            slice.addressType == family && Serves(slice, portName, svcPort, text)
  {
    hide PairedWith, PortOf, Total, HostPort, JoinHostPort, IntText;
    forall port ensures PairedWith(slice, portName, svcPort, port) <==> PortOf(slice, portName, svcPort) == Some(port) {
      PairedIs(slice, portName, svcPort, port);
    }
    var p := PortOf(slice, portName, svcPort);
    if p.Some? && slice.addressType == family {
      InTotal(slice.endpoints, EndpointOn(p.value), text);
      forall ep: Endpoint
        ensures text in EndpointOn(p.value)(ep) <==>
                Live(ep) && exists addr :: addr in ep.addresses && text == HostPort(addr, p.value)
      {
        InTotal(ep.addresses, AddrOn(p.value), text);
        forall addr ensures HostPort(addr, p.value) == JoinHostPort(addr, IntText(p.value)) {
          HostPortIs(addr, p.value);
        }
      }
    }
  }

  /** A Service is rendered with the IPv4 addresses its slices serve, and with the IPv6 ones only
      when there is no IPv4 one. */
  lemma ServedExactly(slices: seq<EndpointSlice>, portName: string, svcPort: int, text: string)
    ensures text in ServedAddrs(slices, portName, svcPort) <==>
            if exists other :: FamilyServes(slices, IPv4, portName, svcPort, other)
            then FamilyServes(slices, IPv4, portName, svcPort, text)
            else FamilyServes(slices, IPv6, portName, svcPort, text)
  {
    hide Total, SliceIn, FamilyServes;
    forall t, family
      ensures t in Total(slices, SliceIn(family, portName, svcPort)) <==>
              FamilyServes(slices, family, portName, svcPort, t)
    {
      FamilyTotal(slices, family, portName, svcPort, t);
    }
    var v4 := Total(slices, SliceIn(IPv4, portName, svcPort));
    if v4 != multiset{} { var t :| t in v4; }
  }

  lemma FamilyTotal(slices: seq<EndpointSlice>, family: AddressType, portName: string, svcPort: int, text: string)
    ensures text in Total(slices, SliceIn(family, portName, svcPort)) <==>
            FamilyServes(slices, family, portName, svcPort, text)
  {
    hide Total, SliceIn, Serves;
    InTotal(slices, SliceIn(family, portName, svcPort), text);
    forall slice
      ensures text in SliceIn(family, portName, svcPort)(slice) <==>
              slice.addressType == family && Serves(slice, portName, svcPort, text)
    {
      SliceServes(slice, family, portName, svcPort, text);
    }
  }

  // ---- one backend ------------------------------------------------------------------------------

  /** sp is the first port of the Service that the backend names, by name or else by number. */
  ghost predicate FirstNamed(svc: Service, b: ServiceRef, sp: ServicePort) {
    exists i ::
      && 0 <= i < |svc.ports| && svc.ports[i] == sp && Names(b, sp)
      && forall j :: 0 <= j < i ==> !Names(b, svc.ports[j])
  }

  predicate Names(b: ServiceRef, sp: ServicePort) {
    (b.portName != "" && sp.name == b.portName) || (b.portName == "" && b.portNumber != 0 && sp.port == b.portNumber)
  }

  lemma {:induction false} FirstPortIs(ports: seq<ServicePort>, b: ServiceRef, i: nat)
    requires i < |ports| && Names(b, ports[i]) && forall j :: 0 <= j < i ==> !Names(b, ports[j])
    ensures FirstPort(ports, b.portName, b.portNumber) == Some(ports[i])
  {
    if i == 0 {
    } else {
      assert !Names(b, ports[0]);
      forall j | 0 <= j < i - 1 ensures !Names(b, ports[1..][j]) { assert ports[1..][j] == ports[j + 1]; }
      FirstPortIs(ports[1..], b, i - 1);
    }
  }

  lemma {:induction false} FirstPortFound(ports: seq<ServicePort>, b: ServiceRef) returns (i: nat)
    requires FirstPort(ports, b.portName, b.portNumber).Some?
    ensures i < |ports| && Names(b, ports[i]) && forall j :: 0 <= j < i ==> !Names(b, ports[j])
  {
    if Names(b, ports[0]) {
      i := 0;
    } else {
      var rest := FirstPortFound(ports[1..], b);
      i := rest + 1;
      forall j | 0 <= j < i ensures !Names(b, ports[j]) { assert j > 0 ==> ports[j] == ports[1..][j - 1]; }
    }
  }

  lemma FirstNamedIs(svc: Service, b: ServiceRef, sp: ServicePort)
    ensures FirstNamed(svc, b, sp) <==> FirstPort(svc.ports, b.portName, b.portNumber) == Some(sp)
  {
    hide Names, FirstPort;
    if FirstPort(svc.ports, b.portName, b.portNumber) == Some(sp) {
      var i := FirstPortFound(svc.ports, b);
      FirstPortIs(svc.ports, b, i);
    }
    if FirstNamed(svc, b, sp) {
      var i :| 0 <= i < |svc.ports| && svc.ports[i] == sp && Names(b, sp)
               && forall j :: 0 <= j < i ==> !Names(b, svc.ports[j]);
      FirstPortIs(svc.ports, b, i);
    }
  }

  /** Some slice of the Service serves text for the backend. */
  ghost predicate LiveAt(v: View, ns: string, b: ServiceRef, family: AddressType, text: string) {
    && (ns, b.name) in v.services && v.slices.Some?
    && var svc := v.services[(ns, b.name)];
      && !svc.externalName
      && exists sp, slice ::
         && FirstNamed(svc, b, sp)
         && slice in v.slices.value && slice.ns == ns && slice.service == b.name && slice.addressType == family
         && Serves(slice, sp.name, sp.port, text)
  }

  lemma {:induction false} SlicesOfMember(slices: seq<EndpointSlice>, ns: string, service: string, s: EndpointSlice)
    ensures s in SlicesOf(slices, ns, service) <==> s in slices && s.ns == ns && s.service == service
  {
    if slices == [] {
    } else {
      SlicesOfMember(slices[..|slices| - 1], ns, service, s);
      assert slices == slices[..|slices| - 1] + [slices[|slices| - 1]];
    }
  }

  lemma LiveIs(v: View, ns: string, b: ServiceRef, sp: ServicePort, family: AddressType, text: string)
    requires (ns, b.name) in v.services && v.slices.Some? && !v.services[(ns, b.name)].externalName
    requires FirstNamed(v.services[(ns, b.name)], b, sp)
    ensures LiveAt(v, ns, b, family, text) <==>
            FamilyServes(SlicesOf(v.slices.value, ns, b.name), family, sp.name, sp.port, text)
  {
    hide Serves, SlicesOf, FirstNamed, FirstPort;
    forall s
      ensures s in SlicesOf(v.slices.value, ns, b.name) <==> s in v.slices.value && s.ns == ns && s.service == b.name
    {
      SlicesOfMember(v.slices.value, ns, b.name, s);
    }
    forall other ensures FirstNamed(v.services[(ns, b.name)], b, other) ==> other == sp {
      FirstNamedIs(v.services[(ns, b.name)], b, other);
      FirstNamedIs(v.services[(ns, b.name)], b, sp);
    }
  }

  /** The addresses of a backend's own endpoints. */
  ghost predicate HasLive(v: View, ns: string, b: ServiceRef, text: string) {
    if exists other :: LiveAt(v, ns, b, IPv4, other) then LiveAt(v, ns, b, IPv4, text)
    else LiveAt(v, ns, b, IPv6, text)
  }

  /** The live addresses, when there are any: sorted, and exactly those served by the slices of the
      Service's label for the port that the backend names. */
  lemma LiveExactly(v: View, ns: string, b: ServiceRef)
    ensures LiveAddrs(v, ns, b).Some? <==> exists text :: HasLive(v, ns, b, text)
    ensures LiveAddrs(v, ns, b).Some? ==>
      && Sorted(LiveAddrs(v, ns, b).value, StrLe)
      && forall text :: text in LiveAddrs(v, ns, b).value <==> HasLive(v, ns, b, text)
  {
    hide LiveAt, FirstNamed, FirstPort, SlicesOf, ServedAddrs, AddrList, FamilyServes;
    NoneLive(v, ns, b);
    if (ns, b.name) in v.services && v.slices.Some? && !v.services[(ns, b.name)].externalName {
      var svc := v.services[(ns, b.name)];
      var port := FirstPort(svc.ports, b.portName, b.portNumber);
      if port.Some? {
        var slices, sp := SlicesOf(v.slices.value, ns, b.name), port.value;
        FirstNamedIs(svc, b, sp);
        var addrs := AddrList(slices, sp.name, sp.port);
        forall text ensures text in addrs <==> HasLive(v, ns, b, text) {
          assert text in multiset(addrs) <==> text in addrs;
          ServedExactly(slices, sp.name, sp.port, text);
          forall t, family
            ensures LiveAt(v, ns, b, family, t) <==> FamilyServes(slices, family, sp.name, sp.port, t)
          {
            LiveIs(v, ns, b, sp, family, t);
          }
        }
        if addrs != [] { assert addrs[0] in addrs; }
      }
    }
  }

  /** Without a Service with endpoints of its own, or without the named port, nothing is live. */
  lemma NoneLive(v: View, ns: string, b: ServiceRef)
    ensures (ns, b.name) !in v.services || v.slices.None? || v.services[(ns, b.name)].externalName
            || FirstPort(v.services[(ns, b.name)].ports, b.portName, b.portNumber).None?
            ==> forall family, text :: !LiveAt(v, ns, b, family, text)
  {
    hide Serves, FirstNamed, FirstPort;
    if (ns, b.name) in v.services {
      forall sp ensures FirstNamed(v.services[(ns, b.name)], b, sp) ==>
        FirstPort(v.services[(ns, b.name)].ports, b.portName, b.portNumber).Some?
      {
        FirstNamedIs(v.services[(ns, b.name)], b, sp);
      }
    }
  }

  /** The host of a Service: its ClusterIP when those are asked for and it has one, else its name
      in the cluster's domain. */
  ghost function HostOf(v: View, f: Flags, ns: string, name: string): string {
    if f.resolveClusterIPs && (ns, name) in v.services && v.services[(ns, name)].clusterIP !in {"", "None"}
    then v.services[(ns, name)].clusterIP
    else name + "." + ns + ".svc." + (if |f.clusterDomain| == 0 then "cluster.local" else f.clusterDomain)
  }

  /** port is the number of the first port of that name. */
  ghost predicate NumberOf(ports: seq<ServicePort>, name: string, port: int) {
    exists i ::
      && 0 <= i < |ports| && ports[i] == ServicePort(name, port)
      && forall j :: 0 <= j < i ==> ports[j].name != name
  }

  lemma {:induction false} NumberIs(ports: seq<ServicePort>, name: string, port: int)
    ensures NumberOf(ports, name, port) <==> NamedPort(ports, name) == Some(port)
  {
    if ports == [] {
    } else {
      NumberIs(ports[1..], name, port);
      if ports[0].name != name && NumberOf(ports[1..], name, port) {
        var i :| 0 <= i < |ports[1..]| && ports[1..][i] == ServicePort(name, port)
                 && forall j :: 0 <= j < i ==> ports[1..][j].name != name;
        assert ports[i + 1] == ports[1..][i];
        forall j | 0 <= j < i + 1 ensures ports[j].name != name { assert j > 0 ==> ports[j] == ports[1..][j - 1]; }
      }
      if ports[0].name != name && NumberOf(ports, name, port) {
        var i :| 0 <= i < |ports| && ports[i] == ServicePort(name, port)
                 && forall j :: 0 <= j < i ==> ports[j].name != name;
        assert ports[1..][i - 1] == ports[i];
        forall j | 0 <= j < i - 1 ensures ports[1..][j].name != name { assert ports[1..][j] == ports[j + 1]; }
      }
    }
  }

  /** The Service address of a backend: its host and the number it gives, or the number of the
      Service's first port of the name it gives; without either there is none. */
  lemma AddrExactly(v: View, f: Flags, ns: string, b: ServiceRef)
    ensures b.portNumber != 0 ==> AddrOf(v, f, ns, b) == Some(HostOf(v, f, ns, b.name) + ":" + IntText(b.portNumber))
    ensures b.portNumber == 0 ==> forall addr ::
      AddrOf(v, f, ns, b) == Some(addr) <==>
        && b.portName != "" && (ns, b.name) in v.services
        && exists port :: NumberOf(v.services[(ns, b.name)].ports, b.portName, port)
                          && addr == HostOf(v, f, ns, b.name) + ":" + IntText(port)
  {
    hide NumberOf, IntText;
    if b.portNumber == 0 && (ns, b.name) in v.services {
      var svc := v.services[(ns, b.name)];
      forall port ensures NumberOf(svc.ports, b.portName, port) <==> NamedPort(svc.ports, b.portName) == Some(port) {
        NumberIs(svc.ports, b.portName, port);
      }
    }
  }

  /** What a backend is rendered with: its live endpoints when they are asked for and there are
      any, else its Service address, and nothing when it has neither. */
  lemma ServersExactly(v: View, f: Flags, ns: string, b: ServiceRef)
    ensures var servers := ServersOf(v, f, ns, Some(b));
      if f.resolveEndpoints && exists text :: HasLive(v, ns, b, text) then
        servers.Some? && forall s :: s in servers.value <==> s.weight == 0 && HasLive(v, ns, b, s.addr)
      else
        && (servers.Some? <==> AddrOf(v, f, ns, b).Some?)
        && (servers.Some? ==> servers.value == [Backend(AddrOf(v, f, ns, b).value, 0)])
    ensures ServersOf(v, f, ns, None) == None
  {
    hide LiveAddrs, AddrOf, HasLive;
    LiveExactly(v, ns, b);
    if LiveAddrs(v, ns, b).Some? {
      var addrs := LiveAddrs(v, ns, b).value;
      var bs := Unweighted(addrs);
      forall s ensures s in bs <==> s.weight == 0 && s.addr in addrs {
        if s.weight == 0 && s.addr in addrs {
          var i :| 0 <= i < |addrs| && addrs[i] == s.addr;
          assert bs[i] == s;
        }
      }
    }
  }
}
