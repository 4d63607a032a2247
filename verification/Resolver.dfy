/** Service names become ClusterIPs (controllers/upstreams_resolver.go). */
module Resolver {
  import opened Wrappers
  import opened Strings
  import opened Sorting
  import opened Yaml
  import Endpoints
  import Gateway

  /** ClusterIPs of the Services that exist, by namespace and name. */
  type ClusterIPs = map<(string, string), string>

  // ---- one server entry -----------------------------------------------------------------

  /** Host and port around the last colon, the host without brackets. */
  function SplitHostPort(addr: string): Option<(string, string)> {
    var i := LastIndex(addr, ':');
    if i < 0 then None
    else
      var host := TrimPrefix(TrimSuffix(addr[..i], "]"), "[");
      var port := addr[i + 1..];
      if host == "" || port == "" then None else Some((host, port))
  }

  function Dots(s: string): nat {
    if s == "" then 0 else Dots(s[..|s| - 1]) + if s[|s| - 1] == '.' then 1 else 0
  }

  predicate IpLiteral(host: string) {
    ':' in host || ((forall c :: c in host ==> c == '.' || IsDigit(c)) && Dots(host) == 3)
  }

  /** isIPLiteral. */
  method IsIPLiteral(host: string) returns (literal: bool)
    ensures literal == IpLiteral(host)
  {
    if ':' in host {
      return true;
    }
    var dots := 0;
    for i := 0 to |host|
      invariant dots == Dots(host[..i])
      invariant forall j :: 0 <= j < i ==> host[j] == '.' || IsDigit(host[j])
    {
      assert host[..i + 1][..i] == host[..i];
      var c := host[i];
      assert c in host;
      if !(c == '.' || ('0' <= c <= '9')) {
        return false;
      }
      if c == '.' {
        dots := dots + 1;
      }
    }
    assert host[..|host|] == host;
    return dots == 3;
  }

  /** Namespace and name of <name>.<ns>.svc.<domain>. */
  function ParseFqdn(domain: string, host: string): Option<(string, string)> {
    var suffix := ".svc." + domain;
    if !HasSuffix(host, suffix) then None
    else
      var parts := Split(TrimSuffix(host, suffix), '.');
      if |parts| != 2 then None else Some((parts[1], parts[0]))
  }

  /** The Service a host stands for: a cluster name, or a single label in the default
      namespace. */
  function ServiceOf(domain: string, defaultNs: string, host: string): Option<(string, string)> {
    if ParseFqdn(domain, host).Some? then ParseFqdn(domain, host)
    else if '.' !in host then Some((defaultNs, host))
    else None
  }

  /** What the entry becomes, and whether it was resolved. */
  function Rewrite(ips: ClusterIPs, domain: string, defaultNs: string, addr: string): (string, bool) {
    match SplitHostPort(addr)
    case None => (addr, false)
    case Some((host, port)) =>
      if IpLiteral(host) then (addr, false)
      else
        match ServiceOf(domain, defaultNs, host)
        case None => (addr, false)
        case Some(key) =>
          if key !in ips || ips[key] == "" || ips[key] == "None" then (addr, false)
          else (ips[key] + ":" + port, true)
  }

  /** rewriteServer. */
  method RewriteServer(ips: ClusterIPs, clusterDomain: string, defaultNs: string, addr: string)
    returns (out: string, resolved: bool)
    ensures (out, resolved) ==
      Rewrite(ips, if clusterDomain == "" then Endpoints.DEFAULT_DOMAIN else clusterDomain, defaultNs, addr)
  {
    hide IpLiteral, SplitHostPort, ParseFqdn;
    var hp := SplitHostPort(addr);
    if hp.None? {
      return addr, false;
    }
    var host, port := hp.value.0, hp.value.1;
    var literal := IsIPLiteral(host);
    if literal {
      return addr, false;
    }
    var domain := clusterDomain;
    if domain == "" {
      domain := Endpoints.DEFAULT_DOMAIN;
    }
    var key := ParseFqdn(domain, host);
    if key.None? {
      if '.' !in host {
        key := Some((defaultNs, host));
      } else {
        return addr, false;
      }
    }
    if key.value !in ips {
      return addr, false;
    }
    var ip := ips[key.value];
    if ip == "" || ip == "None" {
      return addr, false;
    }
    return ip + ":" + port, true;
  }

  // ---- idempotence ------------------------------------------------------------------------

  /** Every ClusterIP that can be put into a document is an address. */
  ghost predicate AddressesOnly(ips: ClusterIPs) {
    forall k :: k in ips && ips[k] != "" && ips[k] != "None" ==> IpLiteral(ips[k])
  }

  lemma LastColon(ip: string, port: string)
    requires ':' !in port
    ensures LastIndex(ip + ":" + port, ':') == |ip|
  {
    hide LastIndex;
    LastIndexIs(ip + ":" + port, |ip|, ':');
  }

  /** Brackets never hide the colons or the digits of an address. */
  lemma UnbracketedLiteral(ip: string)
    requires IpLiteral(ip)
    ensures IpLiteral(TrimPrefix(TrimSuffix(ip, "]"), "["))
  {
    hide Dots;
    if ':' in ip {
      ColonStays(ip);
    } else {
      EndsIn(ip);
    }
  }

  lemma ColonStays(ip: string)
    requires ':' in ip
    ensures ':' in TrimPrefix(TrimSuffix(ip, "]"), "[")
  {
    var a := TrimSuffix(ip, "]");
    var b := TrimPrefix(a, "[");
    var i :| 0 <= i < |ip| && ip[i] == ':';
    assert a[i] == ':';
    assert b[if b == a then i else i - 1] == ':';
  }

  lemma EndsIn(s: string)
    ensures HasSuffix(s, "]") ==> ']' in s
    ensures HasPrefix(s, "[") ==> '[' in s
  {
    if HasSuffix(s, "]") { assert s[|s| - 1..][0] == ']' && s[|s| - 1] in s; }
    if HasPrefix(s, "[") { assert s[..1][0] == '[' && s[0] in s; }
  }

  /** Resolving an entry twice is resolving it once. */
  lemma RewriteTwice(ips: ClusterIPs, domain: string, defaultNs: string, addr: string)
    requires AddressesOnly(ips)
    ensures var once := Rewrite(ips, domain, defaultNs, addr).0;
      Rewrite(ips, domain, defaultNs, once) == (once, false)
  {
    hide IpLiteral, ServiceOf;
    if Rewrite(ips, domain, defaultNs, addr).1 {
      var (host, port) := SplitHostPort(addr).value;
      var ip := ips[ServiceOf(domain, defaultNs, host).value];
      hide SplitHostPort;
      LiteralStays(ips, domain, defaultNs, ip, port);
    }
  }

  lemma LiteralStays(ips: ClusterIPs, domain: string, defaultNs: string, ip: string, port: string)
    requires IpLiteral(ip) && ':' !in port
    ensures Rewrite(ips, domain, defaultNs, ip + ":" + port) == (ip + ":" + port, false)
  {
    hide IpLiteral, LastIndex;
    var s := ip + ":" + port;
    LastColon(ip, port);
    assert s[..|ip|] == ip;
    UnbracketedLiteral(ip);
  }

  // ---- names the renderers write -------------------------------------------------------------

  /** Characters of a host name, dots among them: no colons or brackets. */
  predicate PlainName(s: string) {
    forall c :: c in s ==> c != ':' && c != '[' && c != ']'
  }

  lemma {:induction false} SplitTwo(a: string, b: string)
    ensures |Split(a + "." + b, '.')| == 2 <==> '.' !in a && '.' !in b
    ensures '.' !in a && '.' !in b ==> Split(a + "." + b, '.') == [a, b]
  {
    if '.' !in a {
      SplitCons(a, '.', b);
      SplitCount(b);
      if '.' !in b { SplitNone(b, '.'); }
    } else {
      var n := Span(a, x => x != '.');
      var s := a + "." + b;
      assert a[n] == '.';
      assert s == a[..n] + ['.'] + (a[n + 1..] + "." + b);
      SplitCons(a[..n], '.', a[n + 1..] + "." + b);
      SplitCount(a[n + 1..] + "." + b);
      assert (a[n + 1..] + "." + b)[|a| - n - 1] == '.';
    }
  }

  lemma SplitCount(s: string)
    ensures |Split(s, '.')| == 1 <==> '.' !in s
  {
    if '.' !in s {
      SplitNone(s, '.');
    } else {
      var n := Span(s, x => x != '.');
      assert n < |s|;
    }
  }

  /** A cluster name parses back to the Service it was built from exactly when neither
      part holds a dot. */
  lemma FqdnRoundTrip(name: string, ns: string, domain: string)
    ensures ParseFqdn(domain, Endpoints.Fqdn(name, ns, domain)) == Some((ns, name)) <==> '.' !in name && '.' !in ns
  {
    hide Split;
    var suffix, host := ".svc." + domain, Endpoints.Fqdn(name, ns, domain);
    assert host == (name + "." + ns) + suffix;
    TrimSuffixAppend(name + "." + ns, suffix);
    SplitTwo(name, ns);
  }

  lemma NumberHasNoColon(n: int)
    ensures ':' !in IntText(n) && IntText(n) != ""
  {
    assert ':' !in NatText(if n < 0 then -n else n);
  }

  /** An address the renderers format from a plain dot-free name is taken apart into that
      very name, and is not mistaken for an IP. */
  lemma BackendAddrParses(name: string, ns: string, domain: string, port: int)
    requires PlainName(name) && PlainName(ns) && PlainName(domain)
    ensures var host := Endpoints.Fqdn(name, ns, domain);
      && SplitHostPort(Endpoints.WithPort(host, port)) == Some((host, IntText(port)))
      && !IpLiteral(host)
  {
    hide IntText, LastIndex;
    var host := Endpoints.Fqdn(name, ns, domain);
    var s := host + ":" + IntText(port);
    NumberHasNoColon(port);
    LastColon(host, IntText(port));
    assert s[..|host|] == host && s[|host| + 1..] == IntText(port);
    FqdnCharacters(name, ns, domain);
    NoBrackets(host);
  }

  lemma FqdnCharacters(name: string, ns: string, domain: string)
    requires PlainName(name) && PlainName(ns) && PlainName(domain)
    ensures var host := Endpoints.Fqdn(name, ns, domain); PlainName(host) && host != "" && 's' in host
  {
    var host := Endpoints.Fqdn(name, ns, domain);
    assert host[|name| + |ns| + 2] == 's';
  }

  lemma NoBrackets(host: string)
    requires PlainName(host)
    ensures TrimPrefix(TrimSuffix(host, "]"), "[") == host
  {
    EndsIn(host);
  }

  /** The settings of one pass over the document. */
  datatype Pass = Pass(ips: ClusterIPs, clusterDomain: string, defaultNs: string)

  function Resolved(p: Pass, addr: string): (string, bool) {
    Rewrite(p.ips, if p.clusterDomain == "" then Endpoints.DEFAULT_DOMAIN else p.clusterDomain, p.defaultNs, addr)
  }

  /** Resolving what the Ingress renderer writes without ClusterIPs gives what it would have
      written with them, for one cluster domain, set or left to its default, and whether
      or not the Service exists. */
  lemma ResolverMeetsRenderer(v: Endpoints.View, domain: string, ns: string, b: Endpoints.ServiceRef, ips: ClusterIPs,
                              defaultNs: string)
    requires PlainName(b.name) && PlainName(ns) && PlainName(domain) && '.' !in b.name && '.' !in ns
    requires (ns, b.name) in v.services <==> (ns, b.name) in ips
    requires (ns, b.name) in ips ==> v.services[(ns, b.name)].clusterIP == ips[(ns, b.name)]
    ensures var late := Endpoints.AddrOf(v, Endpoints.Flags(domain, false, false), ns, b);
      var early := Endpoints.AddrOf(v, Endpoints.Flags(domain, true, false), ns, b);
      && late.Some? == early.Some?
      && (late.Some? ==> Resolved(Pass(ips, domain, defaultNs), late.value).0 == early.value)
  {
    hide SplitHostPort, IpLiteral, ParseFqdn, Endpoints.NamedPort, Endpoints.Fqdn, IntText;
    var d := Endpoints.Domain(Endpoints.Flags(domain, false, false));
    var named := if (ns, b.name) in v.services then Endpoints.NamedPort(v.services[(ns, b.name)].ports, b.portName)
                 else None;
    var port := if b.portNumber != 0 then Some(b.portNumber) else if b.portName == "" then None else named;
    if port.Some? {
      BackendAddrParses(b.name, ns, d, port.value);
      FqdnRoundTrip(b.name, ns, d);
    }
  }

  /** The ClusterIP the resolver puts in place of a Service's name, if it has one. */
  function UsableIP(ips: ClusterIPs, ns: string, name: string): Option<string> {
    if (ns, name) in ips && ips[(ns, name)] != "" && ips[(ns, name)] != "None" then Some(ips[(ns, name)]) else None
  }

  /** The address the Gateway renderer writes for a backend, its namespace given or that of
      the route, is taken apart into that namespace and name: it gets the ClusterIP and
      keeps its port, or stays when there is none. */
  lemma ResolverMeetsGateway(f: Endpoints.Flags, routeNs: string, br: Gateway.BackendRef, ips: ClusterIPs,
                             defaultNs: string)
    requires var ns := GetOr(br.ns, routeNs); PlainName(br.name) && PlainName(ns) && '.' !in br.name && '.' !in ns
    requires PlainName(f.clusterDomain) && Gateway.GwAddr(f, routeNs, br).Some?
    ensures var addr, ip := Gateway.GwAddr(f, routeNs, br).value, UsableIP(ips, GetOr(br.ns, routeNs), br.name);
      Resolved(Pass(ips, f.clusterDomain, defaultNs), addr) ==
        if ip.Some? then (ip.value + ":" + IntText(br.port.value), true) else (addr, false)
  {
    hide SplitHostPort, IpLiteral, ParseFqdn, Endpoints.Fqdn, IntText;
    var ns, d := GetOr(br.ns, routeNs), Endpoints.Domain(f);
    BackendAddrParses(br.name, ns, d, br.port.value);
    FqdnRoundTrip(br.name, ns, d);
  }

  // ---- the document ------------------------------------------------------------------------------

  function ResolveItem(p: Pass, v: Val): Val {
    if v.Str? then Str(Resolved(p, v.s).0) else v
  }

  function ResolveItems(p: Pass, items: seq<Val>): (r: seq<Val>)
    ensures |r| == |items| && forall i :: 0 <= i < |r| ==> r[i] == ResolveItem(p, items[i])
  {
    if items == [] then [] else ResolveItems(p, items[..|items| - 1]) + [ResolveItem(p, items[|items| - 1])]
  }

  function ResolvePath(p: Pass, v: Val): Val {
    if v.Map? && "servers" in v.entries && v.entries["servers"].List?
    then Map(v.entries["servers" := List(ResolveItems(p, v.entries["servers"].items))]) else v
  }

  function ResolvePaths(p: Pass, m: Entries): Entries { map k | k in m :: ResolvePath(p, m[k]) }

  function ResolveHost(p: Pass, v: Val): Val {
    if v.Map? && SubMap(v.entries, "paths").Some?
    then Map(v.entries["paths" := Map(ResolvePaths(p, v.entries["paths"].entries))]) else v
  }

  function ResolveHosts(p: Pass, m: Entries): Entries { map k | k in m :: ResolveHost(p, m[k]) }

  function ResolveRoot(p: Pass, root: Entries): Entries {
    if SubMap(root, "upstreams").Some?
    then root["upstreams" := Map(ResolveHosts(p, root["upstreams"].entries))] else root
  }

  /** resolveYAML; None for an unreadable text, and without an upstreams map the text
      itself. */
  function ResolveText(c: Codec, p: Pass, text: string): Option<string> {
    match c.parse(text)
    case Bad => None
    case Nil => Some(text)
    case Root(root) =>
      if SubMap(root, "upstreams").None? then Some(text) else Some(c.print_(ResolveRoot(p, root)))
  }

  // counting

  datatype Summary = Summary(total: nat, resolved: nat, passthrough: nat)

  /** The server entries that are resolved, or those that are passed through. */
  function ItemAddrs(p: Pass, did: bool): Val -> multiset<string> {
    (v: Val) => if v.Str? && Resolved(p, v.s).1 == did then multiset{v.s} else multiset{}
  }

  function PathAddrs(p: Pass, did: bool): Val -> multiset<string> {
    (v: Val) =>
      if v.Map? && "servers" in v.entries && v.entries["servers"].List?
      then Endpoints.Total(v.entries["servers"].items, ItemAddrs(p, did)) else multiset{}
  }

  function Keyed(m: Entries, f: Val -> multiset<string>): string -> multiset<string> {
    k => if k in m then f(m[k]) else multiset{}
  }

  /** Summed over a map, in any order. */
  ghost function MapAddrs(m: Entries, f: Val -> multiset<string>): multiset<string> {
    Endpoints.Total(Enumerate(m.Keys), Keyed(m, f))
  }

  ghost function HostAddrs(p: Pass, did: bool): Val -> multiset<string> {
    (v: Val) =>
      if v.Map? && SubMap(v.entries, "paths").Some?
      then MapAddrs(v.entries["paths"].entries, PathAddrs(p, did)) else multiset{}
  }

  ghost function RootAddrs(p: Pass, did: bool, root: Entries): multiset<string> {
    if SubMap(root, "upstreams").Some? then MapAddrs(root["upstreams"].entries, HostAddrs(p, did)) else multiset{}
  }

  /** s counts the resolved and the passed-through entries, and both together. */
  ghost predicate Counts(s: Summary, resolved: multiset<string>, passed: multiset<string>) {
    s.resolved == |resolved| && s.passthrough == |passed| && s.total == s.resolved + s.passthrough
  }

  function Add(a: Summary, b: Summary): Summary {
    Summary(a.total + b.total, a.resolved + b.resolved, a.passthrough + b.passthrough)
  }

  lemma CountsAdd(a: Summary, b: Summary, ra: multiset<string>, pa: multiset<string>, rb: multiset<string>,
                  pb: multiset<string>)
    requires Counts(a, ra, pa) && Counts(b, rb, pb)
    ensures Counts(Add(a, b), ra + rb, pa + pb)
  {}

  lemma CountsSame(s: Summary, r: multiset<string>, q: multiset<string>)
    requires Counts(s, r, q)
    ensures Counts(s, r + multiset{}, q + multiset{})
  {
    assert r + multiset{} == r && q + multiset{} == q;
  }

  lemma ItemCounts(p: Pass, v: Val)
    ensures v.Str? ==> Counts(if Resolved(p, v.s).1 then Summary(1, 1, 0) else Summary(1, 0, 1),
                              ItemAddrs(p, true)(v), ItemAddrs(p, false)(v))
    ensures !v.Str? ==> ItemAddrs(p, true)(v) == multiset{} && ItemAddrs(p, false)(v) == multiset{}
  {
    hide Rewrite;
  }

  /** The loop over one server list, which is updated in place. */
  method ResolveServers(p: Pass, items: array<Val>) returns (s: Summary)
    modifies items
    ensures items[..] == ResolveItems(p, old(items[..]))
    ensures Counts(s, Endpoints.Total(old(items[..]), ItemAddrs(p, true)),
                   Endpoints.Total(old(items[..]), ItemAddrs(p, false)))
  {
    hide Rewrite, ItemAddrs, Endpoints.Total, Counts;
    s := Summary(0, 0, 0);
    ghost var before, r, q := items[..], ItemAddrs(p, true), ItemAddrs(p, false);
    NothingCounted(r, q);
    for i := 0 to items.Length
      invariant forall j :: 0 <= j < i ==> items[j] == ResolveItem(p, before[j])
      invariant forall j :: i <= j < items.Length ==> items[j] == before[j]
      invariant Counts(s, Endpoints.Total(before[..i], r), Endpoints.Total(before[..i], q))
    {
      Endpoints.TotalSnoc(before, i, r);
      Endpoints.TotalSnoc(before, i, q);
      ItemCounts(p, before[i]);
      if !items[i].Str? {
        CountsSame(s, Endpoints.Total(before[..i], r), Endpoints.Total(before[..i], q));
        continue;
      }
      var rewritten, did := RewriteServer(p.ips, p.clusterDomain, p.defaultNs, items[i].s);
      assert (rewritten, did) == Resolved(p, before[i].s);
      var one := if did then Summary(1, 1, 0) else Summary(1, 0, 1);
      CountsAdd(s, one, Endpoints.Total(before[..i], r), Endpoints.Total(before[..i], q), r(before[i]), q(before[i]));
      items[i] := Str(rewritten);
      s := Add(s, one);
    }
    assert before[..items.Length] == before;
  }

  lemma NothingCounted<T(!new)>(r: T -> multiset<string>, q: T -> multiset<string>)
    ensures Counts(Summary(0, 0, 0), Endpoints.Total([], r), Endpoints.Total([], q))
  {}

  method ResolvePathValue(p: Pass, v: Val) returns (out: Val, s: Summary)
    ensures out == ResolvePath(p, v) && Counts(s, PathAddrs(p, true)(v), PathAddrs(p, false)(v))
  {
    hide ResolveItem, ItemAddrs, Endpoints.Total;
    if !v.Map? || "servers" !in v.entries || !v.entries["servers"].List? {
      return v, Summary(0, 0, 0);
    }
    var items := v.entries["servers"].items;
    var servers := new Val[|items|](i requires 0 <= i < |items| => items[i]);
    assert servers[..] == items;
    s := ResolveServers(p, servers);
    out := Map(v.entries["servers" := List(servers[..])]);
  }

  /** What a value of a map is replaced by and how it is counted. */
  ghost predicate Visited(m: Entries, out: Entries, keys: seq<string>, i: nat, f: Val -> Val)
    requires i <= |keys| && forall k :: k in keys ==> k in m
  {
    && out.Keys == m.Keys
    && (forall j :: 0 <= j < i ==> out[keys[j]] == f(m[keys[j]]))
    && (forall j :: i <= j < |keys| ==> out[keys[j]] == m[keys[j]])
  }

  lemma VisitedStep(m: Entries, out: Entries, keys: seq<string>, i: nat, f: Val -> Val)
    requires i < |keys| && (forall k :: k in keys ==> k in m) && NoDuplicates(keys)
    requires Visited(m, out, keys, i, f)
    ensures out[keys[i]] == m[keys[i]] && Visited(m, out[keys[i] := f(m[keys[i]])], keys, i + 1, f)
  {}

  lemma VisitedAll(m: Entries, out: Entries, keys: seq<string>, f: Val -> Val)
    requires (forall k :: k in keys <==> k in m) && Visited(m, out, keys, |keys|, f)
    ensures out == map k | k in m :: f(m[k])
  {
    forall k | k in m ensures k in out && out[k] == f(m[k]) {
      var j :| 0 <= j < |keys| && keys[j] == k;
    }
  }

  lemma KeyedStep(m: Entries, keys: seq<string>, i: nat, r: Val -> multiset<string>)
    requires i < |keys| && keys[i] in m
    ensures Endpoints.Total(keys[..i + 1], Keyed(m, r)) == Endpoints.Total(keys[..i], Keyed(m, r)) + r(m[keys[i]])
  {
    Endpoints.TotalSnoc(keys, i, Keyed(m, r));
  }

  lemma KeyedAll(m: Entries, keys: seq<string>, r: Val -> multiset<string>)
    requires multiset(keys) == multiset(m.Keys)
    ensures Endpoints.Total(keys[..|keys|], Keyed(m, r)) == MapAddrs(m, r)
  {
    assert keys[..|keys|] == keys;
    Endpoints.TotalPermuted(keys, Enumerate(m.Keys), Keyed(m, r));
  }

  ghost function PathF(p: Pass): Val -> Val { v => ResolvePath(p, v) }

  ghost function HostF(p: Pass): Val -> Val { v => ResolveHost(p, v) }

  /** The paths of one host, in whatever order the map yields them. */
  method ResolvePathMap(p: Pass, m: Entries) returns (out: Entries, s: Summary)
    ensures out == ResolvePaths(p, m)
    ensures Counts(s, MapAddrs(m, PathAddrs(p, true)), MapAddrs(m, PathAddrs(p, false)))
  {
    hide ResolvePath, PathAddrs, MapAddrs, Visited, Counts, Endpoints.Total, Keyed;
    ghost var r, q := PathAddrs(p, true), PathAddrs(p, false);
    var keys := CollectKeys(m.Keys);
    SetElementsNoDuplicates(keys, m.Keys);
    out, s := m, Summary(0, 0, 0);
    NothingCounted(Keyed(m, r), Keyed(m, q));
    assert keys[..0] == [];
    NoneVisited(m, keys, PathF(p));
    for i := 0 to |keys|
      invariant Visited(m, out, keys, i, PathF(p))
      invariant Counts(s, Endpoints.Total(keys[..i], Keyed(m, r)), Endpoints.Total(keys[..i], Keyed(m, q)))
    {
      var k := keys[i];
      VisitedStep(m, out, keys, i, PathF(p));
      VisitedKeys(m, out, keys, i, PathF(p));
      KeyedStep(m, keys, i, r);
      KeyedStep(m, keys, i, q);
      var value, one := ResolvePathValue(p, out[k]);
      CountsAdd(s, one, Endpoints.Total(keys[..i], Keyed(m, r)), Endpoints.Total(keys[..i], Keyed(m, q)),
                r(m[k]), q(m[k]));
      out := out[k := value];
      s := Add(s, one);
    }
    VisitedAll(m, out, keys, PathF(p));
    KeyedAll(m, keys, r);
    KeyedAll(m, keys, q);
  }

  lemma NoneVisited(m: Entries, keys: seq<string>, f: Val -> Val)
    requires forall k :: k in keys ==> k in m
    ensures Visited(m, m, keys, 0, f)
  {}

  lemma VisitedKeys(m: Entries, out: Entries, keys: seq<string>, i: nat, f: Val -> Val)
    requires i <= |keys| && (forall k :: k in keys ==> k in m) && Visited(m, out, keys, i, f)
    ensures out.Keys == m.Keys
  {}

  method ResolveHostValue(p: Pass, v: Val) returns (out: Val, s: Summary)
    ensures out == ResolveHost(p, v) && Counts(s, HostAddrs(p, true)(v), HostAddrs(p, false)(v))
  {
    hide ResolvePaths, MapAddrs;
    if !v.Map? || SubMap(v.entries, "paths").None? {
      return v, Summary(0, 0, 0);
    }
    var paths;
    paths, s := ResolvePathMap(p, v.entries["paths"].entries);
    out := Map(v.entries["paths" := Map(paths)]);
  }

  /** The hosts of the document, in whatever order the map yields them. */
  method ResolveHostMap(p: Pass, m: Entries) returns (out: Entries, s: Summary)
    ensures out == ResolveHosts(p, m)
    ensures Counts(s, MapAddrs(m, HostAddrs(p, true)), MapAddrs(m, HostAddrs(p, false)))
  {
    hide ResolveHost, HostAddrs, MapAddrs, Visited, Counts, Endpoints.Total, Keyed;
    ghost var r, q := HostAddrs(p, true), HostAddrs(p, false);
    var keys := CollectKeys(m.Keys);
    SetElementsNoDuplicates(keys, m.Keys);
    out, s := m, Summary(0, 0, 0);
    NothingCounted(Keyed(m, r), Keyed(m, q));
    assert keys[..0] == [];
    NoneVisited(m, keys, HostF(p));
    for i := 0 to |keys|
      invariant Visited(m, out, keys, i, HostF(p))
      invariant Counts(s, Endpoints.Total(keys[..i], Keyed(m, r)), Endpoints.Total(keys[..i], Keyed(m, q)))
    {
      var k := keys[i];
      VisitedStep(m, out, keys, i, HostF(p));
      VisitedKeys(m, out, keys, i, HostF(p));
      KeyedStep(m, keys, i, r);
      KeyedStep(m, keys, i, q);
      var value, one := ResolveHostValue(p, out[k]);
      CountsAdd(s, one, Endpoints.Total(keys[..i], Keyed(m, r)), Endpoints.Total(keys[..i], Keyed(m, q)),
                r(m[k]), q(m[k]));
      out := out[k := value];
      s := Add(s, one);
    }
    VisitedAll(m, out, keys, HostF(p));
    KeyedAll(m, keys, r);
    KeyedAll(m, keys, q);
  }

  /** resolveYAML. */
  method ResolveYaml(c: Codec, p: Pass, text: string) returns (out: Option<string>, s: Summary)
    ensures out == ResolveText(c, p, text)
    ensures var root := if c.parse(text).Root? then c.parse(text).root else map[];
      Counts(s, RootAddrs(p, true, root), RootAddrs(p, false, root))
  {
    hide ResolveHosts, MapAddrs;
    s := Summary(0, 0, 0);
    var d := c.parse(text);
    if d.Bad? {
      return None, s;
    }
    if d.Nil? || SubMap(d.root, "upstreams").None? {
      return Some(text), s;
    }
    var hosts;
    hosts, s := ResolveHostMap(p, d.root["upstreams"].entries);
    out := Some(c.print_(d.root["upstreams" := Map(hosts)]));
  }

  // ---- what a pass does to a document -----------------------------------------------------------

  lemma ResolvedTwice(p: Pass, addr: string)
    requires AddressesOnly(p.ips)
    ensures Resolved(p, Resolved(p, addr).0).0 == Resolved(p, addr).0
  {
    hide Rewrite;
    RewriteTwice(p.ips, if p.clusterDomain == "" then Endpoints.DEFAULT_DOMAIN else p.clusterDomain, p.defaultNs, addr);
  }

  lemma ItemTwice(p: Pass, v: Val)
    requires AddressesOnly(p.ips)
    ensures ResolveItem(p, ResolveItem(p, v)) == ResolveItem(p, v)
  {
    hide Resolved;
    if v.Str? { ResolvedTwice(p, v.s); }
  }

  lemma ItemsTwice(p: Pass, items: seq<Val>)
    requires AddressesOnly(p.ips)
    ensures ResolveItems(p, ResolveItems(p, items)) == ResolveItems(p, items)
  {
    hide *;
    var once := ResolveItems(p, items);
    forall i | 0 <= i < |items| ensures ResolveItem(p, once[i]) == once[i] {
      assert once[i] == ResolveItem(p, items[i]);
      ItemTwice(p, items[i]);
    }
    assert ResolveItems(p, once) == once;
  }

  lemma PathTwice(p: Pass, v: Val)
    requires AddressesOnly(p.ips)
    ensures ResolvePath(p, ResolvePath(p, v)) == ResolvePath(p, v)
  {
    hide ResolveItems;
    if v.Map? && "servers" in v.entries && v.entries["servers"].List? { ItemsTwice(p, v.entries["servers"].items); }
  }

  lemma HostTwice(p: Pass, v: Val)
    requires AddressesOnly(p.ips)
    ensures ResolveHost(p, ResolveHost(p, v)) == ResolveHost(p, v)
  {
    hide ResolvePath;
    if v.Map? && SubMap(v.entries, "paths").Some? {
      var m := v.entries["paths"].entries;
      forall k | k in m ensures ResolvePath(p, ResolvePath(p, m[k])) == ResolvePath(p, m[k]) { PathTwice(p, m[k]); }
      assert ResolvePaths(p, ResolvePaths(p, m)) == ResolvePaths(p, m);
    }
  }

  /** Resolving a resolved document changes nothing. */
  lemma RootTwice(p: Pass, root: Entries)
    requires AddressesOnly(p.ips)
    ensures ResolveRoot(p, ResolveRoot(p, root)) == ResolveRoot(p, root)
  {
    hide ResolveHost;
    if SubMap(root, "upstreams").Some? {
      var m := root["upstreams"].entries;
      forall k | k in m ensures ResolveHost(p, ResolveHost(p, m[k])) == ResolveHost(p, m[k]) { HostTwice(p, m[k]); }
      assert ResolveHosts(p, ResolveHosts(p, m)) == ResolveHosts(p, m);
    }
  }

  /** The same for the text that is written. */
  lemma TextTwice(c: Codec, p: Pass, text: string)
    requires RoundTrips(c) && AddressesOnly(p.ips) && ResolveText(c, p, text).Some?
    ensures ResolveText(c, p, ResolveText(c, p, text).value) == ResolveText(c, p, text)
  {
    hide AddressesOnly, ResolveHosts;
    if c.parse(text).Root? && SubMap(c.parse(text).root, "upstreams").Some? {
      var root := c.parse(text).root;
      RootTwice(p, root);
      assert c.parse(c.print_(ResolveRoot(p, root))) == Root(ResolveRoot(p, root));
    }
  }

  /** upstreams.<host>.paths.<path>.servers */
  predicate ServersPath(path: seq<string>) {
    |path| == 5 && path[0] == "upstreams" && path[2] == "paths" && path[4] == "servers"
  }

  /** A shape after the pass: server lists entry by entry, everything else unchanged. */
  function ShapeAfter(p: Pass, servers: bool, shape: Option<Shape>): Option<Shape> {
    if servers && shape.Some? && shape.value.Leaf? && shape.value.v.List?
    then Some(Leaf(List(ResolveItems(p, shape.value.v.items)))) else shape
  }

  lemma PathFrame(p: Pass, v: Val, path: seq<string>)
    ensures Lookup(ResolvePath(p, v), path) == ShapeAfter(p, path == ["servers"], Lookup(v, path))
  {
    hide ResolveItems;
    if v.Map? && "servers" in v.entries && v.entries["servers"].List? && path != [] && path[0] == "servers" {
      assert path[1..] == [] <==> path == ["servers"];
    }
  }

  lemma PathsFrame(p: Pass, m: Entries, path: seq<string>)
    ensures Lookup(Map(ResolvePaths(p, m)), path) ==
      ShapeAfter(p, |path| == 2 && path[1] == "servers", Lookup(Map(m), path))
  {
    hide ResolvePath, ResolveItems;
    if path != [] && path[0] in m {
      PathFrame(p, m[path[0]], path[1..]);
      assert path[1..] == ["servers"] <==> |path| == 2 && path[1] == "servers";
    }
  }

  lemma HostFrame(p: Pass, v: Val, path: seq<string>)
    ensures Lookup(ResolveHost(p, v), path)
         == ShapeAfter(p, |path| == 3 && path[0] == "paths" && path[2] == "servers", Lookup(v, path))
  {
    hide ResolvePaths, ResolveItems;
    if v.Map? && SubMap(v.entries, "paths").Some? && path != [] && path[0] == "paths" {
      PathsFrame(p, v.entries["paths"].entries, path[1..]);
    } else if |path| == 3 && path[0] == "paths" && v.Map? && "paths" in v.entries {
      assert Lookup(v.entries["paths"], path[1..]) == None;
    }
  }

  lemma HostsFrame(p: Pass, m: Entries, path: seq<string>)
    ensures Lookup(Map(ResolveHosts(p, m)), path)
         == ShapeAfter(p, |path| == 4 && path[1] == "paths" && path[3] == "servers", Lookup(Map(m), path))
  {
    hide ResolveHost, ResolveItems;
    if path != [] && path[0] in m { HostFrame(p, m[path[0]], path[1..]); }
  }

  /** Only the server lists under upstreams change, and only entry by entry. */
  lemma OnlyServersChange(p: Pass, root: Entries, path: seq<string>)
    ensures Lookup(Map(ResolveRoot(p, root)), path) == ShapeAfter(p, ServersPath(path), Lookup(Map(root), path))
  {
    hide ResolveHosts, ResolveItems;
    if SubMap(root, "upstreams").Some? && path != [] && path[0] == "upstreams" {
      HostsFrame(p, root["upstreams"].entries, path[1..]);
    } else if ServersPath(path) && "upstreams" in root {
      assert Lookup(root["upstreams"], path[1..]) == None;
    }
  }
}
