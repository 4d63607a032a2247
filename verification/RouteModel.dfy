/** The first-writer-wins route model (controllers/routes.go). */
module RouteModel {
  // Hosts, paths, certificates and passthrough claims, filled in place by the two renderers.

  import opened Wrappers
  import opened Strings
  import Layout

  /** weight 0 means unweighted. */
  datatype Backend = Backend(addr: string, weight: nat)

  datatype RouteCfg = RouteCfg(
    servers: seq<Backend>,
    ssl: Option<bool>,
    http2: Option<bool>,
    forceHttps: Option<bool>,
    healthcheck: Option<bool>,
    disableAccessLog: Option<bool>,
    connectTimeout: Option<nat>,
    readTimeout: Option<nat>,
    writeTimeout: Option<nat>,
    idleTimeout: Option<nat>,
    maxBodySize: Option<nat>,
    reqHeaders: seq<string>,
    respHeaders: seq<string>,
    redirectStatus: Option<nat>,
    redirectLocation: string,
    matchExpr: string)

  /** The parsed annotations of one Ingress or HTTPRoute. */
  datatype Settings = Settings(
    ssl: Option<bool>,
    http2: Option<bool>,
    forceHttps: Option<bool>,
    healthcheck: Option<bool>,
    disableAccessLog: Option<bool>,
    connectTimeout: Option<nat>,
    readTimeout: Option<nat>,
    writeTimeout: Option<nat>,
    idleTimeout: Option<nat>,
    maxBodySize: Option<nat>,
    reqHeaders: seq<string>,
    respHeaders: seq<string>,
    serverAliases: seq<string>,
    passthrough: bool,
    redirectStatus: Option<nat>,
    redirectLocation: string,
    sticky: bool,
    useRegex: bool)

  datatype CertProjection = CertProjection(stem: string, ns: string, name: string)

  datatype Model = Model(
    hosts: map<string, map<string, RouteCfg>>,
    acme: string,
    hostCert: map<string, string>,
    certProjections: map<string, CertProjection>,
    passthroughHosts: map<string, string>,
    sticky: bool)

  const EMPTY_MODEL := Model(map[], "", map[], map[], map[], false)

  // ---- keys and configurations ------------------------------------------------

  function TrimRightSlashes(s: string): string {
    if s != [] && s[|s| - 1] == '/' then TrimRightSlashes(s[..|s| - 1]) else s
  }

  /** The path key a prefix route is stored under. */
  function RouteKey(path: string): string {
    if path == "/" then path
    else
      var trimmed := TrimRightSlashes(path);
      if trimmed != "" then trimmed else path
  }

  function RegexKey(regex: string): string { "expr:" + regex }

  function RegexExpr(regex: string): string {
    "http.request.path matches "
    + Layout.Quote(if HasPrefix(regex, "^") then regex else "^" + regex)
  }

  function ConfigOf(servers: seq<Backend>, a: Settings, extraReq: seq<string>, extraResp: seq<string>,
                    matchExpr: string): RouteCfg
  {
    RouteCfg(servers, a.ssl, a.http2, a.forceHttps, a.healthcheck, a.disableAccessLog,
             a.connectTimeout, a.readTimeout, a.writeTimeout, a.idleTimeout, a.maxBodySize,
             a.reqHeaders + extraReq, a.respHeaders + extraResp,
             a.redirectStatus, a.redirectLocation, matchExpr)
  }

  // ---- the calls as functions on snapshots ----------------------------------

  datatype Call =
    | Route(host: string, path: string, servers: seq<Backend>, a: Settings,
            extraReq: seq<string>, extraResp: seq<string>)
    | Regex(host: string, regex: string, servers: seq<Backend>, a: Settings,
            extraReq: seq<string>, extraResp: seq<string>)
    | Passthrough(host: string, upstream: string)
    | Cert(host: string, stem: string, ns: string, name: string)

  function Paths(m: Model, host: string): map<string, RouteCfg> {
    if host in m.hosts then m.hosts[host] else map[]
  }

  predicate Terminates(m: Model, host: string, key: string) {
    host in m.hosts && key in m.hosts[host]
  }

  function Claim(m: Model, host: string, key: string, rc: RouteCfg, sticky: bool): Model {
    if host in m.passthroughHosts || Terminates(m, host, key) then m
    else m.(hosts := m.hosts[host := Paths(m, host)[key := rc]], sticky := m.sticky || sticky)
  }

  /** The (key, configuration) a terminate call writes, if it is one that writes. */
  function Write(c: Call): Option<(string, RouteCfg)> {
    match c
    case Route(_, path, servers, a, q, p) => Some((RouteKey(path), ConfigOf(servers, a, q, p, "")))
    case Regex(_, regex, servers, a, q, p) =>
      if regex == "" then None
      else Some((RegexKey(regex), ConfigOf(servers, a, q, p, RegexExpr(regex))))
    case _ => None
  }

  function Apply(m: Model, c: Call): Model {
    match c
    case Passthrough(host, upstream) =>
      if host == "" || upstream == "" || host in m.passthroughHosts || Paths(m, host) != map[] then m
      else m.(passthroughHosts := m.passthroughHosts[host := upstream])
    case Cert(host, stem, ns, name) =>
      if stem == "" || ns == "" || name == "" then m
      else
        var p := if stem in m.certProjections then m.certProjections
                 else m.certProjections[stem := CertProjection(stem, ns, name)];
        var b := if host == "" || host in m.hostCert then m.hostCert else m.hostCert[host := stem];
        m.(certProjections := p, hostCert := b)
    case _ =>
      match Write(c)
      case None => m
      case Some((key, rc)) => Claim(m, c.host, key, rc, c.a.sticky)
  }

  /** What addRoute, addRegexRoute and addPassthroughHost report. */
  predicate Accepted(m: Model, c: Call) {
    match c
    case Passthrough(host, upstream) =>
      host != "" && upstream != "" && host !in m.passthroughHosts && Paths(m, host) == map[]
    case Cert(_, stem, ns, name) => stem != "" && ns != "" && name != ""
    case _ =>
      match Write(c)
      case None => false
      case Some((key, _)) => c.host !in m.passthroughHosts && !Terminates(m, c.host, key)
  }

  function Run(m: Model, calls: seq<Call>): Model {
    if calls == [] then m else Apply(Run(m, calls[..|calls| - 1]), calls[|calls| - 1])
  }

  // ---- the invariant ------------------------------------------------------------

  /** No host is both terminated and passed through, and no host is left without paths. */
  ghost predicate ValidModel(m: Model) {
    && m.hosts.Keys !! m.passthroughHosts.Keys
    && (forall h :: h in m.hosts ==> m.hosts[h] != map[])
    && "" !in m.passthroughHosts
    && (forall h :: h in m.passthroughHosts ==> m.passthroughHosts[h] != "")
    && (forall h :: h in m.hostCert ==> h != "" && m.hostCert[h] != "")
  }

  lemma ApplyKeepsValid(m: Model, c: Call)
    requires ValidModel(m)
    ensures ValidModel(Apply(m, c))
  {
    hide ConfigOf, RouteKey, RegexKey, RegexExpr;
    if (c.Route? || c.Regex?) && Write(c).Some? {
      var (key, rc) := Write(c).value;
      assert key in Paths(m, c.host)[key := rc];
    }
  }

  /** Every reachable model keeps the two kinds of host apart. */
  lemma {:induction false} RunValid(calls: seq<Call>)
    ensures ValidModel(Run(EMPTY_MODEL, calls))
  {
    if calls == [] {
    } else {
      RunValid(calls[..|calls| - 1]);
      ApplyKeepsValid(Run(EMPTY_MODEL, calls[..|calls| - 1]), calls[|calls| - 1]);
    }
  }

  // ---- first writer wins -------------------------------------------------------

  /** A call that can claim its host: a terminate write, or a well-formed passthrough. */
  predicate Claims(c: Call) {
    Write(c).Some? || (c.Passthrough? && c.host != "" && c.upstream != "")
  }

  /** The first call that can claim the host decides what kind of host it is. */
  function FirstClaim(calls: seq<Call>, host: string): Option<Call> {
    if calls == [] then None
    else if calls[0].host == host && Claims(calls[0]) then Some(calls[0])
    else FirstClaim(calls[1..], host)
  }

  /** The configuration of the first call that writes (host, key). */
  function FirstWrite(calls: seq<Call>, host: string, key: string): Option<RouteCfg> {
    if calls == [] then None
    else if calls[0].host == host && Write(calls[0]).Some? && Write(calls[0]).value.0 == key then
      Some(Write(calls[0]).value.1)
    else FirstWrite(calls[1..], host, key)
  }

  lemma {:induction false} FirstClaimSnoc(calls: seq<Call>, c: Call, host: string)
    ensures FirstClaim(calls + [c], host) ==
      if FirstClaim(calls, host).Some? then FirstClaim(calls, host)
      else if c.host == host && Claims(c) then Some(c) else None
  {
    if calls == [] {
      assert (calls + [c])[1..] == [];
    } else {
      assert (calls + [c])[1..] == calls[1..] + [c];
      FirstClaimSnoc(calls[1..], c, host);
    }
  }

  lemma {:induction false} FirstWriteSnoc(calls: seq<Call>, c: Call, host: string, key: string)
    ensures FirstWrite(calls + [c], host, key) ==
      if FirstWrite(calls, host, key).Some? then FirstWrite(calls, host, key)
      else if c.host == host && Write(c).Some? && Write(c).value.0 == key then Some(Write(c).value.1)
      else None
  {
    if calls == [] {
      assert (calls + [c])[1..] == [];
    } else {
      assert (calls + [c])[1..] == calls[1..] + [c];
      FirstWriteSnoc(calls[1..], c, host, key);
    }
  }

  lemma {:induction false} WriteIsClaim(calls: seq<Call>, host: string, key: string)
    requires FirstWrite(calls, host, key).Some?
    ensures FirstClaim(calls, host).Some?
  {
    if calls[0].host == host && Claims(calls[0]) {
    } else {
      WriteIsClaim(calls[1..], host, key);
    }
  }

  /** The paths hold for key just its first writer's configuration. */
  ghost predicate KeyAsWritten(paths: map<string, RouteCfg>, calls: seq<Call>, host: string, key: string) {
    && (key in paths <==> FirstWrite(calls, host, key).Some?)
    && (key in paths ==> paths[key] == FirstWrite(calls, host, key).value)
  }

  /** What the model must hold for one host after the calls. */
  ghost predicate HostAsClaimed(m: Model, calls: seq<Call>, host: string) {
    match FirstClaim(calls, host)
    case None => host !in m.hosts && host !in m.passthroughHosts
    case Some(c) =>
      if c.Passthrough? then
        host !in m.hosts && host in m.passthroughHosts && m.passthroughHosts[host] == c.upstream
      else
        && host !in m.passthroughHosts && host in m.hosts
        && forall key :: KeyAsWritten(m.hosts[host], calls, host, key)
  }

  /** The call's own part in what happens to the host. */
  function WriteOn(c: Call, host: string): Option<(string, RouteCfg)> {
    if c.host == host then Write(c) else None
  }

  /** The paths of a host after the call, if nothing refuses its write. */
  function PathsAfter(paths: map<string, RouteCfg>, w: Option<(string, RouteCfg)>): map<string, RouteCfg> {
    if w.None? || w.value.0 in paths then paths else paths[w.value.0 := w.value.1]
  }

  lemma KeyStep(paths: map<string, RouteCfg>, calls: seq<Call>, c: Call, host: string, key: string)
    requires KeyAsWritten(paths, calls, host, key)
    ensures KeyAsWritten(PathsAfter(paths, WriteOn(c, host)), calls + [c], host, key)
  {
    hide Write, FirstWrite;
    FirstWriteSnoc(calls, c, host, key);
  }

  lemma KeysStep(paths: map<string, RouteCfg>, calls: seq<Call>, c: Call, host: string)
    requires forall key :: KeyAsWritten(paths, calls, host, key)
    ensures forall key :: KeyAsWritten(PathsAfter(paths, WriteOn(c, host)), calls + [c], host, key)
  {
    hide *;
    forall key ensures KeyAsWritten(PathsAfter(paths, WriteOn(c, host)), calls + [c], host, key) {
      KeyStep(paths, calls, c, host, key);
    }
  }

  /** Before any claim no key is written. */
  lemma NothingWritten(calls: seq<Call>, host: string)
    requires FirstClaim(calls, host).None?
    ensures forall key :: KeyAsWritten(map[], calls, host, key)
  {
    forall key ensures FirstWrite(calls, host, key).None? {
      if FirstWrite(calls, host, key).Some? { WriteIsClaim(calls, host, key); }
    }
  }

  /** A write that is refused, or that lands on its key. */
  lemma WriteResult(m: Model, c: Call)
    requires (c.Route? || c.Regex?) && Write(c).Some?
    ensures var (key, rc) := Write(c).value;
      if c.host in m.passthroughHosts || Terminates(m, c.host, key) then Apply(m, c) == m
      else Apply(m, c).passthroughHosts == m.passthroughHosts && c.host in Apply(m, c).hosts
           && Apply(m, c).hosts[c.host] == Paths(m, c.host)[key := rc]
  {
    hide Write;
  }

  lemma WriteStep(m: Model, calls: seq<Call>, c: Call)
    requires HostAsClaimed(m, calls, c.host) && Write(c).Some?
    requires c.host in m.hosts ==> m.hosts[c.host] != map[]
    ensures HostAsClaimed(Apply(m, c), calls + [c], c.host)
  {
    hide *;
    if FirstClaim(calls, c.host).None? {
      FirstWriteStep(m, calls, c);
    } else if FirstClaim(calls, c.host).value.Passthrough? {
      RefusedWriteStep(m, calls, c);
    } else {
      LaterWriteStep(m, calls, c);
    }
  }

  lemma FirstWriteStep(m: Model, calls: seq<Call>, c: Call)
    requires HostAsClaimed(m, calls, c.host) && Write(c).Some? && FirstClaim(calls, c.host).None?
    ensures HostAsClaimed(Apply(m, c), calls + [c], c.host)
  {
    assert (c.Route? || c.Regex?) && Claims(c);
    hide Write, FirstClaim, FirstWrite, Claims, Apply, KeyAsWritten;
    WriteResult(m, c);
    FirstClaimSnoc(calls, c, c.host);
    NothingWritten(calls, c.host);
    KeysStep(map[], calls, c, c.host);
    assert Apply(m, c).hosts[c.host] == PathsAfter(map[], WriteOn(c, c.host));
  }

  lemma RefusedWriteStep(m: Model, calls: seq<Call>, c: Call)
    requires HostAsClaimed(m, calls, c.host) && Write(c).Some?
    requires FirstClaim(calls, c.host).Some? && FirstClaim(calls, c.host).value.Passthrough?
    ensures HostAsClaimed(Apply(m, c), calls + [c], c.host)
  {
    assert c.Route? || c.Regex?;
    hide Write, FirstClaim, FirstWrite, Claims, Apply, KeyAsWritten;
    WriteResult(m, c);
    FirstClaimSnoc(calls, c, c.host);
  }

  lemma LaterWriteStep(m: Model, calls: seq<Call>, c: Call)
    requires HostAsClaimed(m, calls, c.host) && Write(c).Some?
    requires FirstClaim(calls, c.host).Some? && !FirstClaim(calls, c.host).value.Passthrough?
    ensures HostAsClaimed(Apply(m, c), calls + [c], c.host)
  {
    assert c.Route? || c.Regex?;
    hide Write, FirstClaim, FirstWrite, Claims, Apply, KeyAsWritten;
    WriteResult(m, c);
    FirstClaimSnoc(calls, c, c.host);
    KeysStep(m.hosts[c.host], calls, c, c.host);
    assert Apply(m, c).hosts[c.host] == PathsAfter(m.hosts[c.host], WriteOn(c, c.host));
  }

  /** What a call leaves of a host it does not write. */
  lemma QuietResult(m: Model, c: Call, host: string)
    requires c.host != host || Write(c).None?
    requires host in m.hosts ==> m.hosts[host] != map[]
    ensures var m' := Apply(m, c);
      && (host in m.hosts <==> host in m'.hosts) && (host in m.hosts ==> m'.hosts[host] == m.hosts[host])
      && (if c.Passthrough? && c.host == host && Claims(c) && host !in m.passthroughHosts && host !in m.hosts
          then host in m'.passthroughHosts && m'.passthroughHosts[host] == c.upstream
          else (host in m.passthroughHosts <==> host in m'.passthroughHosts)
               && (host in m.passthroughHosts ==> m'.passthroughHosts[host] == m.passthroughHosts[host]))
      && (c.host == host && Claims(c) ==> c.Passthrough?)
  {
    hide Write;
  }

  lemma QuietStep(m: Model, calls: seq<Call>, c: Call, host: string)
    requires HostAsClaimed(m, calls, host)
    requires host in m.hosts ==> m.hosts[host] != map[]
    requires c.host != host || Write(c).None?
    ensures HostAsClaimed(Apply(m, c), calls + [c], host)
  {
    hide Write, FirstClaim, FirstWrite, Claims, Apply, KeyAsWritten;
    QuietResult(m, c, host);
    FirstClaimSnoc(calls, c, host);
    if host in m.hosts {
      KeysStep(m.hosts[host], calls, c, host);
      assert Apply(m, c).hosts[host] == PathsAfter(m.hosts[host], WriteOn(c, host));
    }
  }

  lemma HostAsClaimedStep(m: Model, calls: seq<Call>, c: Call, host: string)
    requires HostAsClaimed(m, calls, host)
    requires host in m.hosts ==> m.hosts[host] != map[]
    ensures HostAsClaimed(Apply(m, c), calls + [c], host)
  {
    hide *;
    if c.host == host && Write(c).Some? {
      WriteStep(m, calls, c);
    } else {
      QuietStep(m, calls, c, host);
    }
  }

  /** Over every sequence of calls, each host is of the kind its first claimant
      asked for, and each (host, key) holds the configuration of its first writer. */
  lemma {:induction false} FirstWriterWins(calls: seq<Call>, host: string)
    ensures HostAsClaimed(Run(EMPTY_MODEL, calls), calls, host)
  {
    if calls == [] {
    } else {
      var before, c := calls[..|calls| - 1], calls[|calls| - 1];
      FirstWriterWins(before, host);
      RunValid(before);
      HostAsClaimedStep(Run(EMPTY_MODEL, before), before, c, host);
      assert before + [c] == calls;
    }
  }

  /** The reported result is exact: a route is refused just when its host was first
      claimed by a passthrough or its key was written before, and a passthrough
      just when its host was claimed at all. */
  lemma AcceptedExactly(calls: seq<Call>, c: Call)
    ensures (c.Route? || c.Regex?) ==>
      (Accepted(Run(EMPTY_MODEL, calls), c) <==>
        && Write(c).Some?
        && !(FirstClaim(calls, c.host).Some? && FirstClaim(calls, c.host).value.Passthrough?)
        && FirstWrite(calls, c.host, Write(c).value.0).None?)
    ensures c.Passthrough? ==>
      (Accepted(Run(EMPTY_MODEL, calls), c) <==> Claims(c) && FirstClaim(calls, c.host).None?)
  {
    hide Run, FirstClaim, FirstWrite, ConfigOf, RegexExpr, RouteKey;
    FirstWriterWins(calls, c.host);
    RunValid(calls);
    if (c.Route? || c.Regex?) && Write(c).Some? {
      var m, key := Run(EMPTY_MODEL, calls), Write(c).value.0;
      assert c.host in m.hosts ==> KeyAsWritten(m.hosts[c.host], calls, c.host, key);
      if FirstWrite(calls, c.host, key).Some? { WriteIsClaim(calls, c.host, key); }
    }
  }

  /** What m holds for (host, key), m' holds too. */
  predicate KeepsClaim(m: Model, m': Model, host: string, key: string) {
    && (Terminates(m, host, key) ==>
          Terminates(m', host, key) && m'.hosts[host][key] == m.hosts[host][key])
    && (host in m.passthroughHosts ==>
          host in m'.passthroughHosts && m'.passthroughHosts[host] == m.passthroughHosts[host])
  }

  lemma ApplyKeepsClaim(m: Model, c: Call, host: string, key: string)
    requires ValidModel(m)
    ensures KeepsClaim(m, Apply(m, c), host, key)
  {
    hide Write;
  }

  /** A claimed entry never changes again. */
  lemma {:induction false} ClaimsAreForever(m: Model, calls: seq<Call>, host: string, key: string)
    requires ValidModel(m)
    ensures KeepsClaim(m, Run(m, calls), host, key) && ValidModel(Run(m, calls))
  {
    hide Apply, ValidModel;
    if calls == [] {
    } else {
      var before := calls[..|calls| - 1];
      ClaimsAreForever(m, before, host, key);
      ApplyKeepsValid(Run(m, before), calls[|calls| - 1]);
      ApplyKeepsClaim(Run(m, before), calls[|calls| - 1], host, key);
    }
  }

  // ---- the object the renderer fills in place ------------------------------------

  class RenderModel {
    var hosts: map<string, map<string, RouteCfg>>
    var acme: string
    var hostCert: map<string, string>
    var certProjections: map<string, CertProjection>
    var passthroughHosts: map<string, string>
    var sticky: bool

    function Snapshot(): Model
      reads this
    {
      Model(hosts, acme, hostCert, certProjections, passthroughHosts, sticky)
    }

    ghost predicate Valid()
      reads this
    {
      ValidModel(Snapshot())
    }

    constructor ()
      ensures Valid() && Snapshot() == EMPTY_MODEL
    {
      hosts, acme, hostCert, certProjections, passthroughHosts, sticky := map[], "", map[], map[], map[], false;
    }

    method AddCert(host: string, stem: string, ns: string, name: string)
      requires Valid()
      modifies this
      ensures Valid() && Snapshot() == Apply(old(Snapshot()), Cert(host, stem, ns, name))
    {
      ApplyKeepsValid(Snapshot(), Cert(host, stem, ns, name));
      if stem == "" || ns == "" || name == "" {
        return;
      }
      if stem !in certProjections {
        certProjections := certProjections[stem := CertProjection(stem, ns, name)];
      }
      if host != "" {
        if host !in hostCert {
          hostCert := hostCert[host := stem];
        }
      }
    }

    /** The part addRoute and addRegexRoute share. */
    method Store(host: string, key: string, rc: RouteCfg, sticky: bool) returns (ok: bool)
      modifies this
      ensures Snapshot() == Claim(old(Snapshot()), host, key, rc, sticky)
      ensures ok == (host !in old(passthroughHosts) && !Terminates(old(Snapshot()), host, key))
    {
      if host in passthroughHosts {
        return false;
      }
      if host !in hosts {
        hosts := hosts[host := map[]];
      }
      if key in hosts[host] {
        return false;
      }
      hosts := hosts[host := hosts[host][key := rc]];
      assert hosts == old(hosts)[host := Paths(old(Snapshot()), host)[key := rc]];
      if sticky {
        this.sticky := true;
      }
      return true;
    }

    method AddRoute(host: string, path: string, servers: seq<Backend>, a: Settings,
                    extraReq: seq<string>, extraResp: seq<string>)
      returns (ok: bool)
      requires Valid()
      modifies this
      ensures var c := Route(host, path, servers, a, extraReq, extraResp);
              Valid() && Snapshot() == Apply(old(Snapshot()), c) && ok == Accepted(old(Snapshot()), c)
    {
      ApplyKeepsValid(Snapshot(), Route(host, path, servers, a, extraReq, extraResp));
      var key := path;
      if path != "/" {
        var trimmed := TrimRightSlashes(path);
        if trimmed != "" {
          key := trimmed;
        }
      }
      ok := Store(host, key, ConfigOf(servers, a, extraReq, extraResp, ""), a.sticky);
    }

    method AddRegexRoute(host: string, regex: string, servers: seq<Backend>, a: Settings,
                         extraReq: seq<string>, extraResp: seq<string>)
      returns (ok: bool)
      requires Valid()
      modifies this
      ensures var c := Regex(host, regex, servers, a, extraReq, extraResp);
              Valid() && Snapshot() == Apply(old(Snapshot()), c) && ok == Accepted(old(Snapshot()), c)
    {
      ApplyKeepsValid(Snapshot(), Regex(host, regex, servers, a, extraReq, extraResp));
      if regex == "" {
        return false;
      }
      ok := Store(host, RegexKey(regex), ConfigOf(servers, a, extraReq, extraResp, RegexExpr(regex)), a.sticky);
    }

    method AddPassthroughHost(host: string, upstream: string) returns (ok: bool)
      requires Valid()
      modifies this
      ensures var c := Passthrough(host, upstream);
              Valid() && Snapshot() == Apply(old(Snapshot()), c) && ok == Accepted(old(Snapshot()), c)
    {
      ApplyKeepsValid(Snapshot(), Passthrough(host, upstream));
      if host == "" || upstream == "" {
        return false;
      }
      if host in passthroughHosts {
        return false;
      }
      if host in hosts && |hosts[host]| > 0 {
        return false;
      }
      passthroughHosts := passthroughHosts[host := upstream];
      return true;
    }
  }
}
