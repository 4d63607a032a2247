/** Where every route of a rendered file comes from (addRoute, addRegexRoute, renderUpstreams). */
module RouteOrigins {
  // After any run of calls, each route in the file says what the first call for its host and key
  // asked for, option by option, and a host that was first passed through has no routes.

  import opened Wrappers
  import opened Strings
  import opened RouteModel
  import Layout
  import RouteText
  import UpstreamsReader

  // ---- what a call stores ---------------------------------------------------------------------

  predicate AllSlashes(s: string) { forall c :: c in s ==> c == '/' }

  /** key is path without the slashes it ends in; a path of slashes alone is kept. */
  ghost predicate PrefixKey(path: string, key: string) {
    || (AllSlashes(path) && key == path)
    || (exists slashes :: AllSlashes(slashes) && path == key + slashes && key != "" && key[|key| - 1] != '/')
  }

  /** The call asks for a route of the host under this key. */
  ghost predicate StoresAt(c: Call, host: string, key: string) {
    && c.host == host
    && (c.Route? || c.Regex?)
    && (c.Route? ==> PrefixKey(c.path, key))
    && (c.Regex? ==> c.regex != "" && key == "expr:" + c.regex)
  }

  /** The call asks for some route of the host. */
  predicate Stores(c: Call, host: string) {
    c.host == host && (c.Route? || (c.Regex? && c.regex != ""))
  }

  /** The first of the calls that asks for this host and key. */
  ghost predicate FirstStore(calls: seq<Call>, i: nat, host: string, key: string) {
    i < |calls| && StoresAt(calls[i], host, key) && forall j :: 0 <= j < i ==> !StoresAt(calls[j], host, key)
  }

  predicate PassesThrough(c: Call, host: string) {
    c.Passthrough? && c.host == host && host != "" && c.upstream != ""
  }

  /** The host was passed through before any route was asked for. */
  ghost predicate PassedFirst(calls: seq<Call>, host: string) {
    exists j :: 0 <= j < |calls| && PassesThrough(calls[j], host) && forall k :: 0 <= k < j ==> !Stores(calls[k], host)
  }

  // ---- keys ---------------------------------------------------------------------------------------

  lemma {:induction false} TrimmedOf(s: string)
    returns (slashes: string)
    ensures AllSlashes(slashes) && s == TrimRightSlashes(s) + slashes
    ensures TrimRightSlashes(s) != "" ==> TrimRightSlashes(s)[|TrimRightSlashes(s)| - 1] != '/'
  {
    if s != "" && s[|s| - 1] == '/' {
      var rest := TrimmedOf(s[..|s| - 1]);
      slashes := rest + "/";
      assert s == s[..|s| - 1] + "/";
    } else {
      slashes := "";
    }
  }

  lemma {:induction false} TrimmedIs(key: string, slashes: string)
    requires AllSlashes(slashes) && (key == "" || key[|key| - 1] != '/')
    ensures TrimRightSlashes(key + slashes) == key
  {
    if slashes == "" {
      assert key + slashes == key;
    } else {
      var init := slashes[..|slashes| - 1];
      assert (key + slashes)[..|key + slashes| - 1] == key + init;
      assert slashes[|slashes| - 1] in slashes && forall c :: c in init ==> c in slashes;
      TrimmedIs(key, init);
    }
  }

  lemma RouteKeyIs(path: string, key: string)
    ensures RouteKey(path) == key <==> PrefixKey(path, key)
  {
    var slashes := TrimmedOf(path);
    if AllSlashes(path) {
      assert "" + path == path;
      TrimmedIs("", path);
      forall s | path == key + s && key != "" ensures key[|key| - 1] == '/' {
        assert key[|key| - 1] in path;
      }
    } else {
      assert PrefixKey(path, RouteKey(path)) by {
        assert TrimRightSlashes(path) == "" ==> path == slashes;
      }
      if s :| AllSlashes(s) && path == key + s && key != "" && key[|key| - 1] != '/' {
        TrimmedIs(key, s);
      }
    }
  }

  lemma WriteIs(c: Call, host: string, key: string)
    ensures StoresAt(c, host, key) <==> c.host == host && Write(c).Some? && Write(c).value.0 == key
  {
    hide RouteKey, PrefixKey, ConfigOf, RegexExpr;
    if c.Route? { RouteKeyIs(c.path, key); }
  }

  // ---- the first call ------------------------------------------------------------------------------

  lemma {:induction false} FirstWriteIs(calls: seq<Call>, i: nat, host: string, key: string)
    requires FirstStore(calls, i, host, key)
    ensures Write(calls[i]).Some? && FirstWrite(calls, host, key) == Some(Write(calls[i]).value.1)
  {
    hide Write, StoresAt;
    WriteIs(calls[0], host, key);
    if i == 0 {
    } else {
      assert FirstStore(calls[1..], i - 1, host, key) by {
        forall j | 0 <= j < i - 1 ensures !StoresAt(calls[1..][j], host, key) {
          assert calls[1..][j] == calls[j + 1];
        }
      }
      FirstWriteIs(calls[1..], i - 1, host, key);
    }
  }

  lemma {:induction false} WriteHasFirst(calls: seq<Call>, host: string, key: string) returns (i: nat)
    requires FirstWrite(calls, host, key).Some?
    ensures i < |calls| && FirstStore(calls, i, host, key)
  {
    hide Write, StoresAt;
    WriteIs(calls[0], host, key);
    if StoresAt(calls[0], host, key) {
      i := 0;
    } else {
      var rest := WriteHasFirst(calls[1..], host, key);
      i := rest + 1;
      forall j | 0 <= j < i ensures !StoresAt(calls[j], host, key) {
        assert j > 0 ==> calls[j] == calls[1..][j - 1];
      }
    }
  }

  lemma ClaimIs(c: Call, host: string)
    ensures c.host == host && Claims(c) <==> Stores(c, host) || PassesThrough(c, host)
  {
    hide ConfigOf, RegexExpr, RouteKey;
  }

  lemma {:induction false} FirstClaimIs(calls: seq<Call>, host: string)
    ensures PassedFirst(calls, host) <==> FirstClaim(calls, host).Some? && FirstClaim(calls, host).value.Passthrough?
  {
    hide Claims, Stores, PassesThrough;
    if calls == [] {
    } else {
      ClaimIs(calls[0], host);
      KindsApart(calls[0], host);
      FirstClaimIs(calls[1..], host);
      PassedFirstCons(calls, host);
    }
  }

  lemma KindsApart(c: Call, host: string)
    ensures !(Stores(c, host) && PassesThrough(c, host)) && (PassesThrough(c, host) ==> c.Passthrough?)
    ensures Stores(c, host) ==> !c.Passthrough?
  {}

  lemma PassedFirstCons(calls: seq<Call>, host: string)
    requires calls != []
    ensures PassedFirst(calls, host) <==>
      PassesThrough(calls[0], host) || (!Stores(calls[0], host) && PassedFirst(calls[1..], host))
  {
    hide Stores, PassesThrough;
    KindsApart(calls[0], host);
    if j :| 0 <= j < |calls| && PassesThrough(calls[j], host) && forall k :: 0 <= k < j ==> !Stores(calls[k], host) {
      if j > 0 {
        assert calls[1..][j - 1] == calls[j];
        forall k | 0 <= k < j - 1 ensures !Stores(calls[1..][k], host) { assert calls[1..][k] == calls[k + 1]; }
      }
    }
    if !Stores(calls[0], host) && PassedFirst(calls[1..], host) {
      var j :| 0 <= j < |calls[1..]| && PassesThrough(calls[1..][j], host)
               && forall k :: 0 <= k < j ==> !Stores(calls[1..][k], host);
      assert calls[j + 1] == calls[1..][j];
      forall k | 0 <= k < j + 1 ensures !Stores(calls[k], host) { assert k > 0 ==> calls[k] == calls[1..][k - 1]; }
    }
  }

  // ---- what the routes say ---------------------------------------------------------------------------

  /** The match expression: none for a prefix, the anchored regex quoted for a regex. */
  function ExpressionOf(c: Call): string
    requires c.Route? || c.Regex?
  {
    if c.Route? then ""
    else "http.request.path matches "
         + Layout.Quote(if |c.regex| > 0 && c.regex[0] == '^' then c.regex else "^" + c.regex)
  }

  /** The stored route holds the settings of the call. */
  predicate RouteOf(rc: RouteCfg, c: Call) {
    && (c.Route? || c.Regex?)
    && rc.servers == c.servers && rc.matchExpr == ExpressionOf(c)
    && rc.ssl == c.a.ssl && rc.http2 == c.a.http2 && rc.forceHttps == c.a.forceHttps
    && rc.healthcheck == c.a.healthcheck && rc.disableAccessLog == c.a.disableAccessLog
    && rc.connectTimeout == c.a.connectTimeout && rc.readTimeout == c.a.readTimeout
    && rc.writeTimeout == c.a.writeTimeout && rc.idleTimeout == c.a.idleTimeout
    && rc.maxBodySize == c.a.maxBodySize
    && rc.reqHeaders == c.a.reqHeaders + c.extraReq && rc.respHeaders == c.a.respHeaders + c.extraResp
    && rc.redirectStatus == c.a.redirectStatus && rc.redirectLocation == c.a.redirectLocation
  }

  /** The route read back from the v1 file says what the call asked for. */
  predicate ReadAs(r: RouteText.V1Route, c: Call) {
    && (c.Route? || c.Regex?)
    && r.servers == c.servers && r.matchExpr == ExpressionOf(c)
    && r.ssl == (c.a.ssl == Some(true)) && r.http2 == c.a.http2 && r.forceHttps == c.a.forceHttps
    && r.healthcheck == c.a.healthcheck && r.disableAccessLog == c.a.disableAccessLog
    && r.connectTimeout == c.a.connectTimeout && r.readTimeout == c.a.readTimeout
    && r.writeTimeout == c.a.writeTimeout && r.idleTimeout == c.a.idleTimeout
    && r.maxBodySize == c.a.maxBodySize
    && r.reqHeaders == c.a.reqHeaders + c.extraReq && r.respHeaders == c.a.respHeaders + c.extraResp
    && r.redirect == (if c.a.redirectStatus.Some? && c.a.redirectLocation != ""
                      then Some(RouteText.Redirect(c.a.redirectStatus.value, c.a.redirectLocation)) else None)
  }

  lemma WrittenIs(c: Call)
    requires Write(c).Some?
    ensures RouteOf(Write(c).value.1, c)
  {
    hide RouteKey, RegexKey, Layout.Quote;
  }

  lemma EffectiveIs(rc: RouteCfg, c: Call)
    requires RouteOf(rc, c)
    ensures ReadAs(RouteText.EffectiveRoute(rc), c)
  {
    hide ExpressionOf;
  }

  /** After any run, the host terminates the key exactly when a call asked for it and the host was
      not passed through first; the stored route is the first such call's. */
  lemma StoredFromFirst(calls: seq<Call>, host: string, key: string)
    ensures var m := Run(EMPTY_MODEL, calls);
      && (host in m.hosts && key in m.hosts[host] <==>
            !PassedFirst(calls, host) && exists i: nat :: i < |calls| && FirstStore(calls, i, host, key))
      && (host in m.hosts && key in m.hosts[host] ==>
            forall i: nat :: i < |calls| && FirstStore(calls, i, host, key) ==> RouteOf(m.hosts[host][key], calls[i]))
  {
    hide Write, FirstWrite, FirstClaim, Run, FirstStore, PassedFirst, RouteOf;
    var m := Run(EMPTY_MODEL, calls);
    FirstWriterWins(calls, host);
    FirstClaimIs(calls, host);
    if FirstWrite(calls, host, key).Some? {
      WriteIsClaim(calls, host, key);
      var i := WriteHasFirst(calls, host, key);
    }
    if host in m.hosts { assert KeyAsWritten(m.hosts[host], calls, host, key); }
    forall i: nat | i < |calls| && FirstStore(calls, i, host, key)
      ensures FirstWrite(calls, host, key).Some?
      ensures RouteOf(FirstWrite(calls, host, key).value, calls[i])
    {
      FirstWriteIs(calls, i, host, key);
      WrittenIs(calls[i]);
    }
  }

  /** The same, read back from the v1 file of the run. */
  lemma RouteOrigin(calls: seq<Call>, host: string, key: string)
    ensures var text := RouteText.V1Text(RouteText.Effective(Run(EMPTY_MODEL, calls)));
      && UpstreamsReader.ReadV1(text).Some?
      && var hosts := UpstreamsReader.ReadV1(text).value.hosts;
      && (host in hosts && key in hosts[host].paths <==>
            !PassedFirst(calls, host) && exists i: nat :: i < |calls| && FirstStore(calls, i, host, key))
      && (host in hosts && key in hosts[host].paths ==>
            forall i: nat :: i < |calls| && FirstStore(calls, i, host, key) ==>
              ReadAs(hosts[host].paths[key], calls[i]))
  {
    hide Run, FirstStore, PassedFirst, RouteOf, ReadAs;
    hide RouteText.V1Text, UpstreamsReader.ReadV1, RouteText.EffectiveRoute;
    var m := Run(EMPTY_MODEL, calls);
    UpstreamsReader.V1RoundTrip(RouteText.Effective(m));
    StoredFromFirst(calls, host, key);
    if host in m.hosts && key in m.hosts[host] {
      forall i: nat | i < |calls| && FirstStore(calls, i, host, key)
        ensures ReadAs(RouteText.EffectiveRoute(m.hosts[host][key]), calls[i])
      {
        EffectiveIs(m.hosts[host][key], calls[i]);
      }
    }
  }

  // ---- certificates and stickiness --------------------------------------------------------------

  /** A complete certificate call for the host. */
  predicate Binds(c: Call, host: string) {
    c.Cert? && c.stem != "" && c.ns != "" && c.name != "" && c.host == host && host != ""
  }

  /** A complete certificate call that names the stem. */
  predicate Projects(c: Call, stem: string) {
    c.Cert? && c.stem == stem && stem != "" && c.ns != "" && c.name != ""
  }

  /** The first of the calls that p holds of. */
  ghost predicate FirstThat(calls: seq<Call>, i: nat, p: Call -> bool) {
    i < |calls| && p(calls[i]) && forall j :: 0 <= j < i ==> !p(calls[j])
  }

  lemma FirstSnoc(calls: seq<Call>, c: Call, p: Call -> bool, i: nat)
    ensures FirstThat(calls + [c], i, p) <==>
      FirstThat(calls, i, p) || (i == |calls| && p(c) && forall j :: 0 <= j < |calls| ==> !p(calls[j]))
  {
    var all := calls + [c];
    assert forall j :: 0 <= j < |calls| ==> all[j] == calls[j];
  }

  lemma {:induction false} SomeFirst(calls: seq<Call>, p: Call -> bool)
    ensures (exists i: nat :: FirstThat(calls, i, p)) <==> exists j :: 0 <= j < |calls| && p(calls[j])
  {
    if calls == [] {
    } else {
      var init, c := calls[..|calls| - 1], calls[|calls| - 1];
      assert calls == init + [c];
      SomeFirst(init, p);
      forall i: nat {
        FirstSnoc(init, c, p, i);
      }
      if j :| 0 <= j < |calls| && p(calls[j]) {
        if i: nat :| FirstThat(init, i, p) {
          assert FirstThat(calls, i, p);
        } else {
          assert FirstThat(calls, |init|, p);
        }
      }
    }
  }

  /** A map that keeps for each key what the first call that p holds of gives it. */
  ghost predicate KeptFromFirst<T>(m: map<string, T>, key: string, calls: seq<Call>, p: Call -> bool, f: Call -> T) {
    && (key in m <==> exists j :: 0 <= j < |calls| && p(calls[j]))
    && forall i: nat :: i < |calls| && FirstThat(calls, i, p) ==> key in m && m[key] == f(calls[i])
  }

  lemma KeptStep<T>(m: map<string, T>, m': map<string, T>, key: string, calls: seq<Call>, c: Call, p: Call -> bool,
                    f: Call -> T)
    requires KeptFromFirst(m, key, calls, p, f)
    requires key in m' <==> key in m || p(c)
    requires key in m ==> m'[key] == m[key]
    requires key !in m && p(c) ==> m'[key] == f(c)
    ensures KeptFromFirst(m', key, calls + [c], p, f)
  {
    var all := calls + [c];
    assert forall j :: 0 <= j < |calls| ==> all[j] == calls[j];
    assert all[|calls|] == c;
    forall i: nat | i < |all| && FirstThat(all, i, p) ensures key in m' && m'[key] == f(all[i]) {
      FirstSnoc(calls, c, p, i);
    }
  }

  function StemOf(c: Call): string { if c.Cert? then c.stem else "" }

  function ProjectionOf(c: Call): CertProjection {
    if c.Cert? then CertProjection(c.stem, c.ns, c.name) else CertProjection("", "", "")
  }

  lemma CertStep(m: Model, c: Call, host: string, stem: string)
    ensures var m' := Apply(m, c);
      && (host in m'.hostCert <==> host in m.hostCert || Binds(c, host))
      && (host in m.hostCert ==> m'.hostCert[host] == m.hostCert[host])
      && (host !in m.hostCert && Binds(c, host) ==> m'.hostCert[host] == StemOf(c))
      && (stem in m'.certProjections <==> stem in m.certProjections || Projects(c, stem))
      && (stem in m.certProjections ==> m'.certProjections[stem] == m.certProjections[stem])
      && (stem !in m.certProjections && Projects(c, stem) ==> m'.certProjections[stem] == ProjectionOf(c))
  {
    hide Write;
  }

  /** After any run, a host is bound to the stem of the first complete certificate call for it, and
      a stem is projected from the Secret of the first complete call that names it. */
  lemma {:induction false} CertsFromFirst(calls: seq<Call>, host: string, stem: string)
    ensures var m := Run(EMPTY_MODEL, calls);
      && KeptFromFirst(m.hostCert, host, calls, c => Binds(c, host), StemOf)
      && KeptFromFirst(m.certProjections, stem, calls, c => Projects(c, stem), ProjectionOf)
  {
    hide Apply;
    if calls == [] {
    } else {
      var init, c := calls[..|calls| - 1], calls[|calls| - 1];
      assert calls == init + [c];
      CertsFromFirst(init, host, stem);
      var m := Run(EMPTY_MODEL, init);
      CertStep(m, c, host, stem);
      KeptStep(m.hostCert, Apply(m, c).hostCert, host, init, c, x => Binds(x, host), StemOf);
      KeptStep(m.certProjections, Apply(m, c).certProjections, stem, init, c, x => Projects(x, stem), ProjectionOf);
    }
  }

  /** Sessions are sticky exactly when a route that was taken asked for it. */
  lemma {:induction false} StickyFromRoutes(calls: seq<Call>)
    ensures Run(EMPTY_MODEL, calls).sticky <==>
      exists i :: 0 <= i < |calls| && (calls[i].Route? || calls[i].Regex?) && calls[i].a.sticky
                  && Accepted(Run(EMPTY_MODEL, calls[..i]), calls[i])
  {
    hide Accepted, Apply;
    if calls == [] {
    } else {
      var init, c := calls[..|calls| - 1], calls[|calls| - 1];
      StickyFromRoutes(init);
      StickyStep(Run(EMPTY_MODEL, init), c);
      forall i | 0 <= i < |init| ensures init[..i] == calls[..i] && init[i] == calls[i] {}
      if i :| 0 <= i < |init| && (init[i].Route? || init[i].Regex?) && init[i].a.sticky
              && Accepted(Run(EMPTY_MODEL, init[..i]), init[i])
      {
        assert Accepted(Run(EMPTY_MODEL, calls[..i]), calls[i]);
      }
      assert calls[..|init|] == init;
    }
  }

  lemma StickyStep(m: Model, c: Call)
    ensures Apply(m, c).sticky <==>
      m.sticky || ((c.Route? || c.Regex?) && c.a.sticky && Accepted(m, c))
  {
    hide Write;
  }
}
