/** What Ingresses ask for, in the API's terms (render in controllers/ingress_controller.go). */
module IngressSpec {
  // Every operation of the renderer has a TLS entry, a rule and a path behind it, and every one of
  // those has its operation.

  import opened Wrappers
  import opened Strings
  import opened Sorting
  import opened RouteModel
  import opened RenderOps
  import opened Endpoints
  import opened CertNames
  import opened Ingress

  // ---- certificates -----------------------------------------------------------------------------

  /** s with every other character than a letter, a digit, a dot, a dash or an underscore replaced. */
  predicate IsStem(stem: string, s: string) {
    && |stem| == |s|
    && forall i :: 0 <= i < |s| ==>
      stem[i] == if 'a' <= s[i] <= 'z' || 'A' <= s[i] <= 'Z' || '0' <= s[i] <= '9' || s[i] in ".-_" then s[i] else '_'
  }

  lemma {:induction false} StemIs(s: string)
    ensures IsStem(SanitizeStem(s), s)
  {
    if s == "" {
    } else {
      StemIs(s[..|s| - 1]);
    }
  }

  lemma OneStem(a: string, b: string, s: string)
    requires IsStem(a, s) && IsStem(b, s)
    ensures a == b
  {}

  predicate Wildcard(host: string) { |host| >= 2 && host[0] == '*' && host[1] == '.' }

  /** The certificate of a concrete host is its own; that of a wildcard or of no host is named
      after the Secret and bound to no host. */
  predicate CertFor(c: Call, host: string, ns: string, secret: string) {
    && c.Cert? && c.ns == ns && c.name == secret
    && if host == "" || Wildcard(host) then c.host == "" && IsStem(c.stem, ns + "-" + secret)
       else c.host == host && IsStem(c.stem, host)
  }

  /** The TLS entry covers the host: it lists it, or it lists none and a rule has it. */
  ghost predicate Covers(ing: Ingress, t: IngressTls, host: string) {
    if |t.hosts| > 0 then host in t.hosts
    else if exists r :: r in ing.rules && r.host != "" then host != "" && exists r :: r in ing.rules && r.host == host
    else host == ""
  }

  ghost predicate CertAsked(ing: Ingress, op: Op) {
    exists t, host ::
      t in ing.tls && t.secretName != "" && Covers(ing, t, host)
      && op.Do? && CertFor(op.call, host, ing.ns, t.secretName)
  }

  lemma CertOpIs(op: Op, host: string, ns: string, secret: string)
    ensures op == CertOp(host, ns, secret) <==> op.Do? && CertFor(op.call, host, ns, secret)
  {
    hide SanitizeStem;
    var text := if host == "" || Wildcard(host) then ns + "-" + secret else host;
    StemIs(text);
    assert HostBound(host) <==> host != "" && !Wildcard(host) by {
      if |host| >= 2 { assert host[..2] == [host[0]] + [host[1]] && "*." == ['*'] + ['.']; }
    }
    if op.Do? && CertFor(op.call, host, ns, secret) {
      OneStem(op.call.stem, SanitizeStem(text), text);
    }
  }

  lemma {:induction false} RuleHostsAre(rules: seq<IngressRule>, host: string)
    ensures host in RuleHosts(rules) <==> host != "" && exists r :: r in rules && r.host == host
  {
    if rules == [] {
    } else {
      var init, last := rules[..|rules| - 1], rules[|rules| - 1];
      RuleHostsAre(init, host);
      assert rules == init + [last];
    }
  }

  lemma CoveredHosts(ing: Ingress, t: IngressTls)
    ensures forall host :: Covers(ing, t, host) <==>
      if TlsHosts(ing, t) == [] then host == "" else host in TlsHosts(ing, t)
  {
    hide RuleHosts;
    forall host ensures host in RuleHosts(ing.rules) <==> host != "" && exists r :: r in ing.rules && r.host == host {
      RuleHostsAre(ing.rules, host);
    }
    if RuleHosts(ing.rules) != [] { assert RuleHosts(ing.rules)[0] in RuleHosts(ing.rules); }
    if r :| r in ing.rules && r.host != "" { assert r.host in RuleHosts(ing.rules); }
  }

  lemma InFlat<T>(xs: seq<T>, f: T -> seq<Op>, op: Op)
    ensures op in Flat(xs, f) <==> exists x :: x in xs && op in f(x)
  {
    FlatMembers(xs, f, op);
  }

  lemma TlsAsks(ing: Ingress, t: IngressTls, op: Op)
    ensures op in TlsF(ing)(t) <==>
      t.secretName != ""
      && exists host :: Covers(ing, t, host) && op.Do? && CertFor(op.call, host, ing.ns, t.secretName)
  {
    hide Covers, CertFor, CertOp, Flat, TlsHosts;
    CoveredHosts(ing, t);
    forall host ensures op == CertOp(host, ing.ns, t.secretName) <==>
                        op.Do? && CertFor(op.call, host, ing.ns, t.secretName)
    {
      CertOpIs(op, host, ing.ns, t.secretName);
    }
    InFlat(TlsHosts(ing, t), CertF(ing.ns, t.secretName), op);
  }

  // ---- routes -----------------------------------------------------------------------------------

  /** The route of a host and a path: matched by regex or by prefix, as the annotation says. */
  predicate RouteFor(c: Call, ing: Ingress, host: string, path: string, servers: seq<Backend>) {
    && (c.Route? || c.Regex?) && (c.Regex? <==> ing.settings.useRegex)
    && (c.Route? ==> c.path == path) && (c.Regex? ==> c.regex == path)
    && c.host == host && c.servers == servers && c.a == ing.settings && c.extraReq == [] && c.extraResp == []
  }

  predicate UnderAcme(path: string) {
    |path| >= 27 && path[..27] == "/.well-known/acme-challenge"
  }

  /** A route of the rule's host or of an alias. */
  ghost predicate RouteAsked(ing: Ingress, host: string, path: string, servers: seq<Backend>, op: Op) {
    op.Do? && exists h ::
      (h == host || (h in ing.settings.serverAliases && h != "")) && RouteFor(op.call, ing, h, path, servers)
  }

  /** What a path of a rule asks for: without servers nothing; under the challenge prefix the
      solver's address; else a route of the rule's host and of every alias. */
  ghost predicate PathAsks(v: View, f: Flags, ing: Ingress, host: string, p: HttpPath, op: Op) {
    var path := if |p.path| == 0 then "/" else p.path;
    var servers := ServersOf(v, f, ing.ns, p.backend);
    && servers.Some?
    && if UnderAcme(path) && !ing.settings.useRegex
       then op.SetAcme? && p.backend.Some? && AddrOf(v, f, ing.ns, p.backend.value) == Some(op.addr)
       else RouteAsked(ing, host, path, servers.value, op)
  }

  /** The address of the first path whose backend has one. */
  ghost predicate FirstTarget(v: View, f: Flags, ns: string, paths: seq<HttpPath>, addr: string) {
    exists i ::
      && 0 <= i < |paths| && Resolves(v, f, ns, paths[i], addr)
      && forall j, other :: 0 <= j < i ==> !Resolves(v, f, ns, paths[j], other)
  }

  predicate Resolves(v: View, f: Flags, ns: string, p: HttpPath, addr: string) {
    p.backend.Some? && AddrOf(v, f, ns, p.backend.value) == Some(addr)
  }

  ghost predicate RuleAsks(v: View, f: Flags, ing: Ingress, r: IngressRule, op: Op) {
    && r.host != "" && r.http.Some?
    && if ing.settings.passthrough
       then op.Do? && op.call.Passthrough? && op.call.host == r.host
            && FirstTarget(v, f, ing.ns, r.http.value, op.call.upstream)
       else exists p :: p in r.http.value && PathAsks(v, f, ing, r.host, p, op)
  }

  lemma RouteForIs(c: Call, ing: Ingress, host: string, path: string, servers: seq<Backend>)
    ensures c == RouteCall(ing, host, path, servers) <==> RouteFor(c, ing, host, path, servers)
  {}

  lemma TargetsAsk(ing: Ingress, host: string, path: string, servers: seq<Backend>, op: Op)
    ensures op in TargetOps(ing, host, path, servers) <==> RouteAsked(ing, host, path, servers, op)
  {
    hide RouteFor, RouteCall, Flat;
    var f := AliasF(ing, host, path, servers);
    InFlat(ing.settings.serverAliases, f, op);
    forall h
      ensures op == Do(RouteCall(ing, h, path, servers)) <==> op.Do? && RouteFor(op.call, ing, h, path, servers)
    {
      if op.Do? { RouteForIs(op.call, ing, h, path, servers); }
    }
    assert forall h :: op in f(h) <==> h != "" && h != host && op.Do? && RouteFor(op.call, ing, h, path, servers);
    assert op in TargetOps(ing, host, path, servers) <==>
      op == Do(RouteCall(ing, host, path, servers)) || op in Flat(ing.settings.serverAliases, f);
  }

  lemma UnderAcmeIs(path: string)
    ensures UnderAcme(path) <==> HasPrefix(path, ACME_PREFIX)
  {
    assert |ACME_PREFIX| == 27;
  }

  lemma PathAsksIs(v: View, f: Flags, ing: Ingress, host: string, p: HttpPath, op: Op)
    ensures op in PathOps(v, f, ing, host, p) <==> PathAsks(v, f, ing, host, p, op)
  {
    hide ServersOf, AddrOf, RouteAsked, TargetOps, UnderAcme, HasPrefix;
    var servers := ServersOf(v, f, ing.ns, p.backend);
    var path := if |p.path| == 0 then "/" else p.path;
    assert PathText(p) == path;
    UnderAcmeIs(path);
    if servers.Some? {
      TargetsAsk(ing, host, path, servers.value, op);
    }
  }

  lemma {:induction false} FirstTargetIs(v: View, f: Flags, ns: string, paths: seq<HttpPath>, addr: string)
    ensures FirstTarget(v, f, ns, paths, addr) <==> FirstAddr(v, f, ns, paths) == Some(addr)
  {
    hide AddrOf;
    if paths == [] {
    } else {
      FirstTargetIs(v, f, ns, paths[1..], addr);
      FirstTargetCons(v, f, ns, paths, addr);
      assert (exists other :: Resolves(v, f, ns, paths[0], other)) <==>
             paths[0].backend.Some? && AddrOf(v, f, ns, paths[0].backend.value).Some?
      by {
        if paths[0].backend.Some? && AddrOf(v, f, ns, paths[0].backend.value).Some? {
          assert Resolves(v, f, ns, paths[0], AddrOf(v, f, ns, paths[0].backend.value).value);
        }
      }
    }
  }

  lemma FirstTargetCons(v: View, f: Flags, ns: string, paths: seq<HttpPath>, addr: string)
    requires paths != []
    ensures FirstTarget(v, f, ns, paths, addr) <==>
      Resolves(v, f, ns, paths[0], addr)
      || ((forall other :: !Resolves(v, f, ns, paths[0], other)) && FirstTarget(v, f, ns, paths[1..], addr))
  {
    hide Resolves;
    if FirstTarget(v, f, ns, paths, addr) {
      var i :| 0 <= i < |paths| && Resolves(v, f, ns, paths[i], addr)
               && forall j, other :: 0 <= j < i ==> !Resolves(v, f, ns, paths[j], other);
      if i > 0 {
        assert paths[1..][i - 1] == paths[i];
        forall j, other | 0 <= j < i - 1 ensures !Resolves(v, f, ns, paths[1..][j], other) {
          assert paths[1..][j] == paths[j + 1];
        }
      }
    }
    if (forall other :: !Resolves(v, f, ns, paths[0], other)) && FirstTarget(v, f, ns, paths[1..], addr) {
      var i :| 0 <= i < |paths[1..]| && Resolves(v, f, ns, paths[1..][i], addr)
               && forall j, other :: 0 <= j < i ==> !Resolves(v, f, ns, paths[1..][j], other);
      assert paths[i + 1] == paths[1..][i];
      forall j, other | 0 <= j < i + 1 ensures !Resolves(v, f, ns, paths[j], other) {
        assert j > 0 ==> paths[j] == paths[1..][j - 1];
      }
    }
  }

  lemma RuleAsksIs(v: View, f: Flags, ing: Ingress, r: IngressRule, op: Op)
    ensures op in RuleF(v, f, ing)(r) <==> RuleAsks(v, f, ing, r, op)
  {
    hide PathOps, PathAsks, FirstTarget, FirstAddr, Flat;
    if r.host != "" && r.http.Some? {
      InFlat(r.http.value, PathF(v, f, ing, r.host), op);
      forall p: HttpPath
        ensures op in PathF(v, f, ing, r.host)(p) <==> PathAsks(v, f, ing, r.host, p, op)
      {
        PathAsksIs(v, f, ing, r.host, p, op);
      }
      forall addr
        ensures FirstTarget(v, f, ing.ns, r.http.value, addr) <==> FirstAddr(v, f, ing.ns, r.http.value) == Some(addr)
      {
        FirstTargetIs(v, f, ing.ns, r.http.value, addr);
      }
    }
  }

  /** Everything an Ingress asks for. */
  ghost predicate Asks(v: View, f: Flags, ing: Ingress, op: Op) {
    || (op.MarkSticky? && ing.settings.sticky)
    || CertAsked(ing, op)
    || exists r :: r in ing.rules && RuleAsks(v, f, ing, r, op)
  }

  lemma IngressAsks(v: View, f: Flags, ing: Ingress, op: Op)
    ensures op in IngressOps(v, f, ing) <==> Asks(v, f, ing, op)
  {
    hide TlsF, RuleF, RuleAsks, Covers, CertFor, Flat;
    InFlat(ing.tls, TlsF(ing), op);
    InFlat(ing.rules, RuleF(v, f, ing), op);
    forall t: IngressTls
      ensures op in TlsF(ing)(t) <==>
        t.secretName != ""
        && exists host :: Covers(ing, t, host) && op.Do? && CertFor(op.call, host, ing.ns, t.secretName)
    {
      TlsAsks(ing, t, op);
    }
    forall r: IngressRule ensures op in RuleF(v, f, ing)(r) <==> RuleAsks(v, f, ing, r, op) {
      RuleAsksIs(v, f, ing, r, op);
    }
  }

  // ---- whose Ingresses ------------------------------------------------------------------------------

  /** An IngressClass of this controller is marked as the default. */
  ghost predicate DefaultIsOurs(classes: Option<seq<IngressClass>>) {
    classes.Some?
    && exists i :: 0 <= i < |classes.value|
                   && classes.value[i].controller == "gen0sec.com/synapse" && classes.value[i].isDefault == "true"
  }

  /** The class of an Ingress: the field, else the annotation, else the default. */
  ghost predicate Ours(ing: Ingress, className: string, classes: Option<seq<IngressClass>>) {
    if ing.className != None then ing.className == Some(className)
    else
      var annotated := TrimSpace(ing.classAnnotation);
      if |annotated| > 0 then annotated == className else DefaultIsOurs(classes)
  }

  lemma OursIs(ing: Ingress, className: string, classes: Option<seq<IngressClass>>)
    ensures Ours(ing, className, classes) <==> IsOurs(ing, className, DefaultOurs(classes))
  {
    hide TrimSpace;
    if classes.Some? {
      if c :| c in classes.value && c.controller == CONTROLLER_NAME && c.isDefault == "true" {
        var i :| 0 <= i < |classes.value| && classes.value[i] == c;
      }
    }
  }

  /** The renderer does what the Ingresses of our class ask for, and nothing else. */
  lemma AllIngressesAsk(v: View, f: Flags, className: string, classes: Option<seq<IngressClass>>, ings: seq<Ingress>,
                        op: Op)
    ensures op in AllIngressOps(v, f, className, classes, ings) <==>
      exists ing :: ing in ings && Ours(ing, className, classes) && Asks(v, f, ing, op)
  {
    hide Asks, Ours, IsOurs, DefaultOurs, IngressOps, Flat, NameLe;
    IngressOrder();
    var sorted, g := SortIngresses(ings), OursF(v, f, className, DefaultOurs(classes));
    assert multiset(sorted) == multiset(ings);
    PermutedMembers(sorted, ings);
    InFlat(sorted, g, op);
    forall ing: Ingress
      ensures op in g(ing) <==> Ours(ing, className, classes) && Asks(v, f, ing, op)
    {
      OursIs(ing, className, classes);
      IngressAsks(v, f, ing, op);
    }
  }

  /** They are taken by namespace, and within a namespace by name. */
  lemma TakenInOrder(ings: seq<Ingress>, i: nat, j: nat)
    requires i < j < |SortIngresses(ings)|
    ensures multiset(SortIngresses(ings)) == multiset(ings)
    ensures var a, b := SortIngresses(ings)[i], SortIngresses(ings)[j];
      if a.ns == b.ns then StrLe(a.name, b.name) else StrLe(a.ns, b.ns)
  {
    IngressOrder();
  }
}
