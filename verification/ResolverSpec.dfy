/** What a server entry is resolved to (rewriteServer in controllers/upstreams_resolver.go). */
module ResolverSpec {
  // The entry taken apart, the Service it stands for and the ClusterIP put in its place, said of the
  // text and of the Services that exist.

  import opened Wrappers
  import opened Strings
  import opened Sorting
  import opened Yaml
  import opened Resolver

  // ---- the parts of an entry ------------------------------------------------------------------

  /** host is h without a bracket at its end and one at its start. */
  predicate Unbracketed(h: string, host: string) {
    var front := if |h| > 0 && h[|h| - 1] == ']' then h[..|h| - 1] else h;
    host == if |front| > 0 && front[0] == '[' then front[1..] else front
  }

  /** The port stands behind the last colon; neither part is empty. */
  ghost predicate Parts(addr: string, host: string, port: string) {
    && host != "" && port != "" && ':' !in port
    && exists h :: addr == h + ":" + port && Unbracketed(h, host)
  }

  lemma UnbracketedIs(h: string, host: string)
    ensures Unbracketed(h, host) <==> host == TrimPrefix(TrimSuffix(h, "]"), "[")
  {
    assert |h| > 0 ==> h[|h| - 1..] == [h[|h| - 1]];
    var front := TrimSuffix(h, "]");
    assert |front| > 0 ==> front[..1] == [front[0]];
  }

  lemma PartsAre(addr: string, host: string, port: string)
    ensures Parts(addr, host, port) <==> SplitHostPort(addr) == Some((host, port))
  {
    hide LastIndex, Unbracketed, TrimPrefix, TrimSuffix;
    if Parts(addr, host, port) {
      var h :| addr == h + ":" + port && Unbracketed(h, host);
      UnbracketedIs(h, host);
      LastColon(h, port);
      assert addr[..|h|] == h && addr[|h| + 1..] == port;
    }
    if SplitHostPort(addr) == Some((host, port)) {
      var i := LastIndex(addr, ':');
      var h := addr[..i];
      assert addr == h + ":" + port;
      assert forall j :: 0 <= j < |port| ==> port[j] == addr[i + 1 + j];
      UnbracketedIs(h, host);
    }
  }

  /** The positions of the dots. */
  ghost function DotsIn(s: string): set<int> { set i | 0 <= i < |s| && s[i] == '.' }

  /** An IPv6 address has a colon; an IPv4 address is digits with three dots among them. */
  ghost predicate LooksLikeIP(host: string) {
    || (exists i :: 0 <= i < |host| && host[i] == ':')
    || ((forall i :: 0 <= i < |host| ==> '0' <= host[i] <= '9' || host[i] == '.') && |DotsIn(host)| == 3)
  }

  lemma {:induction false} DotsCounted(s: string)
    ensures Dots(s) == |DotsIn(s)|
  {
    if s == "" {
    } else {
      var n := |s| - 1;
      DotsCounted(s[..n]);
      assert DotsIn(s) == DotsIn(s[..n]) + if s[n] == '.' then {n} else {};
    }
  }

  lemma LooksLikeIPIs(host: string)
    ensures LooksLikeIP(host) <==> IpLiteral(host)
  {
    DotsCounted(host);
    hide Dots, DotsIn;
    if forall c :: c in host ==> c == '.' || IsDigit(c) {
      forall i | 0 <= i < |host| ensures '0' <= host[i] <= '9' || host[i] == '.' { assert host[i] in host; }
    }
    assert (exists i :: 0 <= i < |host| && host[i] == ':') <==> ':' in host;
  }

  // ---- the Service ------------------------------------------------------------------------------

  /** A name in the cluster's domain, or a single label for a Service of the default namespace. */
  predicate StandsFor(domain: string, defaultNs: string, host: string, ns: string, name: string) {
    || ('.' !in name && '.' !in ns && host == name + "." + ns + ".svc." + domain)
    || ('.' !in host && ns == defaultNs && name == host)
  }

  lemma StandsForIs(domain: string, defaultNs: string, host: string, ns: string, name: string)
    ensures StandsFor(domain, defaultNs, host, ns, name) <==> ServiceOf(domain, defaultNs, host) == Some((ns, name))
  {
    hide Split, TrimSuffix;
    var suffix := ".svc." + domain;
    if '.' !in name && '.' !in ns && host == name + "." + ns + ".svc." + domain {
      FqdnRoundTrip(name, ns, domain);
      assert host == Endpoints.Fqdn(name, ns, domain);
      assert host[|name|] == '.';
    }
    if ParseFqdn(domain, host).Some? {
      ParsedIs(domain, host);
    }
  }

  lemma ParsedIs(domain: string, host: string)
    requires ParseFqdn(domain, host).Some?
    ensures var (ns, name) := ParseFqdn(domain, host).value;
      '.' !in name && '.' !in ns && host == name + "." + ns + ".svc." + domain
    ensures '.' in host
  {
    var suffix := ".svc." + domain;
    var stem := TrimSuffix(host, suffix);
    assert host == stem + suffix;
    var parts := Split(stem, '.');
    JoinSplit(stem, '.');
    assert parts == [parts[0], parts[1]];
    assert parts[1..] == [parts[1]];
    assert stem == parts[0] + "." + parts[1];
    assert host[|stem|] == '.';
  }

  // ---- the entry ----------------------------------------------------------------------------------

  /** The entry is the address of a Service with a ClusterIP, which takes the place of its host. */
  ghost predicate Becomes(ips: ClusterIPs, domain: string, defaultNs: string, addr: string, out: string) {
    exists host, port, ns, name ::
      && Parts(addr, host, port) && !LooksLikeIP(host) && StandsFor(domain, defaultNs, host, ns, name)
      && (ns, name) in ips && ips[(ns, name)] !in {"", "None"}
      && out == ips[(ns, name)] + ":" + port
  }

  /** An entry is rewritten exactly when it becomes another one, and else stays as it is. */
  lemma RewriteExactly(ips: ClusterIPs, domain: string, defaultNs: string, addr: string)
    ensures forall out ::
      Rewrite(ips, domain, defaultNs, addr) == (out, true) <==> Becomes(ips, domain, defaultNs, addr, out)
    ensures (forall out :: !Becomes(ips, domain, defaultNs, addr, out)) ==>
            Rewrite(ips, domain, defaultNs, addr) == (addr, false)
  {
    hide Parts, SplitHostPort, LooksLikeIP, IpLiteral, StandsFor, ServiceOf;
    forall host, port ensures Parts(addr, host, port) <==> SplitHostPort(addr) == Some((host, port)) {
      PartsAre(addr, host, port);
    }
    forall host ensures LooksLikeIP(host) <==> IpLiteral(host) { LooksLikeIPIs(host); }
    forall host, ns, name
      ensures StandsFor(domain, defaultNs, host, ns, name) <==> ServiceOf(domain, defaultNs, host) == Some((ns, name))
    {
      StandsForIs(domain, defaultNs, host, ns, name);
    }
    if Rewrite(ips, domain, defaultNs, addr).1 {
      var (host, port) := SplitHostPort(addr).value;
      var (ns, name) := ServiceOf(domain, defaultNs, host).value;
      assert Parts(addr, host, port) && StandsFor(domain, defaultNs, host, ns, name);
    }
  }

  /** Every server entry of a list that is a string is rewritten for the pass's domain, which is the
      usual one unless it is set; anything else in the list stays. */
  lemma ItemsExactly(p: Pass, items: seq<Val>, i: nat)
    requires i < |items|
    ensures var domain := if |p.clusterDomain| == 0 then "cluster.local" else p.clusterDomain;
      ResolveItems(p, items)[i]
      == match items[i]
         case Str(s) => Str(Rewrite(p.ips, domain, p.defaultNs, s).0)
         case _ => items[i]
  {
    hide Rewrite;
  }
}
