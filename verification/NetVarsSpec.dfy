/** HOME_NET said of the cluster and the document (controllers/netvars_resolver.go). */
module NetVarsSpec {
  // Which networks the derived value lists, whose value counts, and what a reconcile stores.

  import opened Wrappers
  import opened Strings
  import opened Sorting
  import opened Yaml
  import opened NetVars

  // ---- the networks -------------------------------------------------------------------------

  /** net is the network of the one host with this address. */
  ghost predicate HostNet(lib: IpLib, ip: string, net: string) {
    (lib.kind(ip) == V4 && net == ip + "/32") || (lib.kind(ip) == V6 && net == ip + "/128")
  }

  /** A Node brings its internal and external addresses and its pod networks. */
  ghost predicate NodeBrings(lib: IpLib, n: Node, net: string) {
    || (exists a :: a in n.addresses && a.kind in {InternalIP, ExternalIP} && HostNet(lib, a.address, net))
    || (lib.isCidr(net) && (net in n.podCidrs || (net == n.podCidr && net != "")))
  }

  /** A Service brings the addresses of its load balancer and its external ones. */
  ghost predicate ServiceBrings(lib: IpLib, s: Service, net: string) {
    exists ip :: (ip in s.ingress || ip in s.externalIPs || (ip == s.loadBalancerIP && ip != ""))
                 && HostNet(lib, TrimSpace(ip), net)
  }

  /** Private, carrier-grade and local networks are always home. */
  predicate AlwaysHome(net: string) {
    net == "10.0.0.0/8" || net == "172.16.0.0/12" || net == "192.168.0.0/16" || net == "100.64.0.0/10"
    || net == "fc00::/7" || net == "fe80::/10"
  }

  lemma HostNetIs(lib: IpLib, ip: string, net: string)
    ensures HostNet(lib, ip, net) <==> HostCidr(lib, ip) == Some(net)
  {}

  lemma NodeNetsAre(lib: IpLib, n: Node, net: string)
    ensures net in NodeNets(lib, n) <==> NodeBrings(lib, n, net)
  {
    hide HostCidr, HostNet;
    forall ip ensures HostNet(lib, ip, net) <==> HostCidr(lib, ip) == Some(net) { HostNetIs(lib, ip, net); }
  }

  lemma HostNetsAre(lib: IpLib, ips: seq<string>, net: string)
    ensures net in HostNets(lib, ips) <==> exists ip :: ip in ips && HostNet(lib, TrimSpace(ip), net)
  {
    hide HostCidr, HostNet, TrimSpace;
    forall ip ensures HostNet(lib, ip, net) <==> HostCidr(lib, ip) == Some(net) { HostNetIs(lib, ip, net); }
  }

  lemma ServiceNetsAre(lib: IpLib, s: Service, net: string)
    ensures net in ServiceNets(lib, s) <==> ServiceBrings(lib, s, net)
  {
    hide HostNets, HostNet, TrimSpace;
    HostNetsAre(lib, s.ingress, net);
    HostNetsAre(lib, s.externalIPs, net);
    HostNetsAre(lib, [s.loadBalancerIP], net);
    assert s.loadBalancerIP in [s.loadBalancerIP];
  }

  lemma SupernetsAre(net: string)
    ensures net in SUPERNETS <==> AlwaysHome(net)
  {}

  /** A network is home exactly when it always is or a Node or a Service brings it. */
  lemma HomeExactly(lib: IpLib, nodes: seq<Node>, svcs: seq<Service>, net: string)
    ensures net in HomeSet(lib, nodes, svcs) <==>
            || AlwaysHome(net)
            || (exists n :: n in nodes && NodeBrings(lib, n, net))
            || (exists s :: s in svcs && ServiceBrings(lib, s, net))
  {
    hide NodeNets, ServiceNets, NodeBrings, ServiceBrings, AlwaysHome;
    SupernetsAre(net);
    forall n ensures net in NodeNets(lib, n) <==> NodeBrings(lib, n, net) { NodeNetsAre(lib, n, net); }
    forall s ensures net in ServiceNets(lib, s) <==> ServiceBrings(lib, s, net) { ServiceNetsAre(lib, s, net); }
  }

  /** The derived text: the networks in brackets, sorted, with commas between them. */
  lemma TextReads(lib: IpLib, nodes: seq<Node>, svcs: seq<Service>)
    requires forall net :: net in HomeSet(lib, nodes, svcs) ==> ',' !in net
    ensures AutoText(lib, Some(nodes), Some(svcs)).Some?
    ensures var text := AutoText(lib, Some(nodes), Some(svcs)).value;
      && |text| > 2 && text[0] == '[' && text[|text| - 1] == ']'
      && var list := Split(text[1..|text| - 1], ',');
         Sorted(list, StrLe) && NoDuplicates(list) && forall net :: net in list <==> net in HomeSet(lib, nodes, svcs)
  {
    hide HomeSet, Split, StrLe;
    var home := HomeSet(lib, nodes, svcs);
    var keys := SortedKeys(home);
    SortedKeysMembers(home);
    assert AlwaysHome("10.0.0.0/8");
    HomeExactly(lib, nodes, svcs, "10.0.0.0/8");
    SplitJoin(keys, ',');
    var text := HomeText(home);
    assert text[1..|text| - 1] == Join(keys, ",");
    assert Join(keys, ",") != "" by { if Join(keys, ",") == "" { JoinedEmpty(keys); } }
  }

  lemma JoinedEmpty(keys: seq<string>)
    requires Join(keys, ",") == "" && keys != []
    ensures keys == [""]
  {}

  // ---- whose value counts ---------------------------------------------------------------------

  /** The string at a path of the document. */
  ghost predicate TextAt(d: Doc, path: seq<string>, s: string) {
    d.Root? && Lookup(Map(d.root), path) == Some(Leaf(Str(s)))
  }

  /** The document's HOME_NET, trimmed; nothing where there is no such string. */
  ghost predicate Configured(d: Doc, home: string) {
    exists s :: TextAt(d, ["ids", "address_vars", "HOME_NET"], s) && home == TrimSpace(s)
  }

  predicate MeansAny(s: string) { s in {"any", "Any", "aNy", "anY", "ANy", "AnY", "aNY", "ANY"} }

  predicate HasOverride(cm: Cm) {
    "synapse.gen0sec.com/home-net" in cm.annotations && TrimSpace(cm.annotations["synapse.gen0sec.com/home-net"]) != ""
  }

  predicate MarkedAuto(cm: Cm) {
    "synapse.gen0sec.com/netvars-managed" in cm.annotations
    && cm.annotations["synapse.gen0sec.com/netvars-managed"] == "auto"
  }

  lemma IsAnyExactly(s: string)
    ensures IsAny(s) <==> MeansAny(s)
  {
    if |s| == 3 { assert s == [s[0], s[1], s[2]]; }
  }

  lemma ConfiguredIs(c: Codec, raw: string, home: string)
    requires home != ""
    ensures Configured(c.parse(raw), home) <==> CurrentHome(c, raw) == home
  {
    hide TrimSpace;
    var d := c.parse(raw);
    assert TrimSpace("") == "" by { NoBlank(); }
    if d.Root? { HomePath(d.root); }
  }

  lemma HomePath(root: Entries)
    ensures forall s :: Lookup(Map(root), ["ids", "address_vars", "HOME_NET"]) == Some(Leaf(Str(s))) <==>
                        "HOME_NET" in VarsOf(root) && VarsOf(root)["HOME_NET"] == Str(s)
  {
    var p := ["ids", "address_vars", "HOME_NET"];
    assert p[1..] == ["address_vars", "HOME_NET"] && p[1..][1..] == ["HOME_NET"] && p[1..][1..][1..] == [];
    if "ids" in root && root["ids"].Map? && "address_vars" in root["ids"].entries {
      var v := root["ids"].entries["address_vars"];
      assert Lookup(Map(root), p) == Lookup(v, ["HOME_NET"]);
      if v.Map? && "HOME_NET" in v.entries {
        assert Lookup(v, ["HOME_NET"]) == Lookup(v.entries["HOME_NET"], []);
      }
    }
  }

  /** The annotation decides; else a value of the user's; else the derived one, which nobody can
      give when a list fails. */
  lemma DecidedExactly(c: Codec, cm: Cm, raw: string, auto: Option<string>)
    ensures HasOverride(cm) ==>
      DesiredHome(c, cm, raw, auto) == Desired(TrimSpace(cm.annotations["synapse.gen0sec.com/home-net"]), true)
    ensures !HasOverride(cm) && !MarkedAuto(cm) ==>
      forall home :: home != "" && !MeansAny(home) && Configured(c.parse(raw), home) ==>
        DesiredHome(c, cm, raw, auto) == Desired(home, true)
    ensures !HasOverride(cm)
            && (MarkedAuto(cm) || forall home :: home != "" && Configured(c.parse(raw), home) ==> MeansAny(home)) ==>
      DesiredHome(c, cm, raw, auto) == if auto.Some? then Desired(auto.value, false) else ListFailed
  {
    hide TrimSpace, IsAny, MeansAny, CurrentHome, Configured;
    assert TrimSpace("") == "" by { NoBlank(); }
    IsAnyExactly(CurrentHome(c, raw));
    forall home | home != "" ensures Configured(c.parse(raw), home) <==> CurrentHome(c, raw) == home {
      ConfiguredIs(c, raw, home);
    }
  }

  // ---- what is stored --------------------------------------------------------------------------

  lemma VarsPath(root: Entries, home: string)
    ensures Lookup(Map(WithVars(root, home)), ["ids", "address_vars", "HOME_NET"]) == Some(Leaf(Str(home)))
    ensures Lookup(Map(WithVars(root, home)), ["ids", "address_vars", "EXTERNAL_NET"]) == Some(Leaf(Str("!$HOME_NET")))
  {
    hide Lookup;
    var vars := VarsOf(root)["HOME_NET" := Str(home)]["EXTERNAL_NET" := Str(EXTERNAL)];
    var ids := IdsOf(root)["address_vars" := Map(vars)];
    forall k | k in vars ensures Lookup(Map(WithVars(root, home)), ["ids", "address_vars", k]) == Lookup(vars[k], []) {
      var p := ["ids", "address_vars", k];
      assert p[1..] == ["address_vars", k] && p[1..][1..] == [k] && p[1..][1..][1..] == [];
      LookupOver(root, "ids", Map(ids), p);
      LookupOver(IdsOf(root), "address_vars", Map(vars), p[1..]);
      LookupCons(Map(vars), k, []);
      assert [k] + [] == [k];
    }
    LookupLeaf(Str(home));
    LookupLeaf(Str(EXTERNAL));
  }

  lemma LookupLeaf(v: Val)
    requires !v.Map?
    ensures Lookup(v, []) == Some(Leaf(v))
  {}

  /** A write stores the wanted value and its complement in config.yaml, marks who decided, and
      touches no other key and no other annotation; only labelled objects are written. */
  lemma StoredExactly(c: Codec, cm: Cm, auto: Option<string>)
    requires RoundTrips(c) && Wish(c, cm, auto).Some?
    ensures cm.source && "config.yaml" in cm.data
    ensures var cm', d := Wish(c, cm, auto).value, DesiredHome(c, cm, cm.data["config.yaml"], auto);
      && d.Desired? && d.home != "" && cm'.source
      && cm'.data.Keys == cm.data.Keys && (forall k :: k in cm.data && k != "config.yaml" ==> cm'.data[k] == cm.data[k])
      && Stores(c.parse(cm'.data["config.yaml"]), d.home)
      && cm'.annotations
         == cm.annotations["synapse.gen0sec.com/netvars-managed" := if d.manual then "manual" else "auto"]
  {
    hide DesiredHome, WithVars, VarsSet;
    var raw := cm.data[CONFIG_KEY];
    var d := DesiredHome(c, cm, raw, auto);
    var root := RootOf(c.parse(raw));
    VarsPath(root, d.home);
    assert c.parse(c.print_(WithVars(root, d.home))) == Root(WithVars(root, d.home));
    if VarsSet(root, d.home) { AlreadyStored(c.parse(raw), d.home); }
  }

  /** The document holds both variables. */
  ghost predicate Stores(d: Doc, home: string) {
    && TextAt(d, ["ids", "address_vars", "HOME_NET"], home)
    && TextAt(d, ["ids", "address_vars", "EXTERNAL_NET"], "!$HOME_NET")
  }

  lemma AlreadyStored(d: Doc, home: string)
    requires VarsSet(RootOf(d), home) && home != ""
    ensures Stores(d, home)
  {
    var root := RootOf(d);
    VarsAgain(root, home);
    VarsPath(root, home);
  }

  lemma VarsAgain(root: Entries, home: string)
    requires VarsSet(root, home) && home != ""
    ensures WithVars(root, home) == root
  {
    assert VarsOf(root)["HOME_NET" := Str(home)]["EXTERNAL_NET" := Str(EXTERNAL)] == VarsOf(root);
    assert IdsOf(root)["address_vars" := Map(VarsOf(root))] == IdsOf(root);
  }

  /** Nothing is written when the object is not labelled, has no document or an unreadable one, when
      no value can be decided, and when the document and the marker already say it. */
  lemma QuietExactly(c: Codec, cm: Cm, auto: Option<string>)
    requires cm.source && "config.yaml" in cm.data
    ensures var d, doc := DesiredHome(c, cm, cm.data["config.yaml"], auto), c.parse(cm.data["config.yaml"]);
      Wish(c, cm, auto).None? <==>
        || d == ListFailed || doc == Bad || d.home == ""
        || (Stores(doc, d.home) && "synapse.gen0sec.com/netvars-managed" in cm.annotations
            && cm.annotations["synapse.gen0sec.com/netvars-managed"] == if d.manual then "manual" else "auto")
  {
    hide DesiredHome, WithVars, VarsSet, TextAt;
    var d, doc := DesiredHome(c, cm, cm.data["config.yaml"], auto), c.parse(cm.data["config.yaml"]);
    if d.Desired? && d.home != "" && !doc.Bad? {
      if VarsSet(RootOf(doc), d.home) { AlreadyStored(doc, d.home); }
      if Stores(doc, d.home) { StoredSet(doc, d.home); }
    }
  }

  lemma StoredSet(d: Doc, home: string)
    requires Stores(d, home)
    ensures VarsSet(RootOf(d), home)
  {
    HomePath(d.root);
    ExternalPath(d.root);
  }

  lemma ExternalPath(root: Entries)
    ensures forall s :: Lookup(Map(root), ["ids", "address_vars", "EXTERNAL_NET"]) == Some(Leaf(Str(s))) <==>
                        "EXTERNAL_NET" in VarsOf(root) && VarsOf(root)["EXTERNAL_NET"] == Str(s)
  {
    var p := ["ids", "address_vars", "EXTERNAL_NET"];
    assert p[1..] == ["address_vars", "EXTERNAL_NET"] && p[1..][1..] == ["EXTERNAL_NET"] && p[1..][1..][1..] == [];
    if "ids" in root && root["ids"].Map? && "address_vars" in root["ids"].entries {
      var v := root["ids"].entries["address_vars"];
      assert Lookup(Map(root), p) == Lookup(v, ["EXTERNAL_NET"]);
      if v.Map? && "EXTERNAL_NET" in v.entries {
        assert Lookup(v, ["EXTERNAL_NET"]) == Lookup(v.entries["EXTERNAL_NET"], []);
      }
    }
  }
}
