/** config.yaml without its hot fields (configmap_controller.go). */
module HotReload {
  // canonicalConfigSansHotReloadIds: the fields the agent reloads in process do not roll it.

  import opened Wrappers
  import opened Yaml
  import NetVars

  // ---- the hot-reloadable fields ------------------------------------------------------

  const HOT_FIELDS: seq<string> :=
    ["address_vars", "enforce_block", "rule_paths", "port_vars", "flow_timeout_secs", "max_flows"]

  function WithoutHot(m: Entries): Entries { map k | k in m && k !in HOT_FIELDS :: m[k] }

  /** The map under "ids", if it is one, loses its hot fields. */
  function StripIds(m: Entries): Entries {
    match SubMap(m, "ids")
    case Some(ids) => m["ids" := Map(WithoutHot(ids))]
    case None => m
  }

  function Strip(root: Entries): Entries {
    var r := StripIds(root);
    match SubMap(r, "firewall")
    case Some(fw) => r["firewall" := Map(StripIds(fw))]
    case None => r
  }

  /** canonicalConfigSansHotReloadIds. */
  function Canonical(c: Codec, raw: string): string {
    match c.parse(raw)
    case Root(root) => c.print_(Strip(root))
    case _ => raw
  }

  method StripFields(ids: Entries) returns (out: Entries)
    ensures out == WithoutHot(ids)
  {
    out := ids;
    for i := 0 to |HOT_FIELDS|
      invariant out == map k | k in ids && k !in HOT_FIELDS[..i] :: ids[k]
    {
      assert HOT_FIELDS[..i + 1] == HOT_FIELDS[..i] + [HOT_FIELDS[i]];
      out := out - {HOT_FIELDS[i]};
    }
    assert HOT_FIELDS[..|HOT_FIELDS|] == HOT_FIELDS;
  }

  method CanonicalConfig(c: Codec, raw: string) returns (text: string)
    ensures text == Canonical(c, raw)
  {
    hide WithoutHot;
    var doc := c.parse(raw);
    if !doc.Root? {
      return raw;
    }
    var root := doc.root;
    var ids := SubMap(root, "ids");
    if ids.Some? {
      var stripped := StripFields(ids.value);
      root := root["ids" := Map(stripped)];
    }
    var fw := SubMap(root, "firewall");
    if fw.Some? {
      var ids' := SubMap(fw.value, "ids");
      var inner := fw.value;
      if ids'.Some? {
        var stripped := StripFields(ids'.value);
        inner := inner["ids" := Map(stripped)];
      }
      root := root["firewall" := Map(inner)];
    }
    return c.print_(root);
  }

  /** The fields the agent takes over without a restart. */
  predicate IsHot(field: string) {
    || field == "address_vars" || field == "enforce_block" || field == "rule_paths"
    || field == "port_vars" || field == "flow_timeout_secs" || field == "max_flows"
  }

  lemma HotFieldsAre(field: string)
    ensures field in HOT_FIELDS <==> IsHot(field)
  {}

  /** The path leads to or into a hot field, under ids or firewall.ids. */
  predicate UnderHot(path: seq<string>) {
    || (|path| >= 2 && path[0] == "ids" && IsHot(path[1]))
    || (|path| >= 3 && path[0] == "firewall" && path[1] == "ids" && IsHot(path[2]))
  }

  /** Two documents agree everywhere outside the hot fields. */
  ghost predicate AgreeOutsideHot(a: Entries, b: Entries) {
    forall path :: !UnderHot(path) ==> Lookup(Map(a), path) == Lookup(Map(b), path)
  }

  lemma WithoutHotLookup(ids: Entries, path: seq<string>)
    ensures Lookup(Map(WithoutHot(ids)), path) ==
      if path != [] && path[0] in HOT_FIELDS then None else Lookup(Map(ids), path)
  {}

  lemma StripIdsLookup(m: Entries, path: seq<string>)
    ensures Lookup(Map(StripIds(m)), path) ==
      if |path| >= 2 && path[0] == "ids" && path[1] in HOT_FIELDS then None else Lookup(Map(m), path)
  {
    hide WithoutHot;
    if path != [] && path[0] == "ids" && SubMap(m, "ids").Some? {
      WithoutHotLookup(m["ids"].entries, path[1..]);
    } else if |path| >= 2 && path[0] == "ids" && "ids" in m {
      assert Lookup(m["ids"], path[1..]) == None;
    }
  }

  /** Stripping removes what lies under the hot fields and nothing else. */
  lemma StripLookup(root: Entries, path: seq<string>)
    ensures Lookup(Map(Strip(root)), path) == if UnderHot(path) then None else Lookup(Map(root), path)
  {
    hide StripIds, IsHot;
    var r := StripIds(root);
    if |path| >= 2 { HotFieldsAre(path[1]); }
    if |path| >= 3 { HotFieldsAre(path[2]); }
    StripIdsLookup(root, path);
    if path != [] && path[0] == "firewall" && SubMap(r, "firewall").Some? {
      assert "firewall" in r && r["firewall"].Map?;
      StripIdsLookup(r["firewall"].entries, path[1..]);
      assert Lookup(Map(r), path) == Lookup(r["firewall"], path[1..]);
    } else if |path| >= 2 && path[0] == "firewall" && "firewall" in r {
      assert Lookup(r["firewall"], path[1..]) == None;
    }
  }

  /** Stripped documents are equal exactly when the originals agree outside the hot fields. */
  lemma StripExact(a: Entries, b: Entries)
    ensures Strip(a) == Strip(b) <==> AgreeOutsideHot(a, b)
  {
    hide Strip, UnderHot, Lookup;
    forall path ensures
      && Lookup(Map(Strip(a)), path) == (if UnderHot(path) then None else Lookup(Map(a), path))
      && Lookup(Map(Strip(b)), path) == (if UnderHot(path) then None else Lookup(Map(b), path))
    {
      StripLookup(a, path);
      StripLookup(b, path);
    }
    if AgreeOutsideHot(a, b) {
      SameLookups(Map(Strip(a)), Map(Strip(b)));
    }
  }

  /** Two config.yaml texts are hashed alike: the same text, or two documents that agree
      outside the hot fields. */
  ghost predicate SameConfig(c: Codec, raw: string, raw': string) {
    match (c.parse(raw), c.parse(raw'))
    case (Root(a), Root(b)) => AgreeOutsideHot(a, b)
    case _ => raw == raw'
  }

  /** A text that is not a document never passes for a printed one. */
  lemma CanonicalExact(c: Codec, raw: string, raw': string)
    requires RoundTrips(c)
    ensures Canonical(c, raw) == Canonical(c, raw') <==> SameConfig(c, raw, raw')
  {
    hide Strip, AgreeOutsideHot;
    match (c.parse(raw), c.parse(raw')) {
      case (Root(a), Root(b)) =>
        StripExact(a, b);
        if c.print_(Strip(a)) == c.print_(Strip(b)) { PrintInjective(c, Strip(a), Strip(b)); }
      case (Root(a), _) => assert c.parse(c.print_(Strip(a))).Root?;
      case (_, Root(b)) => assert c.parse(c.print_(Strip(b))).Root?;
      case _ =>
    }
  }

  /** Filling HOME_NET and EXTERNAL_NET leaves the hashed part of a document alone exactly
      when the document already has an ids map. */
  lemma NetVarsStayHot(root: Entries, home: string)
    ensures AgreeOutsideHot(root, NetVars.WithVars(root, home)) <==> SubMap(root, "ids").Some?
  {
    var root' := NetVars.WithVars(root, home);
    if SubMap(root, "ids").Some? {
      forall path | !UnderHot(path) ensures Lookup(Map(root), path) == Lookup(Map(root'), path) {
        NetVars.LookupOver(root, "ids", root'["ids"], path);
        if path != [] && path[0] == "ids" {
          NetVars.LookupOver(NetVars.IdsOf(root), "address_vars", root'["ids"].entries["address_vars"], path[1..]);
        }
      }
    } else {
      assert !UnderHot(["ids"]) && ["ids"][1..] == [];
      assert Lookup(Map(root'), ["ids"]) == Some(Branch);
      assert Lookup(Map(root), ["ids"]) != Some(Branch);
    }
  }
}
