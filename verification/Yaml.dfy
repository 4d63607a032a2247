/** YAML documents as trees, the form in which the reconcilers read and edit them. */
module Yaml {
  import opened Wrappers

  /** A finite number of the library, which reads every number as a float64: its 64 bits.
      Infinities, NaNs and the second zero, which is equal to the first, are left out. */
  type Number = bits: int |
    0 <= bits < 0x1_0000_0000_0000_0000 && bits / 0x10_0000_0000_0000 % 0x800 != 0x7FF && bits != 0x8000_0000_0000_0000
    witness 0

  datatype Val =
    | Null
    | Bool(b: bool)
    | Num(n: Number)
    | Str(s: string)
    | List(items: seq<Val>)
    | Map(entries: map<string, Val>)

  type Entries = map<string, Val>

  /** The ConfigMap key of the agent's document. */
  const CONFIG_KEY := "config.yaml"

  /** Decoding into map[string]any: an error, no document (nil), or a map. */
  datatype Doc = Bad | Nil | Root(root: Entries)

  /** The library: what it prints for a map, it reads back as that map. */
  datatype Codec = Codec(parse: string -> Doc, print_: Entries -> string)

  ghost predicate RoundTrips(c: Codec) {
    forall root :: c.parse(c.print_(root)) == Root(root)
  }

  lemma PrintInjective(c: Codec, a: Entries, b: Entries)
    requires RoundTrips(c) && c.print_(a) == c.print_(b)
    ensures a == b
  {
    assert c.parse(c.print_(a)) == Root(a) && c.parse(c.print_(b)) == Root(b);
  }

  /** A nested map, or none: Go's v, _ := m[k].(map[string]any). */
  function SubMap(m: Entries, k: string): Option<Entries> {
    if k in m && m[k].Map? then Some(m[k].entries) else None
  }

  // ---- looking at a tree along a path -----------------------------------------------

  /** A map counts by its keys only, any other value as a whole. */
  datatype Shape = Branch | Leaf(v: Val)

  function Lookup(v: Val, path: seq<string>): Option<Shape>
    decreases |path|
  {
    if path == [] then Some(if v.Map? then Branch else Leaf(v))
    else if v.Map? && path[0] in v.entries then Lookup(v.entries[path[0]], path[1..])
    else None
  }

  lemma LookupOne(v: Val, k: string)
    requires v.Map?
    ensures Lookup(v, [k]).Some? <==> k in v.entries
  {
    if k in v.entries {
      assert [k][1..] == [];
      assert Lookup(v.entries[k], []).Some?;
    }
  }

  lemma LookupCons(v: Val, k: string, path: seq<string>)
    requires v.Map? && k in v.entries
    ensures Lookup(v, [k] + path) == Lookup(v.entries[k], path)
  {
    assert ([k] + path)[1..] == path;
  }

  /** Trees that look alike along every path are the same. */
  lemma {:induction false} SameLookups(v: Val, w: Val)
    requires forall p :: Lookup(v, p) == Lookup(w, p)
    ensures v == w
    decreases v
  {
    assert Lookup(v, []) == Lookup(w, []);
    if !v.Map? {
    } else {
      forall k ensures k in v.entries <==> k in w.entries {
        assert Lookup(v, [k]) == Lookup(w, [k]);
        LookupOne(v, k);
        LookupOne(w, k);
      }
      forall k | k in v.entries ensures v.entries[k] == w.entries[k] {
        forall p ensures Lookup(v.entries[k], p) == Lookup(w.entries[k], p) {
          LookupCons(v, k, p);
          LookupCons(w, k, p);
        }
        SameLookups(v.entries[k], w.entries[k]);
      }
    }
  }
}
