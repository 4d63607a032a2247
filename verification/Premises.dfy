/** The premises about libraries can be met. */
module Premises {
  // One codec that prints without NULs and reads everything back, and one hash that tells all texts
  // apart: what is proved under these premises is not proved of nothing.

  import opened Wrappers
  import opened Strings
  import opened Sorting
  import opened Yaml
  import Layout
  import ConfigHash
  import Rollout

  // ---- printing ---------------------------------------------------------------------------

  function Kind(v: Val): char {
    match v
    case Null => 'n'
    case Bool(b) => if b then 't' else 'f'
    case Num(_) => 'd'
    case Str(_) => 's'
    case List(_) => 'l'
    case Map(_) => 'm'
  }

  /** A value behind a letter for its kind; maps in key order. */
  ghost function Print(v: Val): string
    decreases v, 2, 0
  {
    [Kind(v)] + Body(v)
  }

  ghost function Body(v: Val): string
    decreases v, 1, 0
  {
    match v
    case Num(n) => Layout.Quote(NatText(n))
    case Str(s) => Layout.Quote(s)
    case List(items) => PrintItems(items)
    case Map(m) =>
      SortedKeysMembers(m.Keys);
      PrintEntries(v, SortedKeys(m.Keys))
    case _ => ""
  }

  ghost function PrintItems(items: seq<Val>): string
    decreases items, 0, 0
  {
    if items == [] then "e" else ['i'] + (Print(items[0]) + PrintItems(items[1..]))
  }

  ghost function PrintEntries(v: Val, keys: seq<string>): string
    requires v.Map? && forall k :: k in keys ==> k in v.entries
    decreases v, 0, |keys|
  {
    if keys == [] then "e"
    else ['k'] + (Layout.Quote(keys[0]) + (Print(v.entries[keys[0]]) + PrintEntries(v, keys[1..])))
  }

  // ---- a printed value determines the value and what follows it ------------------------------

  lemma QuoteExact(s: string, t: string, x: string, y: string)
    requires Layout.Quote(s) + x == Layout.Quote(t) + y
    ensures s == t && x == y
  {
    hide *;
    Layout.ReadQuote(s, x);
    Layout.ReadQuote(t, y);
  }

  /** Equal texts have equal heads and equal rests. */
  lemma Headed(a: char, x: string, b: char, y: string, u: string, v: string)
    requires ([a] + x) + u == ([b] + y) + v
    ensures a == b && x + u == y + v
  {
    assert ([a] + x) + u == [a] + (x + u) && ([b] + y) + v == [b] + (y + v);
    assert ([a] + (x + u))[0] == a && ([b] + (y + v))[0] == b;
    assert ([a] + (x + u))[1..] == x + u && ([b] + (y + v))[1..] == y + v;
  }

  lemma NumberExact(n: nat, m: nat, x: string, y: string)
    requires Layout.Quote(NatText(n)) + x == Layout.Quote(NatText(m)) + y
    ensures n == m && x == y
  {
    QuoteExact(NatText(n), NatText(m), x, y);
    DigitsOfNatText(n);
    DigitsOfNatText(m);
  }

  lemma BodyIs(v: Val)
    ensures Print(v) == [Kind(v)] + Body(v)
    ensures v.Num? ==> Body(v) == Layout.Quote(NatText(v.n))
    ensures v.Str? ==> Body(v) == Layout.Quote(v.s)
    ensures v.List? ==> Body(v) == PrintItems(v.items)
    ensures v.Map? ==> (forall k :: k in SortedKeys(v.entries.Keys) <==> k in v.entries)
                       && Body(v) == PrintEntries(v, SortedKeys(v.entries.Keys))
    ensures v.Null? || v.Bool? ==> Body(v) == ""
  {
    if v.Map? { SortedKeysMembers(v.entries.Keys); }
  }

  lemma SameKind(v: Val, w: Val)
    requires Kind(v) == Kind(w)
    ensures v.Null? == w.Null? && v.Bool? == w.Bool? && v.Num? == w.Num? && v.Str? == w.Str?
    ensures v.List? == w.List? && v.Map? == w.Map? && (v.Bool? && w.Bool? ==> v == w)
  {}

  lemma {:induction false} PrintExact(v: Val, w: Val, x: string, y: string)
    requires Print(v) + x == Print(w) + y
    ensures v == w && x == y
    decreases v, 2, 0
  {
    hide Kind, Print, Body, PrintItems, PrintEntries, Layout.Quote, SortedKeys, NatText;
    BodyIs(v);
    BodyIs(w);
    Headed(Kind(v), Body(v), Kind(w), Body(w), x, y);
    SameKind(v, w);
    match v {
      case Num(n) => NumberExact(n, w.n, x, y);
      case Str(s) => QuoteExact(s, w.s, x, y);
      case List(items) => ItemsExact(items, w.items, x, y);
      case Map(m) =>
        EntriesExact(v, SortedKeys(m.Keys), w, SortedKeys(w.entries.Keys), x, y);
        SameEntries(m, w.entries);
      case _ => assert "" + x == x && "" + y == y;
    }
  }

  lemma SameEntries(m: Entries, m': Entries)
    requires SortedKeys(m.Keys) == SortedKeys(m'.Keys)
    requires forall k :: k in SortedKeys(m.Keys) ==> k in m && k in m' && m[k] == m'[k]
    ensures m == m'
  {
    SortedKeysMembers(m.Keys);
    SortedKeysMembers(m'.Keys);
  }

  lemma ItemsAre(items: seq<Val>)
    ensures items == [] ==> PrintItems(items) == ['e'] + ""
    ensures items != [] ==> PrintItems(items) == ['i'] + (Print(items[0]) + PrintItems(items[1..]))
  {}

  lemma Reassociate(a: string, b: string, c: string)
    ensures (a + b) + c == a + (b + c)
  {}

  lemma {:induction false} ItemsExact(items: seq<Val>, items': seq<Val>, x: string, y: string)
    requires PrintItems(items) + x == PrintItems(items') + y
    ensures items == items' && x == y
    decreases items, 0, 0
  {
    hide Print, PrintItems;
    ItemsAre(items);
    ItemsAre(items');
    if items == [] || items' == [] {
      var rest := if items == [] then "" else Print(items[0]) + PrintItems(items[1..]);
      var rest' := if items' == [] then "" else Print(items'[0]) + PrintItems(items'[1..]);
      Headed(if items == [] then 'e' else 'i', rest, if items' == [] then 'e' else 'i', rest', x, y);
      assert "" + x == x && "" + y == y;
    } else {
      var a, b, a', b' := Print(items[0]), PrintItems(items[1..]), Print(items'[0]), PrintItems(items'[1..]);
      Headed('i', a + b, 'i', a' + b', x, y);
      Reassociate(a, b, x);
      Reassociate(a', b', y);
      PrintExact(items[0], items'[0], b + x, b' + y);
      ItemsExact(items[1..], items'[1..], x, y);
      assert items == [items[0]] + items[1..] && items' == [items'[0]] + items'[1..];
    }
  }

  lemma EntriesAre(v: Val, keys: seq<string>)
    requires v.Map? && forall k :: k in keys ==> k in v.entries
    ensures keys == [] ==> PrintEntries(v, keys) == ['e'] + ""
    ensures keys != [] ==>
      PrintEntries(v, keys) ==
        ['k'] + (Layout.Quote(keys[0]) + (Print(v.entries[keys[0]]) + PrintEntries(v, keys[1..])))
  {}

  lemma {:induction false} EntriesExact(v: Val, keys: seq<string>, w: Val, keys': seq<string>, x: string, y: string)
    requires v.Map? && forall k :: k in keys ==> k in v.entries
    requires w.Map? && forall k :: k in keys' ==> k in w.entries
    requires PrintEntries(v, keys) + x == PrintEntries(w, keys') + y
    ensures keys == keys' && x == y && forall k :: k in keys ==> k in w.entries && v.entries[k] == w.entries[k]
    decreases v, 0, |keys|
  {
    hide Print, PrintEntries, Layout.Quote;
    EntriesAre(v, keys);
    EntriesAre(w, keys');
    if keys == [] || keys' == [] {
      var rest := if keys == [] then ""
        else Layout.Quote(keys[0]) + (Print(v.entries[keys[0]]) + PrintEntries(v, keys[1..]));
      var rest' := if keys' == [] then ""
        else Layout.Quote(keys'[0]) + (Print(w.entries[keys'[0]]) + PrintEntries(w, keys'[1..]));
      Headed(if keys == [] then 'e' else 'k', rest, if keys' == [] then 'e' else 'k', rest', x, y);
      assert "" + x == x && "" + y == y;
    } else {
      var a, b, c := Layout.Quote(keys[0]), Print(v.entries[keys[0]]), PrintEntries(v, keys[1..]);
      var a', b', c' := Layout.Quote(keys'[0]), Print(w.entries[keys'[0]]), PrintEntries(w, keys'[1..]);
      Headed('k', a + (b + c), 'k', a' + (b' + c'), x, y);
      Reassociate(a, b + c, x);
      Reassociate(a', b' + c', y);
      QuoteExact(keys[0], keys'[0], (b + c) + x, (b' + c') + y);
      Reassociate(b, c, x);
      Reassociate(b', c', y);
      PrintExact(v.entries[keys[0]], w.entries[keys'[0]], c + x, c' + y);
      EntriesExact(v, keys[1..], w, keys'[1..], x, y);
      assert keys == [keys[0]] + keys[1..] && keys' == [keys'[0]] + keys'[1..];
    }
  }

  // ---- without NULs ------------------------------------------------------------------------------

  lemma EscapeWithoutNul(c: char)
    ensures '\0' !in Layout.Escape(c)
  {
    hide Layout.Hex4;
    forall n: nat | n < 0x10000 ensures '\0' !in Layout.Hex4(n) { HexWithoutNul(n); }
  }

  lemma HexWithoutNul(n: nat)
    requires n < 0x10000
    ensures '\0' !in Layout.Hex4(n)
  {
    assert forall d: nat :: d < 16 ==> Layout.HexDigit(d) != '\0';
  }

  lemma {:induction false} EscapedWithoutNul(s: string)
    ensures '\0' !in Layout.EscapeAll(s)
  {
    if s == [] {
    } else {
      EscapeWithoutNul(s[0]);
      EscapedWithoutNul(s[1..]);
    }
  }

  lemma QuotedWithoutNul(s: string)
    ensures '\0' !in Layout.Quote(s) && Layout.Quote(s) != ""
  {
    EscapedWithoutNul(s);
  }

  lemma {:induction false} PrintWithoutNul(v: Val)
    ensures '\0' !in Print(v)
    decreases v, 2, 0
  {
    hide Print, Body, PrintItems, PrintEntries, Layout.Quote, SortedKeys, NatText;
    BodyIs(v);
    match v {
      case Num(n) => QuotedWithoutNul(NatText(n));
      case Str(s) => QuotedWithoutNul(s);
      case List(items) => ItemsWithoutNul(items);
      case Map(m) => EntriesWithoutNul(v, SortedKeys(m.Keys));
      case _ =>
    }
  }

  lemma {:induction false} ItemsWithoutNul(items: seq<Val>)
    ensures '\0' !in PrintItems(items)
    decreases items, 0, 0
  {
    hide Print;
    if items == [] {
    } else {
      PrintWithoutNul(items[0]);
      ItemsWithoutNul(items[1..]);
    }
  }

  lemma {:induction false} EntriesWithoutNul(v: Val, keys: seq<string>)
    requires v.Map? && forall k :: k in keys ==> k in v.entries
    ensures '\0' !in PrintEntries(v, keys)
    decreases v, 0, |keys|
  {
    hide Print, Layout.Quote;
    if keys == [] {
    } else {
      QuotedWithoutNul(keys[0]);
      PrintWithoutNul(v.entries[keys[0]]);
      EntriesWithoutNul(v, keys[1..]);
    }
  }

  // ---- the premises --------------------------------------------------------------------------------

  ghost predicate Prints(root: Entries, text: string) { Print(Map(root)) == text }

  ghost function Read(text: string): Doc {
    if exists root :: Prints(root, text) then
      var root :| Prints(root, text);
      Root(root)
    else Bad
  }

  lemma ReadPrinted(root: Entries)
    ensures Read(Print(Map(root))) == Root(root)
  {
    hide Print;
    var text := Print(Map(root));
    assert Prints(root, text);
    var read := Read(text).root;
    assert Prints(read, text);
    assert text + "" == text;
    PrintExact(Map(read), Map(root), "", "");
  }

  /** Some codec reads back everything it prints, and prints without NULs. */
  lemma SomeCodecRoundTrips() returns (c: Codec)
    ensures RoundTrips(c) && Rollout.CleanPrint(c)
  {
    c := Codec(text => Read(text), root => Print(Map(root)));
    forall root ensures c.parse(c.print_(root)) == Root(root) && '\0' !in c.print_(root) {
      ReadPrinted(root);
      PrintWithoutNul(Map(root));
    }
  }

  /** Some hash tells all texts apart, and its digests are not empty and hold no NUL. */
  lemma SomeHashIsGood()
    ensures ConfigHash.GoodHash(Layout.Quote)
  {
    hide Layout.Quote;
    forall a: string, b: string | Layout.Quote(a) == Layout.Quote(b) ensures a == b {
      assert Layout.Quote(a) + "" == Layout.Quote(b) + "";
      QuoteExact(a, b, "", "");
    }
    forall a: string ensures Layout.Quote(a) != "" && '\0' !in Layout.Quote(a) { QuotedWithoutNul(a); }
  }
}
