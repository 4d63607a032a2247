/** The parts of Go's string library that the controllers use, on sequences of characters. Go compares
    strings byte by byte in UTF-8, which is the order of code points used here. Splitting undoes
    joining, trimming is idempotent, and the decimal text of a number determines the number. */
module Strings {
  import opened Wrappers

  // ---- order ------------------------------------------------------------

  predicate StrLe(a: string, b: string) {
    a == [] || (b != [] && (a[0] < b[0] || (a[0] == b[0] && StrLe(a[1..], b[1..]))))
  }

  lemma {:induction false} StrLeTotal(a: string, b: string)
    ensures StrLe(a, b) || StrLe(b, a)
  {
    if a == [] || b == [] || a[0] != b[0] {
    } else {
      StrLeTotal(a[1..], b[1..]);
    }
  }

  lemma {:induction false} StrLeAntisymmetric(a: string, b: string)
    requires StrLe(a, b) && StrLe(b, a)
    ensures a == b
  {
    if a == [] || b == [] {
    } else {
      StrLeAntisymmetric(a[1..], b[1..]);
      assert a == [a[0]] + a[1..] && b == [b[0]] + b[1..];
    }
  }

  lemma {:induction false} StrLeTransitive(a: string, b: string, c: string)
    requires StrLe(a, b) && StrLe(b, c)
    ensures StrLe(a, c)
  {
    if a == [] || a[0] != b[0] || b[0] != c[0] {
    } else {
      StrLeTransitive(a[1..], b[1..], c[1..]);
    }
  }

  /** The order of the first characters that differ; a prefix comes first. */
  lemma {:induction false} StrLeExact(p: string, a: string, b: string)
    requires a == "" || b == "" || a[0] != b[0]
    ensures StrLe(p + a, p + b) <==> a == "" || (b != "" && a[0] < b[0])
  {
    if p == "" {
      assert p + a == a && p + b == b;
    } else {
      assert (p + a)[1..] == p[1..] + a && (p + b)[1..] == p[1..] + b;
      StrLeExact(p[1..], a, b);
    }
  }

  // ---- prefixes, suffixes, spans ------------------------------------------

  predicate HasPrefix(s: string, p: string) {
    |p| <= |s| && s[..|p|] == p
  }

  predicate HasSuffix(s: string, p: string) {
    |p| <= |s| && s[|s| - |p|..] == p
  }

  function TrimSuffix(s: string, p: string): string {
    if HasSuffix(s, p) then s[..|s| - |p|] else s
  }

  function TrimPrefix(s: string, p: string): string {
    if HasPrefix(s, p) then s[|p|..] else s
  }

  lemma TrimSuffixAppend(s: string, p: string)
    ensures HasSuffix(s + p, p) && TrimSuffix(s + p, p) == s
  {
    assert (s + p)[|s|..] == p;
    assert (s + p)[..|s|] == s;
  }

  /** The length of the longest prefix of s whose characters all satisfy p. */
  function Span(s: string, p: char -> bool): (n: nat)
    ensures n <= |s|
    ensures forall i :: 0 <= i < n ==> p(s[i])
    ensures n < |s| ==> !p(s[n])
  {
    if s == [] || !p(s[0]) then 0 else
      var n := Span(s[1..], p);
      assert forall i :: 1 <= i < n + 1 ==> s[i] == s[1..][i - 1];
      n + 1
  }

  lemma {:induction false} SpanAppend(a: string, b: string, p: char -> bool)
    requires forall c :: c in a ==> p(c)
    requires b == [] || !p(b[0])
    ensures Span(a + b, p) == |a|
  {
    if a == [] {
      assert a + b == b;
    } else {
      SpanAppend(a[1..], b, p);
      assert (a + b)[1..] == a[1..] + b;
    }
  }

  /** strings.LastIndex for a single character, or -1. */
  function LastIndex(s: string, c: char): (i: int)
    ensures -1 <= i < |s|
    ensures i >= 0 ==> s[i] == c
    ensures forall j :: i < j < |s| ==> s[j] != c
  {
    if s == [] then -1
    else if s[|s| - 1] == c then |s| - 1
    else LastIndex(s[..|s| - 1], c)
  }

  lemma LastIndexIs(s: string, i: nat, c: char)
    requires i < |s| && s[i] == c && c !in s[i + 1..]
    ensures LastIndex(s, c) == i
  {
    hide LastIndex;
    forall j | i < j < |s| ensures s[j] != c { assert s[j] == s[i + 1..][j - i - 1]; }
  }

  /** strings.Split on a single character. */
  function Split(s: string, c: char): (parts: seq<string>)
    ensures |parts| >= 1
    ensures forall i :: 0 <= i < |parts| ==> c !in parts[i]
  {
    var n := Span(s, x => x != c);
    if n == |s| then [s] else [s[..n]] + Split(s[n + 1..], c)
  }

  lemma SplitNone(s: string, c: char)
    requires c !in s
    ensures Split(s, c) == [s]
  {
    SpanAppend(s, [], x => x != c);
    assert s + [] == s;
  }

  lemma SplitCons(a: string, c: char, b: string)
    requires c !in a
    ensures Split(a + [c] + b, c) == [a] + Split(b, c)
  {
    var s := a + [c] + b;
    assert s == a + ([c] + b);
    SpanAppend(a, [c] + b, x => x != c);
    assert s[..|a|] == a && s[|a| + 1..] == b;
  }

  /** Splitting at a separator splits the text around it. */
  lemma {:induction false} SplitAround(a: string, c: char, b: string)
    ensures Split(a + [c] + b, c) == Split(a, c) + Split(b, c)
    decreases |a|
  {
    hide Split;
    if c !in a {
      SplitNone(a, c);
      SplitCons(a, c, b);
    } else {
      var n := Span(a, x => x != c);
      var head, tail := a[..n], a[n + 1..];
      assert c !in head;
      assert a == head + [c] + tail;
      assert a + [c] + b == head + [c] + (tail + [c] + b);
      SplitCons(head, c, tail);
      SplitCons(head, c, tail + [c] + b);
      SplitAround(tail, c, b);
    }
  }

  function Join(parts: seq<string>, sep: string): string {
    if parts == [] then ""
    else if |parts| == 1 then parts[0]
    else parts[0] + sep + Join(parts[1..], sep)
  }

  /** Splitting undoes joining when no part holds the separator. */
  lemma {:induction false} SplitJoin(parts: seq<string>, c: char)
    requires parts != []
    requires forall p :: p in parts ==> c !in p
    ensures Split(Join(parts, [c]), c) == parts
  {
    if |parts| == 1 {
      SplitNone(parts[0], c);
    } else {
      SplitJoin(parts[1..], c);
      SplitCons(parts[0], c, Join(parts[1..], [c]));
      assert parts == [parts[0]] + parts[1..];
    }
  }

  /** Joining undoes splitting. */
  lemma {:induction false} JoinSplit(s: string, c: char)
    ensures Join(Split(s, c), [c]) == s
    decreases |s|
  {
    hide Split;
    if c !in s {
      SplitNone(s, c);
    } else {
      var n := Span(s, x => x != c);
      var head, tail := s[..n], s[n + 1..];
      assert s == head + [c] + tail;
      SplitCons(head, c, tail);
      JoinSplit(tail, c);
      assert ([head] + Split(tail, c))[1..] == Split(tail, c);
    }
  }

  /** Parts that are not empty and hold no separator are determined by their joined text. */
  lemma JoinInjective(x: seq<string>, y: seq<string>, c: char)
    requires forall p :: p in x ==> p != "" && c !in p
    requires forall p :: p in y ==> p != "" && c !in p
    requires Join(x, [c]) == Join(y, [c])
    ensures x == y
  {
    if x != [] { assert x[0] in x; }
    if y != [] { assert y[0] in y; }
    if x != [] && y != [] {
      SplitJoin(x, c);
      SplitJoin(y, c);
    }
  }

  // ---- hashes -----------------------------------------------------------------

  /** Two texts that a hash does not tell apart. */
  predicate Collide(h: string -> string, a: string, b: string) { a != b && h(a) == h(b) }

  // ---- white space ----------------------------------------------------------

  /** unicode.IsSpace. */
  predicate IsSpace(c: char) {
    || '\U{0009}' <= c <= '\U{000D}' || c == ' '
    || c == '\U{0085}' || c == '\U{00A0}' || c == '\U{1680}'
    || '\U{2000}' <= c <= '\U{200A}' || c == '\U{2028}' || c == '\U{2029}'
    || c == '\U{202F}' || c == '\U{205F}' || c == '\U{3000}'
  }

  function TrimLeftSpace(s: string): string {
    if s != [] && IsSpace(s[0]) then TrimLeftSpace(s[1..]) else s
  }

  function TrimRightSpace(s: string): string {
    if s != [] && IsSpace(s[|s| - 1]) then TrimRightSpace(s[..|s| - 1]) else s
  }

  function TrimSpace(s: string): string {
    TrimRightSpace(TrimLeftSpace(s))
  }

  predicate Trimmed(s: string) {
    s == [] || (!IsSpace(s[0]) && !IsSpace(s[|s| - 1]))
  }

  lemma {:induction false} TrimRightKeepsHead(s: string)
    requires s == [] || !IsSpace(s[0])
    ensures Trimmed(TrimRightSpace(s))
  {
    if s == [] || !IsSpace(s[|s| - 1]) {
    } else {
      TrimRightKeepsHead(s[..|s| - 1]);
    }
  }

  lemma {:induction false} TrimLeftHead(s: string)
    ensures var t := TrimLeftSpace(s); t == [] || !IsSpace(t[0])
  {
    if s == [] || !IsSpace(s[0]) {
    } else {
      TrimLeftHead(s[1..]);
    }
  }

  lemma TrimSpaceTrimmed(s: string)
    ensures Trimmed(TrimSpace(s))
  {
    TrimLeftHead(s);
    TrimRightKeepsHead(TrimLeftSpace(s));
  }

  predicate AllSpace(s: string) { forall c :: c in s ==> IsSpace(c) }

  lemma {:induction false} TrimLeftRest(s: string) returns (front: string)
    ensures AllSpace(front) && s == front + TrimLeftSpace(s)
  {
    if s == [] || !IsSpace(s[0]) {
      front := "";
    } else {
      var rest := TrimLeftRest(s[1..]);
      front := [s[0]] + rest;
      assert s == [s[0]] + s[1..];
    }
  }

  lemma {:induction false} TrimRightRest(s: string) returns (back: string)
    ensures AllSpace(back) && s == TrimRightSpace(s) + back
  {
    if s == [] || !IsSpace(s[|s| - 1]) {
      back := "";
    } else {
      var rest := TrimRightRest(s[..|s| - 1]);
      back := rest + [s[|s| - 1]];
      assert s == s[..|s| - 1] + [s[|s| - 1]];
    }
  }

  /** Trimming takes white space from both ends and nothing else. */
  lemma TrimSpaceExact(s: string)
    ensures forall c ::
      IsSpace(c) <==>
        || 9 <= c as int <= 13 || 0x2000 <= c as int <= 0x200A
        || c as int in {0x20, 0x85, 0xA0, 0x1680, 0x2028, 0x2029, 0x202F, 0x205F, 0x3000}
    ensures Trimmed(TrimSpace(s))
    ensures exists front, back :: AllSpace(front) && AllSpace(back) && s == front + TrimSpace(s) + back
  {
    TrimSpaceTrimmed(s);
    var front := TrimLeftRest(s);
    var back := TrimRightRest(TrimLeftSpace(s));
    assert s == front + TrimSpace(s) + back;
  }

  // ---- decimal numbers ----------------------------------------------------

  predicate IsDigit(c: char) { '0' <= c <= '9' }

  function NatText(n: nat): (s: string)
    ensures s != [] && forall c :: c in s ==> IsDigit(c)
  {
    var d := ['0' + (n % 10) as char];
    if n < 10 then d else NatText(n / 10) + d
  }

  function DigitsValue(s: string): nat
    requires forall c :: c in s ==> IsDigit(c)
  {
    if s == [] then 0
    else
      assert IsDigit(s[|s| - 1]);
      10 * DigitsValue(s[..|s| - 1]) + (s[|s| - 1] as int - '0' as int)
  }

  lemma {:induction false} DigitsOfNatText(n: nat)
    ensures DigitsValue(NatText(n)) == n
  {
    var d := ['0' + (n % 10) as char];
    if n < 10 {
      assert d[..0] == [];
    } else {
      DigitsOfNatText(n / 10);
      var t := NatText(n);
      assert t[..|t| - 1] == NatText(n / 10);
    }
  }

  /** Decimal, most significant digit first, and no zero in front. */
  lemma {:induction false} NoLeadingZero(n: nat)
    ensures n < 10 ==> NatText(n) == ["0123456789"[n]]
    ensures n >= 10 ==> NatText(n)[0] != '0' && NatText(n) == NatText(n / 10) + NatText(n % 10)
  {
    if n < 10 {
    } else {
      NoLeadingZero(n / 10);
    }
  }

  /** fmt's %d on a signed integer. */
  function IntText(n: int): string {
    if n < 0 then "-" + NatText(-n) else NatText(n)
  }
}
