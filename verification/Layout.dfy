/** The indented text the upstreams renderers write, and a reader for it. A document is a forest
    of nodes; each node is one line, and its children are the lines below it that are indented
    two spaces further. */
module Layout {
  import opened Wrappers
  import opened Strings

  // ---- quoted strings -----------------------------------------------------

  function HexDigit(n: nat): char
    requires n < 16
  {
    if n < 10 then '0' + n as char else 'a' + (n - 10) as char
  }

  function HexValue(c: char): Option<nat> {
    if '0' <= c <= '9' then Some(c as int - '0' as int)
    else if 'a' <= c <= 'f' then Some(c as int - 'a' as int + 10)
    else None
  }

  /** strconv.IsPrint outside ASCII: which characters a library's tables call printable. */
  const IS_PRINT: char -> bool

  /** Four hexadecimal digits. */
  function Hex4(n: nat): (s: string)
    requires n < 0x10000
    ensures |s| == 4
  {
    [HexDigit(n / 0x1000), HexDigit(n / 0x100 % 16), HexDigit(n / 16 % 16), HexDigit(n % 16)]
  }

  /** The number that hexadecimal digits stand for. */
  function HexNumber(s: string): Option<nat> {
    if s == [] then Some(0)
    else
      match (HexNumber(s[..|s| - 1]), HexValue(s[|s| - 1]))
      case (Some(h), Some(l)) => Some(16 * h + l)
      case _ => None
  }

  lemma HexNumberSnoc(s: string, d: nat)
    requires HexNumber(s).Some? && d < 16
    ensures HexNumber(s + [HexDigit(d)]) == Some(16 * HexNumber(s).value + d)
  {
    assert (s + [HexDigit(d)])[..|s|] == s;
    assert HexValue(HexDigit(d)) == Some(d);
  }

  lemma FourDigits(n: nat)
    requires n < 0x10000
    ensures n == 16 * (16 * (16 * (n / 0x1000) + n / 0x100 % 16) + n / 16 % 16) + n % 16
  {
    assert n == 16 * (n / 16) + n % 16;
    assert n / 16 == 16 * (n / 0x100) + n / 16 % 16;
    assert n / 0x100 == 16 * (n / 0x1000) + n / 0x100 % 16;
  }

  lemma ReadHex4(s: string, n: nat)
    requires HexNumber(s).Some? && n < 0x10000
    ensures HexNumber(s + Hex4(n)) == Some(0x10000 * HexNumber(s).value + n)
  {
    hide HexNumber, HexDigit;
    var a, b, c, d := n / 0x1000, n / 0x100 % 16, n / 16 % 16, n % 16;
    FourDigits(n);
    assert Hex4(n) == [HexDigit(a)] + [HexDigit(b)] + [HexDigit(c)] + [HexDigit(d)];
    hide Hex4;
    HexNumberSnoc(s, a);
    HexNumberSnoc(s + [HexDigit(a)], b);
    HexNumberSnoc(s + [HexDigit(a)] + [HexDigit(b)], c);
    HexNumberSnoc(s + [HexDigit(a)] + [HexDigit(b)] + [HexDigit(c)], d);
    assert s + Hex4(n) == s + [HexDigit(a)] + [HexDigit(b)] + [HexDigit(c)] + [HexDigit(d)];
  }

  /** One character inside fmt's %q. */
  function Escape(c: char): string {
    if c == '"' || c == '\\' then ['\\', c]
    else if c == '\U{0007}' then ['\\', 'a']
    else if c == '\U{0008}' then ['\\', 'b']
    else if c == '\U{0009}' then ['\\', 't']
    else if c == '\U{000A}' then ['\\', 'n']
    else if c == '\U{000B}' then ['\\', 'v']
    else if c == '\U{000C}' then ['\\', 'f']
    else if c == '\U{000D}' then ['\\', 'r']
    else if c < ' ' || c == '\U{007F}' then
      ['\\', 'x', HexDigit(c as int / 16), HexDigit(c as int % 16)]
    else if c <= '~' || IS_PRINT(c) then [c]
    else if c as int < 0x10000 then ['\\', 'u'] + Hex4(c as int)
    else ['\\', 'U'] + (Hex4(c as int / 0x10000) + Hex4(c as int % 0x10000))
  }

  lemma HexDigitIs(n: nat)
    requires n < 16
    ensures HexDigit(n) == "0123456789abcdef"[n]
  {}

  /** The escapes of %q, each as it is written. */
  lemma EscapedExactly(c: char)
    ensures Escape('"') == "\\\"" && Escape('\\') == "\\\\"
    ensures Escape(7 as char) == "\\a" && Escape(8 as char) == "\\b" && Escape(9 as char) == "\\t"
    ensures Escape(10 as char) == "\\n" && Escape(11 as char) == "\\v" && Escape(12 as char) == "\\f"
    ensures Escape(13 as char) == "\\r"
    ensures ' ' <= c <= '~' && c != '"' && c != '\\' ==> Escape(c) == [c]
    ensures (c as int < 32 && !(7 <= c as int <= 13)) || c as int == 127 ==>
      Escape(c) == "\\x" + ["0123456789abcdef"[c as int / 16], "0123456789abcdef"[c as int % 16]]
    ensures 127 < c as int && IS_PRINT(c) ==> Escape(c) == [c]
    ensures 127 < c as int < 0x10000 && !IS_PRINT(c) ==> Escape(c) == "\\u" + Hex4(c as int)
    ensures 0x10000 <= c as int && !IS_PRINT(c) ==>
      Escape(c) == "\\U" + (Hex4(c as int / 0x10000) + Hex4(c as int % 0x10000))
  {
    hide Hex4, HexDigit;
    if c as int < 128 {
      HexDigitIs(c as int / 16);
      HexDigitIs(c as int % 16);
    }
  }

  /** The number of hexadecimal digits behind a letter. */
  function HexWidth(c: char): nat {
    match c
    case 'x' => 2
    case 'u' => 4
    case 'U' => 8
    case _ => 0
  }

  predicate IsCodePoint(n: nat) { n < 0xD800 || 0xE000 <= n < 0x110000 }

  function EscapeAll(s: string): string {
    if s == [] then [] else Escape(s[0]) + EscapeAll(s[1..])
  }

  /** fmt's %q. */
  function Quote(s: string): string {
    ['"'] + EscapeAll(s) + ['"']
  }

  function Unescape(c: char): Option<char> {
    match c
    case '"' => Some('"')
    case '\\' => Some('\\')
    case 'a' => Some('\U{0007}')
    case 'b' => Some('\U{0008}')
    case 't' => Some('\U{0009}')
    case 'n' => Some('\U{000A}')
    case 'v' => Some('\U{000B}')
    case 'f' => Some('\U{000C}')
    case 'r' => Some('\U{000D}')
    case _ => None
  }

  /** One possibly escaped character at the head of s, and what follows it. */
  function ReadChar(s: string): (r: Option<(char, string)>)
    requires s != []
    ensures r.Some? ==> |r.value.1| < |s|
  {
    if s[0] != '\\' then Some((s[0], s[1..]))
    else if |s| < 2 then None
    else if HexWidth(s[1]) == 0 then
      match Unescape(s[1])
      case Some(c) => Some((c, s[2..]))
      case None => None
    else
      var end := 2 + HexWidth(s[1]);
      if |s| < end then None
      else
        match HexNumber(s[2..end])
        case Some(n) => if IsCodePoint(n) then Some((n as char, s[end..])) else None
        case None => None
  }

  /** The rest of a quoted string whose opening quote has been consumed. */
  function ReadBody(s: string): Option<(string, string)>
    decreases |s|
  {
    if s == [] then None
    else if s[0] == '"' then Some(([], s[1..]))
    else
      match ReadChar(s)
      case None => None
      case Some((c, rest)) =>
        match ReadBody(rest)
        case None => None
        case Some((t, rest')) => Some(([c] + t, rest'))
  }

  lemma ReadEscaped(c: char, rest: string)
    ensures Escape(c)[0] != '"'
    ensures ReadChar(Escape(c) + rest) == Some((c, rest))
  {
    hide HexNumber, HexDigit, Hex4;
    if |Escape(c)| > 2 {
      ReadLongEscape(c, rest);
    } else {
      assert (Escape(c) + rest)[|Escape(c)|..] == rest;
    }
  }

  lemma ReadLongEscape(c: char, rest: string)
    requires |Escape(c)| > 2
    ensures ReadChar(Escape(c) + rest) == Some((c, rest)) && Escape(c)[0] != '"'
  {
    EscapedNumber(c);
    hide HexNumber, Escape;
    var s := Escape(c) + rest;
    assert s[2..|Escape(c)|] == Escape(c)[2..] && s[|Escape(c)|..] == rest;
    assert IsCodePoint(c as int);
  }

  lemma ReadHex2(n: nat)
    requires n < 0x100
    ensures HexNumber([HexDigit(n / 16), HexDigit(n % 16)]) == Some(n)
  {
    hide HexDigit;
    var a, b := n / 16, n % 16;
    NoDigits();
    hide HexNumber;
    HexNumberSnoc([], a);
    assert [] + [HexDigit(a)] == [HexDigit(a)];
    HexNumberSnoc([HexDigit(a)], b);
    assert [HexDigit(a)] + [HexDigit(b)] == [HexDigit(a), HexDigit(b)];
  }

  lemma ReadHex8(n: nat)
    requires n < 0x10000 * 0x10000
    ensures HexNumber(Hex4(n / 0x10000) + Hex4(n % 0x10000)) == Some(n)
    ensures n < 0x10000 ==> HexNumber(Hex4(n)) == Some(n)
  {
    hide HexNumber, Hex4;
    NoDigits();
    ReadHex4([], n / 0x10000);
    assert [] + Hex4(n / 0x10000) == Hex4(n / 0x10000);
    ReadHex4(Hex4(n / 0x10000), n % 0x10000);
    if n < 0x10000 {
      ReadHex4([], n);
      assert [] + Hex4(n) == Hex4(n);
    }
  }

  /** The digits of an escaped character are its code point. */
  lemma EscapedNumber(c: char)
    requires |Escape(c)| > 2
    ensures HexNumber(Escape(c)[2..]) == Some(c as int)
    ensures Escape(c)[0] == '\\' && |Escape(c)| == 2 + HexWidth(Escape(c)[1])
  {
    hide HexNumber, HexDigit, Hex4;
    var n := c as int;
    ReadHex8(n);
    if n < 0x100 { ReadHex2(n); }
    if c < ' ' || c == '\U{007F}' {
      assert Escape(c)[2..] == [HexDigit(n / 16), HexDigit(n % 16)];
    } else if n < 0x10000 {
      assert Escape(c)[2..] == Hex4(n);
    } else {
      assert Escape(c)[2..] == Hex4(n / 0x10000) + Hex4(n % 0x10000);
    }
  }

  lemma NoDigits()
    ensures HexNumber([]) == Some(0)
  {}

  lemma {:induction false} ReadQuotedBody(t: string, rest: string)
    ensures ReadBody(EscapeAll(t) + (['"'] + rest)) == Some((t, rest))
  {
    if t == [] {
      assert EscapeAll(t) + (['"'] + rest) == ['"'] + rest;
    } else {
      var tail := EscapeAll(t[1..]) + (['"'] + rest);
      assert EscapeAll(t) + (['"'] + rest) == Escape(t[0]) + tail;
      ReadEscaped(t[0], tail);
      ReadQuotedBody(t[1..], rest);
      assert t == [t[0]] + t[1..];
    }
  }

  /** A quoted string at the head of s, and what follows it. */
  function ReadQuoted(s: string): Option<(string, string)> {
    if s == [] || s[0] != '"' then None else ReadBody(s[1..])
  }

  lemma ReadQuote(t: string, rest: string)
    ensures ReadQuoted(Quote(t) + rest) == Some((t, rest))
  {
    ReadQuotedBody(t, rest);
    assert (Quote(t) + rest)[1..] == EscapeAll(t) + (['"'] + rest);
  }

  lemma {:induction false} EscapedHasNoNewline(t: string)
    ensures '\n' !in EscapeAll(t)
  {
    if t == [] {
    } else {
      EscapedHasNoNewline(t[1..]);
      EscapeInLine(t[0]);
    }
  }

  lemma EscapeInLine(c: char)
    ensures '\n' !in Escape(c)
  {
    hide Hex4;
    forall n: nat | n < 0x10000 ensures '\n' !in Hex4(n) { HexInLine(n); }
  }

  lemma HexInLine(n: nat)
    requires n < 0x10000
    ensures '\n' !in Hex4(n)
  {
    assert forall d: nat :: d < 16 ==> HexDigit(d) != '\n';
  }

  // ---- lines ----------------------------------------------------------------

  datatype Key = Bare(word: string) | Quoted(text: string)

  datatype Scalar = Str(s: string) | Num(n: nat) | Flag(b: bool) | Word(w: string)

  datatype Item =
    | Comment(c: string)
    | Open(k: Key)
    | Entry(k: Key, v: Scalar)
    | Dash(s: string)
    | DashWeighted(field: string, addr: string, weight: nat)
    | DashEntry(field: string, v: Scalar)

  datatype Line = Line(depth: nat, item: Item)

  predicate IsBlank(c: char) { c == ' ' }

  predicate InLine(c: char) { c != '\n' }

  predicate BeforeColon(c: char) { c != ':' }

  predicate IsWord(w: string) {
    w != [] && 'a' <= w[0] <= 'z' && ':' !in w && '\n' !in w
  }

  predicate ValidKey(k: Key) { k.Bare? ==> IsWord(k.word) }

  predicate ValidScalar(v: Scalar) { v.Word? ==> IsWord(v.w) && v.w != "true" && v.w != "false" }

  predicate ValidItem(i: Item) {
    match i
    case Comment(c) => '\n' !in c
    case Open(k) => ValidKey(k)
    case Entry(k, v) => ValidKey(k) && ValidScalar(v)
    case Dash(_) => true
    case DashWeighted(f, _, _) => IsWord(f)
    case DashEntry(f, v) => IsWord(f) && ValidScalar(v)
  }

  function KeyText(k: Key): string {
    match k
    case Bare(w) => w
    case Quoted(t) => Quote(t)
  }

  function ScalarText(v: Scalar): string {
    match v
    case Str(s) => Quote(s)
    case Num(n) => NatText(n)
    case Flag(b) => if b then "true" else "false"
    case Word(w) => w
  }

  function WeightedText(field: string, addr: string, weight: nat): string {
    "{ " + (field + (": " + (Quote(addr) + (", weight: " + (NatText(weight) + " }")))))
  }

  function ItemText(i: Item): string {
    match i
    case Comment(c) => "# " + c
    case Open(k) => KeyText(k) + ":"
    case Entry(k, v) => KeyText(k) + (": " + ScalarText(v))
    case Dash(s) => "- " + Quote(s)
    case DashWeighted(f, a, w) => "- " + WeightedText(f, a, w)
    case DashEntry(f, v) => "- " + (f + (": " + ScalarText(v)))
  }

  function Spaces(n: nat): string { seq(n, i => ' ') }

  /** One line of the document, with its newline. */
  function Ln(depth: nat, i: Item): string {
    Spaces(2 * depth) + ItemText(i) + ['\n']
  }

  // ---- reading one line -------------------------------------------------------

  /** What follows the literal p at the head of s. */
  function Expect(s: string, p: string): Option<string> {
    if HasPrefix(s, p) then Some(s[|p|..]) else None
  }

  lemma ExpectAppend(p: string, rest: string)
    ensures Expect(p + rest, p) == Some(rest)
  {}

  function ReadScalar(s: string): Option<Scalar> {
    if s == [] then None
    else if s[0] == '"' then
      match ReadQuoted(s)
      case Some((t, rest)) => if rest == [] then Some(Str(t)) else None
      case None => None
    else if Span(s, IsDigit) == |s| then Some(Num(DigitsValue(s)))
    else if s == "true" then Some(Flag(true))
    else if s == "false" then Some(Flag(false))
    else if IsWord(s) then Some(Word(s))
    else None
  }

  function ReadWeighted(s: string): Option<Item> {
    match Expect(s, "{ ")
    case None => None
    case Some(s1) =>
      var n := Span(s1, BeforeColon);
      match Expect(s1[n..], ": ")
      case None => None
      case Some(s2) =>
        match ReadQuoted(s2)
        case None => None
        case Some((a, s3)) =>
          match Expect(s3, ", weight: ")
          case None => None
          case Some(s4) =>
            var d := Span(s4, IsDigit);
            assert forall i :: 0 <= i < d ==> s4[..d][i] == s4[i];
            if s4[d..] == " }" then Some(DashWeighted(s1[..n], a, DigitsValue(s4[..d]))) else None
  }

  function ReadDashed(s: string): Option<Item> {
    if s == [] then None
    else if s[0] == '"' then
      match ReadQuoted(s)
      case Some((t, rest)) => if rest == [] then Some(Dash(t)) else None
      case None => None
    else if s[0] == '{' then ReadWeighted(s)
    else
      var n := Span(s, BeforeColon);
      match Expect(s[n..], ": ")
      case None => None
      case Some(rest) =>
        match ReadScalar(rest)
        case Some(v) => Some(DashEntry(s[..n], v))
        case None => None
  }

  function ReadAfterKey(k: Key, s: string): Option<Item> {
    if s == ":" then Some(Open(k))
    else
      match Expect(s, ": ")
      case None => None
      case Some(rest) =>
        match ReadScalar(rest)
        case Some(v) => Some(Entry(k, v))
        case None => None
  }

  function ReadKeyed(s: string): Option<Item> {
    if s != [] && s[0] == '"' then
      match ReadQuoted(s)
      case Some((t, rest)) => ReadAfterKey(Quoted(t), rest)
      case None => None
    else
      var n := Span(s, BeforeColon);
      ReadAfterKey(Bare(s[..n]), s[n..])
  }

  function ReadItem(s: string): Option<Item> {
    if s == [] then None
    else if s[0] == '#' then
      match Expect(s, "# ")
      case Some(c) => Some(Comment(c))
      case None => None
    else if s[0] == '-' then
      match Expect(s, "- ")
      case Some(rest) => ReadDashed(rest)
      case None => None
    else ReadKeyed(s)
  }

  function ReadLine(s: string): Option<Line> {
    var n := Span(s, IsBlank);
    match ReadItem(s[n..])
    case Some(i) => if n % 2 == 0 then Some(Line(n / 2, i)) else None
    case None => None
  }

  lemma ReadScalarText(v: Scalar)
    requires ValidScalar(v)
    ensures ReadScalar(ScalarText(v)) == Some(v)
  {
    var t := ScalarText(v);
    match v
    case Str(s) =>
      ReadQuote(s, []);
      assert Quote(s) + [] == Quote(s);
    case Num(n) =>
      SpanAppend(t, [], IsDigit);
      assert t + [] == t;
      assert t[0] in t;
      DigitsOfNatText(n);
    case Flag(b) =>
      assert !IsDigit(t[0]);
    case Word(w) =>
      assert !IsDigit(w[0]);
  }

  lemma SpanWord(w: string, rest: string)
    requires IsWord(w) && rest != [] && rest[0] == ':'
    ensures Span(w + rest, BeforeColon) == |w|
    ensures (w + rest)[..|w|] == w && (w + rest)[|w|..] == rest
  {
    SpanAppend(w, rest, BeforeColon);
  }

  lemma ReadWeightedText(f: string, a: string, w: nat)
    requires IsWord(f)
    ensures ReadWeighted(WeightedText(f, a, w)) == Some(DashWeighted(f, a, w))
  {
    var s4 := NatText(w) + " }";
    var s3 := ", weight: " + s4;
    var s2 := Quote(a) + s3;
    var s1 := f + (": " + s2);
    ExpectAppend("{ ", s1);
    SpanWord(f, ": " + s2);
    ExpectAppend(": ", s2);
    ReadQuote(a, s3);
    ExpectAppend(", weight: ", s4);
    SpanAppend(NatText(w), " }", IsDigit);
    assert s4[..|NatText(w)|] == NatText(w) && s4[|NatText(w)|..] == " }";
    DigitsOfNatText(w);
  }

  lemma ReadAfterKeyText(k: Key, v: Scalar)
    requires ValidScalar(v)
    ensures ReadAfterKey(k, ": " + ScalarText(v)) == Some(Entry(k, v))
  {
    ReadScalarText(v);
    assert ScalarText(v) != [] by { if v.Num? { assert NatText(v.n) != []; } }
    assert |": " + ScalarText(v)| > 1;
    ExpectAppend(": ", ScalarText(v));
  }

  lemma ReadKeyedText(k: Key, rest: string)
    requires ValidKey(k) && rest != [] && rest[0] == ':'
    ensures ReadKeyed(KeyText(k) + rest) == ReadAfterKey(k, rest)
  {
    match k
    case Bare(w) =>
      SpanWord(w, rest);
      assert (w + rest)[0] == w[0];
    case Quoted(t) =>
      ReadQuote(t, rest);
  }

  lemma KeyHead(k: Key)
    requires ValidKey(k)
    ensures KeyText(k) != [] && KeyText(k)[0] !in {' ', '#', '-'}
  {}

  lemma ItemHead(i: Item)
    requires ValidItem(i)
    ensures ItemText(i) != [] && ItemText(i)[0] != ' '
  {
    match i
    case Open(k) => KeyHead(k);
    case Entry(k, v) => KeyHead(k);
    case _ =>
  }

  lemma ReadDashedQuote(s: string)
    ensures ReadDashed(Quote(s)) == Some(Dash(s))
  {
    ReadQuote(s, []);
    assert Quote(s) + [] == Quote(s);
  }

  lemma ReadDashedEntry(f: string, v: Scalar)
    requires IsWord(f) && ValidScalar(v)
    ensures ReadDashed(f + (": " + ScalarText(v))) == Some(DashEntry(f, v))
  {
    var t := f + (": " + ScalarText(v));
    SpanWord(f, ": " + ScalarText(v));
    ExpectAppend(": ", ScalarText(v));
    ReadScalarText(v);
    assert t[0] == f[0];
  }

  /** The text of an item after its "- ", for the dashed ones. */
  function DashedText(i: Item): string
    requires i.Dash? || i.DashWeighted? || i.DashEntry?
  {
    match i
    case Dash(s) => Quote(s)
    case DashWeighted(f, a, w) => WeightedText(f, a, w)
    case DashEntry(f, v) => f + (": " + ScalarText(v))
  }

  lemma ReadDashedText(i: Item)
    requires ValidItem(i) && (i.Dash? || i.DashWeighted? || i.DashEntry?)
    ensures ReadDashed(DashedText(i)) == Some(i)
  {
    match i
    case Dash(s) => ReadDashedQuote(s);
    case DashWeighted(f, a, w) => ReadWeightedText(f, a, w);
    case DashEntry(f, v) => ReadDashedEntry(f, v);
  }

  lemma ReadKeyedItem(i: Item)
    requires ValidItem(i) && (i.Open? || i.Entry?)
    ensures ReadKeyed(ItemText(i)) == Some(i)
  {
    if i.Open? {
      ReadKeyedText(i.k, ":");
    } else {
      ReadKeyedText(i.k, ": " + ScalarText(i.v));
      ReadAfterKeyText(i.k, i.v);
    }
  }

  lemma ReadItemText(i: Item)
    requires ValidItem(i)
    ensures ReadItem(ItemText(i)) == Some(i)
  {
    if i.Comment? {
      ExpectAppend("# ", i.c);
    } else if i.Open? || i.Entry? {
      KeyHead(i.k);
      ReadKeyedItem(i);
    } else {
      assert ItemText(i) == "- " + DashedText(i);
      ExpectAppend("- ", DashedText(i));
      ReadDashedText(i);
    }
  }

  lemma ReadIndented(sp: string, t: string, depth: nat)
    requires sp == Spaces(2 * depth)
    requires t != [] && t[0] != ' ' && ReadItem(t).Some?
    ensures ReadLine(sp + t) == Some(Line(depth, ReadItem(t).value))
  {
    SpanAppend(sp, t, IsBlank);
    assert (sp + t)[|sp|..] == t;
  }

  lemma ReadLineText(l: Line)
    requires ValidItem(l.item)
    ensures ReadLine(Spaces(2 * l.depth) + ItemText(l.item)) == Some(l)
  {
    var sp, t := Spaces(2 * l.depth), ItemText(l.item);
    ItemHead(l.item);
    ReadItemText(l.item);
    ReadIndented(sp, t, l.depth);
  }

  lemma ItemHasNoNewline(i: Item)
    requires ValidItem(i)
    ensures '\n' !in ItemText(i)
  {
    match i
    case Comment(c) =>
    case Open(k) => KeyHasNoNewline(k);
    case Entry(k, v) => KeyHasNoNewline(k); ScalarHasNoNewline(v);
    case Dash(s) => EscapedHasNoNewline(s);
    case DashWeighted(f, a, w) => WeightedHasNoNewline(f, a, w);
    case DashEntry(f, v) => ScalarHasNoNewline(v);
  }

  lemma WeightedHasNoNewline(f: string, a: string, w: nat)
    requires IsWord(f)
    ensures '\n' !in WeightedText(f, a, w)
  {
    EscapedHasNoNewline(a);
    assert '\n' !in f && '\n' !in Quote(a);
    var s4 := NatText(w) + " }";
    assert '\n' !in s4;
    var s3 := ", weight: " + s4;
    assert '\n' !in s3;
    var s2 := Quote(a) + s3;
    assert '\n' !in s2;
  }

  lemma KeyHasNoNewline(k: Key)
    requires ValidKey(k)
    ensures '\n' !in KeyText(k)
  {
    if k.Quoted? { EscapedHasNoNewline(k.text); }
  }

  lemma ScalarHasNoNewline(v: Scalar)
    requires ValidScalar(v)
    ensures '\n' !in ScalarText(v)
  {
    match v
    case Str(s) => EscapedHasNoNewline(s);
    case Num(n) => assert '\n' !in NatText(n);
    case _ =>
  }

  // ---- documents ------------------------------------------------------------

  function LinesText(ls: seq<Line>): string {
    if ls == [] then [] else Ln(ls[0].depth, ls[0].item) + LinesText(ls[1..])
  }

  function ReadLines(text: string): Option<seq<Line>>
    decreases |text|
  {
    if text == [] then Some([]) else
      var n := Span(text, InLine);
      if n == |text| then None else
        match (ReadLine(text[..n]), ReadLines(text[n + 1..]))
        case (Some(l), Some(ls)) => Some([l] + ls)
        case _ => None
  }

  lemma ReadLinesCons(body: string, rest: string, l: Line, ls: seq<Line>)
    requires '\n' !in body
    requires ReadLine(body) == Some(l) && ReadLines(rest) == Some(ls)
    ensures ReadLines(body + (['\n'] + rest)) == Some([l] + ls)
  {
    hide ReadLine;
    var text := body + (['\n'] + rest);
    SpanAppend(body, ['\n'] + rest, InLine);
    assert text[..|body|] == body && text[|body| + 1..] == rest;
  }

  lemma {:induction false} ReadLinesText(ls: seq<Line>)
    requires forall l :: l in ls ==> ValidItem(l.item)
    ensures ReadLines(LinesText(ls)) == Some(ls)
  {
    hide ReadLine, ItemText, Spaces, ValidItem;
    if ls == [] {
    } else {
      var l := ls[0];
      var body := Spaces(2 * l.depth) + ItemText(l.item);
      assert '\n' !in body by { ItemHasNoNewline(l.item); SpacesAreBlank(2 * l.depth); }
      ReadLineText(l);
      ReadLinesText(ls[1..]);
      ReadLinesCons(body, LinesText(ls[1..]), l, ls[1..]);
      assert LinesText(ls) == body + (['\n'] + LinesText(ls[1..]));
      assert ls == [l] + ls[1..];
    }
  }

  lemma SpacesAreBlank(n: nat)
    ensures '\n' !in Spaces(n)
  {}

  // ---- forests ----------------------------------------------------------------

  datatype Node = Node(item: Item, kids: seq<Node>)

  predicate ValidForest(ns: seq<Node>) {
    ns == [] || (ValidItem(ns[0].item) && ValidForest(ns[0].kids) && ValidForest(ns[1..]))
  }

  function Print(ns: seq<Node>, depth: nat): string {
    if ns == [] then []
    else Ln(depth, ns[0].item) + Print(ns[0].kids, depth + 1) + Print(ns[1..], depth)
  }

  function LinesOf(ns: seq<Node>, depth: nat): seq<Line> {
    if ns == [] then []
    else [Line(depth, ns[0].item)] + LinesOf(ns[0].kids, depth + 1) + LinesOf(ns[1..], depth)
  }

  /** The nodes at the given depth, and the lines left over. */
  function Parse(ls: seq<Line>, depth: nat): (r: (seq<Node>, seq<Line>))
    ensures |r.1| <= |ls|
    decreases |ls|
  {
    if ls == [] || ls[0].depth != depth then ([], ls) else
      var (kids, rest) := Parse(ls[1..], depth + 1);
      var (siblings, rest') := Parse(rest, depth);
      ([Node(ls[0].item, kids)] + siblings, rest')
  }

  /** The reader: text to lines to forest. */
  function ReadForest(text: string): Option<seq<Node>> {
    match ReadLines(text)
    case None => None
    case Some(ls) =>
      var (ns, rest) := Parse(ls, 0);
      if rest == [] then Some(ns) else None
  }

  lemma {:induction false} ParseLinesOf(ns: seq<Node>, depth: nat, rest: seq<Line>)
    requires rest == [] || rest[0].depth < depth
    ensures Parse(LinesOf(ns, depth) + rest, depth) == (ns, rest)
    decreases ns
  {
    if ns == [] {
      assert LinesOf(ns, depth) + rest == rest;
    } else {
      var kids, siblings := ns[0].kids, LinesOf(ns[1..], depth) + rest;
      assert siblings == [] || siblings[0].depth < depth + 1;
      ParseLinesOf(kids, depth + 1, siblings);
      ParseLinesOf(ns[1..], depth, rest);
      LinesOfCons(ns, depth, rest);
      ParseCons(ns, LinesOf(kids, depth + 1) + siblings, siblings, rest, depth);
    }
  }

  lemma LinesOfCons(ns: seq<Node>, depth: nat, rest: seq<Line>)
    requires ns != []
    ensures LinesOf(ns, depth) + rest
         == [Line(depth, ns[0].item)] + (LinesOf(ns[0].kids, depth + 1) + (LinesOf(ns[1..], depth) + rest))
  {
  }

  lemma ParseCons(ns: seq<Node>, ls: seq<Line>, after: seq<Line>, rest: seq<Line>, depth: nat)
    requires ns != []
    requires Parse(ls, depth + 1) == (ns[0].kids, after)
    requires Parse(after, depth) == (ns[1..], rest)
    ensures Parse([Line(depth, ns[0].item)] + ls, depth) == (ns, rest)
  {
    assert ([Line(depth, ns[0].item)] + ls)[1..] == ls;
    assert ns == [Node(ns[0].item, ns[0].kids)] + ns[1..];
  }

  lemma {:induction false} LinesTextAppend(a: seq<Line>, b: seq<Line>)
    ensures LinesText(a + b) == LinesText(a) + LinesText(b)
  {
    if a == [] {
      assert a + b == b;
    } else {
      assert (a + b)[1..] == a[1..] + b;
      LinesTextAppend(a[1..], b);
    }
  }

  lemma {:induction false} PrintIsLinesText(ns: seq<Node>, depth: nat)
    ensures Print(ns, depth) == LinesText(LinesOf(ns, depth))
  {
    if ns == [] {
    } else {
      var head := [Line(depth, ns[0].item)];
      var kids := LinesOf(ns[0].kids, depth + 1);
      var rest := LinesOf(ns[1..], depth);
      PrintIsLinesText(ns[0].kids, depth + 1);
      PrintIsLinesText(ns[1..], depth);
      LinesTextAppend(head + kids, rest);
      LinesTextAppend(head, kids);
      assert head[1..] == [];
      assert LinesText(head) == Ln(depth, ns[0].item);
    }
  }

  lemma {:induction false} LinesOfValid(ns: seq<Node>, depth: nat)
    requires ValidForest(ns)
    ensures forall l :: l in LinesOf(ns, depth) ==> ValidItem(l.item)
  {
    if ns == [] {
    } else {
      LinesOfValid(ns[0].kids, depth + 1);
      LinesOfValid(ns[1..], depth);
    }
  }

  /** Reading a printed document gives the document back. */
  lemma ReadPrinted(ns: seq<Node>)
    requires ValidForest(ns)
    ensures ReadForest(Print(ns, 0)) == Some(ns)
  {
    PrintIsLinesText(ns, 0);
    LinesOfValid(ns, 0);
    ReadLinesText(LinesOf(ns, 0));
    ParseLinesOf(ns, 0, []);
    assert LinesOf(ns, 0) + [] == LinesOf(ns, 0);
  }

  lemma {:induction false} PrintAppend(a: seq<Node>, b: seq<Node>, depth: nat)
    ensures Print(a + b, depth) == Print(a, depth) + Print(b, depth)
  {
    if a == [] {
      assert a + b == b;
    } else {
      assert (a + b)[1..] == a[1..] + b;
      PrintAppend(a[1..], b, depth);
    }
  }

  lemma PrintNone(depth: nat)
    ensures Print([], depth) == []
  {}

  lemma PrintOne(n: Node, depth: nat)
    ensures Print([n], depth) == Ln(depth, n.item) + Print(n.kids, depth + 1)
  {
    assert [n][1..] == [];
  }

  lemma {:induction false} ValidAppend(a: seq<Node>, b: seq<Node>)
    requires ValidForest(a) && ValidForest(b)
    ensures ValidForest(a + b)
  {
    if a == [] {
      assert a + b == b;
    } else {
      assert (a + b)[1..] == a[1..] + b;
      ValidAppend(a[1..], b);
    }
  }
}
