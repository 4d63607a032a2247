/** The rollout hash over config ConfigMaps and Secrets (hashConfigSources in
    controllers/configmap_controller.go): what the hashed text looks like, which sources, keys and
    values it counts, and what exactly it depends on. */
module ConfigHash {
  import opened Wrappers
  import opened Strings
  import opened Sorting
  import opened Yaml
  import opened HotReload

  /** The labelled objects of one namespace. */
  datatype Source =
    | ConfigMap(name: string, data: map<string, string>, binaryData: map<string, string>)
    | Secret(name: string, bytes: map<string, string>)

  type Records = map<string, string>

  /** SHA-256 in hex: different texts, different digests, none of them empty. */
  ghost predicate GoodHash(h: string -> string) {
    && (forall a, b :: h(a) == h(b) ==> a == b)
    && (forall a :: h(a) != "" && '\0' !in h(a))
  }

  // ---- encoding a table ------------------------------------------------------------------

  /** Each part followed by the terminator. */
  function Terminated(parts: seq<string>): string {
    if parts == [] then "" else parts[0] + ['\0'] + Terminated(parts[1..])
  }

  lemma {:induction false} SplitTerminated(parts: seq<string>)
    requires forall p :: p in parts ==> '\0' !in p
    ensures Split(Terminated(parts), '\0') == parts + [""]
  {
    if parts == [] {
      SplitNone("", '\0');
    } else {
      SplitTerminated(parts[1..]);
      SplitCons(parts[0], '\0', Terminated(parts[1..]));
    }
  }

  /** The parts of the parts: what the NULs of the text separate. */
  function Tokens(parts: seq<string>): seq<string> {
    if parts == [] then [] else Split(parts[0], '\0') + Tokens(parts[1..])
  }

  lemma {:induction false} SplitTokens(parts: seq<string>)
    ensures Split(Terminated(parts), '\0') == Tokens(parts) + [""]
  {
    hide Split;
    if parts == [] {
      SplitNone("", '\0');
    } else {
      SplitTokens(parts[1..]);
      SplitAround(parts[0], '\0', Terminated(parts[1..]));
    }
  }

  lemma {:induction false} JoinTokens(parts: seq<string>)
    ensures Terminated(parts) == Terminated(Tokens(parts))
  {
    hide Split;
    if parts == [] {
    } else {
      JoinTokens(parts[1..]);
      TerminatedAppend(Split(parts[0], '\0'), Tokens(parts[1..]));
      TerminatedSplit(parts[0]);
    }
  }

  lemma {:induction false} TerminatedAppend(a: seq<string>, b: seq<string>)
    ensures Terminated(a + b) == Terminated(a) + Terminated(b)
  {
    if a == [] {
      assert a + b == b;
    } else {
      assert (a + b)[1..] == a[1..] + b;
      TerminatedAppend(a[1..], b);
    }
  }

  lemma TerminatedCons(head: string, rest: seq<string>)
    ensures Terminated([head] + rest) == head + ['\0'] + Terminated(rest) && Terminated([]) == ""
  {
    assert ([head] + rest)[1..] == rest;
  }

  lemma {:induction false} TerminatedSplit(s: string)
    ensures Terminated(Split(s, '\0')) == s + ['\0']
    decreases |s|
  {
    hide Split, Terminated;
    if '\0' !in s {
      SplitNone(s, '\0');
      TerminatedCons(s, []);
      assert [s] + [] == [s];
    } else {
      var n := Span(s, x => x != '\0');
      var head, tail := s[..n], s[n + 1..];
      assert s == head + ['\0'] + tail;
      SplitCons(head, '\0', tail);
      TerminatedCons(head, Split(tail, '\0'));
      TerminatedSplit(tail);
    }
  }

  /** A record as written: the kind letter without its colon and the key, then the value.
      Entries of the combined hash (not tagged) keep their key as it is; a ConfigMap record
      with an empty key is written as a bare terminator. */
  function Piece(k: string, v: string, tagged: bool): seq<string> {
    if !tagged then [k, v]
    else if |k| > 2 || (|k| == 2 && k[0] == 'd') then [[k[0]] + k[2..], v]
    else [""]
  }

  predicate GoodKey(k: string, tagged: bool) { tagged ==> |k| > 2 && k[1] == ':' }

  function Pieces(keys: seq<string>, m: Records, tagged: bool): seq<string>
    requires forall k :: k in keys ==> k in m
  {
    if keys == [] then [] else Piece(keys[0], m[keys[0]], tagged) + Pieces(keys[1..], m, tagged)
  }

  lemma PieceClean(k: string, v: string, tagged: bool)
    requires '\0' !in k && '\0' !in v
    ensures forall p :: p in Piece(k, v, tagged) ==> '\0' !in p
  {
    if tagged && |k| >= 2 {
      assert '\0' !in [k[0]] + k[2..];
    }
  }

  lemma {:induction false} PiecesClean(keys: seq<string>, m: Records, tagged: bool)
    requires forall k :: k in keys ==> k in m && '\0' !in k && '\0' !in m[k]
    ensures forall p :: p in Pieces(keys, m, tagged) ==> '\0' !in p
  {
    hide Piece;
    if keys == [] {
    } else {
      PieceClean(keys[0], m[keys[0]], tagged);
      PiecesClean(keys[1..], m, tagged);
    }
  }

  lemma PieceDetermines(k: string, v: string, k': string, v': string, tagged: bool)
    requires GoodKey(k, tagged) && GoodKey(k', tagged)
    ensures |Piece(k, v, tagged)| == 2
    ensures Piece(k, v, tagged)[0] == Piece(k', v', tagged)[0] ==> k == k'
    ensures Piece(k, v, tagged)[1] == v
  {
    if tagged && Piece(k, v, tagged)[0] == Piece(k', v', tagged)[0] {
      assert k == [k[0]] + [':'] + k[2..] && k' == [k'[0]] + [':'] + k'[2..];
      assert ([k[0]] + k[2..])[1..] == k[2..] && ([k'[0]] + k'[2..])[1..] == k'[2..];
    }
  }

  lemma {:induction false} PiecesDetermine(keys: seq<string>, m: Records, keys': seq<string>, m': Records, tagged: bool)
    requires forall k :: k in keys ==> k in m && GoodKey(k, tagged)
    requires forall k :: k in keys' ==> k in m' && GoodKey(k, tagged)
    requires Pieces(keys, m, tagged) == Pieces(keys', m', tagged)
    ensures keys == keys' && forall k :: k in keys ==> m[k] == m'[k]
  {
    hide Piece, GoodKey;
    if keys != [] { PieceDetermines(keys[0], m[keys[0]], keys[0], "", tagged); }
    if keys' != [] { PieceDetermines(keys'[0], m'[keys'[0]], keys'[0], "", tagged); }
    if keys != [] && keys' != [] {
      var f, f' := Pieces(keys, m, tagged), Pieces(keys', m', tagged);
      PieceDetermines(keys[0], m[keys[0]], keys'[0], m'[keys'[0]], tagged);
      assert f[..2] == Piece(keys[0], m[keys[0]], tagged) && f[2..] == Pieces(keys[1..], m, tagged);
      assert f'[..2] == Piece(keys'[0], m'[keys'[0]], tagged) && f'[2..] == Pieces(keys'[1..], m', tagged);
      PiecesDetermine(keys[1..], m, keys'[1..], m', tagged);
      assert keys == [keys[0]] + keys[1..] && keys' == [keys'[0]] + keys'[1..];
    }
  }

  ghost function AllPieces(m: Records, tagged: bool): seq<string> {
    SortedKeysMembers(m.Keys);
    Pieces(SortedKeys(m.Keys), m, tagged)
  }

  /** A table written out in key order. */
  ghost function Stream(m: Records, tagged: bool): string { Terminated(AllPieces(m, tagged)) }

  /** Well-formed keys, and no NUL in keys or values. */
  ghost predicate Clean(m: Records, tagged: bool) {
    forall k :: k in m ==> GoodKey(k, tagged) && '\0' !in k && '\0' !in m[k]
  }

  lemma SplitStream(m: Records, tagged: bool)
    requires Clean(m, tagged)
    ensures Split(Stream(m, tagged), '\0') == AllPieces(m, tagged) + [""]
  {
    hide Terminated, Split, GoodKey, Pieces;
    SortedKeysMembers(m.Keys);
    PiecesClean(SortedKeys(m.Keys), m, tagged);
    SplitTerminated(AllPieces(m, tagged));
  }

  lemma DropLast(a: seq<string>, b: seq<string>)
    requires a + [""] == b + [""]
    ensures a == b
  {
    assert (a + [""])[..|a + [""]| - 1] == a && (b + [""])[..|b + [""]| - 1] == b;
  }

  /** Without NUL characters the written form determines the table. */
  lemma StreamInjective(m: Records, m': Records, tagged: bool)
    requires Clean(m, tagged) && Clean(m', tagged) && Stream(m, tagged) == Stream(m', tagged)
    ensures m == m'
  {
    hide Stream, GoodKey, Pieces, Split, AllPieces, SortedKeys;
    SplitStream(m, tagged);
    SplitStream(m', tagged);
    DropLast(AllPieces(m, tagged), AllPieces(m', tagged));
    SamePieces(m, m', tagged);
  }

  /** For all tables: they are written alike exactly when NULs cut them into the same
      tokens. */
  lemma StreamExact(m: Records, m': Records, tagged: bool)
    ensures Stream(m, tagged) == Stream(m', tagged) <==>
      Tokens(AllPieces(m, tagged)) == Tokens(AllPieces(m', tagged))
  {
    hide Terminated, Tokens, AllPieces, Split;
    var a, b := AllPieces(m, tagged), AllPieces(m', tagged);
    if Stream(m, tagged) == Stream(m', tagged) {
      SplitTokens(a);
      SplitTokens(b);
      DropLast(Tokens(a), Tokens(b));
    }
    if Tokens(a) == Tokens(b) {
      JoinTokens(a);
      JoinTokens(b);
    }
  }

  // one change at a time

  lemma PiecesCons(keys: seq<string>, m: Records, tagged: bool)
    requires keys != [] && forall k :: k in keys ==> k in m
    ensures forall k :: k in keys[1..] ==> k in m
    ensures Terminated(Pieces(keys, m, tagged)) ==
      Terminated(Piece(keys[0], m[keys[0]], tagged)) + Terminated(Pieces(keys[1..], m, tagged))
  {
    hide Piece, Terminated;
    TerminatedAppend(Piece(keys[0], m[keys[0]], tagged), Pieces(keys[1..], m, tagged));
  }

  lemma KeysOfBoth(a: seq<string>, b: seq<string>, m: Records)
    requires forall k :: k in a + b ==> k in m
    ensures (forall k :: k in a ==> k in m) && (forall k :: k in b ==> k in m)
  {
    assert forall k :: k in a || k in b ==> k in a + b;
  }

  lemma {:induction false} PiecesAppend(a: seq<string>, b: seq<string>, m: Records, tagged: bool)
    requires forall k :: k in a + b ==> k in m
    ensures (forall k :: k in a ==> k in m) && (forall k :: k in b ==> k in m)
    ensures Terminated(Pieces(a + b, m, tagged)) == Terminated(Pieces(a, m, tagged)) + Terminated(Pieces(b, m, tagged))
  {
    KeysOfBoth(a, b, m);
    if a == [] {
      assert a + b == b;
    } else {
      hide Piece, Terminated, Pieces;
      assert (a + b)[1..] == a[1..] + b && (a + b)[0] == a[0];
      PiecesCons(a + b, m, tagged);
      PiecesCons(a, m, tagged);
      PiecesAppend(a[1..], b, m, tagged);
      var head := Terminated(Piece(a[0], m[a[0]], tagged));
      var x, y := Terminated(Pieces(a[1..], m, tagged)), Terminated(Pieces(b, m, tagged));
      assert head + (x + y) == head + x + y;
    }
  }

  lemma {:induction false} PiecesSame(keys: seq<string>, m: Records, m': Records, tagged: bool)
    requires forall k :: k in keys ==> k in m && k in m' && m[k] == m'[k]
    ensures Pieces(keys, m, tagged) == Pieces(keys, m', tagged)
  {
    if keys == [] {
    } else {
      PiecesSame(keys[1..], m, m', tagged);
    }
  }

  lemma SortedWithout(s: seq<string>, j: nat)
    requires Sorted(s, StrLe) && j < |s|
    ensures Sorted(s[..j] + s[j + 1..], StrLe) && multiset(s) == multiset(s[..j] + s[j + 1..]) + multiset{s[j]}
  {
    hide StrLe;
    var rest := s[..j] + s[j + 1..];
    forall x, y | 0 <= x < y < |rest| ensures StrLe(rest[x], rest[y]) {
      assert rest[x] == s[if x < j then x else x + 1] && rest[y] == s[if y < j then y else y + 1];
    }
    assert s == s[..j] + [s[j]] + s[j + 1..];
  }

  /** The keys of a table around one of them. */
  lemma AroundKey(keys: set<string>, k: string) returns (a: seq<string>, b: seq<string>)
    requires k in keys
    ensures SortedKeys(keys) == a + [k] + b && SortedKeys(keys - {k}) == a + b
  {
    hide *;
    SortedKeysMembers(keys);
    var s := SortedKeys(keys);
    var j :| 0 <= j < |s| && s[j] == k;
    a, b := s[..j], s[j + 1..];
    assert s == a + [k] + b;
    SortedWithout(s, j);
    SetWithout(keys, k, multiset(a + b));
    StringsDistinct(a + b);
    SortedUnique(a + b, SortedKeys(keys - {k}), StrLe);
  }

  lemma SetWithout(keys: set<string>, k: string, rest: multiset<string>)
    requires k in keys && multiset(keys) == rest + multiset{k}
    ensures rest == multiset(keys - {k})
  {
    assert multiset(keys) == multiset(keys - {k}) + multiset{k};
    assert rest == (rest + multiset{k}) - multiset{k};
    assert multiset(keys - {k}) == (multiset(keys - {k}) + multiset{k}) - multiset{k};
  }

  lemma KeysAround(keys: set<string>, k: string, a: seq<string>, b: seq<string>)
    requires k in keys && SortedKeys(keys - {k}) == a + b
    ensures forall j :: j in a || j in b ==> j in keys && j != k
    ensures forall j :: j in a + b ==> j in keys && j != k
  {
    hide SortedKeys;
    SortedKeysMembers(keys - {k});
    assert forall j :: j in a || j in b ==> j in a + b;
  }

  /** The written form around one record. */
  lemma StreamAround(m: Records, k: string, a: seq<string>, b: seq<string>, tagged: bool)
    requires k in m && SortedKeys(m.Keys) == a + [k] + b && SortedKeys(m.Keys - {k}) == a + b
    ensures forall j :: j in a || j in b ==> j in m && j != k
    ensures Stream(m, tagged) ==
      Terminated(Pieces(a, m, tagged)) + Terminated(Piece(k, m[k], tagged)) + Terminated(Pieces(b, m, tagged))
  {
    hide Piece, Terminated, Pieces, SortedKeys, Stream;
    KeysAround(m.Keys, k, a, b);
    StreamText(m, tagged);
    PiecesAppend(a + [k], b, m, tagged);
    PiecesAppend(a, [k], m, tagged);
    PieceOne(k, m, tagged);
  }

  lemma PieceOne(k: string, m: Records, tagged: bool)
    requires k in m
    ensures Pieces([k], m, tagged) == Piece(k, m[k], tagged)
  {
    hide Piece;
    assert [k][1..] == [];
    assert Pieces([k], m, tagged) == Piece(k, m[k], tagged) + Pieces([], m, tagged);
  }

  /** What the record's key is written as. */
  function Head(k: string, tagged: bool): string
    requires GoodKey(k, tagged)
  {
    if tagged then [k[0]] + k[2..] else k
  }

  lemma PieceTerminated(k: string, v: string, tagged: bool)
    requires GoodKey(k, tagged)
    ensures Terminated(Piece(k, v, tagged)) == Head(k, tagged) + ['\0'] + v + ['\0']
  {
    TerminatedTwo(Head(k, tagged), v);
  }

  lemma Between(a: string, x: string, y: string, b: string)
    requires a + x + b == a + y + b
    ensures x == y
  {
    assert |x| == |y|;
    assert (a + x + b)[|a|..|a| + |x|] == x && (a + y + b)[|a|..|a| + |y|] == y;
  }

  lemma EditShows(m: Records, k: string, v: string, tagged: bool)
    requires k in m && GoodKey(k, tagged) && v != m[k]
    ensures Stream(m[k := v], tagged) != Stream(m, tagged)
  {
    hide Stream, Piece, GoodKey, Head, Terminated, Pieces, SortedKeys;
    var m' := m[k := v];
    assert m'.Keys == m.Keys;
    var a, b := AroundKey(m.Keys, k);
    StreamAround(m, k, a, b, tagged);
    StreamAround(m', k, a, b, tagged);
    PiecesSame(a, m, m', tagged);
    PiecesSame(b, m, m', tagged);
    if Stream(m', tagged) == Stream(m, tagged) {
      Between(Terminated(Pieces(a, m, tagged)), Terminated(Piece(k, m[k], tagged)), Terminated(Piece(k, v, tagged)),
              Terminated(Pieces(b, m, tagged)));
      PieceTerminated(k, m[k], tagged);
      PieceTerminated(k, v, tagged);
      ValueBetween(Head(k, tagged), m[k], v);
    }
  }

  lemma ValueBetween(head: string, v: string, v': string)
    requires head + ['\0'] + v + ['\0'] == head + ['\0'] + v' + ['\0']
    ensures v == v'
  {
    Between(head + ['\0'], v, v', ['\0']);
  }

  lemma AddShows(m: Records, k: string, tagged: bool)
    requires k in m && GoodKey(k, tagged)
    ensures |Stream(m - {k}, tagged)| < |Stream(m, tagged)|
  {
    hide Stream, Piece, GoodKey, Head, Terminated, Pieces, SortedKeys;
    var m' := m - {k};
    assert m'.Keys == m.Keys - {k};
    var a, b := AroundKey(m.Keys, k);
    StreamAround(m, k, a, b, tagged);
    StreamText(m', tagged);
    PiecesAppend(a, b, m', tagged);
    PiecesSame(a, m, m', tagged);
    PiecesSame(b, m, m', tagged);
    PieceTerminated(k, m[k], tagged);
  }

  lemma StreamText(m: Records, tagged: bool)
    ensures forall k :: k in SortedKeys(m.Keys) ==> k in m
    ensures Stream(m, tagged) == Terminated(Pieces(SortedKeys(m.Keys), m, tagged))
  {
    SortedKeysMembers(m.Keys);
  }

  /** For all tables, with or without NULs: adding, removing or editing one record always
      changes the written form. */
  lemma OneChangeShows(m: Records, m': Records, k: string, tagged: bool)
    requires m != m' && m - {k} == m' - {k} && GoodKey(k, tagged)
    ensures Stream(m, tagged) != Stream(m', tagged)
  {
    hide Stream, GoodKey;
    if k in m && k in m' {
      SameButOne(m, m', k);
      EditShows(m, k, m'[k], tagged);
    } else if k in m {
      NotThere(m', k);
      AddShows(m, k, tagged);
    } else {
      NotThere(m, k);
      if k in m' { AddShows(m', k, tagged); } else { NotThere(m', k); }
    }
  }

  lemma NotThere(m: Records, k: string)
    requires k !in m
    ensures m - {k} == m
  {}

  lemma SameButOne(m: Records, m': Records, k: string)
    requires k in m && k in m' && m - {k} == m' - {k}
    ensures m' == m[k := m'[k]] && (m != m' ==> m[k] != m'[k])
  {
    forall j | j != k ensures (j in m <==> j in m') && (j in m ==> m[j] == m'[j]) {
      assert j in m <==> j in m - {k};
      assert j in m' <==> j in m' - {k};
      if j in m { assert (m - {k})[j] == (m' - {k})[j]; }
    }
    assert m' == m[k := m'[k]];
  }

  lemma SamePieces(m: Records, m': Records, tagged: bool)
    requires Clean(m, tagged) && Clean(m', tagged) && AllPieces(m, tagged) == AllPieces(m', tagged)
    ensures m == m'
  {
    hide GoodKey, Pieces;
    var keys, keys' := SortedKeys(m.Keys), SortedKeys(m'.Keys);
    SortedKeysMembers(m.Keys);
    SortedKeysMembers(m'.Keys);
    PiecesDetermine(keys, m, keys', m', tagged);
    SameTable(keys, m, m');
  }

  lemma SameTable(keys: seq<string>, m: Records, m': Records)
    requires forall k :: k in keys <==> k in m
    requires forall k :: k in keys <==> k in m'
    requires forall k :: k in keys ==> m[k] == m'[k]
    ensures m == m'
  {}

  /** With a NUL in a value it does not: a ConfigMap value that holds a terminator and a
      further record is written like the two records. */
  lemma NulCollides(k: string, k': string, x: string, y: string)
    requires StrLe("s:" + k, "s:" + k') && k != k' && k != "" && k' != ""
    ensures var one, two := map["s:" + k := x + ['\0'] + ("s" + k') + ['\0'] + y], map["s:" + k := x, "s:" + k' := y];
      one != two && Stream(one, true) == Stream(two, true)
  {
    hide Stream, Terminated;
    var t, t', v := "s:" + k, "s:" + k', x + ['\0'] + ("s" + k') + ['\0'] + y;
    assert t[2..] == k && t'[2..] == k';
    assert t' in map[t := x, t' := y] && t' !in map[t := v];
    assert [t[0]] + t[2..] == "s" + k && [t'[0]] + t'[2..] == "s" + k';
    StreamOfOne(t, v);
    StreamOfTwo(t, t', x, y);
    TerminatedFour("s" + k, x, "s" + k', y);
    TerminatedTwo("s" + k, v);
  }

  lemma StreamAs(m: Records, keys: seq<string>)
    requires SortedKeys(m.Keys) == keys && forall k :: k in keys ==> k in m
    ensures Stream(m, true) == Terminated(Pieces(keys, m, true))
  {}

  lemma StreamOfOne(k: string, v: string)
    requires |k| > 2
    ensures Stream(map[k := v], true) == Terminated([[k[0]] + k[2..], v])
  {
    hide Terminated, SortedKeys, Stream;
    var m := map[k := v];
    assert m.Keys == {k};
    SortedKeysMembers(m.Keys);
    var s := SortedKeys(m.Keys);
    assert s[0] in s && s == [k];
    StreamAs(m, [k]);
    PiecesOfOne(k, m);
  }

  lemma PiecesOfOne(k: string, m: Records)
    requires k in m && |k| > 2
    ensures Pieces([k], m, true) == [[k[0]] + k[2..], m[k]]
  {
    assert [k][1..] == [];
    assert Pieces([k], m, true) == Piece(k, m[k], true) + Pieces([], m, true);
  }

  lemma StreamOfTwo(k: string, k': string, v: string, v': string)
    requires StrLe(k, k') && k != k' && |k| > 2 && |k'| > 2
    ensures Stream(map[k := v, k' := v'], true) == Terminated([[k[0]] + k[2..], v, [k'[0]] + k'[2..], v'])
  {
    hide Terminated, SortedKeys, Stream, StrLe;
    var m := map[k := v, k' := v'];
    assert m.Keys == {k, k'};
    TwoKeys(k, k');
    StreamAs(m, [k, k']);
    PiecesOfTwo(k, k', m);
  }

  lemma PiecesOfTwo(k: string, k': string, m: Records)
    requires k in m && k' in m && |k| > 2 && |k'| > 2
    ensures Pieces([k, k'], m, true) == [[k[0]] + k[2..], m[k], [k'[0]] + k'[2..], m[k']]
  {
    assert [k, k'][1..] == [k'] && [k'][1..] == [];
    assert Pieces([k'], m, true) == Piece(k', m[k'], true) + Pieces([], m, true);
    assert Pieces([k, k'], m, true) == Piece(k, m[k], true) + Pieces([k'], m, true);
  }

  lemma TwoKeys(k: string, k': string)
    requires StrLe(k, k') && k != k'
    ensures SortedKeys({k, k'}) == [k, k']
  {
    assert multiset([k, k']) == multiset({k, k'});
    assert Sorted([k, k'], StrLe);
    StringsDistinct([k, k']);
    SortedUnique([k, k'], SortedKeys({k, k'}), StrLe);
  }

  lemma TerminatedTwo(a: string, b: string)
    ensures Terminated([a, b]) == a + ['\0'] + b + ['\0']
  {
    assert [a, b][1..] == [b] && [b][1..] == [];
    assert Terminated([b]) == b + ['\0'];
  }

  lemma TerminatedFour(a: string, b: string, c: string, d: string)
    ensures Terminated([a, b, c, d]) == a + ['\0'] + (b + ['\0'] + c + ['\0'] + d) + ['\0']
  {
    assert [a, b, c, d][1..] == [b, c, d] && [b, c, d][1..] == [c, d];
    TerminatedTwo(c, d);
  }

  // ---- what is counted of a source ------------------------------------------------------

  /** ignoredCm and ignoredSecret: keys left out; stripHot: ids fields that reload in process. */
  datatype Options = Options(ignoredCm: set<string>, ignoredSecret: set<string>, stripHot: bool)

  function Tagged(keys: set<string>, tag: string): set<string> { set k | k in keys :: tag + k }

  lemma TaggedMember(keys: set<string>, tag: string, t: string)
    ensures t in Tagged(keys, tag) <==> HasPrefix(t, tag) && t[|tag|..] in keys
  {
    forall k | k in keys ensures (tag + k)[|tag|..] == k && (tag + k)[..|tag|] == tag {}
    if HasPrefix(t, tag) { assert t == tag + t[|tag|..]; }
  }

  /** The value a ConfigMap's data key is hashed with. */
  function DataValue(c: Codec, o: Options, key: string, raw: string): string {
    if o.stripHot && key == CONFIG_KEY then Canonical(c, raw) else raw
  }

  function RecordKeys(s: Source, o: Options): set<string> {
    match s
    case ConfigMap(_, data, binary) => Tagged(data.Keys - o.ignoredCm, "s:") + Tagged(binary.Keys - o.ignoredCm, "b:")
    case Secret(_, bytes) => Tagged(bytes.Keys - o.ignoredSecret, "d:")
  }

  lemma RecordKeyIs(s: Source, o: Options, t: string)
    requires t in RecordKeys(s, o)
    ensures |t| >= 2 && t[1] == ':'
    ensures s.Secret? ==> t[0] == 'd' && t[2..] in s.bytes && t[2..] !in o.ignoredSecret
    ensures s.ConfigMap? ==> t[2..] !in o.ignoredCm
    ensures s.ConfigMap? ==> (t[0] == 's' && t[2..] in s.data) || (t[0] == 'b' && t[2..] in s.binaryData)
  {
    if s.Secret? {
      TaggedMember(s.bytes.Keys - o.ignoredSecret, "d:", t);
    } else {
      TaggedMember(s.data.Keys - o.ignoredCm, "s:", t);
      TaggedMember(s.binaryData.Keys - o.ignoredCm, "b:", t);
    }
  }

  function ValueOf(c: Codec, o: Options, s: Source, t: string): string
    requires t in RecordKeys(s, o)
  {
    RecordKeyIs(s, o, t);
    match s
    case ConfigMap(_, data, binary) => if t[0] == 's' then DataValue(c, o, t[2..], data[t[2..]]) else binary[t[2..]]
    case Secret(_, bytes) => bytes[t[2..]]
  }

  /** The counted records of one source. */
  function RecordsOf(c: Codec, o: Options, s: Source): Records {
    map t | t in RecordKeys(s, o) :: ValueOf(c, o, s, t)
  }

  ghost function ContentHash(h: string -> string, c: Codec, o: Options, s: Source): string {
    if RecordKeys(s, o) == {} then "" else h(Stream(RecordsOf(c, o, s), true))
  }

  /** Collects the keys of one map, tagged. */
  method TagKeys(keys: set<string>, ignored: set<string>, tag: string) returns (out: seq<string>)
    ensures multiset(out) == multiset(Tagged(keys - ignored, tag))
  {
    out := [];
    var rest := keys;
    while rest != {}
      invariant rest <= keys
      invariant multiset(out) == multiset(Tagged(keys - rest - ignored, tag))
      decreases rest
    {
      var k :| k in rest;
      ghost var before := Tagged(keys - rest - ignored, tag);
      TaggedMember(keys - rest - ignored, tag, tag + k);
      assert (tag + k)[|tag|..] == k && k !in keys - rest - ignored;
      if k !in ignored {
        assert Tagged(keys - (rest - {k}) - ignored, tag) == before + {tag + k};
        out := out + [tag + k];
      } else {
        assert keys - (rest - {k}) - ignored == keys - rest - ignored;
      }
      rest := rest - {k};
    }
    assert keys - {} - ignored == keys - ignored;
  }

  /** The value a record is hashed with. */
  method RecordValue(c: Codec, o: Options, s: Source, k: string) returns (value: string)
    requires k in RecordKeys(s, o)
    ensures value == ValueOf(c, o, s, k)
    ensures |k| >= 2 && k[0] in ['s', 'b', 'd'] && (k[0] == 'd' <==> s.Secret?)
  {
    hide Canonical, RecordKeys;
    RecordKeyIs(s, o, k);
    if s.Secret? {
      return s.bytes[k[2..]];
    }
    if k[0] == 's' {
      value := s.data[k[2..]];
      if o.stripHot && k[2..] == CONFIG_KEY {
        value := CanonicalConfig(c, value);
      }
    } else {
      value := s.binaryData[k[2..]];
    }
  }

  /** Feeds the records to the hasher in key order. */
  method WriteRecords(c: Codec, o: Options, s: Source, keys: seq<string>) returns (text: string)
    requires multiset(keys) == multiset(RecordKeys(s, o))
    ensures text == Stream(RecordsOf(c, o, s), true)
  {
    hide Stream, Pieces, Terminated, RecordKeys, ValueOf, AllPieces;
    var sorted := SortStrings(keys);
    ghost var m := RecordsOf(c, o, s);
    assert m.Keys == RecordKeys(s, o);
    SortedKeysUnique(keys, RecordKeys(s, o));
    StreamIs(m, true);
    text := "";
    for i := 0 to |sorted|
      invariant text + Terminated(Pieces(sorted[i..], m, true)) == Stream(m, true)
    {
      var k := sorted[i];
      assert k in sorted;
      var value := RecordValue(c, o, s, k);
      WriteStep(sorted, i, m, text);
      if |k| > 2 || s.Secret? {
        text := text + ([k[0]] + k[2..] + ['\0'] + value + ['\0']);
      } else {
        text := text + ['\0'];
      }
    }
    AllWritten(sorted, m);
  }

  lemma AllWritten(keys: seq<string>, m: Records)
    ensures Terminated(Pieces(keys[|keys|..], m, true)) == ""
  {}

  lemma StreamIs(m: Records, tagged: bool)
    ensures forall k :: k in SortedKeys(m.Keys) <==> k in m
    ensures var keys := SortedKeys(m.Keys); "" + Terminated(Pieces(keys[0..], m, tagged)) == Stream(m, tagged)
  {
    SortedKeysMembers(m.Keys);
    assert SortedKeys(m.Keys)[0..] == SortedKeys(m.Keys);
  }

  /** The text a record adds. */
  function RecordText(k: string, v: string): string
    requires |k| >= 2
  {
    if |k| > 2 || k[0] == 'd' then [k[0]] + k[2..] + ['\0'] + v + ['\0'] else ['\0']
  }

  lemma WriteStep(keys: seq<string>, i: nat, m: Records, text: string)
    requires i < |keys| && (forall k :: k in keys ==> k in m) && |keys[i]| >= 2
    ensures text + Terminated(Pieces(keys[i..], m, true))
         == (text + RecordText(keys[i], m[keys[i]])) + Terminated(Pieces(keys[i + 1..], m, true))
  {
    var k, rest := keys[i], Pieces(keys[i + 1..], m, true);
    assert keys[i..][0] == k && keys[i..][1..] == keys[i + 1..];
    assert Terminated(Pieces(keys[i..], m, true)) == RecordText(k, m[k]) + Terminated(rest) by {
      if |k| > 2 || k[0] == 'd' {
        TerminatedPair([k[0]] + k[2..], m[k], rest);
      } else {
        assert ([""] + rest)[1..] == rest;
      }
    }
  }

  lemma TerminatedPair(a: string, b: string, rest: seq<string>)
    ensures Terminated([a, b] + rest) == a + ['\0'] + b + ['\0'] + Terminated(rest)
  {
    assert ([a, b] + rest)[1..] == [b] + rest && ([b] + rest)[1..] == rest;
  }

  /** hashConfigMapContent and hashSecretContent. */
  method HashContent(h: string -> string, c: Codec, o: Options, s: Source) returns (hash: string)
    ensures hash == ContentHash(h, c, o, s)
  {
    hide Stream, RecordsOf;
    var keys := [];
    if s.ConfigMap? {
      if |s.data| == 0 && |s.binaryData| == 0 {
        assert s.data.Keys == {} && s.binaryData.Keys == {};
        return "";
      }
      keys := TagKeys(s.data.Keys, o.ignoredCm, "s:");
      var binary := TagKeys(s.binaryData.Keys, o.ignoredCm, "b:");
      KindsApart(s.data.Keys - o.ignoredCm, s.binaryData.Keys - o.ignoredCm);
      keys := keys + binary;
    } else {
      if |s.bytes| == 0 {
        assert s.bytes.Keys == {};
        return "";
      }
      keys := TagKeys(s.bytes.Keys, o.ignoredSecret, "d:");
    }
    assert multiset(keys) == multiset(RecordKeys(s, o));
    NoKeys(keys, RecordKeys(s, o));
    if |keys| == 0 {
      return "";
    }
    var text := WriteRecords(c, o, s, keys);
    return h(text);
  }

  lemma NoKeys(keys: seq<string>, s: set<string>)
    requires multiset(keys) == multiset(s)
    ensures keys == [] <==> s == {}
  {
    SetElementsNoDuplicates(keys, s);
    assert |multiset(keys)| == |keys| && |multiset(s)| == |s|;
  }

  lemma KindsApart(a: set<string>, b: set<string>)
    ensures multiset(Tagged(a, "s:") + Tagged(b, "b:")) == multiset(Tagged(a, "s:")) + multiset(Tagged(b, "b:"))
  {
    forall t ensures !(t in Tagged(a, "s:") && t in Tagged(b, "b:")) {
      TaggedMember(a, "s:", t);
      TaggedMember(b, "b:", t);
    }
  }

  // ---- the hash of all sources -----------------------------------------------------------

  function EntryKey(s: Source): string {
    match s
    case ConfigMap(name, _, _) => "configmap/" + name
    case Secret(name, _) => "secret/" + name
  }

  /** No two ConfigMaps and no two Secrets have the same name. */
  ghost predicate UniqueSources(ss: seq<Source>) {
    forall i, j :: 0 <= i < j < |ss| ==> EntryKey(ss[i]) != EntryKey(ss[j])
  }

  type Content = map<string, Records>

  /** The sources that count, with their counted records. */
  function Counted(c: Codec, o: Options, ss: seq<Source>): Content {
    if ss == [] then map[]
    else
      var init, s := Counted(c, o, ss[..|ss| - 1]), ss[|ss| - 1];
      if RecordKeys(s, o) == {} then init else init[EntryKey(s) := RecordsOf(c, o, s)]
  }

  ghost function Digests(h: string -> string, content: Content): Records {
    map k | k in content :: h(Stream(content[k], true))
  }

  ghost function HashOf(h: string -> string, content: Content): string {
    if content == map[] then "" else h(Stream(Digests(h, content), false))
  }

  datatype Entry = Entry(key: string, hash: string)

  predicate EntryLe(a: Entry, b: Entry) { StrLe(a.key, b.key) }

  lemma EntryOrder()
    ensures Preorder(EntryLe)
  {
    hide StrLe;
    StringOrder();
    forall a, b ensures EntryLe(a, b) || EntryLe(b, a) { assert StrLe(a.key, b.key) || StrLe(b.key, a.key); }
    forall a, b, c | EntryLe(a, b) && EntryLe(b, c) ensures EntryLe(a, c) {
      assert StrLe(a.key, b.key) && StrLe(b.key, c.key);
    }
  }

  function SortEntries(es: seq<Entry>): seq<Entry> {
    EntryOrder();
    Sort(es, EntryLe)
  }

  /** es lists the table m, each key once. */
  ghost predicate Lists(es: seq<Entry>, m: Records) {
    && (forall i, j :: 0 <= i < j < |es| ==> es[i].key != es[j].key)
    && (forall k :: k in m <==> Entry(k, if k in m then m[k] else "") in es)
    && (forall e :: e in es ==> e.key in m && m[e.key] == e.hash)
  }

  function KeysOf(es: seq<Entry>): (ks: seq<string>)
    ensures |ks| == |es| && forall i :: 0 <= i < |ks| ==> ks[i] == es[i].key
  {
    if es == [] then [] else [es[0].key] + KeysOf(es[1..])
  }

  lemma SortedEntryKeys(es: seq<Entry>, m: Records)
    requires Lists(es, m)
    ensures KeysOf(SortEntries(es)) == SortedKeys(m.Keys)
    ensures forall e :: e in SortEntries(es) ==> e.key in m && m[e.key] == e.hash
  {
    hide StrLe;
    EntryOrder();
    var sorted := SortEntries(es);
    PermutedMembers(sorted, es);
    var ks := KeysOf(sorted);
    SortedDistinct(es, sorted);
    assert Sorted(ks, StrLe) by {
      forall i, j | 0 <= i < j < |ks| ensures StrLe(ks[i], ks[j]) { assert EntryLe(sorted[i], sorted[j]); }
    }
    EnumeratesKeys(ks, sorted, m);
    StringsDistinct(ks);
    SortedUnique(ks, SortedKeys(m.Keys), StrLe);
  }

  lemma SortedDistinct(es: seq<Entry>, sorted: seq<Entry>)
    requires multiset(es) == multiset(sorted)
    requires forall i, j :: 0 <= i < j < |es| ==> es[i].key != es[j].key
    ensures forall i, j :: 0 <= i < j < |sorted| ==> sorted[i].key != sorted[j].key
  {
    PermutedMembers(es, sorted);
    assert NoDuplicates(es);
    forall i, j | 0 <= i < j < |sorted| ensures sorted[i].key != sorted[j].key {
      assert sorted[i] in sorted && sorted[j] in sorted;
      var a :| 0 <= a < |es| && es[a] == sorted[i];
      var b :| 0 <= b < |es| && es[b] == sorted[j];
      if sorted[i] == sorted[j] {
        RepeatedTwice(sorted, i, j);
        OnceEach(es, a);
      }
    }
  }

  lemma EnumeratesKeys(ks: seq<string>, es: seq<Entry>, m: Records)
    requires ks == KeysOf(es)
    requires forall i, j :: 0 <= i < j < |es| ==> es[i].key != es[j].key
    requires (forall k :: k in m ==> Entry(k, m[k]) in es) && forall e :: e in es ==> e.key in m
    ensures multiset(ks) == multiset(m.Keys)
  {
    forall k ensures k in ks <==> k in m.Keys {
      if k in m {
        var i :| 0 <= i < |es| && es[i] == Entry(k, m[k]);
        assert ks[i] == k;
      }
      if k in ks {
        var i :| 0 <= i < |ks| && ks[i] == k;
        assert es[i] in es;
      }
    }
    NoDuplicatesMultiset(ks, m.Keys);
  }

  /** Adds the entry of one source, if it counts. */
  method AddEntry(h: string -> string, c: Codec, o: Options, ghost ss: seq<Source>, s: Source, es0: seq<Entry>)
    returns (es: seq<Entry>)
    requires Lists(es0, Digests(h, Counted(c, o, ss)))
    requires EntryKey(s) !in Counted(c, o, ss) && (forall a :: h(a) != "")
    ensures Lists(es, Digests(h, Counted(c, o, ss + [s])))
  {
    hide RecordKeys, RecordsOf, Stream, EntryKey;
    assert (ss + [s])[..|ss|] == ss;
    es := es0;
    var hash := HashContent(h, c, o, s);
    if hash == "" {
      return;
    }
    ghost var before, after := Digests(h, Counted(c, o, ss)), Digests(h, Counted(c, o, ss + [s]));
    assert after == before[EntryKey(s) := hash];
    es := es + [Entry(EntryKey(s), hash)];
    ListsMore(es0, before, EntryKey(s), hash);
  }

  lemma ListsMore(es: seq<Entry>, m: Records, k: string, v: string)
    requires Lists(es, m) && k !in m
    ensures Lists(es + [Entry(k, v)], m[k := v])
  {}

  lemma {:induction false} CountedKeys(c: Codec, o: Options, ss: seq<Source>, k: string)
    requires k in Counted(c, o, ss)
    ensures exists s :: s in ss && EntryKey(s) == k
  {
    hide EntryKey, RecordKeys, RecordsOf;
    var s := ss[|ss| - 1];
    if k == EntryKey(s) && RecordKeys(s, o) != {} {
    } else {
      CountedKeys(c, o, ss[..|ss| - 1], k);
    }
  }

  method AddEntries(h: string -> string, c: Codec, o: Options, ghost before: seq<Source>, ss: seq<Source>,
                    es0: seq<Entry>)
    returns (es: seq<Entry>)
    requires UniqueSources(before + ss) && (forall a :: h(a) != "")
    requires Lists(es0, Digests(h, Counted(c, o, before)))
    ensures Lists(es, Digests(h, Counted(c, o, before + ss)))
  {
    hide Digests, EntryKey, Lists, Counted, UniqueSources;
    es := es0;
    assert before + ss[..0] == before;
    for i := 0 to |ss|
      invariant Lists(es, Digests(h, Counted(c, o, before + ss[..i])))
    {
      ghost var all, n := before + ss, |before| + i;
      assert before + ss[..i] == all[..n] && ss[i] == all[n];
      assert all[..n] + [all[n]] == before + ss[..i + 1];
      FreshEntry(c, o, all, n);
      es := AddEntry(h, c, o, all[..n], ss[i], es);
    }
    assert ss[..|ss|] == ss;
  }

  /** hashConfigSources: ConfigMaps, then Secrets, then one hash over the sorted entries. */
  method HashConfigSources(h: string -> string, c: Codec, o: Options, cms: seq<Source>, secrets: seq<Source>)
    returns (hash: string)
    requires UniqueSources(cms + secrets) && (forall a :: h(a) != "")
    ensures hash == HashOf(h, Counted(c, o, cms + secrets))
  {
    hide Digests, EntryKey, Lists, Counted;
    ghost var all := cms + secrets;
    NoEntries(h, c, o);
    UniquePart(cms, secrets);
    assert [] + cms == cms;
    var es := AddEntries(h, c, o, [], cms, []);
    es := AddEntries(h, c, o, cms, secrets, es);
    EntriesEmpty(h, es, Counted(c, o, all));
    if |es| == 0 {
      return "";
    }
    es := WriteSorted(h, es, Counted(c, o, all));
    var text := WriteEntries(es);
    return h(text);
  }

  lemma UniquePart(a: seq<Source>, b: seq<Source>)
    requires UniqueSources(a + b)
    ensures UniqueSources(a)
  {
    assert forall i :: 0 <= i < |a| ==> a[i] == (a + b)[i];
  }

  lemma NoEntries(h: string -> string, c: Codec, o: Options)
    ensures Lists([], Digests(h, Counted(c, o, [])))
  {}

  lemma FreshEntry(c: Codec, o: Options, all: seq<Source>, i: nat)
    requires UniqueSources(all) && i < |all|
    ensures EntryKey(all[i]) !in Counted(c, o, all[..i])
  {
    hide EntryKey, RecordKeys, RecordsOf;
    if EntryKey(all[i]) in Counted(c, o, all[..i]) {
      CountedKeys(c, o, all[..i], EntryKey(all[i]));
    }
  }

  lemma EntriesEmpty(h: string -> string, es: seq<Entry>, content: Content)
    requires Lists(es, Digests(h, content))
    ensures es == [] <==> content == map[]
  {
    hide Stream;
    assert Digests(h, content).Keys == content.Keys;
    EmptyListing(es, Digests(h, content));
  }

  lemma EmptyListing(es: seq<Entry>, m: Records)
    requires Lists(es, m)
    ensures es == [] <==> m.Keys == {}
  {
    if es != [] { assert es[0].key in m.Keys by { assert es[0] in es; } }
  }

  method WriteSorted(h: string -> string, es: seq<Entry>, ghost content: Content) returns (sorted: seq<Entry>)
    requires Lists(es, Digests(h, content))
    ensures EntryText(sorted) == Stream(Digests(h, content), false)
  {
    hide Digests;
    sorted := SortEntries(es);
    SortedEntryKeys(es, Digests(h, content));
    EntryTextIs(sorted, Digests(h, content));
  }

  function EntryText(es: seq<Entry>): string {
    if es == [] then "" else es[0].key + ['\0'] + es[0].hash + ['\0'] + EntryText(es[1..])
  }

  lemma {:induction false} EntryPieces(es: seq<Entry>, m: Records)
    requires forall e :: e in es ==> e.key in m && m[e.key] == e.hash
    ensures forall k :: k in KeysOf(es) ==> k in m
    ensures EntryText(es) == Terminated(Pieces(KeysOf(es), m, false))
  {
    if es == [] {
    } else {
      EntryPieces(es[1..], m);
      assert KeysOf(es)[1..] == KeysOf(es[1..]);
      TerminatedPair(es[0].key, es[0].hash, Pieces(KeysOf(es[1..]), m, false));
    }
  }

  lemma EntryTextIs(es: seq<Entry>, m: Records)
    requires KeysOf(es) == SortedKeys(m.Keys)
    requires forall e :: e in es ==> e.key in m && m[e.key] == e.hash
    ensures EntryText(es) == Stream(m, false)
  {
    hide Pieces, Terminated;
    EntryPieces(es, m);
  }

  method WriteEntries(es: seq<Entry>) returns (text: string)
    ensures text == EntryText(es)
  {
    text := "";
    for i := 0 to |es|
      invariant text + EntryText(es[i..]) == EntryText(es)
    {
      assert es[i..][0] == es[i] && es[i..][1..] == es[i + 1..];
      text := text + es[i].key + ['\0'] + es[i].hash + ['\0'];
    }
  }

  // ---- what the hash says --------------------------------------------------------------------

  /** Names hold no NUL, as digests do not. */
  ghost predicate CleanNames(content: Content) {
    forall k :: k in content ==> '\0' !in k
  }

  /** The same sources, each written out alike. */
  ghost predicate SameStreams(a: Content, b: Content) {
    a.Keys == b.Keys && forall k :: k in a && k in b ==> Stream(a[k], true) == Stream(b[k], true)
  }

  lemma DigestsClean(h: string -> string, content: Content)
    requires GoodHash(h) && CleanNames(content)
    ensures Clean(Digests(h, content), false)
  {
    hide Stream;
  }

  lemma DigestsExact(h: string -> string, a: Content, b: Content)
    requires GoodHash(h)
    ensures Digests(h, a) == Digests(h, b) <==> SameStreams(a, b)
  {
    hide Stream;
    var x, y := Digests(h, a), Digests(h, b);
    assert a.Keys == x.Keys && b.Keys == y.Keys;
    if x == y {
      forall k | k in a && k in b ensures Stream(a[k], true) == Stream(b[k], true) {
        assert x[k] == h(Stream(a[k], true)) && y[k] == h(Stream(b[k], true));
      }
    }
  }

  /** For all tables, with or without NULs in keys and values: equal hashes mean the same
      counted sources, each written out alike. */
  lemma StreamsExact(h: string -> string, a: Content, b: Content)
    requires GoodHash(h) && CleanNames(a) && CleanNames(b)
    ensures HashOf(h, a) == HashOf(h, b) <==> SameStreams(a, b)
  {
    hide Digests, Clean, CleanNames, Stream;
    DigestsExact(h, a, b);
    DigestsEmpty(h, a);
    DigestsEmpty(h, b);
    if HashOf(h, a) == HashOf(h, b) && a != map[] {
      assert Stream(Digests(h, a), false) == Stream(Digests(h, b), false);
      DigestsClean(h, a);
      DigestsClean(h, b);
      StreamInjective(Digests(h, a), Digests(h, b), false);
    }
  }

  lemma DigestsEmpty(h: string -> string, content: Content)
    ensures Digests(h, content) == map[] <==> content == map[]
  {
    hide Stream;
    assert Digests(h, content).Keys == content.Keys;
  }

  lemma {:induction false} CountedIs(c: Codec, o: Options, ss: seq<Source>, s: Source)
    requires UniqueSources(ss) && s in ss
    ensures if RecordKeys(s, o) == {} then EntryKey(s) !in Counted(c, o, ss)
            else EntryKey(s) in Counted(c, o, ss) && Counted(c, o, ss)[EntryKey(s)] == RecordsOf(c, o, s)
  {
    hide EntryKey, RecordKeys, RecordsOf;
    var init, last := ss[..|ss| - 1], ss[|ss| - 1];
    if s == last {
      assert ss[|ss| - 1] == s;
      FreshEntry(c, o, ss, |ss| - 1);
    } else {
      var i :| 0 <= i < |ss| && ss[i] == s;
      assert init[i] == s;
      CountedIs(c, o, init, s);
    }
  }

  lemma CountedIn(c: Codec, o: Options, a: seq<Source>, b: seq<Source>, k: string)
    requires UniqueSources(a) && UniqueSources(b) && (forall s :: s in a ==> s in b)
    requires k in Counted(c, o, a)
    ensures k in Counted(c, o, b) && Counted(c, o, b)[k] == Counted(c, o, a)[k]
  {
    hide EntryKey, RecordKeys, RecordsOf, Counted, UniqueSources;
    CountedKeys(c, o, a, k);
    var s :| s in a && EntryKey(s) == k;
    CountedIs(c, o, a, s);
    CountedIs(c, o, b, s);
  }

  /** The order in which sources are listed does not matter. */
  lemma CountedPermuted(c: Codec, o: Options, a: seq<Source>, b: seq<Source>)
    requires UniqueSources(a) && UniqueSources(b) && (forall s :: s in a <==> s in b)
    ensures Counted(c, o, a) == Counted(c, o, b)
  {
    hide EntryKey, RecordKeys, RecordsOf, Counted, UniqueSources;
    var x, y := Counted(c, o, a), Counted(c, o, b);
    forall k ensures k in x <==> k in y {
      if k in x { CountedIn(c, o, a, b, k); }
      if k in y { CountedIn(c, o, b, a, k); }
    }
    forall k | k in x ensures x[k] == y[k] { CountedIn(c, o, a, b, k); }
  }
}
