/** sort.Strings and sort.Slice: an insertion sort, and the fact every canonical form in the operator
    leans on - two lists with the same elements and pairwise different keys sort to the same list.
    Collecting the keys of a map in whatever order it yields them and sorting them gives one list. */
module Sorting {
  import opened Strings

  ghost predicate Preorder<T(!new)>(le: (T, T) -> bool) {
    && (forall a, b :: le(a, b) || le(b, a))
    && (forall a, b, c :: le(a, b) && le(b, c) ==> le(a, c))
  }

  ghost predicate Sorted<T>(xs: seq<T>, le: (T, T) -> bool) {
    forall i, j :: 0 <= i < j < |xs| ==> le(xs[i], xs[j])
  }

  function Insert<T>(x: T, xs: seq<T>, le: (T, T) -> bool): (r: seq<T>)
    ensures multiset(r) == multiset(xs) + multiset{x}
  {
    if xs == [] || le(x, xs[0]) then [x] + xs else
      assert xs == [xs[0]] + xs[1..];
      [xs[0]] + Insert(x, xs[1..], le)
  }

  lemma Below<T(!new)>(x: T, xs: seq<T>, le: (T, T) -> bool)
    requires Preorder(le) && Sorted(xs, le) && xs != [] && le(x, xs[0])
    ensures forall i :: 0 <= i < |xs| ==> le(x, xs[i])
  {
    forall i | 0 < i < |xs| ensures le(x, xs[i]) {
      assert le(xs[0], xs[i]);
    }
  }

  lemma {:induction false} InsertSorted<T(!new)>(x: T, xs: seq<T>, le: (T, T) -> bool)
    requires Preorder(le) && Sorted(xs, le)
    ensures Sorted(Insert(x, xs, le), le)
  {
    if xs == [] {
    } else if le(x, xs[0]) {
      Below(x, xs, le);
    } else {
      var t := Insert(x, xs[1..], le);
      InsertSorted(x, xs[1..], le);
      forall i | 0 <= i < |t| ensures le(xs[0], t[i]) {
        assert t[i] in multiset(t);
        assert t[i] == x || t[i] in xs[1..];
      }
    }
  }

  function Sort<T(!new)>(xs: seq<T>, le: (T, T) -> bool): (r: seq<T>)
    requires Preorder(le)
    ensures Sorted(r, le) && multiset(r) == multiset(xs)
  {
    if xs == [] then [] else
      assert xs == [xs[0]] + xs[1..];
      InsertSorted(xs[0], Sort(xs[1..], le), le);
      Insert(xs[0], Sort(xs[1..], le), le)
  }

  /** No two different elements of xs compare equal. */
  ghost predicate DistinctKeys<T>(xs: seq<T>, le: (T, T) -> bool) {
    forall a, b :: a in xs && b in xs && le(a, b) && le(b, a) ==> a == b
  }

  lemma HeadLeast<T>(xs: seq<T>, y: T, le: (T, T) -> bool)
    requires Sorted(xs, le) && y in multiset(xs)
    ensures xs[0] == y || le(xs[0], y)
  {
    var i :| 0 <= i < |xs| && xs[i] == y;
    if i > 0 { assert le(xs[0], xs[i]); }
  }

  lemma TailMultiset<T>(xs: seq<T>)
    requires xs != []
    ensures multiset(xs[1..]) == multiset(xs) - multiset{xs[0]}
  {
    assert xs == [xs[0]] + xs[1..];
  }

  lemma {:induction false} SortedUnique<T>(xs: seq<T>, ys: seq<T>, le: (T, T) -> bool)
    requires Sorted(xs, le) && Sorted(ys, le)
    requires multiset(xs) == multiset(ys)
    requires DistinctKeys(xs, le)
    ensures xs == ys
  {
    assert |multiset(xs)| == |xs| && |multiset(ys)| == |ys|;
    if xs == [] {
    } else {
      assert xs[0] in multiset(ys) && ys[0] in multiset(xs);
      HeadLeast(xs, ys[0], le);
      HeadLeast(ys, xs[0], le);
      assert xs[0] == ys[0] by {
        assert ys[0] in xs;
      }
      TailMultiset(xs);
      TailMultiset(ys);
      SortedUnique(xs[1..], ys[1..], le);
      assert xs == [xs[0]] + xs[1..] && ys == [ys[0]] + ys[1..];
    }
  }

  /** Sorting forgets the order its input came in. */
  lemma SortPermuted<T(!new)>(xs: seq<T>, ys: seq<T>, le: (T, T) -> bool)
    requires Preorder(le)
    requires multiset(xs) == multiset(ys) && DistinctKeys(xs, le)
    ensures Sort(xs, le) == Sort(ys, le)
  {
    var a := Sort(xs, le);
    forall x, y | x in a && y in a && le(x, y) && le(y, x) ensures x == y {
      assert x in multiset(a) && y in multiset(a);
    }
    SortedUnique(a, Sort(ys, le), le);
  }

  lemma PermutedMembers<T>(xs: seq<T>, ys: seq<T>)
    requires multiset(xs) == multiset(ys)
    ensures forall x :: x in xs <==> x in ys
    ensures |xs| == |ys|
  {
    forall x ensures x in xs <==> x in ys {
      assert x in xs <==> x in multiset(xs);
      assert x in ys <==> x in multiset(ys);
    }
    assert |multiset(xs)| == |xs| && |multiset(ys)| == |ys|;
  }

  /** The list with one element moved to the front. */
  function MoveFirst<T>(xs: seq<T>, i: nat): (r: seq<T>)
    requires i < |xs|
    ensures multiset(r) == multiset(xs)
  {
    assert xs == xs[..i] + [xs[i]] + xs[i + 1..];
    [xs[i]] + xs[..i] + xs[i + 1..]
  }

  // ---- strings --------------------------------------------------------------

  lemma StringOrder()
    ensures Preorder(StrLe)
  {
    forall a, b ensures StrLe(a, b) || StrLe(b, a) { StrLeTotal(a, b); }
    forall a, b, c | StrLe(a, b) && StrLe(b, c) ensures StrLe(a, c) { StrLeTransitive(a, b, c); }
  }

  lemma StringsDistinct(xs: seq<string>)
    ensures DistinctKeys(xs, StrLe)
  {
    forall a, b | a in xs && b in xs && StrLe(a, b) && StrLe(b, a) ensures a == b {
      StrLeAntisymmetric(a, b);
    }
  }

  function SortStrings(xs: seq<string>): (r: seq<string>)
    ensures Sorted(r, StrLe) && multiset(r) == multiset(xs)
  {
    StringOrder();
    Sort(xs, StrLe)
  }

  lemma SortStringsPermuted(xs: seq<string>, ys: seq<string>)
    requires multiset(xs) == multiset(ys)
    ensures SortStrings(xs) == SortStrings(ys)
  {
    StringOrder();
    StringsDistinct(xs);
    SortPermuted(xs, ys, StrLe);
  }

  /** Some enumeration of a set, each element once. */
  ghost function Enumerate<T(!new)>(s: set<T>): (r: seq<T>)
    ensures multiset(r) == multiset(s)
  {
    if s == {} then [] else
      var x :| x in s;
      assert multiset(s) == multiset{x} + multiset(s - {x});
      [x] + Enumerate(s - {x})
  }

  ghost predicate NoDuplicates<T>(xs: seq<T>) {
    forall i, j :: 0 <= i < j < |xs| ==> xs[i] != xs[j]
  }

  lemma RepeatedTwice<T>(xs: seq<T>, i: nat, j: nat)
    requires i < j < |xs| && xs[i] == xs[j]
    ensures multiset(xs)[xs[i]] >= 2
  {
    assert xs == xs[..i] + [xs[i]] + xs[i + 1..j] + [xs[j]] + xs[j + 1..];
  }

  lemma OnceEach<T>(xs: seq<T>, i: nat)
    requires NoDuplicates(xs) && i < |xs|
    ensures multiset(xs)[xs[i]] == 1
  {
    assert xs == xs[..i] + [xs[i]] + xs[i + 1..];
    assert xs[i] !in xs[..i] && xs[i] !in xs[i + 1..];
  }

  lemma NoDuplicatesMultiset<T>(xs: seq<T>, s: set<T>)
    requires NoDuplicates(xs) && forall x :: x in xs <==> x in s
    ensures multiset(xs) == multiset(s)
  {
    forall x ensures multiset(xs)[x] == multiset(s)[x] {
      if x in s {
        var i :| 0 <= i < |xs| && xs[i] == x;
        OnceEach(xs, i);
      }
    }
  }

  lemma SetElementsNoDuplicates<T>(xs: seq<T>, s: set<T>)
    requires multiset(xs) == multiset(s)
    ensures NoDuplicates(xs)
    ensures forall x :: x in xs <==> x in s
  {
    forall x ensures x in xs <==> x in s {
      assert x in xs <==> x in multiset(xs);
    }
    forall i, j | 0 <= i < j < |xs| ensures xs[i] != xs[j] {
      if xs[i] == xs[j] { RepeatedTwice(xs, i, j); }
    }
  }

  /** The keys of a map in sorted order. */
  ghost function SortedKeys(s: set<string>): (r: seq<string>)
    ensures Sorted(r, StrLe) && multiset(r) == multiset(s)
  {
    SortStrings(Enumerate(s))
  }

  lemma SortedKeysUnique(keys: seq<string>, s: set<string>)
    requires multiset(keys) == multiset(s)
    ensures SortStrings(keys) == SortedKeys(s)
  {
    SortStringsPermuted(keys, Enumerate(s));
  }

  lemma SortedKeysMembers(s: set<string>)
    ensures NoDuplicates(SortedKeys(s))
    ensures forall k :: k in SortedKeys(s) <==> k in s
    ensures |SortedKeys(s)| == |s|
  {
    SetElementsNoDuplicates(SortedKeys(s), s);
    assert |multiset(SortedKeys(s))| == |SortedKeys(s)|;
    assert |multiset(s)| == |s|;
  }

  /** Go's `for k := range m` collecting keys, in whatever order the map yields them. */
  method CollectKeys(s: set<string>) returns (keys: seq<string>)
    ensures multiset(keys) == multiset(s)
  {
    keys := [];
    var rest := s;
    while rest != {}
      invariant rest <= s
      invariant multiset(keys) + multiset(rest) == multiset(s)
      decreases rest
    {
      var k :| k in rest;
      assert multiset(rest) == multiset{k} + multiset(rest - {k});
      keys := keys + [k];
      rest := rest - {k};
    }
  }

  /** Collect and sort: the random order of the map is gone from the result. */
  method KeysInOrder(s: set<string>) returns (keys: seq<string>)
    ensures keys == SortedKeys(s)
  {
    keys := CollectKeys(s);
    SortedKeysUnique(keys, s);
    keys := SortStrings(keys);
  }
}
