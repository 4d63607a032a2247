/** What exactly rolls a workload (configmap_controller.go). */
module Rollout {
  // The combined hash, stated of ConfigMaps and Secrets: what has to be the same for it to stay.

  import opened Wrappers
  import opened Strings
  import opened Sorting
  import opened Yaml
  import opened HotReload
  import opened ConfigHash

  // ---- config.yaml inside the hash ---------------------------------------------------------

  /** Two data values are told apart: as documents outside the hot fields, or as texts. */
  ghost predicate SameValue(c: Codec, o: Options, key: string, x: string, y: string) {
    if o.stripHot && key == "config.yaml" then SameConfig(c, x, y) else x == y
  }

  /** What has to be the same of two ConfigMaps for them to count alike. */
  ghost predicate SameCounted(c: Codec, o: Options, a: Source, b: Source)
    requires a.ConfigMap? && b.ConfigMap?
  {
    && a.data.Keys - o.ignoredCm == b.data.Keys - o.ignoredCm
    && a.binaryData.Keys - o.ignoredCm == b.binaryData.Keys - o.ignoredCm
    && (forall k :: k in a.data.Keys - o.ignoredCm ==> k in b.data && SameValue(c, o, k, a.data[k], b.data[k]))
    && (forall k :: k in a.binaryData.Keys - o.ignoredCm ==> k in b.binaryData && a.binaryData[k] == b.binaryData[k])
  }

  lemma DataRecord(c: Codec, o: Options, s: Source, k: string)
    requires s.ConfigMap?
    ensures "s:" + k in RecordKeys(s, o) <==> k in s.data.Keys - o.ignoredCm
    ensures "b:" + k in RecordKeys(s, o) <==> k in s.binaryData.Keys - o.ignoredCm
    ensures k in s.data.Keys - o.ignoredCm ==> ValueOf(c, o, s, "s:" + k) == DataValue(c, o, k, s.data[k])
    ensures k in s.binaryData.Keys - o.ignoredCm ==> ValueOf(c, o, s, "b:" + k) == s.binaryData[k]
  {
    hide DataValue, Tagged;
    var x, y := s.data.Keys - o.ignoredCm, s.binaryData.Keys - o.ignoredCm;
    assert ("s:" + k)[2..] == k && ("b:" + k)[2..] == k;
    TaggedMember(x, "s:", "s:" + k);
    TaggedMember(y, "b:", "s:" + k);
    TaggedMember(x, "s:", "b:" + k);
    TaggedMember(y, "b:", "b:" + k);
  }

  lemma ValueExact(c: Codec, o: Options, key: string, x: string, y: string)
    requires RoundTrips(c)
    ensures DataValue(c, o, key, x) == DataValue(c, o, key, y) <==> SameValue(c, o, key, x, y)
  {
    hide Canonical, SameConfig, RoundTrips;
    if o.stripHot && key == CONFIG_KEY { CanonicalExact(c, x, y); }
  }

  lemma SameRecordKeys(c: Codec, o: Options, a: Source, b: Source)
    requires a.ConfigMap? && b.ConfigMap? && RecordKeys(a, o) == RecordKeys(b, o)
    ensures a.data.Keys - o.ignoredCm == b.data.Keys - o.ignoredCm
    ensures a.binaryData.Keys - o.ignoredCm == b.binaryData.Keys - o.ignoredCm
  {
    hide RecordKeys, ValueOf;
    forall k ensures (k in a.data.Keys - o.ignoredCm <==> k in b.data.Keys - o.ignoredCm)
      && (k in a.binaryData.Keys - o.ignoredCm <==> k in b.binaryData.Keys - o.ignoredCm)
    {
      DataRecord(c, o, a, k);
      DataRecord(c, o, b, k);
    }
  }

  /** The counted records of two ConfigMaps are equal exactly when their counted keys are,
      their values are, and their config.yaml agree outside the hot fields. */
  lemma RecordsExact(c: Codec, o: Options, a: Source, b: Source)
    requires RoundTrips(c) && a.ConfigMap? && b.ConfigMap?
    ensures RecordsOf(c, o, a) == RecordsOf(c, o, b) <==> SameCounted(c, o, a, b)
  {
    hide RecordKeys, ValueOf, RoundTrips, SameValue, DataValue;
    var x, y := RecordsOf(c, o, a), RecordsOf(c, o, b);
    assert x.Keys == RecordKeys(a, o) && y.Keys == RecordKeys(b, o);
    if x == y {
      SameRecordKeys(c, o, a, b);
      forall k | k in a.data.Keys - o.ignoredCm ensures k in b.data && SameValue(c, o, k, a.data[k], b.data[k]) {
        assert k in b.data.Keys - o.ignoredCm;
        DataRecord(c, o, a, k);
        DataRecord(c, o, b, k);
        assert x["s:" + k] == y["s:" + k];
        ValueExact(c, o, k, a.data[k], b.data[k]);
      }
      forall k | k in a.binaryData.Keys - o.ignoredCm
        ensures k in b.binaryData && a.binaryData[k] == b.binaryData[k]
      {
        assert k in b.binaryData.Keys - o.ignoredCm;
        DataRecord(c, o, a, k);
        DataRecord(c, o, b, k);
        assert x["b:" + k] == y["b:" + k];
      }
    }
    if SameCounted(c, o, a, b) {
      KeysFromParts(o, a, b);
      forall t | t in RecordKeys(a, o) ensures ValueOf(c, o, a, t) == ValueOf(c, o, b, t) {
        RecordKeyIs(a, o, t);
        RecordKeyIs(b, o, t);
        var k := t[2..];
        assert t == [t[0]] + [':'] + k;
        DataRecord(c, o, a, k);
        DataRecord(c, o, b, k);
        if t[0] == 's' {
          assert t == "s:" + k;
          ValueExact(c, o, k, a.data[k], b.data[k]);
        } else {
          assert t == "b:" + k;
        }
      }
    }
  }

  lemma KeysFromParts(o: Options, a: Source, b: Source)
    requires a.ConfigMap? && b.ConfigMap?
    requires a.data.Keys - o.ignoredCm == b.data.Keys - o.ignoredCm
    requires a.binaryData.Keys - o.ignoredCm == b.binaryData.Keys - o.ignoredCm
    ensures RecordKeys(a, o) == RecordKeys(b, o)
  {}

  // ---- Secrets inside the hash, and both together ------------------------------------------

  /** What has to be the same of two Secrets for them to count alike. */
  ghost predicate SameSecret(o: Options, a: Source, b: Source)
    requires a.Secret? && b.Secret?
  {
    && a.bytes.Keys - o.ignoredSecret == b.bytes.Keys - o.ignoredSecret
    && forall k :: k in a.bytes.Keys - o.ignoredSecret ==> k in b.bytes && a.bytes[k] == b.bytes[k]
  }

  lemma SecretRecord(c: Codec, o: Options, s: Source, k: string)
    requires s.Secret?
    ensures "d:" + k in RecordKeys(s, o) <==> k in s.bytes.Keys - o.ignoredSecret
    ensures k in s.bytes.Keys - o.ignoredSecret ==> ValueOf(c, o, s, "d:" + k) == s.bytes[k]
  {
    hide Tagged;
    assert ("d:" + k)[2..] == k;
    TaggedMember(s.bytes.Keys - o.ignoredSecret, "d:", "d:" + k);
  }

  /** The counted records of two Secrets are equal exactly when their counted keys and their
      values are. */
  lemma SecretRecordsExact(c: Codec, o: Options, a: Source, b: Source)
    requires a.Secret? && b.Secret?
    ensures RecordsOf(c, o, a) == RecordsOf(c, o, b) <==> SameSecret(o, a, b)
  {
    hide RecordKeys, ValueOf;
    var x, y := RecordsOf(c, o, a), RecordsOf(c, o, b);
    assert x.Keys == RecordKeys(a, o) && y.Keys == RecordKeys(b, o);
    if x == y {
      forall k ensures k in a.bytes.Keys - o.ignoredSecret <==> k in b.bytes.Keys - o.ignoredSecret {
        SecretRecord(c, o, a, k);
        SecretRecord(c, o, b, k);
      }
      forall k | k in a.bytes.Keys - o.ignoredSecret ensures k in b.bytes && a.bytes[k] == b.bytes[k] {
        assert k in b.bytes.Keys - o.ignoredSecret;
        SecretRecord(c, o, a, k);
        SecretRecord(c, o, b, k);
        assert x["d:" + k] == y["d:" + k];
      }
    }
    if SameSecret(o, a, b) {
      SecretKeys(o, a, b);
      forall t | t in RecordKeys(a, o) ensures ValueOf(c, o, a, t) == ValueOf(c, o, b, t) {
        RecordKeyIs(a, o, t);
        assert t == "d:" + t[2..];
        SecretRecord(c, o, a, t[2..]);
        SecretRecord(c, o, b, t[2..]);
      }
    }
  }

  lemma SecretKeys(o: Options, a: Source, b: Source)
    requires a.Secret? && b.Secret? && a.bytes.Keys - o.ignoredSecret == b.bytes.Keys - o.ignoredSecret
    ensures RecordKeys(a, o) == RecordKeys(b, o)
  {}

  /** Two objects of one kind and name that count alike. */
  ghost predicate SameSource(c: Codec, o: Options, a: Source, b: Source) {
    && a.ConfigMap? == b.ConfigMap? && a.name == b.name
    && if a.ConfigMap? then SameCounted(c, o, a, b) else SameSecret(o, a, b)
  }

  /** Some key of the object is not ignored. */
  predicate Counting(o: Options, s: Source) {
    match s
    case ConfigMap(_, data, binary) => data.Keys + binary.Keys - o.ignoredCm != {}
    case Secret(_, bytes) => bytes.Keys - o.ignoredSecret != {}
  }

  lemma CountingIs(o: Options, s: Source)
    ensures Counting(o, s) <==> RecordKeys(s, o) != {}
  {
    hide Tagged;
    if s.ConfigMap? {
      TaggedEmpty(s.data.Keys - o.ignoredCm, "s:");
      TaggedEmpty(s.binaryData.Keys - o.ignoredCm, "b:");
      var all := s.data.Keys + s.binaryData.Keys - o.ignoredCm;
      assert all == (s.data.Keys - o.ignoredCm) + (s.binaryData.Keys - o.ignoredCm);
    } else {
      TaggedEmpty(s.bytes.Keys - o.ignoredSecret, "d:");
    }
  }

  lemma TaggedEmpty(keys: set<string>, tag: string)
    ensures Tagged(keys, tag) == {} <==> keys == {}
  {
    if keys != {} {
      var k :| k in keys;
      assert tag + k in Tagged(keys, tag);
    }
  }

  lemma KindAndName(a: Source, b: Source)
    ensures EntryKey(a) == EntryKey(b) <==> a.ConfigMap? == b.ConfigMap? && a.name == b.name
  {
    EntryKeyParts(a);
    EntryKeyParts(b);
  }

  lemma EntryKeyParts(s: Source)
    ensures var k := EntryKey(s);
      if s.ConfigMap? then |k| >= 10 && k[0] == 'c' && k[10..] == s.name
      else |k| >= 7 && k[0] == 's' && k[7..] == s.name
  {}

  lemma SourceExact(c: Codec, o: Options, a: Source, b: Source)
    requires RoundTrips(c)
    ensures SameSource(c, o, a, b) <==> EntryKey(a) == EntryKey(b) && RecordsOf(c, o, a) == RecordsOf(c, o, b)
  {
    hide RecordsOf, EntryKey, RoundTrips, SameCounted, SameSecret;
    KindAndName(a, b);
    if a.ConfigMap? && b.ConfigMap? { RecordsExact(c, o, a, b); }
    if a.Secret? && b.Secret? { SecretRecordsExact(c, o, a, b); }
  }

  lemma RecordsCount(c: Codec, o: Options, a: Source, b: Source)
    requires RecordsOf(c, o, a) == RecordsOf(c, o, b)
    ensures RecordKeys(a, o) == RecordKeys(b, o)
  {
    assert RecordsOf(c, o, a).Keys == RecordKeys(a, o) && RecordsOf(c, o, b).Keys == RecordKeys(b, o);
  }

  ghost predicate HasSame(c: Codec, o: Options, ss: seq<Source>, s: Source) {
    exists t :: t in ss && SameSource(c, o, s, t)
  }

  /** Each object of a that counts has a counterpart in b. */
  ghost predicate Covered(c: Codec, o: Options, a: seq<Source>, b: seq<Source>) {
    forall s :: s in a && Counting(o, s) ==> HasSame(c, o, b, s)
  }

  /** a and b hold the same counting ConfigMaps and Secrets: same kinds, names, keys and
      values, config.yaml compared outside the hot fields. */
  ghost predicate SameSources(c: Codec, o: Options, a: seq<Source>, b: seq<Source>) {
    Covered(c, o, a, b) && Covered(c, o, b, a)
  }

  /** Two objects of one kind and name that NULs cut into the same parts: keys and values in
      key order, taken apart wherever they hold a NUL. */
  ghost predicate SameParts(c: Codec, o: Options, a: Source, b: Source) {
    && a.ConfigMap? == b.ConfigMap? && a.name == b.name && Counting(o, a) == Counting(o, b)
    && Tokens(AllPieces(RecordsOf(c, o, a), true)) == Tokens(AllPieces(RecordsOf(c, o, b), true))
  }

  ghost predicate HasSameParts(c: Codec, o: Options, ss: seq<Source>, s: Source) {
    exists t :: t in ss && SameParts(c, o, s, t)
  }

  ghost predicate PartsCovered(c: Codec, o: Options, a: seq<Source>, b: seq<Source>) {
    forall s :: s in a && Counting(o, s) ==> HasSameParts(c, o, b, s)
  }

  /** a and b hold the same counting ConfigMaps and Secrets up to where NULs cut them. */
  ghost predicate SameSourceParts(c: Codec, o: Options, a: seq<Source>, b: seq<Source>) {
    PartsCovered(c, o, a, b) && PartsCovered(c, o, b, a)
  }

  ghost predicate NamesClean(ss: seq<Source>) {
    forall s :: s in ss ==> '\0' !in s.name
  }

  lemma KeyClean(s: Source)
    requires '\0' !in s.name
    ensures '\0' !in EntryKey(s)
  {}

  lemma CountedNames(c: Codec, o: Options, ss: seq<Source>)
    requires NamesClean(ss)
    ensures CleanNames(Counted(c, o, ss))
  {
    hide EntryKey, Counted;
    forall k | k in Counted(c, o, ss) ensures '\0' !in k {
      CountedKeys(c, o, ss, k);
      var s :| s in ss && EntryKey(s) == k;
      KeyClean(s);
    }
  }

  /** x's table has each source of y's, written out alike. */
  ghost predicate WrittenWithin(x: Content, y: Content) {
    forall k :: k in x ==> k in y && Stream(y[k], true) == Stream(x[k], true)
  }

  lemma PartsCoveredExact(c: Codec, o: Options, a: seq<Source>, b: seq<Source>)
    requires UniqueSources(a) && UniqueSources(b)
    ensures WrittenWithin(Counted(c, o, a), Counted(c, o, b)) <==> PartsCovered(c, o, a, b)
  {
    hide EntryKey, RecordKeys, RecordsOf, Counted, UniqueSources, Counting, Stream, Tokens, AllPieces;
    var x, y := Counted(c, o, a), Counted(c, o, b);
    if WrittenWithin(x, y) {
      forall s | s in a && Counting(o, s) ensures HasSameParts(c, o, b, s) {
        CountingIs(o, s);
        CountedIs(c, o, a, s);
        CountedKeys(c, o, b, EntryKey(s));
        var t :| t in b && EntryKey(t) == EntryKey(s);
        CountedIs(c, o, b, t);
        CountingIs(o, t);
        KindAndName(s, t);
        StreamExact(RecordsOf(c, o, s), RecordsOf(c, o, t), true);
        assert SameParts(c, o, s, t);
      }
    }
    if PartsCovered(c, o, a, b) {
      forall k | k in x ensures k in y && Stream(y[k], true) == Stream(x[k], true) {
        CountedKeys(c, o, a, k);
        var s :| s in a && EntryKey(s) == k;
        CountedIs(c, o, a, s);
        CountingIs(o, s);
        var t :| t in b && SameParts(c, o, s, t);
        CountingIs(o, t);
        KindAndName(s, t);
        CountedIs(c, o, b, t);
        StreamExact(RecordsOf(c, o, s), RecordsOf(c, o, t), true);
      }
    }
  }

  /** For all ConfigMaps and Secrets, NULs in values or not: the combined hash of two clusters
      is the same exactly when their counting objects are, up to where NULs cut them. */
  lemma HashExact(h: string -> string, c: Codec, o: Options, a: seq<Source>, b: seq<Source>)
    requires GoodHash(h) && UniqueSources(a) && UniqueSources(b) && NamesClean(a) && NamesClean(b)
    ensures HashOf(h, Counted(c, o, a)) == HashOf(h, Counted(c, o, b)) <==> SameSourceParts(c, o, a, b)
  {
    hide Counted, PartsCovered, UniqueSources, GoodHash, NamesClean, CleanNames, Stream, HashOf;
    CountedNames(c, o, a);
    CountedNames(c, o, b);
    StreamsExact(h, Counted(c, o, a), Counted(c, o, b));
    PartsCoveredExact(c, o, a, b);
    PartsCoveredExact(c, o, b, a);
    BothWays(Counted(c, o, a), Counted(c, o, b));
  }

  lemma BothWays(x: Content, y: Content)
    ensures SameStreams(x, y) <==> WrittenWithin(x, y) && WrittenWithin(y, x)
  {
    hide Stream;
    if WrittenWithin(x, y) && WrittenWithin(y, x) { assert x.Keys == y.Keys; }
  }

  // ---- without NULs ------------------------------------------------------------------------

  ghost predicate CleanTable(m: map<string, string>, ignored: set<string>) {
    forall k :: k in m.Keys - ignored ==> k != "" && '\0' !in k && '\0' !in m[k]
  }

  /** No NUL in the name, in a counted key or in its value, and no counted key is empty. */
  ghost predicate CleanSource(o: Options, s: Source) {
    '\0' !in s.name &&
    match s
    case ConfigMap(_, data, binary) => CleanTable(data, o.ignoredCm) && CleanTable(binary, o.ignoredCm)
    case Secret(_, bytes) => CleanTable(bytes, o.ignoredSecret)
  }

  /** YAML is printed without NULs. */
  ghost predicate CleanPrint(c: Codec) {
    forall root :: '\0' !in c.print_(root)
  }

  ghost predicate AllClean(o: Options, ss: seq<Source>) {
    forall s :: s in ss ==> CleanSource(o, s)
  }

  lemma ValueClean(c: Codec, o: Options, key: string, raw: string)
    requires CleanPrint(c) && '\0' !in raw
    ensures '\0' !in DataValue(c, o, key, raw)
  {
    hide Strip;
  }

  lemma RecordsClean(c: Codec, o: Options, s: Source)
    requires CleanPrint(c) && CleanSource(o, s)
    ensures Clean(RecordsOf(c, o, s), true)
  {
    hide RecordKeys, DataValue, CleanPrint;
    forall t | t in RecordKeys(s, o) ensures GoodKey(t, true) && '\0' !in t && '\0' !in ValueOf(c, o, s, t) {
      RecordKeyIs(s, o, t);
      var k := t[2..];
      assert t == [t[0]] + [':'] + k;
      if s.ConfigMap? && t[0] == 's' {
        assert k in s.data.Keys - o.ignoredCm;
        ValueClean(c, o, k, s.data[k]);
      } else if s.ConfigMap? {
        assert k in s.binaryData.Keys - o.ignoredCm;
      } else {
        assert k in s.bytes.Keys - o.ignoredSecret;
      }
    }
  }

  /** Without NULs nothing is cut: objects with the same parts are the same. */
  lemma CleanParts(c: Codec, o: Options, a: Source, b: Source)
    requires RoundTrips(c) && CleanPrint(c) && CleanSource(o, a) && CleanSource(o, b)
    requires Counting(o, a)
    ensures SameParts(c, o, a, b) <==> SameSource(c, o, a, b)
  {
    hide RecordsOf, EntryKey, RoundTrips, CleanPrint, CleanSource, SameSource, Counting, Clean,
         Tokens, AllPieces, Stream;
    RecordsClean(c, o, a);
    RecordsClean(c, o, b);
    SourceExact(c, o, a, b);
    KindAndName(a, b);
    CountingIs(o, a);
    CountingIs(o, b);
    StreamExact(RecordsOf(c, o, a), RecordsOf(c, o, b), true);
    if SameParts(c, o, a, b) { StreamInjective(RecordsOf(c, o, a), RecordsOf(c, o, b), true); }
    if SameSource(c, o, a, b) { RecordsCount(c, o, a, b); }
  }

  lemma CleanCovered(c: Codec, o: Options, a: seq<Source>, b: seq<Source>)
    requires RoundTrips(c) && CleanPrint(c) && AllClean(o, a) && AllClean(o, b)
    ensures PartsCovered(c, o, a, b) <==> Covered(c, o, a, b)
  {
    hide RoundTrips, CleanPrint, CleanSource, SameSource, SameParts, Counting;
    forall s, t | s in a && Counting(o, s) && t in b ensures SameParts(c, o, s, t) <==> SameSource(c, o, s, t) {
      CleanParts(c, o, s, t);
    }
    if PartsCovered(c, o, a, b) {
      forall s | s in a && Counting(o, s) ensures HasSame(c, o, b, s) {
        assert HasSameParts(c, o, b, s);
      }
    }
    if Covered(c, o, a, b) {
      forall s | s in a && Counting(o, s) ensures HasSameParts(c, o, b, s) {
        assert HasSame(c, o, b, s);
      }
    }
  }

  lemma CleanNamed(o: Options, ss: seq<Source>)
    requires AllClean(o, ss)
    ensures NamesClean(ss)
  {
    forall s | s in ss ensures '\0' !in s.name { assert CleanSource(o, s); }
  }

  /** Without NULs: the combined hash of two clusters is the same exactly when they hold the
      same counting ConfigMaps and Secrets, config.yaml compared outside the hot fields. */
  lemma HashExactWithoutNul(h: string -> string, c: Codec, o: Options, a: seq<Source>, b: seq<Source>)
    requires GoodHash(h) && RoundTrips(c) && CleanPrint(c) && UniqueSources(a) && UniqueSources(b)
    requires AllClean(o, a) && AllClean(o, b)
    ensures HashOf(h, Counted(c, o, a)) == HashOf(h, Counted(c, o, b)) <==> SameSources(c, o, a, b)
  {
    hide HashOf, Counted, GoodHash, RoundTrips, CleanPrint, UniqueSources, AllClean, NamesClean, PartsCovered, Covered;
    CleanNamed(o, a);
    CleanNamed(o, b);
    HashExact(h, c, o, a, b);
    CleanCovered(c, o, a, b);
    CleanCovered(c, o, b, a);
  }

  // ---- the hashed text ---------------------------------------------------------------------

  lemma OneRecordStream(t: string, v: string)
    requires |t| > 2
    ensures Stream(map[t := v], true) == [t[0]] + t[2..] + ['\0'] + v + ['\0']
  {
    var m := map[t := v];
    OneKeyed(t, v);
    assert [t][1..] == [];
    assert Pieces([], m, true) == [];
    assert Pieces([t], m, true) == [[t[0]] + t[2..], v];
    TerminatedTwo([t[0]] + t[2..], v);
  }

  lemma OneKeyed(k: string, v: string)
    ensures SortedKeys(map[k := v].Keys) == [k]
  {
    SortedKeysMembers(map[k := v].Keys);
    var keys := SortedKeys(map[k := v].Keys);
    assert |map[k := v].Keys| == 1;
    assert keys[0] in keys;
  }

  lemma OneDigestStream(k: string, v: string)
    ensures Stream(map[k := v], false) == k + ['\0'] + v + ['\0']
  {
    var m := map[k := v];
    OneKeyed(k, v);
    assert [k][1..] == [];
    assert Pieces([], m, false) == [];
    assert Pieces([k], m, false) == [k, v];
    TerminatedTwo(k, v);
  }

  lemma OneSource(h: string -> string, c: Codec, o: Options, s: Source, t: string, v: string)
    requires RecordKeys(s, o) == {t} && |t| > 2 && ValueOf(c, o, s, t) == v
    ensures HashOf(h, Counted(c, o, [s]))
         == h(EntryKey(s) + ['\0'] + h([t[0]] + t[2..] + ['\0'] + v + ['\0']) + ['\0'])
  {
    hide RecordKeys, ValueOf, EntryKey, Stream;
    assert RecordsOf(c, o, s) == map[t := v];
    OneRecordStream(t, v);
    assert [s][..0] == [];
    var content: Content := map[EntryKey(s) := map[t := v]];
    assert Counted(c, o, [s]) == content;
    var digest := h(Stream(map[t := v], true));
    assert Digests(h, content) == map[EntryKey(s) := digest];
    assert EntryKey(s) in content;
    OneDigestStream(EntryKey(s), digest);
  }

  /** The text behind the hash of one object with one counted key: the letter of the kind of data,
      the key and the value, each closed by a NUL; its digest, behind the kind and the name of the
      object, closed likewise. */
  lemma HashedText(h: string -> string, c: Codec, o: Options, name: string, k: string, v: string)
    requires k != ""
    ensures k !in o.ignoredCm && !(o.stripHot && k == "config.yaml") ==>
      HashOf(h, Counted(c, o, [ConfigMap(name, map[k := v], map[])]))
      == h("configmap/" + name + ['\0'] + h("s" + k + ['\0'] + v + ['\0']) + ['\0'])
    ensures k !in o.ignoredCm ==>
      HashOf(h, Counted(c, o, [ConfigMap(name, map[], map[k := v])]))
      == h("configmap/" + name + ['\0'] + h("b" + k + ['\0'] + v + ['\0']) + ['\0'])
    ensures k !in o.ignoredSecret ==>
      HashOf(h, Counted(c, o, [Secret(name, map[k := v])]))
      == h("secret/" + name + ['\0'] + h("d" + k + ['\0'] + v + ['\0']) + ['\0'])
  {
    hide HashOf, Counted, Canonical;
    var text, bytes, secret :=
      ConfigMap(name, map[k := v], map[]), ConfigMap(name, map[], map[k := v]), Secret(name, map[k := v]);
    assert ("s:" + k)[2..] == k && ("b:" + k)[2..] == k && ("d:" + k)[2..] == k;
    if k !in o.ignoredCm {
      assert RecordKeys(text, o) == {"s:" + k} && RecordKeys(bytes, o) == {"b:" + k};
      if !(o.stripHot && k == "config.yaml") { OneSource(h, c, o, text, "s:" + k, v); }
      OneSource(h, c, o, bytes, "b:" + k, v);
    }
    if k !in o.ignoredSecret {
      assert RecordKeys(secret, o) == {"d:" + k};
      OneSource(h, c, o, secret, "d:" + k, v);
    }
  }

  // ---- one change to one object, with or without NULs --------------------------------------

  /** s' is s with the value of one key edited, added or removed. */
  ghost predicate OneKey(s: Source, s': Source, k: string) {
    k != "" && s'.name == s.name &&
    match (s, s')
    case (ConfigMap(_, d, b), ConfigMap(_, d', b')) =>
      (d - {k} == d' - {k} && b == b') || (d == d' && b - {k} == b' - {k})
    case (Secret(_, x), Secret(_, x')) => x - {k} == x' - {k}
    case _ => false
  }

  lemma SameElsewhere(m: map<string, string>, m': map<string, string>, k: string, j: string)
    requires m - {k} == m' - {k} && j != k
    ensures (j in m <==> j in m') && (j in m ==> m[j] == m'[j])
  {
    assert j in m <==> j in m - {k};
    assert j in m' <==> j in m' - {k};
    if j in m { assert (m - {k})[j] == (m' - {k})[j]; }
  }

  /** The record of the edited key. */
  ghost function EditedTag(s: Source, s': Source, k: string): string {
    if s.Secret? then "d:" + k
    else if s'.ConfigMap? && s.binaryData == s'.binaryData then "s:" + k else "b:" + k
  }

  lemma OneRecordKey(c: Codec, o: Options, s: Source, s': Source, k: string, t: string)
    requires OneKey(s, s', k) && t in RecordKeys(s, o) && t != EditedTag(s, s', k)
    ensures t in RecordKeys(s', o) && ValueOf(c, o, s', t) == ValueOf(c, o, s, t)
  {
    hide RecordKeys, DataValue;
    RecordKeyIs(s, o, t);
    var j := t[2..];
    assert t == [t[0]] + [':'] + j;
    if s.Secret? {
      assert t == "d:" + j;
      SecretRecord(c, o, s, j);
      SecretRecord(c, o, s', j);
      SameElsewhere(s.bytes, s'.bytes, k, j);
    } else {
      DataRecord(c, o, s, j);
      DataRecord(c, o, s', j);
      if t[0] == 's' {
        assert t == "s:" + j;
        if s.binaryData == s'.binaryData && s.data - {k} == s'.data - {k} { SameElsewhere(s.data, s'.data, k, j); }
      } else {
        assert t == "b:" + j;
        if s.binaryData != s'.binaryData { SameElsewhere(s.binaryData, s'.binaryData, k, j); }
      }
    }
  }

  lemma OneRecord(c: Codec, o: Options, s: Source, s': Source, k: string)
    requires OneKey(s, s', k)
    ensures var t := EditedTag(s, s', k); GoodKey(t, true) && RecordsOf(c, o, s) - {t} == RecordsOf(c, o, s') - {t}
  {
    hide RecordKeys, ValueOf, OneKey;
    var t := EditedTag(s, s', k);
    OneKeySides(s, s', k);
    var x, y := RecordsOf(c, o, s) - {t}, RecordsOf(c, o, s') - {t};
    forall u | u in x ensures u in y && y[u] == x[u] { OneRecordKey(c, o, s, s', k, u); }
    forall u | u in y ensures u in x { OneRecordKey(c, o, s', s, k, u); }
    assert x == y;
  }

  lemma OneKeySides(s: Source, s': Source, k: string)
    requires OneKey(s, s', k)
    ensures OneKey(s', s, k) && EditedTag(s', s, k) == EditedTag(s, s', k) && EntryKey(s') == EntryKey(s)
    ensures GoodKey(EditedTag(s, s', k), true)
  {}

  lemma CountedElsewhere(c: Codec, o: Options, a: seq<Source>, b: seq<Source>, i: nat, j: string)
    requires UniqueSources(a) && UniqueSources(b) && i < |a| == |b| && b == a[i := b[i]]
    requires j in Counted(c, o, a) && j != EntryKey(a[i])
    ensures j in Counted(c, o, b) && Counted(c, o, b)[j] == Counted(c, o, a)[j]
  {
    hide EntryKey, RecordKeys, RecordsOf, Counted, UniqueSources;
    CountedKeys(c, o, a, j);
    var s :| s in a && EntryKey(s) == j;
    var n :| 0 <= n < |a| && a[n] == s;
    assert b[n] == s;
    CountedIs(c, o, a, s);
    CountedIs(c, o, b, s);
  }

  lemma StillUnique(a: seq<Source>, i: nat, s: Source)
    requires UniqueSources(a) && i < |a| && EntryKey(s) == EntryKey(a[i])
    ensures UniqueSources(a[i := s])
  {
    hide EntryKey;
  }

  /** The two tables differ at one object at most. */
  lemma OneEntry(c: Codec, o: Options, a: seq<Source>, i: nat, s: Source)
    requires UniqueSources(a) && i < |a| && EntryKey(s) == EntryKey(a[i])
    ensures var k, x, y := EntryKey(s), Counted(c, o, a), Counted(c, o, a[i := s]);
      && (forall j :: j != k ==> (j in x <==> j in y) && (j in x ==> x[j] == y[j]))
      && (k in x <==> RecordKeys(a[i], o) != {}) && (k in x ==> x[k] == RecordsOf(c, o, a[i]))
      && (k in y <==> RecordKeys(s, o) != {}) && (k in y ==> y[k] == RecordsOf(c, o, s))
  {
    hide EntryKey, RecordKeys, RecordsOf, Counted, UniqueSources;
    var b := a[i := s];
    StillUnique(a, i, s);
    var k, x, y := EntryKey(s), Counted(c, o, a), Counted(c, o, b);
    assert a[i] in a && b[i] in b;
    CountedIs(c, o, a, a[i]);
    CountedIs(c, o, b, b[i]);
    forall j | j != k ensures (j in x <==> j in y) && (j in x ==> x[j] == y[j]) {
      if j in x { CountedElsewhere(c, o, a, b, i, j); }
      if j in y { CountedElsewhere(c, o, b, a, i, j); }
    }
  }

  lemma OneDigest(h: string -> string, x: Content, y: Content, k: string)
    requires GoodHash(h)
    requires forall j :: j != k ==> (j in x <==> j in y) && (j in x ==> x[j] == y[j])
    requires (k in x) != (k in y) || (k in x && k in y && Stream(x[k], true) != Stream(y[k], true))
    ensures HashOf(h, x) != HashOf(h, y)
  {
    hide Stream;
    var p, q := Digests(h, x), Digests(h, y);
    assert p - {k} == q - {k};
    assert p != q by {
      if k in x && k in y { assert p[k] != q[k]; } else { assert (k in p) != (k in q); }
    }
    OneChangeShows(p, q, k, false);
  }

  /** For all objects, NULs or not: editing, adding or removing one key of one ConfigMap or
      Secret changes the combined hash exactly when the object does not count alike, that
      is unless the key is ignored or the edit stays within the hot fields. */
  lemma OneEditRolls(h: string -> string, c: Codec, o: Options, a: seq<Source>, i: nat, s: Source, k: string)
    requires GoodHash(h) && RoundTrips(c) && UniqueSources(a) && i < |a| && OneKey(a[i], s, k)
    ensures HashOf(h, Counted(c, o, a)) == HashOf(h, Counted(c, o, a[i := s])) <==> SameSource(c, o, a[i], s)
  {
    hide EntryKey, RecordKeys, RecordsOf, Counted, UniqueSources, SameSource, OneKey,
         HashOf, Stream, RoundTrips, GoodKey;
    var t := EditedTag(a[i], s, k);
    OneKeySides(a[i], s, k);
    OneEntry(c, o, a, i, s);
    SourceExact(c, o, a[i], s);
    OneRecord(c, o, a[i], s, k);
    RecordsTable(c, o, a[i]);
    RecordsTable(c, o, s);
    var x, y := Counted(c, o, a), Counted(c, o, a[i := s]);
    if SameSource(c, o, a[i], s) {
      assert x.Keys == y.Keys;
      assert x == y;
    } else {
      if RecordKeys(a[i], o) != {} && RecordKeys(s, o) != {} {
        OneChangeShows(RecordsOf(c, o, a[i]), RecordsOf(c, o, s), t, true);
      }
      OneDigest(h, x, y, EntryKey(s));
    }
  }

  lemma RecordsTable(c: Codec, o: Options, s: Source)
    ensures RecordsOf(c, o, s).Keys == RecordKeys(s, o)
    ensures RecordKeys(s, o) == {} ==> RecordsOf(c, o, s) == map[]
  {}
}
