/** The projected certificates and their keys (controllers/certs.go). */
module Certs {
  // Secrets become <stem>.crt and <stem>.key files of one directory, or keys of one Secret.

  import opened Wrappers
  import opened Strings
  import opened Sorting
  import opened RouteModel

  /** A directory: contents by file name. */
  type Files = map<string, string>

  datatype Pair = Pair(crt: string, key: string)

  /** The Secrets the API has, by namespace and name. */
  type Secrets = map<(string, string), map<string, string>>

  const CRT := ".crt"
  const KEY := ".key"
  const TMP := ".tmp"

  // ---- what is wanted ---------------------------------------------------------------

  /** The certificate of a Secret, if it has both parts. */
  function UsablePair(secrets: Secrets, cp: CertProjection): Option<Pair> {
    if (cp.ns, cp.name) !in secrets then None
    else
      var data := secrets[(cp.ns, cp.name)];
      if "tls.crt" !in data || data["tls.crt"] == "" || "tls.key" !in data || data["tls.key"] == "" then None
      else Some(Pair(data["tls.crt"], data["tls.key"]))
  }

  type Wanted = map<string, Pair>

  function WantedOf(projections: map<string, CertProjection>, secrets: Secrets): Wanted {
    map s | s in projections && UsablePair(secrets, projections[s]).Some? ::
      UsablePair(secrets, projections[s]).value
  }

  function StemOf(name: string, suffix: string): string { TrimSuffix(name, suffix) }

  /** The content the wanted pairs give a file name. */
  function Given(want: Wanted, name: string): Option<string> {
    if HasSuffix(name, CRT) then
      if StemOf(name, CRT) in want then Some(want[StemOf(name, CRT)].crt) else None
    else if HasSuffix(name, KEY) then
      if StemOf(name, KEY) in want then Some(want[StemOf(name, KEY)].key) else None
    else None
  }

  function Get(files: Files, name: string): Option<string> {
    if name in files then Some(files[name]) else None
  }

  /** Files the operator owns and no wanted stem accounts for. */
  predicate Stale(want: set<string>, name: string) {
    if HasSuffix(name, CRT) then StemOf(name, CRT) !in want
    else if HasSuffix(name, KEY) then StemOf(name, KEY) !in want
    else HasSuffix(name, TMP)
  }

  /** What the directory holds after a pass in which nothing fails. */
  ghost predicate Converged(files: Files, files': Files, want: Wanted) {
    forall name :: Get(files', name) ==
      if Given(want, name).Some? then Given(want, name)
      else if Stale(want.Keys, name) then None else Get(files, name)
  }

  /** Every wanted pair is there. */
  ghost predicate Offers(files: Files, want: Wanted) {
    forall name :: Given(want, name).Some? ==> Get(files, name) == Given(want, name)
  }

  /** A certificate without its key. */
  predicate Unkeyed(names: set<string>, stem: string) { stem + CRT in names && stem + KEY !in names }

  /** Every certificate has its key. */
  ghost predicate Paired(names: set<string>) {
    forall stem :: !Unkeyed(names, stem)
  }

  /** No certificate lacks its key that did not lack it in base. */
  ghost predicate NoneUnkeyed(base: set<string>, names: set<string>) {
    forall stem :: Unkeyed(names, stem) ==> Unkeyed(base, stem)
  }

  lemma Suffixes(stem: string)
    ensures HasSuffix(stem + CRT, CRT) && StemOf(stem + CRT, CRT) == stem
    ensures HasSuffix(stem + KEY, KEY) && StemOf(stem + KEY, KEY) == stem && !HasSuffix(stem + KEY, CRT)
  {
    TrimSuffixAppend(stem, CRT);
    TrimSuffixAppend(stem, KEY);
    assert (stem + KEY)[|stem|..] == KEY && (stem + KEY)[|stem|] == '.' && (stem + KEY)[|stem| + 1] == 'k';
  }

  lemma Named(name: string)
    ensures HasSuffix(name, CRT) ==> name == StemOf(name, CRT) + CRT
    ensures HasSuffix(name, KEY) ==> name == StemOf(name, KEY) + KEY
    ensures !(HasSuffix(name, CRT) && HasSuffix(name, KEY))
  {
    assert HasSuffix(name, CRT) ==> name[|name| - 4..][1] == 'c';
    assert HasSuffix(name, KEY) ==> name[|name| - 4..][1] == 'k';
  }

  // ---- which part of a Secret goes where -------------------------------------------------

  /** The Secret of a projection is there with a certificate and a key. */
  predicate HasBoth(secrets: Secrets, ns: string, name: string) {
    && (ns, name) in secrets
    && "tls.crt" in secrets[(ns, name)] && |secrets[(ns, name)]["tls.crt"]| > 0
    && "tls.key" in secrets[(ns, name)] && |secrets[(ns, name)]["tls.key"]| > 0
  }

  predicate Projected(projections: map<string, CertProjection>, secrets: Secrets, stem: string) {
    stem in projections && HasBoth(secrets, projections[stem].ns, projections[stem].name)
  }

  /** Each projected stem's certificate is in its .crt file and its key in its .key file. */
  ghost predicate InPlace(files: Files, projections: map<string, CertProjection>, secrets: Secrets) {
    forall stem :: Projected(projections, secrets, stem) ==>
      var data := secrets[(projections[stem].ns, projections[stem].name)];
      && stem + ".crt" in files && files[stem + ".crt"] == data["tls.crt"]
      && stem + ".key" in files && files[stem + ".key"] == data["tls.key"]
  }

  /** No other stem has either file. */
  ghost predicate NoOthers(files: Files, projections: map<string, CertProjection>, secrets: Secrets) {
    forall stem :: stem + ".crt" in files || stem + ".key" in files ==> Projected(projections, secrets, stem)
  }

  lemma UsableIs(projections: map<string, CertProjection>, secrets: Secrets, stem: string)
    ensures stem in WantedOf(projections, secrets) <==> Projected(projections, secrets, stem)
    ensures stem in WantedOf(projections, secrets) ==>
      var data := secrets[(projections[stem].ns, projections[stem].name)];
      WantedOf(projections, secrets)[stem] == Pair(data["tls.crt"], data["tls.key"])
  {}

  lemma GivenAre(want: Wanted, stem: string)
    ensures Given(want, stem + ".crt") == if stem in want then Some(want[stem].crt) else None
    ensures Given(want, stem + ".key") == if stem in want then Some(want[stem].key) else None
    ensures Stale(want.Keys, stem + ".crt") <==> stem !in want
    ensures Stale(want.Keys, stem + ".key") <==> stem !in want
  {
    Suffixes(stem);
  }

  lemma OffersInPlace(files: Files, projections: map<string, CertProjection>, secrets: Secrets)
    requires Offers(files, WantedOf(projections, secrets))
    ensures InPlace(files, projections, secrets)
  {
    hide WantedOf, Given;
    var want := WantedOf(projections, secrets);
    forall stem | Projected(projections, secrets, stem)
      ensures var data := secrets[(projections[stem].ns, projections[stem].name)];
        && Get(files, stem + ".crt") == Some(data["tls.crt"]) && Get(files, stem + ".key") == Some(data["tls.key"])
    {
      UsableIs(projections, secrets, stem);
      GivenAre(want, stem);
    }
  }

  lemma ConvergedAlone(files: Files, files': Files, projections: map<string, CertProjection>, secrets: Secrets)
    requires Converged(files, files', WantedOf(projections, secrets))
    ensures NoOthers(files', projections, secrets)
    ensures forall name :: name + ".tmp" !in files'
  {
    hide WantedOf, Given, Projected, Stale;
    var want := WantedOf(projections, secrets);
    forall stem ensures stem + ".crt" in files' || stem + ".key" in files' ==> Projected(projections, secrets, stem) {
      UsableIs(projections, secrets, stem);
      GivenAre(want, stem);
      assert Get(files', stem + ".crt").Some? ==> stem in want;
      assert Get(files', stem + ".key").Some? ==> stem in want;
    }
    forall name ensures name + ".tmp" !in files' {
      TemporaryStale(want, name);
      assert Get(files', name + ".tmp").None?;
    }
  }

  lemma TemporaryStale(want: Wanted, name: string)
    ensures Given(want, name + ".tmp").None? && Stale(want.Keys, name + ".tmp")
  {
    assert (name + ".tmp")[|name|..] == ".tmp";
    assert ".tmp"[1] != ".crt"[1] && ".tmp"[1] != ".key"[1];
  }

  lemma SecretAlone(data: Files, projections: map<string, CertProjection>, secrets: Secrets)
    requires IsSecretData(data, WantedOf(projections, secrets))
    ensures InPlace(data, projections, secrets) && NoOthers(data, projections, secrets)
    ensures forall name :: name in data ==> exists stem :: name == stem + ".crt" || name == stem + ".key"
  {
    hide WantedOf, Projected;
    var want := WantedOf(projections, secrets);
    OffersInPlace(data, projections, secrets);
    forall stem ensures stem + ".crt" in data || stem + ".key" in data ==> Projected(projections, secrets, stem) {
      UsableIs(projections, secrets, stem);
      GivenAre(want, stem);
      assert Get(data, stem + ".crt").Some? ==> stem in want;
      assert Get(data, stem + ".key").Some? ==> stem in want;
    }
    forall name | name in data ensures exists stem :: name == stem + ".crt" || name == stem + ".key" {
      assert Get(data, name) == Given(want, name);
      Named(name);
    }
  }

  lemma WantedAre(projections: map<string, CertProjection>, secrets: Secrets)
    ensures |WantedOf(projections, secrets)| == |set s | s in projections && Projected(projections, secrets, s)|
  {
    var want := WantedOf(projections, secrets);
    forall s ensures s in want.Keys <==> s in projections && Projected(projections, secrets, s) {
      UsableIs(projections, secrets, s);
    }
    assert want.Keys == set s | s in projections && Projected(projections, secrets, s);
  }

  // ---- the directory -------------------------------------------------------------------

  /** How a write ends: fully, or failing with nothing or a part of the content in place. */
  datatype WriteEnd = Works | Untouched | Partial(content: string)

  predicate EndsWith(states: seq<Files>, files: Files) {
    states != [] && states[|states| - 1] == files
  }

  class CertDir {
    var files: Files
    /** Every state the directory has been in. */
    ghost var states: seq<Files>

    ghost predicate Watched()
      reads this
    {
      EndsWith(states, files)
    }

    constructor (files: Files)
      ensures Watched() && this.files == files && states == [files]
    {
      this.files, states := files, [files];
    }

    /** writeFileIfChanged: in place, and only when the content differs. */
    method WriteFileIfChanged(name: string, content: string, end: WriteEnd) returns (changed: bool, ok: bool)
      requires Watched()
      modifies this
      ensures Watched() && old(states) <= states && |states| <= |old(states)| + 1
      ensures ok <==> Get(old(files), name) == Some(content) || end.Works?
      ensures ok ==> files == old(files)[name := content]
      ensures ok ==> (changed <==> files != old(files))
      ensures !ok ==> !changed && forall n :: n != name ==> Get(files, n) == Get(old(files), n)
      ensures files.Keys == old(files).Keys || files.Keys == old(files).Keys + {name}
    {
      if name in files && files[name] == content {
        assert files == files[name := content];
        return false, true;
      }
      match end {
        case Works =>
          assert Get(files, name) != Some(content);
          files := files[name := content];
          states := states + [files];
          assert Get(files, name) == Some(content);
          return true, true;
        case Untouched =>
          return false, false;
        case Partial(c) =>
          files := files[name := c];
          states := states + [files];
          return false, false;
      }
    }

    method Remove(name: string, works: bool) returns (ok: bool)
      requires Watched() && name in files
      modifies this
      ensures Watched() && states == old(states) + if works then [files] else []
      ensures ok == works && files == if works then old(files) - {name} else old(files)
    {
      if works {
        files := files - {name};
        states := states + [files];
      }
      return works;
    }
  }

  /** No state the directory went through since had a certificate without its key that
      did not lack it in base. */
  ghost predicate AlwaysKeyed(base: set<string>, before: seq<Files>, after: seq<Files>) {
    before <= after && forall i :: |before| <= i < |after| ==> NoneUnkeyed(base, after[i].Keys)
  }

  ghost predicate AlwaysPaired(before: seq<Files>, after: seq<Files>) {
    before <= after && forall i :: |before| <= i < |after| ==> Paired(after[i].Keys)
  }

  /** From a directory whose certificates are all paired, they stay paired in every state. */
  lemma StaysPaired(base: set<string>, before: seq<Files>, after: seq<Files>)
    requires Paired(base) && AlwaysKeyed(base, before, after)
    ensures AlwaysPaired(before, after)
  {}

  lemma AlwaysStep(base: set<string>, before: seq<Files>, middle: seq<Files>, after: seq<Files>)
    requires AlwaysKeyed(base, before, middle) && middle <= after && |after| <= |middle| + 1
    requires after != [] && NoneUnkeyed(base, after[|after| - 1].Keys)
    ensures AlwaysKeyed(base, before, after)
  {
    hide NoneUnkeyed;
  }

  lemma AlwaysTrans(base: set<string>, base': set<string>, before: seq<Files>, middle: seq<Files>, after: seq<Files>)
    requires AlwaysKeyed(base, before, middle) && NoneUnkeyed(base, base') && AlwaysKeyed(base', middle, after)
    ensures AlwaysKeyed(base, before, after)
  {
    hide NoneUnkeyed;
    forall i | |middle| <= i < |after| ensures NoneUnkeyed(base, after[i].Keys) {
      KeyedTrans(base, base', after[i].Keys);
    }
  }

  lemma KeyedTrans(a: set<string>, b: set<string>, c: set<string>)
    requires NoneUnkeyed(a, b) && NoneUnkeyed(b, c)
    ensures NoneUnkeyed(a, c)
  {}

  lemma AlwaysNow(base: set<string>, states: seq<Files>)
    ensures AlwaysKeyed(base, states, states) && NoneUnkeyed(base, base)
  {}

  // ---- writing the pairs ---------------------------------------------------------------------

  /** The files with the pairs of want laid over them. */
  ghost predicate Overlaid(files: Files, files': Files, want: Wanted) {
    forall name :: Get(files', name) == if Given(want, name).Some? then Given(want, name) else Get(files, name)
  }

  lemma OverlayStep(files: Files, files': Files, want: Wanted, stem: string, p: Pair)
    requires Overlaid(files, files', want)
    ensures Overlaid(files, files'[stem + KEY := p.key][stem + CRT := p.crt], want[stem := p])
  {
    hide HasSuffix, StemOf;
    var more, want' := files'[stem + KEY := p.key][stem + CRT := p.crt], want[stem := p];
    Suffixes(stem);
    assert stem + CRT != stem + KEY;
    forall name ensures Get(more, name) == if Given(want', name).Some? then Given(want', name) else Get(files, name) {
      Named(name);
      assert Get(files', name) == if Given(want, name).Some? then Given(want, name) else Get(files, name);
    }
  }

  lemma AddKey(base: set<string>, names: set<string>, stem: string)
    requires NoneUnkeyed(base, names)
    ensures NoneUnkeyed(base, names + {stem + KEY})
  {
    forall s | Unkeyed(names + {stem + KEY}, s) ensures Unkeyed(base, s) {
      Suffixes(s);
      Suffixes(stem);
      assert Unkeyed(names, s);
    }
  }

  lemma AddCrt(base: set<string>, names: set<string>, stem: string)
    requires NoneUnkeyed(base, names) && stem + KEY in names
    ensures NoneUnkeyed(base, names + {stem + CRT})
  {
    forall s | Unkeyed(names + {stem + CRT}, s) ensures Unkeyed(base, s) {
      Suffixes(s);
      Suffixes(stem);
      assert s + CRT == stem + CRT ==> s == stem;
      assert Unkeyed(names, s);
    }
  }

  /** One stem: the key first, the certificate last. However the writes end, no state on
      the way has a certificate without its key that did not lack it before. */
  method WritePair(dir: CertDir, stem: string, p: Pair, ends: string -> WriteEnd) returns (changed: bool, ok: bool)
    requires dir.Watched()
    modifies dir
    ensures dir.Watched() && NoneUnkeyed(old(dir.files).Keys, dir.files.Keys)
    ensures AlwaysKeyed(old(dir.files).Keys, old(dir.states), dir.states)
    ensures ends(stem + KEY).Works? && ends(stem + CRT).Works? ==> ok
    ensures ok ==> dir.files == old(dir.files)[stem + KEY := p.key][stem + CRT := p.crt]
    ensures ok ==> (changed <==> dir.files != old(dir.files))
  {
    hide NoneUnkeyed, AlwaysKeyed, Get;
    ghost var files0, states0, base := dir.files, dir.states, dir.files.Keys;
    AlwaysNow(base, states0);
    AddKey(base, base, stem);
    var kch, kok := dir.WriteFileIfChanged(stem + KEY, p.key, ends(stem + KEY));
    AlwaysStep(base, states0, states0, dir.states);
    if !kok {
      return false, false;
    }
    AddCrt(base, dir.files.Keys, stem);
    ghost var files1, states1 := dir.files, dir.states;
    var cch, cok := dir.WriteFileIfChanged(stem + CRT, p.crt, ends(stem + CRT));
    AlwaysStep(base, states0, states1, dir.states);
    if !cok {
      return false, false;
    }
    Suffixes(stem);
    PairChanged(files0, files1, dir.files, stem, p);
    return kch || cch, true;
  }

  lemma PairChanged(files0: Files, files1: Files, files2: Files, stem: string, p: Pair)
    requires files1 == files0[stem + KEY := p.key] && files2 == files1[stem + CRT := p.crt]
    ensures files2 == files0 <==> files1 == files0 && files2 == files1
  {
    Suffixes(stem);
    if files2 == files0 {
      assert Get(files2, stem + KEY) == Some(p.key);
      assert files1 == files0;
    }
  }

  /** Something the pairs give was not there before. */
  ghost predicate NewlyGiven(files: Files, want: Wanted) {
    exists name :: Given(want, name).Some? && Given(want, name) != Get(files, name)
  }

  lemma OverlayChanged(files: Files, files': Files, want: Wanted)
    requires Overlaid(files, files', want)
    ensures files' != files <==> NewlyGiven(files, want)
  {
    hide Given;
    if files' != files {
      if forall name :: Get(files', name) == Get(files, name) {
        assert files'.Keys == files.Keys by {
          forall n ensures n in files' <==> n in files { assert Get(files', n) == Get(files, n); }
        }
        forall n | n in files ensures files'[n] == files[n] { assert Get(files', n) == Get(files, n); }
        assert false;
      }
      var name :| Get(files', name) != Get(files, name);
      assert Given(want, name).Some?;
    }
    if NewlyGiven(files, want) {
      var name :| Given(want, name).Some? && Given(want, name) != Get(files, name);
      assert Get(files', name) != Get(files, name);
    }
  }

  /** The wanted pairs among the first stems. */
  function Among(want: Wanted, stems: seq<string>): Wanted {
    map s | s in want && s in stems :: want[s]
  }

  lemma AmongMore(want: Wanted, stems: seq<string>, stem: string)
    ensures Among(want, stems + [stem]) ==
      if stem in want then Among(want, stems)[stem := want[stem]] else Among(want, stems)
    ensures Among(want, stems + [stem]).Keys == Among(want, stems).Keys + if stem in want then {stem} else {}
  {
    assert forall s :: s in stems + [stem] <==> s in stems || s == stem;
  }

  /** The loop over the sorted stems. A failed write ends it. */
  method WritePairs(dir: CertDir, projections: map<string, CertProjection>, secrets: Secrets, ends: string -> WriteEnd)
    returns (changed: bool, want: set<string>, ok: bool)
    requires dir.Watched()
    modifies dir
    ensures dir.Watched() && NoneUnkeyed(old(dir.files).Keys, dir.files.Keys)
    ensures AlwaysKeyed(old(dir.files).Keys, old(dir.states), dir.states) && old(dir.states) <= dir.states
    ensures (forall name :: ends(name).Works?) ==> ok
    ensures ok ==> want == WantedOf(projections, secrets).Keys
    ensures ok ==> Overlaid(old(dir.files), dir.files, WantedOf(projections, secrets))
    ensures ok ==> (changed <==> dir.files != old(dir.files))
  {
    hide *;
    ghost var all := WantedOf(projections, secrets);
    ghost var files0, states0, base := dir.files, dir.states, dir.files.Keys;
    AlwaysNow(base, states0);
    var stems := KeysInOrder(projections.Keys);
    SortedKeysMembers(projections.Keys);
    changed, want := false, {};
    AmongNone(all);
    NothingLaid(files0, Among(all, []));
    for i := 0 to |stems|
      invariant dir.Watched() && NoneUnkeyed(base, dir.files.Keys)
      invariant AlwaysKeyed(base, states0, dir.states) && states0 <= dir.states
      invariant want == Among(all, stems[..i]).Keys
      invariant Overlaid(files0, dir.files, Among(all, stems[..i]))
      invariant changed <==> dir.files != files0
    {
      var stem := stems[i];
      assert stems[..i + 1] == stems[..i] + [stem];
      AmongMore(all, stems[..i], stem);
      var pair := UsablePair(secrets, projections[stem]);
      WantedIs(projections, secrets, stem);
      if pair.None? {
        continue;
      }
      ghost var before := dir.files;
      OverlayStep(files0, before, Among(all, stems[..i]), stem, pair.value);
      NotYet(all, stems, i);
      OverlayGrows(files0, before, Among(all, stems[..i]), stem, pair.value);
      ghost var states := dir.states;
      var ch, wrote := WritePair(dir, stem, pair.value, ends);
      AlwaysTrans(base, before.Keys, states0, states, dir.states);
      KeyedTrans(base, before.Keys, dir.files.Keys);
      AlwaysExtends(before.Keys, states, dir.states);
      if !wrote {
        return changed, want, false;
      }
      if ch {
        changed := true;
      }
      want := want + {stem};
    }
    assert stems[..|stems|] == stems;
    AmongAll(projections, secrets, stems);
    return changed, want, true;
  }

  lemma AlwaysExtends(base: set<string>, before: seq<Files>, after: seq<Files>)
    requires AlwaysKeyed(base, before, after)
    ensures before <= after
  {}

  lemma AmongNone(want: Wanted)
    ensures Among(want, []) == map[]
  {}

  lemma WantedIs(projections: map<string, CertProjection>, secrets: Secrets, stem: string)
    requires stem in projections
    ensures var all, pair := WantedOf(projections, secrets), UsablePair(secrets, projections[stem]);
      (stem in all <==> pair.Some?) && (stem in all ==> all[stem] == pair.value)
  {}

  lemma NotYet(want: Wanted, stems: seq<string>, i: nat)
    requires NoDuplicates(stems) && i < |stems|
    ensures stems[i] !in Among(want, stems[..i])
  {}

  lemma AmongAll(projections: map<string, CertProjection>, secrets: Secrets, stems: seq<string>)
    requires forall s :: s in stems <==> s in projections
    ensures Among(WantedOf(projections, secrets), stems) == WantedOf(projections, secrets)
  {}

  lemma NothingLaid(files: Files, want: Wanted)
    requires want == map[]
    ensures Overlaid(files, files, want)
  {}

  /** A file that an earlier stem changed stays changed. */
  lemma OverlayGrows(files: Files, files': Files, want: Wanted, stem: string, p: Pair)
    requires Overlaid(files, files', want)
    ensures files' != files && stem !in want ==> files'[stem + KEY := p.key][stem + CRT := p.crt] != files
  {
    hide HasSuffix, StemOf;
    if files' != files && stem !in want {
      OverlayChanged(files, files', want);
      var name :| Given(want, name).Some? && Given(want, name) != Get(files, name);
      var more := files'[stem + KEY := p.key][stem + CRT := p.crt];
      Suffixes(stem);
      assert name != stem + KEY && name != stem + CRT;
      assert Get(more, name) == Get(files', name) == Given(want, name);
    }
  }

  // ---- pruning -------------------------------------------------------------------------------

  /** The files after pruning among some names; removals of stuck names fail. */
  ghost function Pruned(files: Files, want: set<string>, stuck: set<string>, names: seq<string>): Files {
    map n | n in files && !(n in names && Stale(want, n) && n !in stuck) :: files[n]
  }

  /** No stale certificate stays while its key goes. */
  ghost predicate NoStuckCrt(names: set<string>, want: set<string>, stuck: set<string>) {
    forall stem :: stem !in want && stem + CRT in names && stem + KEY in names && stem + CRT in stuck ==>
      stem + KEY in stuck
  }

  lemma CrtBeforeKey(stem: string)
    ensures StrLe(stem + CRT, stem + KEY) && stem + CRT != stem + KEY
  {
    Suffixes(stem);
    SharedPrefix(stem, CRT, KEY);
    assert CRT[1..] == "crt" && KEY[1..] == "key";
  }

  lemma {:induction false} SharedPrefix(p: string, a: string, b: string)
    ensures StrLe(p + a, p + b) <==> StrLe(a, b)
  {
    if p == "" {
      assert p + a == a && p + b == b;
    } else {
      assert (p + a)[1..] == p[1..] + a && (p + b)[1..] == p[1..] + b;
      SharedPrefix(p[1..], a, b);
    }
  }

  /** In a sorted listing the certificate comes before its key. */
  lemma ListedBefore(names: seq<string>, i: nat, stem: string)
    requires Sorted(names, StrLe) && i <= |names|
    requires stem + KEY in names[..i] && stem + CRT in names
    ensures stem + CRT in names[..i]
  {
    var k :| 0 <= k < i && names[k] == stem + KEY;
    var c :| 0 <= c < |names| && names[c] == stem + CRT;
    CrtBeforeKey(stem);
    if c > k {
      assert StrLe(names[k], names[c]);
      StrLeAntisymmetric(stem + CRT, stem + KEY);
    }
    assert names[..i][c] == names[c];
  }

  lemma PrunedKeyed(files: Files, want: set<string>, stuck: set<string>, names: seq<string>, i: nat)
    requires NoStuckCrt(files.Keys, want, stuck) && i <= |names|
    requires Sorted(names, StrLe) && forall n :: n in names <==> n in files
    ensures NoneUnkeyed(files.Keys, Pruned(files, want, stuck, names[..i]).Keys)
  {
    hide StrLe, HasSuffix, StemOf;
    var left := Pruned(files, want, stuck, names[..i]);
    forall stem | Unkeyed(left.Keys, stem) ensures Unkeyed(files.Keys, stem) {
      Suffixes(stem);
      if stem + KEY in files { ListedBefore(names, i, stem); }
    }
  }

  /** A stuck certificate whose key is removed ends up without it. */
  lemma StuckUnkeyed(files: Files, want: set<string>, stuck: set<string>, names: seq<string>)
    requires forall n :: n in names <==> n in files
    requires !NoStuckCrt(files.Keys, want, stuck)
    ensures !NoneUnkeyed(files.Keys, Pruned(files, want, stuck, names).Keys)
  {
    hide HasSuffix, StemOf;
    var stem :| stem !in want && stem + CRT in files.Keys && stem + KEY in files.Keys && stem + CRT in stuck
                && stem + KEY !in stuck;
    Suffixes(stem);
    assert Unkeyed(Pruned(files, want, stuck, names).Keys, stem) && !Unkeyed(files.Keys, stem);
  }

  lemma PrunedStep(files: Files, want: set<string>, stuck: set<string>, names: seq<string>, i: nat)
    requires i < |names| && names[i] in files && NoDuplicates(names)
    ensures Pruned(files, want, stuck, names[..i + 1]) ==
      if Stale(want, names[i]) && names[i] !in stuck then Pruned(files, want, stuck, names[..i]) - {names[i]}
      else Pruned(files, want, stuck, names[..i])
    ensures names[i] in Pruned(files, want, stuck, names[..i])
  {
    assert names[..i + 1] == names[..i] + [names[i]];
  }

  lemma PrunedNone(files: Files, want: set<string>, stuck: set<string>)
    ensures Pruned(files, want, stuck, []) == files
  {}

  method IsStale(want: set<string>, n: string) returns (stale: bool)
    ensures stale == Stale(want, n)
  {
    if HasSuffix(n, CRT) {
      return TrimSuffix(n, CRT) !in want;
    }
    if HasSuffix(n, KEY) {
      return TrimSuffix(n, KEY) !in want;
    }
    return HasSuffix(n, TMP);
  }

  /** pruneCerts: the listing is sorted by name; a removal that fails is skipped. */
  method PruneCerts(dir: CertDir, want: set<string>, stuck: set<string>, listable: bool) returns (removed: nat)
    requires dir.Watched()
    modifies dir
    ensures dir.Watched() && old(dir.states) <= dir.states
    ensures dir.files ==
      if listable then Pruned(old(dir.files), want, stuck, SortedKeys(old(dir.files).Keys)) else old(dir.files)
    ensures removed == 0 <==> dir.files == old(dir.files)
    ensures listable ==> (AlwaysKeyed(old(dir.files).Keys, old(dir.states), dir.states) <==>
      NoStuckCrt(old(dir.files).Keys, want, stuck))
    ensures !listable ==> dir.states == old(dir.states)
  {
    hide *;
    ghost var files0, states0, base := dir.files, dir.states, dir.files.Keys;
    WatchedState(dir);
    removed := 0;
    if !listable {
      return;
    }
    var names := KeysInOrder(dir.files.Keys);
    SortedKeysMembers(files0.Keys);
    PrunedNone(files0, want, stuck);
    AlwaysNow(base, states0);
    assert names[..0] == [];
    for i := 0 to |names|
      invariant dir.Watched() && states0 <= dir.states
      invariant dir.files == Pruned(files0, want, stuck, names[..i])
      invariant dir.files.Keys <= files0.Keys
      invariant removed == 0 <==> dir.files == files0
      invariant removed == 0 ==> dir.states == states0
      invariant NoStuckCrt(base, want, stuck) ==> AlwaysKeyed(base, states0, dir.states)
    {
      var n := names[i];
      assert n in names;
      PrunedStep(files0, want, stuck, names, i);
      if NoStuckCrt(base, want, stuck) { PrunedKeyed(files0, want, stuck, names, i + 1); }
      var stale := IsStale(want, n);
      if !stale {
        continue;
      }
      ghost var states := dir.states;
      var ok := dir.Remove(n, n !in stuck);
      WatchedState(dir);
      if NoStuckCrt(base, want, stuck) { AlwaysStep(base, states0, states, dir.states); }
      if ok {
        removed := removed + 1;
      }
    }
    assert names[..|names|] == names;
    if !NoStuckCrt(base, want, stuck) {
      WatchedState(dir);
      StuckUnkeyed(files0, want, stuck, names);
      EndShows(base, files0, states0, dir.files, dir.states);
    }
  }

  lemma WatchedState(dir: CertDir)
    requires dir.Watched()
    ensures EndsWith(dir.states, dir.files)
  {}

  /** A certificate that lacks its key at the end lacked it in a state on the way. */
  lemma EndShows(base: set<string>, files0: Files, states0: seq<Files>, files: Files, states: seq<Files>)
    requires EndsWith(states0, files0) && states0 <= states && EndsWith(states, files)
    requires NoneUnkeyed(base, files0.Keys) && !NoneUnkeyed(base, files.Keys)
    ensures !AlwaysKeyed(base, states0, states)
  {
    hide NoneUnkeyed;
    assert |states| > |states0|;
  }

  // ---- the whole pass ------------------------------------------------------------------------------

  /** Only names with one of the operator's suffixes are ever touched. */
  predicate Owned(name: string) { HasSuffix(name, CRT) || HasSuffix(name, KEY) || HasSuffix(name, TMP) }

  lemma PassConverges(files: Files, laid: Files, want: Wanted)
    requires Overlaid(files, laid, want)
    ensures Converged(files, Pruned(laid, want.Keys, {}, SortedKeys(laid.Keys)), want)
  {
    hide HasSuffix, StemOf, SortedKeys;
    SortedKeysMembers(laid.Keys);
    var left := Pruned(laid, want.Keys, {}, SortedKeys(laid.Keys));
    forall name ensures Get(left, name) ==
      if Given(want, name).Some? then Given(want, name)
      else if Stale(want.Keys, name) then None else Get(files, name)
    {
      assert Get(laid, name) == if Given(want, name).Some? then Given(want, name) else Get(files, name);
    }
  }

  /** Writing the pairs neither adds nor removes stale files. */
  lemma OverlayKeepsStale(files: Files, laid: Files, want: Wanted, stuck: set<string>)
    requires Overlaid(files, laid, want)
    ensures NoStuckCrt(laid.Keys, want.Keys, stuck) <==> NoStuckCrt(files.Keys, want.Keys, stuck)
  {
    hide HasSuffix, StemOf;
    forall stem | stem !in want
      ensures stem + CRT in laid <==> stem + CRT in files
      ensures stem + KEY in laid <==> stem + KEY in files
    {
      Suffixes(stem);
      assert Get(laid, stem + CRT) == Get(files, stem + CRT) && Get(laid, stem + KEY) == Get(files, stem + KEY);
    }
  }

  /** What is stuck before the writes lacks its key after the pruning, measured against
      the directory before the writes. */
  lemma StuckAfterWrites(files: Files, laid: Files, want: Wanted, stuck: set<string>)
    requires Overlaid(files, laid, want) && !NoStuckCrt(files.Keys, want.Keys, stuck)
    ensures !NoneUnkeyed(files.Keys, Pruned(laid, want.Keys, stuck, SortedKeys(laid.Keys)).Keys)
  {
    hide HasSuffix, StemOf, SortedKeys;
    SortedKeysMembers(laid.Keys);
    var stem :| stem !in want.Keys && stem + CRT in files.Keys && stem + KEY in files.Keys && stem + CRT in stuck
                && stem + KEY !in stuck;
    Suffixes(stem);
    assert Get(laid, stem + CRT) == Get(files, stem + CRT) && Get(laid, stem + KEY) == Get(files, stem + KEY);
    assert Unkeyed(Pruned(laid, want.Keys, stuck, SortedKeys(laid.Keys)).Keys, stem) && !Unkeyed(files.Keys, stem);
  }

  /** A converged directory has no certificate without its key, whatever was there before. */
  lemma ConvergedPaired(files: Files, files': Files, want: Wanted)
    requires Converged(files, files', want)
    ensures Paired(files'.Keys)
  {
    hide HasSuffix, StemOf;
    forall stem ensures !Unkeyed(files'.Keys, stem) {
      Suffixes(stem);
      assert Get(files', stem + CRT) ==
        if Given(want, stem + CRT).Some? then Given(want, stem + CRT)
        else if Stale(want.Keys, stem + CRT) then None else Get(files, stem + CRT);
      assert Get(files', stem + KEY) ==
        if Given(want, stem + KEY).Some? then Given(want, stem + KEY)
        else if Stale(want.Keys, stem + KEY) then None else Get(files, stem + KEY);
    }
  }

  /** A written pair is not pruned, so what the writes changed stays changed. */
  lemma PassChanged(files: Files, laid: Files, want: Wanted, stuck: set<string>)
    requires Overlaid(files, laid, want)
    ensures var left := Pruned(laid, want.Keys, stuck, SortedKeys(laid.Keys));
      left != files <==> laid != files || left != laid
  {
    hide HasSuffix, StemOf, SortedKeys;
    var left := Pruned(laid, want.Keys, stuck, SortedKeys(laid.Keys));
    if laid != files {
      OverlayChanged(files, laid, want);
      var name :| Given(want, name).Some? && Given(want, name) != Get(files, name);
      assert Get(laid, name) == Given(want, name);
      assert Get(left, name) == Given(want, name);
    }
  }

  /** No file without one of the operator's suffixes differs. */
  ghost predicate SameUnowned(files: Files, files': Files) {
    forall name :: !Owned(name) ==> Get(files', name) == Get(files, name)
  }

  lemma PassKeeps(files: Files, laid: Files, want: Wanted, stuck: set<string>)
    requires Overlaid(files, laid, want)
    ensures var left := Pruned(laid, want.Keys, stuck, SortedKeys(laid.Keys));
      && SameUnowned(files, left) && SameUnowned(files, laid) && Offers(left, want) && Offers(laid, want)
  {
    hide HasSuffix, StemOf, SortedKeys;
    var left := Pruned(laid, want.Keys, stuck, SortedKeys(laid.Keys));
    forall name | Given(want, name).Some? ensures Get(left, name) == Get(laid, name) == Given(want, name) {
      assert Get(laid, name) == if Given(want, name).Some? then Given(want, name) else Get(files, name);
    }
    forall name | !Owned(name) ensures Get(left, name) == Get(laid, name) == Get(files, name) {
      assert Get(laid, name) == if Given(want, name).Some? then Given(want, name) else Get(files, name);
    }
  }

  lemma Pass(files: Files, laid: Files, want: Wanted, stuck: set<string>)
    requires Overlaid(files, laid, want)
    ensures var left := Pruned(laid, want.Keys, stuck, SortedKeys(laid.Keys));
      && (stuck == {} ==> Converged(files, left, want) && Paired(left.Keys))
      && (left != files <==> laid != files || left != laid)
  {
    hide *;
    PassChanged(files, laid, want, stuck);
    if stuck == {} {
      PassConverges(files, laid, want);
      ConvergedPaired(files, Pruned(laid, want.Keys, stuck, SortedKeys(laid.Keys)), want);
    }
  }

  /** projectCerts. ends says how each write ends; removals of stuck names fail. */
  method ProjectCerts(dir: CertDir, projections: map<string, CertProjection>, secrets: Secrets,
                      ends: string -> WriteEnd, stuck: set<string>, listable: bool)
    returns (changed: bool, projected: nat, ok: bool)
    requires dir.Watched()
    modifies dir
    ensures dir.Watched()
    ensures (forall name :: ends(name).Works?) ==> ok
    ensures ok && listable && stuck == {} ==> Converged(old(dir.files), dir.files, WantedOf(projections, secrets))
    ensures ok && listable && stuck == {} ==> Paired(dir.files.Keys)
    ensures ok ==> Offers(dir.files, WantedOf(projections, secrets))
    ensures ok ==> projected == |WantedOf(projections, secrets)| && (changed <==> dir.files != old(dir.files))
    ensures ok ==> InPlace(dir.files, projections, secrets)
    ensures ok && listable && stuck == {} ==>
      NoOthers(dir.files, projections, secrets) && forall name :: name + ".tmp" !in dir.files
    ensures ok ==> projected == |set s | s in projections && Projected(projections, secrets, s)|
    ensures ok ==> SameUnowned(old(dir.files), dir.files)
    ensures !ok || !listable ==> AlwaysKeyed(old(dir.files).Keys, old(dir.states), dir.states)
    ensures ok && listable ==> (AlwaysKeyed(old(dir.files).Keys, old(dir.states), dir.states) <==>
      NoStuckCrt(old(dir.files).Keys, WantedOf(projections, secrets).Keys, stuck))
    ensures Paired(old(dir.files).Keys) && AlwaysKeyed(old(dir.files).Keys, old(dir.states), dir.states) ==>
      AlwaysPaired(old(dir.states), dir.states)
  {
    hide *;
    ghost var files0, states0, all := dir.files, dir.states, WantedOf(projections, secrets);
    WatchedState(dir);
    var want;
    changed, want, ok := WritePairs(dir, projections, secrets, ends);
    projected := |want|;
    if !ok {
      if Paired(files0.Keys) { StaysPaired(files0.Keys, states0, dir.states); }
      return;
    }
    ghost var laid, states := dir.files, dir.states;
    var pruned := PruneCerts(dir, want, stuck, listable);
    if pruned > 0 {
      changed := true;
    }
    WatchedState(dir);
    PassKeeps(files0, laid, all, stuck);
    OffersInPlace(dir.files, projections, secrets);
    WantedAre(projections, secrets);
    if listable {
      Pass(files0, laid, all, stuck);
      if stuck == {} { ConvergedAlone(files0, dir.files, projections, secrets); }
      TwoParts(files0, laid, dir.files, states0, states, dir.states, all, stuck);
    }
    if Paired(files0.Keys) && AlwaysKeyed(files0.Keys, states0, dir.states) {
      StaysPaired(files0.Keys, states0, dir.states);
    }
  }

  /** The writes and the pruning after them. */
  lemma TwoParts(files0: Files, laid: Files, files: Files,
                 states0: seq<Files>, states1: seq<Files>, states: seq<Files>, want: Wanted, stuck: set<string>)
    requires Overlaid(files0, laid, want) && files == Pruned(laid, want.Keys, stuck, SortedKeys(laid.Keys))
    requires EndsWith(states0, files0) && states0 <= states1 <= states && EndsWith(states, files)
    requires AlwaysKeyed(files0.Keys, states0, states1) && NoneUnkeyed(files0.Keys, laid.Keys)
    requires AlwaysKeyed(laid.Keys, states1, states) <==> NoStuckCrt(laid.Keys, want.Keys, stuck)
    ensures AlwaysKeyed(files0.Keys, states0, states) <==> NoStuckCrt(files0.Keys, want.Keys, stuck)
  {
    hide *;
    OverlayKeepsStale(files0, laid, want, stuck);
    if NoStuckCrt(files0.Keys, want.Keys, stuck) {
      AlwaysTrans(files0.Keys, laid.Keys, states0, states1, states);
    } else {
      StuckAfterWrites(files0, laid, want, stuck);
      AlwaysNow(files0.Keys, states0);
      EndShows(files0.Keys, files0, states0, files, states);
    }
  }

  lemma SameFiles(a: Files, b: Files)
    requires forall name :: Get(a, name) == Get(b, name)
    ensures a == b
  {
    forall n ensures n in a <==> n in b { assert Get(a, n) == Get(b, n); }
    forall n | n in a ensures a[n] == b[n] { assert Get(a, n) == Get(b, n); }
  }

  /** A second pass over a converged directory changes nothing. */
  lemma SecondPassQuiet(files: Files, files': Files, files'': Files, want: Wanted)
    requires Converged(files, files', want) && Converged(files', files'', want)
    ensures files'' == files'
  {
    hide Given, Stale;
    forall name ensures Get(files'', name) == Get(files', name) {
      assert Get(files', name) ==
        if Given(want, name).Some? then Given(want, name)
        else if Stale(want.Keys, name) then None else Get(files, name);
    }
    SameFiles(files'', files');
  }

  // ---- Secret mode -------------------------------------------------------------------------------------

  /** The data of the output Secret: exactly the wanted pairs. */
  ghost predicate IsSecretData(data: Files, want: Wanted) {
    forall name :: Get(data, name) == Given(want, name)
  }

  lemma SecretDataStep(data: Files, want: Wanted, stem: string, p: Pair)
    requires IsSecretData(data, want)
    ensures IsSecretData(data[stem + CRT := p.crt][stem + KEY := p.key], want[stem := p])
  {
    hide HasSuffix, StemOf;
    var more, want' := data[stem + CRT := p.crt][stem + KEY := p.key], want[stem := p];
    Suffixes(stem);
    assert stem + CRT != stem + KEY;
    forall name ensures Get(more, name) == Given(want', name) {
      Named(name);
      assert Get(data, name) == Given(want, name);
    }
  }

  lemma SecretKeysNew(data: Files, want: Wanted, stem: string)
    requires IsSecretData(data, want) && stem !in want
    ensures forall p: Pair ::
      |data[stem + CRT := p.crt][stem + KEY := p.key]| == |data| + 2 && |want[stem := p]| == |want| + 1
  {
    hide HasSuffix, StemOf;
    Suffixes(stem);
    assert Get(data, stem + CRT) == Given(want, stem + CRT);
    assert Get(data, stem + KEY) == Given(want, stem + KEY);
    assert stem + CRT !in data && stem + KEY !in data && stem + CRT != stem + KEY;
    forall p: Pair
      ensures |data[stem + CRT := p.crt][stem + KEY := p.key]| == |data| + 2 && |want[stem := p]| == |want| + 1
    {
      assert data[stem + CRT := p.crt][stem + KEY := p.key].Keys == data.Keys + {stem + CRT, stem + KEY};
      assert want[stem := p].Keys == want.Keys + {stem};
    }
  }

  class CertSecret {
    var data: Option<Files>

    /** projectCertsToSecret: the data is replaced as a whole when it differs. */
    method Project(projections: map<string, CertProjection>, secrets: Secrets, updateWorks: bool)
      returns (changed: bool, projected: nat, ok: bool)
      modifies this
      ensures ok == updateWorks
      ensures !ok ==> data == old(data) && !changed
      ensures ok ==> data.Some? && IsSecretData(data.value, WantedOf(projections, secrets))
      ensures ok ==> projected == |WantedOf(projections, secrets)| && (changed <==> data != old(data))
      ensures ok ==> InPlace(data.value, projections, secrets) && NoOthers(data.value, projections, secrets)
      ensures ok ==> forall name :: name in data.value ==> exists stem :: name == stem + ".crt" || name == stem + ".key"
      ensures ok ==> projected == |set s | s in projections && Projected(projections, secrets, s)|
    {
      hide *;
      ghost var all := WantedOf(projections, secrets);
      var stems := KeysInOrder(projections.Keys);
      SortedKeysMembers(projections.Keys);
      var out: Files := map[];
      AmongNone(all);
      NoSecretData(Among(all, []));
      for i := 0 to |stems|
        invariant IsSecretData(out, Among(all, stems[..i])) && |out| == 2 * |Among(all, stems[..i])|
        invariant data == old(data)
      {
        var stem := stems[i];
        assert stems[..i + 1] == stems[..i] + [stem];
        AmongMore(all, stems[..i], stem);
        WantedIs(projections, secrets, stem);
        var pair := UsablePair(secrets, projections[stem]);
        if pair.None? {
          continue;
        }
        NotYet(all, stems, i);
        SecretDataStep(out, Among(all, stems[..i]), stem, pair.value);
        SecretKeysNew(out, Among(all, stems[..i]), stem);
        out := out[stem + CRT := pair.value.crt][stem + KEY := pair.value.key];
      }
      assert stems[..|stems|] == stems;
      AmongAll(projections, secrets, stems);
      if !updateWorks {
        return false, 0, false;
      }
      assert |out| == 2 * |all|;
      SecretAlone(out, projections, secrets);
      WantedAre(projections, secrets);
      changed := data != Some(out);
      if changed {
        data := Some(out);
      }
      projected := |out| / 2;
      ok := true;
    }
  }

  lemma NoSecretData(want: Wanted)
    requires want == map[]
    ensures IsSecretData(map[], want)
  {}

  /** The certificates and keys among the files. */
  function CertFiles(files: Files): Files {
    map n | n in files && (HasSuffix(n, CRT) || HasSuffix(n, KEY)) :: files[n]
  }

  /** Both modes offer the same pairs: a converged directory's certificates and keys are
      the Secret's data. */
  lemma ModesAgree(files: Files, files': Files, data: Files, want: Wanted)
    requires Converged(files, files', want) && IsSecretData(data, want)
    ensures CertFiles(files') == data
  {
    hide HasSuffix, StemOf;
    forall name ensures Get(CertFiles(files'), name) == Get(data, name) {
      assert Get(data, name) == Given(want, name);
      assert Get(files', name) ==
        if Given(want, name).Some? then Given(want, name)
        else if Stale(want.Keys, name) then None else Get(files, name);
    }
    SameFiles(CertFiles(files'), data);
  }
}
