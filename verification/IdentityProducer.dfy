/** The identity producer's delta stream (controllers/identity_producer.go). */
module IdentityProducer {
  // Between two baselines a consumer that applies every delivered delta holds the producer's table.

  import opened Wrappers
  import opened Strings
  import opened Sorting
  import opened Kube
  import opened Identity

  // ---- comparing entries the way Go does ---------------------------------------------

  /** A missing label reads as the empty string. */
  function LabelOr(labels: Labels, k: string): string {
    if k in labels then labels[k] else ""
  }

  predicate EqualTo(e: Entry, o: Entry) {
    && e.(labels := map[]) == o.(labels := map[])
    && |e.labels| == |o.labels|
    && forall k :: k in e.labels ==> LabelOr(o.labels, k) == e.labels[k]
  }

  /** equalTo, field by field. */
  method EntriesEqual(e: Entry, o: Entry) returns (same: bool)
    ensures same == EqualTo(e, o)
  {
    if e.ip != o.ip || e.workload != o.workload || e.ns != o.ns || e.app != o.app {
      return false;
    }
    if e.internetExposed != o.internetExposed || e.controlPlane != o.controlPlane {
      return false;
    }
    if |e.labels| != |o.labels| {
      return false;
    }
    var keys := CollectKeys(e.labels.Keys);
    SetElementsNoDuplicates(keys, e.labels.Keys);
    for i := 0 to |keys|
      invariant forall j :: 0 <= j < i ==> LabelOr(o.labels, keys[j]) == e.labels[keys[j]]
    {
      if LabelOr(o.labels, keys[i]) != e.labels[keys[i]] {
        return false;
      }
    }
    return true;
  }

  predicate NoEmptyLabel(e: Entry) {
    forall k :: k in e.labels ==> e.labels[k] != ""
  }

  lemma SameSizeSubset<T>(a: set<T>, b: set<T>)
    requires a <= b && |a| == |b|
    ensures a == b
  {
    assert |b - a| == |b| - |a|;
  }

  lemma EqualWithoutEmptyLabels(e: Entry, o: Entry)
    requires NoEmptyLabel(e) && EqualTo(e, o)
    ensures e == o
  {
    forall k | k in e.labels ensures k in o.labels && o.labels[k] == e.labels[k] {
      assert LabelOr(o.labels, k) == e.labels[k] != "";
    }
    SameSizeSubset(e.labels.Keys, o.labels.Keys);
  }

  function Longest(keys: seq<string>): (n: nat)
    ensures forall k :: k in keys ==> |k| <= n
  {
    if keys == [] then 0
    else
      var n := Longest(keys[1..]);
      if |keys[0]| > n then |keys[0]| else n
  }

  /** An entry with an empty label passes as another one: the label moved to a new key. */
  lemma EmptyLabelMoved(e: Entry) returns (o: Entry)
    requires !NoEmptyLabel(e)
    ensures o != e && o.ip == e.ip && EqualTo(e, o)
  {
    var k :| k in e.labels && e.labels[k] == "";
    var k' := FreshKey(e.labels.Keys);
    var moved := MoveLabel(e.labels, k, k');
    o := e.(labels := moved);
  }

  lemma FreshKey(keys: set<string>) returns (k: string)
    ensures k !in keys
  {
    var ks := Enumerate(keys);
    SetElementsNoDuplicates(ks, keys);
    k := seq(Longest(ks) + 1, i => 'x');
  }

  lemma MoveLabel(labels: Labels, k: string, k': string) returns (moved: Labels)
    requires k in labels && labels[k] == "" && k' !in labels
    ensures moved != labels && |moved| == |labels|
    ensures forall j :: j in labels ==> LabelOr(moved, j) == labels[j]
  {
    moved := (labels - {k})[k' := ""];
    assert moved.Keys == labels.Keys - {k} + {k'};
  }

  /** equalTo means equality from e exactly when e carries no empty label value. */
  lemma EqualToExact(e: Entry)
    ensures (forall o :: EqualTo(e, o) ==> e == o) <==> NoEmptyLabel(e)
  {
    if NoEmptyLabel(e) {
      forall o | EqualTo(e, o) ensures e == o { EqualWithoutEmptyLabels(e, o); }
    } else {
      var o := EmptyLabelMoved(e);
    }
  }

  // ---- deltas ---------------------------------------------------------------------------

  /** One row on the wire: the classification flags are not sent. */
  datatype Row = Row(ip: string, workload: string, ns: string, app: string, labels: Labels)

  datatype Delta = Delta(epoch: nat, seqNo: nat, cluster: string, upserts: seq<Row>, removes: seq<string>)

  type Index = map<string, Entry>

  type Table = map<string, Row>

  function RowOf(e: Entry): Row { Row(e.ip, e.workload, e.ns, e.app, e.labels) }

  ghost function Rows(index: Index): Table { map ip | ip in index :: RowOf(index[ip]) }

  /** Entries are keyed by their own IP and carry no classification. */
  ghost predicate GoodIndex(index: Index) {
    forall ip :: ip in index ==> index[ip].ip == ip && !index[ip].internetExposed && !index[ip].controlPlane
  }

  ghost predicate NoEmptyLabels(index: Index) {
    forall ip :: ip in index ==> NoEmptyLabel(index[ip])
  }

  predicate Changed(prev: Index, ip: string, e: Entry) {
    ip !in prev || !EqualTo(prev[ip], e)
  }

  /** The delta leads from prev to new: changed and new rows up, lost IPs out. */
  ghost predicate DeltaFor(d: Delta, prev: Index, next: Index) {
    && (forall r :: r in d.upserts <==> r.ip in next && r == RowOf(next[r.ip]) && Changed(prev, r.ip, next[r.ip]))
    && (forall i, j :: 0 <= i < j < |d.upserts| ==> d.upserts[i].ip != d.upserts[j].ip)
    && (forall ip :: ip in d.removes <==> ip in prev && ip !in next)
  }

  function Upsert(t: Table, rows: seq<Row>): Table {
    if rows == [] then t else Upsert(t, rows[..|rows| - 1])[rows[|rows| - 1].ip := rows[|rows| - 1]]
  }

  /** The consumer drops the removes and stores the upserts. */
  ghost function ApplyDelta(t: Table, d: Delta): Table {
    Upsert(map ip | ip in t && ip !in d.removes :: t[ip], d.upserts)
  }

  lemma {:induction false} Upserted(t: Table, rows: seq<Row>)
    requires forall i, j :: 0 <= i < j < |rows| ==> rows[i].ip != rows[j].ip
    ensures forall ip :: ip in Upsert(t, rows) <==> ip in t || exists r :: r in rows && r.ip == ip
    ensures forall r :: r in rows ==> Upsert(t, rows)[r.ip] == r
    ensures forall ip :: ip in t && (forall r :: r in rows ==> r.ip != ip) ==> Upsert(t, rows)[ip] == t[ip]
  {
    if rows == [] {
    } else {
      var init, last := rows[..|rows| - 1], rows[|rows| - 1];
      assert rows == init + [last];
      Upserted(t, init);
    }
  }

  /** The consumer ends up with the new rows, except where a real change passed for none. */
  lemma DeltaApplied(d: Delta, prev: Index, next: Index)
    requires GoodIndex(prev) && GoodIndex(next) && DeltaFor(d, prev, next)
    ensures ApplyDelta(Rows(prev), d) ==
      map ip | ip in next :: if Changed(prev, ip, next[ip]) then RowOf(next[ip]) else RowOf(prev[ip])
  {
    hide EqualTo;
    var kept := map ip | ip in Rows(prev) && ip !in d.removes :: Rows(prev)[ip];
    Upserted(kept, d.upserts);
    var t := ApplyDelta(Rows(prev), d);
    forall ip ensures ip in t <==> ip in next {
      if ip in next && Changed(prev, ip, next[ip]) { assert RowOf(next[ip]) in d.upserts; }
    }
    forall ip | ip in next
      ensures t[ip] == if Changed(prev, ip, next[ip]) then RowOf(next[ip]) else RowOf(prev[ip])
    {
      if Changed(prev, ip, next[ip]) { assert RowOf(next[ip]) in d.upserts; }
    }
  }

  /** One delivered delta brings the consumer to the new table when no prev label is empty. */
  lemma DeltaKeepsSync(d: Delta, prev: Index, next: Index)
    requires GoodIndex(prev) && GoodIndex(next) && NoEmptyLabels(prev) && DeltaFor(d, prev, next)
    ensures ApplyDelta(Rows(prev), d) == Rows(next)
  {
    DeltaApplied(d, prev, next);
    forall ip | ip in next && !Changed(prev, ip, next[ip]) ensures prev[ip] == next[ip] {
      EqualWithoutEmptyLabels(prev[ip], next[ip]);
    }
  }

  /** No delta is due exactly when nothing changed and nothing was lost. */
  ghost predicate NothingToSend(prev: Index, next: Index) {
    (forall ip :: ip in next ==> !Changed(prev, ip, next[ip])) && prev.Keys <= next.Keys
  }

  lemma NothingToSendSameRows(prev: Index, next: Index)
    requires GoodIndex(prev) && GoodIndex(next) && NoEmptyLabels(prev) && NothingToSend(prev, next)
    ensures Rows(prev) == Rows(next)
  {
    forall ip | ip in next ensures prev[ip] == next[ip] {
      assert !Changed(prev, ip, next[ip]);
      EqualWithoutEmptyLabels(prev[ip], next[ip]);
    }
  }

  // ---- runs between two baselines ------------------------------------------------------

  datatype State = State(epoch: nat, seqNo: nat, index: Index, log: seq<Delta>)

  /** One flush: table is what the listing resolved to, None a failed listing. */
  datatype Flush = Flush(table: Option<Index>, postOk: bool)

  ghost function Delivered(s: State, d: Delta, table: Index): State {
    s.(seqNo := d.seqNo, index := table, log := s.log + [d])
  }

  ghost predicate FlushStep(s: State, f: Flush, s': State) {
    match f.table
    case None => s' == s
    case Some(table) =>
      if NothingToSend(s.index, table) || !f.postOk then s' == s
      else exists d :: (DeltaFor(d, s.index, table) && d.epoch == s.epoch && d.seqNo == s.seqNo + 1
                        && s' == Delivered(s, d, table))
  }

  ghost function Replay(t: Table, log: seq<Delta>): Table {
    if log == [] then t else ApplyDelta(Replay(t, log[..|log| - 1]), log[|log| - 1])
  }

  /** A run of flushes from a baseline, over tables without empty label values. */
  ghost predicate IsRun(trace: seq<State>, flushes: seq<Flush>) {
    && |trace| == |flushes| + 1
    && GoodIndex(trace[0].index) && NoEmptyLabels(trace[0].index)
    && (forall i :: 0 <= i < |flushes| ==> FlushStep(trace[i], flushes[i], trace[i + 1]))
    && (forall i :: 0 <= i < |flushes| && flushes[i].table.Some? ==>
          GoodIndex(flushes[i].table.value) && NoEmptyLabels(flushes[i].table.value))
  }

  ghost predicate InSync(s0: State, s: State) {
    && |s0.log| <= |s.log| && s.log[..|s0.log|] == s0.log
    && s.seqNo == s0.seqNo + (|s.log| - |s0.log|)
    && s.epoch == s0.epoch
    && GoodIndex(s.index) && NoEmptyLabels(s.index)
    && Replay(Rows(s0.index), s.log[|s0.log|..]) == Rows(s.index)
    && forall i :: |s0.log| <= i < |s.log| ==> s.log[i].seqNo == s0.seqNo + (i - |s0.log|) + 1
  }

  lemma DeliveredInSync(s0: State, s: State, d: Delta, table: Index)
    requires InSync(s0, s) && GoodIndex(table) && NoEmptyLabels(table)
    requires DeltaFor(d, s.index, table) && d.seqNo == s.seqNo + 1
    ensures InSync(s0, Delivered(s, d, table))
  {
    hide DeltaFor, GoodIndex, NoEmptyLabels, Rows, ApplyDelta;
    var n := |s0.log|;
    var before, after := s.log[n..], (s.log + [d])[n..];
    assert after == before + [d] && after[..|after| - 1] == before;
    assert (s.log + [d])[..n] == s.log[..n];
    DeltaKeepsSync(d, s.index, table);
  }

  /** A consumer that starts from the baseline's table and applies every delivered delta
      holds the producer's table after any number of flushes, whatever failed in between. */
  lemma {:induction false} ConsumersFollow(trace: seq<State>, flushes: seq<Flush>, n: nat)
    requires IsRun(trace, flushes) && n < |trace|
    ensures InSync(trace[0], trace[n])
  {
    hide DeltaFor, NothingToSend, GoodIndex, NoEmptyLabels, InSync;
    if n == 0 {
      StartsInSync(trace[0]);
    } else {
      ConsumersFollow(trace, flushes, n - 1);
      var s, f := trace[n - 1], flushes[n - 1];
      assert FlushStep(s, f, trace[n]);
      if trace[n] != s {
        var d :| DeltaFor(d, s.index, f.table.value) && d.epoch == s.epoch && d.seqNo == s.seqNo + 1
                 && trace[n] == Delivered(s, d, f.table.value);
        DeliveredInSync(trace[0], s, d, f.table.value);
      }
    }
  }

  /** That table says of each address what the producer's row says. */
  lemma ConsumersSay(trace: seq<State>, flushes: seq<Flush>, n: nat, ip: string)
    requires IsRun(trace, flushes) && n < |trace|
    ensures |trace[0].log| <= |trace[n].log|
    ensures var t, index := Replay(Rows(trace[0].index), trace[n].log[|trace[0].log|..]), trace[n].index;
      && (ip in t <==> ip in index)
      && (ip in t ==>
            && t[ip].ip == ip && t[ip].workload == index[ip].workload && t[ip].ns == index[ip].ns
            && t[ip].app == index[ip].app && t[ip].labels == index[ip].labels)
  {
    hide IsRun, Replay;
    ConsumersFollow(trace, flushes, n);
  }

  lemma StartsInSync(s: State)
    requires GoodIndex(s.index) && NoEmptyLabels(s.index)
    ensures InSync(s, s)
  {
    assert s.log[|s.log|..] == [];
  }

  /** What a consumer in step holds after one flush of table whose post works. */
  ghost predicate AfterFlush(index: Index, table: Index, t: Table) {
    if NothingToSend(index, table) then t == Rows(index)
    else exists d :: DeltaFor(d, index, table) && t == ApplyDelta(Rows(index), d)
  }

  /** The condition on label values is exact: every working flush leaves the consumer with
      the new table precisely when the producer's table holds no empty label value. */
  lemma FlushKeepsSyncExactly(index: Index)
    requires GoodIndex(index)
    ensures (forall table, t :: GoodIndex(table) && AfterFlush(index, table, t) ==> t == Rows(table))
            <==> NoEmptyLabels(index)
  {
    hide EqualTo, DeltaFor, NothingToSend, ApplyDelta;
    if NoEmptyLabels(index) {
      forall table, t | GoodIndex(table) && AfterFlush(index, table, t) ensures t == Rows(table) {
        if NothingToSend(index, table) {
          NothingToSendSameRows(index, table);
        } else {
          var d :| DeltaFor(d, index, table) && t == ApplyDelta(Rows(index), d);
          DeltaKeepsSync(d, index, table);
        }
      }
    } else {
      var table := StaleAfterFlush(index);
      assert AfterFlush(index, table, Rows(index));
    }
  }

  /** An empty label that moves to another key is never sent. */
  lemma StaleAfterFlush(index: Index) returns (table: Index)
    requires GoodIndex(index) && !NoEmptyLabels(index)
    ensures GoodIndex(table) && NothingToSend(index, table) && Rows(table) != Rows(index)
  {
    var ip :| ip in index && !NoEmptyLabel(index[ip]);
    var o := EmptyLabelMoved(index[ip]);
    table := index[ip := o];
    forall k | k in table ensures !Changed(index, k, table[k]) {}
    assert Rows(table)[ip] == RowOf(o) && Rows(index)[ip] == RowOf(index[ip]);
  }

  // ---- the content version of a baseline -----------------------------------------------

  function BoolText(b: bool): string { if b then "true" else "false" }

  function RowFields(e: Entry): seq<string> {
    [e.ip, e.ns, e.workload, e.app, BoolText(e.internetExposed), BoolText(e.controlPlane)]
  }

  function RowText(e: Entry): string { Join(RowFields(e), "|") }

  function RowTexts(entries: seq<Entry>): (rows: seq<string>)
    ensures |rows| == |entries| && forall i :: 0 <= i < |rows| ==> rows[i] == RowText(entries[i])
  {
    if entries == [] then [] else RowTexts(entries[..|entries| - 1]) + [RowText(entries[|entries| - 1])]
  }

  function VersionText(entries: seq<Entry>): string { Join(SortStrings(RowTexts(entries)), "\n") }

  /** h is any function of the text: the code keeps 16 digits of its SHA-256. */
  function Version(h: string -> string, entries: seq<Entry>): string { "id-" + h(VersionText(entries)) }

  /** A row of the hashed text and the version built from all of them. */
  lemma VersionIs(h: string -> string, entries: seq<Entry>, e: Entry)
    ensures RowText(e)
         == e.ip + "|" + (e.ns + "|" + (e.workload + "|" + (e.app + "|"
            + ((if e.internetExposed then "true" else "false") + "|" + (if e.controlPlane then "true" else "false")))))
    ensures Version(h, entries) == "id-" + h(Join(SortStrings(RowTexts(entries)), "\n"))
  {
    hide SortStrings, RowTexts;
    var fields := RowFields(e);
    var internet, control := BoolText(e.internetExposed), BoolText(e.controlPlane);
    assert fields == [e.ip, e.ns, e.workload, e.app, internet, control];
    assert fields[1..][1..][1..][1..] == [internet, control];
    assert [internet, control][1..] == [control];
    assert Join([internet, control], "|") == internet + "|" + control;
    assert Join(fields[1..][1..][1..], "|") == e.app + "|" + Join(fields[1..][1..][1..][1..], "|");
    assert Join(fields[1..][1..], "|") == e.workload + "|" + Join(fields[1..][1..][1..], "|");
    assert Join(fields[1..], "|") == e.ns + "|" + Join(fields[1..][1..], "|");
  }

  /** Names, namespaces and addresses hold no separators. */
  ghost predicate Clean(e: Entry) {
    forall f :: f in [e.ip, e.ns, e.workload, e.app] ==> '|' !in f && '\n' !in f
  }

  function Unlabelled(e: Entry): Entry { e.(labels := map[]) }

  lemma FieldsClean(e: Entry)
    requires Clean(e)
    ensures forall f :: f in RowFields(e) ==> '|' !in f && '\n' !in f
  {}

  lemma {:induction false} JoinedWithout(parts: seq<string>, sep: string, c: char)
    requires c !in sep && forall f :: f in parts ==> c !in f
    ensures c !in Join(parts, sep)
  {
    if |parts| <= 1 {
    } else {
      JoinedWithout(parts[1..], sep, c);
    }
  }

  lemma RowTextClean(e: Entry)
    requires Clean(e)
    ensures '\n' !in RowText(e) && RowText(e) != ""
  {
    hide Clean, Split;
    FieldsClean(e);
    JoinedWithout(RowFields(e), "|", '\n');
    SplitJoin(RowFields(e), '|');
    SplitNone("", '|');
  }

  /** A row determines everything in the entry but its labels. */
  lemma RowTextInjective(e: Entry, f: Entry)
    requires Clean(e) && Clean(f) && RowText(e) == RowText(f)
    ensures Unlabelled(e) == Unlabelled(f)
  {
    hide Clean, Split, Join;
    FieldsClean(e);
    FieldsClean(f);
    SplitJoin(RowFields(e), '|');
    SplitJoin(RowFields(f), '|');
    var a, b := RowFields(e), RowFields(f);
    assert a[0] == b[0] && a[1] == b[1] && a[2] == b[2] && a[3] == b[3] && a[4] == b[4] && a[5] == b[5];
    BoolTextInjective(e.internetExposed, f.internetExposed);
    BoolTextInjective(e.controlPlane, f.controlPlane);
  }

  lemma BoolTextInjective(a: bool, b: bool)
    requires BoolText(a) == BoolText(b)
    ensures a == b
  {
    assert |BoolText(a)| == if a then 4 else 5;
  }

  ghost predicate AllClean(es: seq<Entry>) {
    forall e :: e in es ==> Clean(e)
  }

  /** Same text, same rows. */
  lemma TextDetermines(es: seq<Entry>, fs: seq<Entry>)
    requires AllClean(es) && AllClean(fs) && VersionText(es) == VersionText(fs)
    ensures multiset(RowTexts(es)) == multiset(RowTexts(fs))
  {
    hide RowText, Clean, Join;
    SortedRowsClean(es);
    SortedRowsClean(fs);
    JoinInjective(SortStrings(RowTexts(es)), SortStrings(RowTexts(fs)), '\n');
  }

  lemma SortedRowsClean(es: seq<Entry>)
    requires AllClean(es)
    ensures forall l :: l in SortStrings(RowTexts(es)) ==> l != "" && '\n' !in l
  {
    hide RowText, Clean;
    var rows := RowTexts(es);
    PermutedMembers(SortStrings(rows), rows);
    forall l | l in rows ensures l != "" && '\n' !in l {
      var i :| 0 <= i < |rows| && rows[i] == l;
      RowTextClean(es[i]);
    }
  }

  ghost predicate HasRow(fs: seq<Entry>, e: Entry) {
    exists f :: f in fs && Unlabelled(f) == Unlabelled(e)
  }

  ghost predicate SameButLabels(es: seq<Entry>, fs: seq<Entry>) {
    (forall e :: e in es ==> HasRow(fs, e)) && forall f :: f in fs ==> HasRow(es, f)
  }

  ghost predicate UniqueIPs(es: seq<Entry>) {
    forall i, j :: 0 <= i < j < |es| ==> es[i].ip != es[j].ip
  }

  lemma RowsInclude(es: seq<Entry>, fs: seq<Entry>, e: Entry)
    requires AllClean(es) && AllClean(fs) && e in es
    requires multiset(RowTexts(es)) == multiset(RowTexts(fs))
    ensures HasRow(fs, e)
  {
    hide RowText, Clean;
    var x, y := RowTexts(es), RowTexts(fs);
    var i :| 0 <= i < |es| && es[i] == e;
    assert x[i] in multiset(x);
    var j :| 0 <= j < |y| && y[j] == x[i];
    RowTextInjective(fs[j], e);
  }

  lemma {:induction false} RowsRemoved(es: seq<Entry>, j: nat)
    requires j < |es|
    ensures multiset(RowTexts(es)) == multiset(RowTexts(es[..j] + es[j + 1..])) + multiset{RowText(es[j])}
  {
    hide RowText;
    var x, y := RowTexts(es), RowTexts(es[..j] + es[j + 1..]);
    assert x == y[..j] + [x[j]] + y[j..];
    assert y == y[..j] + y[j..];
  }

  /** Tables with the same rows up to labels have the same row texts. */
  lemma {:induction false} SameRowTexts(es: seq<Entry>, fs: seq<Entry>)
    requires UniqueIPs(es) && UniqueIPs(fs) && SameButLabels(es, fs)
    ensures multiset(RowTexts(es)) == multiset(RowTexts(fs))
  {
    hide RowText, UniqueIPs, Unlabelled, SameButLabels;
    if es == [] {
      NoRows(es, fs);
    } else {
      var j := RowIndex(es, fs);
      var rest := fs[..j] + fs[j + 1..];
      assert es[..0] + es[1..] == es[1..];
      RowsRemoved(es, 0);
      RowsRemoved(fs, j);
      RowTextUnlabelled(es[0], fs[j]);
      RestSameButLabels(es, fs, j);
      SameRowTexts(es[1..], rest);
    }
  }

  lemma NoRows(es: seq<Entry>, fs: seq<Entry>)
    requires SameButLabels(es, fs) && es == []
    ensures fs == []
  {
    HeadIsIn(fs);
  }

  lemma HeadIsIn(fs: seq<Entry>)
    ensures fs == [] || fs[0] in fs
  {}

  lemma RowIndex(es: seq<Entry>, fs: seq<Entry>) returns (j: nat)
    requires SameButLabels(es, fs) && es != []
    ensures j < |fs| && Unlabelled(fs[j]) == Unlabelled(es[0])
  {
    assert es[0] in es;
    var f :| f in fs && Unlabelled(f) == Unlabelled(es[0]);
    j :| 0 <= j < |fs| && fs[j] == f;
  }

  lemma RowTextUnlabelled(e: Entry, f: Entry)
    requires Unlabelled(e) == Unlabelled(f)
    ensures RowText(e) == RowText(f)
  {}

  lemma RestSameButLabels(es: seq<Entry>, fs: seq<Entry>, j: nat)
    requires UniqueIPs(es) && UniqueIPs(fs) && SameButLabels(es, fs)
    requires es != [] && j < |fs| && Unlabelled(fs[j]) == Unlabelled(es[0])
    ensures var rest := fs[..j] + fs[j + 1..]; UniqueIPs(rest) && SameButLabels(es[1..], rest)
    ensures UniqueIPs(es[1..])
  {
    hide UniqueIPs, Unlabelled, HasRow;
    var rest := fs[..j] + fs[j + 1..];
    DropKeepsUnique(es, 0);
    DropKeepsUnique(fs, j);
    assert es[..0] + es[1..] == es[1..];
    SameIp(fs[j], es[0]);
    forall e | e in es[1..] ensures HasRow(rest, e) {
      assert e in es;
      DroppedOnly(es, 0, e);
      StillThere(fs, j, e);
    }
    forall f | f in rest ensures HasRow(es[1..], f) {
      assert f in fs;
      DroppedOnly(fs, j, f);
      StillThere(es, 0, f);
    }
  }

  lemma StillThere(fs: seq<Entry>, j: nat, e: Entry)
    requires UniqueIPs(fs) && j < |fs| && HasRow(fs, e) && e.ip != fs[j].ip
    ensures HasRow(fs[..j] + fs[j + 1..], e)
  {
    hide UniqueIPs, Unlabelled;
    var f :| f in fs && Unlabelled(f) == Unlabelled(e);
    SameIp(f, e);
    DroppedOnly(fs, j, f);
  }

  lemma SameIp(e: Entry, f: Entry)
    requires Unlabelled(e) == Unlabelled(f)
    ensures e.ip == f.ip
  {
    assert Unlabelled(e).ip == Unlabelled(f).ip;
  }

  lemma DropKeepsUnique(es: seq<Entry>, j: nat)
    requires UniqueIPs(es) && j < |es|
    ensures UniqueIPs(es[..j] + es[j + 1..])
  {}

  /** Dropping a row drops exactly the rows with its IP. */
  lemma DroppedOnly(es: seq<Entry>, j: nat, e: Entry)
    requires UniqueIPs(es) && j < |es| && e in es
    ensures e in es[..j] + es[j + 1..] <==> e.ip != es[j].ip
  {
    var i :| 0 <= i < |es| && es[i] == e;
    var rest := es[..j] + es[j + 1..];
    if i != j { assert rest[if i < j then i else i - 1] == e; }
    forall k | 0 <= k < |rest| ensures rest[k].ip != es[j].ip {
      assert rest[k] == es[if k < j then k else k + 1];
    }
  }

  lemma TextExact(es: seq<Entry>, fs: seq<Entry>)
    requires AllClean(es) && AllClean(fs) && UniqueIPs(es) && UniqueIPs(fs)
    ensures VersionText(es) == VersionText(fs) <==> SameButLabels(es, fs)
  {
    hide AllClean, UniqueIPs, HasRow;
    if VersionText(es) == VersionText(fs) {
      TextDetermines(es, fs);
      forall e | e in es ensures HasRow(fs, e) { RowsInclude(es, fs, e); }
      forall f | f in fs ensures HasRow(es, f) { RowsInclude(fs, es, f); }
    }
    if SameButLabels(es, fs) {
      SameRowTexts(es, fs);
      SortStringsPermuted(RowTexts(es), RowTexts(fs));
    }
  }

  /** The lines of some rows one after the other: a row that holds newlines has several. */
  function LinesIn(rows: seq<string>): seq<string> {
    if rows == [] then [] else Split(rows[0], '\n') + LinesIn(rows[1..])
  }

  lemma {:induction false} SplitRows(rows: seq<string>)
    requires rows != []
    ensures Split(Join(rows, "\n"), '\n') == LinesIn(rows)
  {
    hide Split;
    if |rows| == 1 {
      assert LinesIn(rows) == Split(rows[0], '\n') + [];
    } else {
      SplitRows(rows[1..]);
      SplitAround(rows[0], '\n', Join(rows[1..], "\n"));
    }
  }

  lemma RowNotEmpty(e: Entry)
    ensures RowText(e) != ""
  {
    assert RowFields(e)[1..] != [];
  }

  lemma {:induction false} JoinedRowsNotEmpty(rows: seq<string>)
    requires rows != [] && rows[0] != ""
    ensures Join(rows, "\n") != ""
  {}

  /** The hashed text says nothing but the lines of the sorted rows. */
  lemma LinesExact(es: seq<Entry>, fs: seq<Entry>)
    ensures VersionText(es) == VersionText(fs) <==>
      LinesIn(SortStrings(RowTexts(es))) == LinesIn(SortStrings(RowTexts(fs)))
  {
    hide Split, Join, LinesIn, RowText;
    var x, y := SortStrings(RowTexts(es)), SortStrings(RowTexts(fs));
    NoLines(x);
    NoLines(y);
    SortedNotEmpty(es);
    SortedNotEmpty(fs);
    if x != [] { SplitRows(x); JoinedRowsNotEmpty(x); }
    if y != [] { SplitRows(y); JoinedRowsNotEmpty(y); }
    JoinSplit(Join(x, "\n"), '\n');
    JoinSplit(Join(y, "\n"), '\n');
    JoinNone();
  }

  lemma JoinNone()
    ensures Join([], "\n") == ""
  {}

  lemma NoLines(rows: seq<string>)
    ensures LinesIn(rows) == [] <==> rows == []
  {
    hide Split;
  }

  lemma SortedNotEmpty(es: seq<Entry>)
    ensures var rows := SortStrings(RowTexts(es)); rows != [] ==> rows[0] != ""
  {
    hide RowText;
    var rows := RowTexts(es);
    PermutedMembers(SortStrings(rows), rows);
    forall l | l in rows ensures l != "" {
      var i :| 0 <= i < |rows| && rows[i] == l;
      RowNotEmpty(es[i]);
    }
    if SortStrings(rows) != [] { assert SortStrings(rows)[0] in rows; }
  }

  lemma HashedExact(h: string -> string, es: seq<Entry>, fs: seq<Entry>)
    ensures Version(h, es) == Version(h, fs) <==>
      VersionText(es) == VersionText(fs) || Collide(h, VersionText(es), VersionText(fs))
  {
    hide VersionText;
    assert Version(h, es)[3..] == h(VersionText(es)) && Version(h, fs)[3..] == h(VersionText(fs));
  }

  /** For all tables and every hash: two versions are equal exactly when the sorted rows have
      the same lines, or when the hash collides on the texts. */
  lemma VersionExact(h: string -> string, es: seq<Entry>, fs: seq<Entry>)
    ensures Version(h, es) == Version(h, fs) <==>
      || LinesIn(SortStrings(RowTexts(es))) == LinesIn(SortStrings(RowTexts(fs)))
      || Collide(h, VersionText(es), VersionText(fs))
  {
    hide VersionText, LinesIn, RowTexts, Version;
    LinesExact(es, fs);
    HashedExact(h, es, fs);
  }

  /** Without newlines: exactly when the tables have the same rows, each as often. */
  lemma VersionExactByRows(h: string -> string, es: seq<Entry>, fs: seq<Entry>)
    requires (forall r :: r in RowTexts(es) ==> '\n' !in r) && (forall r :: r in RowTexts(fs) ==> '\n' !in r)
    ensures Version(h, es) == Version(h, fs) <==>
      || multiset(RowTexts(es)) == multiset(RowTexts(fs))
      || Collide(h, VersionText(es), VersionText(fs))
  {
    hide VersionText, LinesIn, Version, RowText;
    var x, y := RowTexts(es), RowTexts(fs);
    VersionExact(h, es, fs);
    PermutedMembers(SortStrings(x), x);
    PermutedMembers(SortStrings(y), y);
    WholeLines(SortStrings(x));
    WholeLines(SortStrings(y));
    if multiset(x) == multiset(y) { SortStringsPermuted(x, y); }
  }

  lemma {:induction false} WholeLines(rows: seq<string>)
    requires forall r :: r in rows ==> '\n' !in r
    ensures LinesIn(rows) == rows
  {
    hide Split;
    if rows == [] {
    } else {
      SplitNone(rows[0], '\n');
      WholeLines(rows[1..]);
      assert rows == [rows[0]] + rows[1..];
    }
  }

  /** Without bars and newlines in names: exactly when the tables differ at most in labels. */
  lemma VersionExactByEntries(h: string -> string, es: seq<Entry>, fs: seq<Entry>)
    requires AllClean(es) && AllClean(fs) && UniqueIPs(es) && UniqueIPs(fs)
    ensures Version(h, es) == Version(h, fs) <==>
      SameButLabels(es, fs) || Collide(h, VersionText(es), VersionText(fs))
  {
    hide AllClean, UniqueIPs, SameButLabels, VersionText, Version;
    TextExact(es, fs);
    HashedExact(h, es, fs);
  }

  /** With a separator in a field the text is ambiguous: a bar can end the namespace or
      start the workload. */
  lemma SeparatorsCollide(e: Entry, x: string, y: string, z: string)
    ensures var a, b := e.(ns := x + "|" + y, workload := z), e.(ns := x, workload := y + "|" + z);
      !SameButLabels([a], [b]) && VersionText([a]) == VersionText([b])
  {
    var a, b := e.(ns := x + "|" + y, workload := z), e.(ns := x, workload := y + "|" + z);
    NotSame(a, b);
    FieldsSplit(a);
    FieldsSplit(b);
    hide Join, SameButLabels, VersionText, RowFields;
    BarMoves(e.ip, x, y, z, [e.app, BoolText(e.internetExposed), BoolText(e.controlPlane)]);
    SameSingle(a, b);
  }

  lemma NotSame(a: Entry, b: Entry)
    requires |a.ns| > |b.ns|
    ensures !SameButLabels([a], [b])
  {
    assert a in [a] && Unlabelled(a).ns != Unlabelled(b).ns;
  }

  lemma FieldsSplit(e: Entry)
    ensures RowText(e) ==
      Join([e.ip, e.ns, e.workload] + [e.app, BoolText(e.internetExposed), BoolText(e.controlPlane)], "|")
  {
    hide Join;
    assert RowFields(e) == [e.ip, e.ns, e.workload] + [e.app, BoolText(e.internetExposed), BoolText(e.controlPlane)];
  }

  lemma SameSingle(a: Entry, b: Entry)
    requires RowText(a) == RowText(b)
    ensures VersionText([a]) == VersionText([b])
  {
    hide RowText, Join;
    assert RowTexts([a]) == [RowText(a)] && RowTexts([b]) == [RowText(b)];
  }

  lemma JoinHead(head: string, rest: seq<string>)
    requires rest != []
    ensures Join([head] + rest, "|") == head + ("|" + Join(rest, "|"))
  {
    assert ([head] + rest)[1..] == rest;
  }

  lemma BarMoves(ip: string, x: string, y: string, z: string, rest: seq<string>)
    requires rest != []
    ensures Join([ip, x + "|" + y, z] + rest, "|") == Join([ip, x, y + "|" + z] + rest, "|")
  {
    hide Join;
    var bar := "|";
    JoinHead(z, rest);
    JoinHead(x + bar + y, [z] + rest);
    JoinHead(ip, [x + bar + y] + ([z] + rest));
    JoinHead(y + bar + z, rest);
    JoinHead(x, [y + bar + z] + rest);
    JoinHead(ip, [x] + ([y + bar + z] + rest));
    assert [ip, x + "|" + y, z] + rest == [ip] + ([x + bar + y] + ([z] + rest));
    assert [ip, x, y + "|" + z] + rest == [ip] + ([x] + ([y + bar + z] + rest));
    var t := Join(rest, bar);
    assert (x + bar + y) + (bar + (z + (bar + t))) == x + (bar + ((y + bar + z) + (bar + t)));
  }

  // ---- the producer ----------------------------------------------------------------------

  /** index is the resolved table of the pods, keyed by IP. */
  ghost predicate TableOf(pods: seq<Pod>, index: Index) {
    && (forall ip :: ip in index <==> Claimed(pods, ip))
    && (forall ip :: ip in index ==> exists i :: Owns(pods, ip, i) && index[ip] == EntryOf(pods[i], ip))
  }

  lemma TableIsGood(pods: seq<Pod>, index: Index)
    requires TableOf(pods, index)
    ensures GoodIndex(index)
  {
    hide Owns;
  }

  method IndexEntries(pods: seq<Pod>, entries: seq<Entry>) returns (index: Index)
    requires IsTable(pods, entries)
    ensures TableOf(pods, index)
    ensures forall e :: e in entries <==> e.ip in index && index[e.ip] == e
  {
    hide IsTable, TableOf;
    TableRowsUnique(pods, entries);
    index := map[];
    for i := 0 to |entries|
      invariant forall ip :: ip in index <==> exists j :: 0 <= j < i && entries[j].ip == ip
      invariant forall j :: 0 <= j < i ==> entries[j].ip in index && index[entries[j].ip] == entries[j]
    {
      index := index[entries[i].ip := entries[i]];
    }
    IndexedTable(pods, entries, index);
  }

  lemma IndexedTable(pods: seq<Pod>, entries: seq<Entry>, index: Index)
    requires IsTable(pods, entries)
    requires forall ip :: ip in index <==> exists j :: 0 <= j < |entries| && entries[j].ip == ip
    requires forall j :: 0 <= j < |entries| ==> entries[j].ip in index && index[entries[j].ip] == entries[j]
    ensures TableOf(pods, index)
    ensures forall e :: e in entries <==> e.ip in index && index[e.ip] == e
  {
    hide Claims, Start, EntryOf, Claimed;
    forall ip | ip in index ensures index[ip] in entries && index[ip].ip == ip {
      var j :| 0 <= j < |entries| && entries[j].ip == ip;
    }
    forall ip ensures ip in index <==> Claimed(pods, ip) {
      assert Claimed(pods, ip) <==> exists e :: e in entries && e.ip == ip;
    }
  }

  function Stamp(e: Entry, exposed: set<string>, control: string -> bool): Entry {
    e.(internetExposed := e.ns + "/" + e.workload in exposed, controlPlane := control(e.workload))
  }

  /** entries are the rows of index with their classification, each once. */
  ghost predicate Stamped(index: Index, exposed: set<string>, control: string -> bool, entries: seq<Entry>) {
    && UniqueIPs(entries)
    && (forall e :: e in entries ==> e.ip in index && e == Stamp(index[e.ip], exposed, control))
    && (forall ip :: ip in index ==> Stamp(index[ip], exposed, control) in entries)
  }

  method StampAll(entries: seq<Entry>, ghost index: Index, exposed: set<string>, control: string -> bool)
    returns (out: seq<Entry>)
    requires UniqueIPs(entries)
    requires forall e :: e in entries <==> e.ip in index && index[e.ip] == e
    requires GoodIndex(index)
    ensures Stamped(index, exposed, control, out) && |out| == |entries|
  {
    out := entries;
    for i := 0 to |entries|
      invariant |out| == |entries|
      invariant forall j :: 0 <= j < i ==> out[j] == Stamp(entries[j], exposed, control)
      invariant forall j :: i <= j < |out| ==> out[j] == entries[j]
    {
      var ref := out[i].ns + "/" + out[i].workload;
      out := out[i := out[i].(internetExposed := ref in exposed, controlPlane := control(out[i].workload))];
    }
    forall e | e in out ensures e.ip in index && e == Stamp(index[e.ip], exposed, control) {
      var j :| 0 <= j < |out| && out[j] == e;
      assert entries[j] in entries;
    }
    forall ip | ip in index ensures Stamp(index[ip], exposed, control) in out {
      var j :| 0 <= j < |entries| && entries[j] == index[ip];
      assert out[j] in out;
    }
  }

  method IdentityVersion(h: string -> string, entries: seq<Entry>) returns (version: string)
    ensures version == Version(h, entries)
  {
    var rows := [];
    for i := 0 to |entries|
      invariant rows == RowTexts(entries[..i])
    {
      assert entries[..i + 1][..i] == entries[..i];
      rows := rows + [Join([entries[i].ip, entries[i].ns, entries[i].workload, entries[i].app,
                            BoolText(entries[i].internetExposed), BoolText(entries[i].controlPlane)], "|")];
    }
    assert entries[..|entries|] == entries;
    rows := SortStrings(rows);
    version := "id-" + h(Join(rows, "\n"));
  }

  class DownloadApi {
    var uploaded: seq<Entry>
    var log: seq<Delta>

    constructor ()
      ensures uploaded == [] && log == []
    {
      uploaded, log := [], [];
    }

    method Put(entries: seq<Entry>, works: bool) returns (ok: bool)
      modifies this
      ensures ok == works && log == old(log)
      ensures uploaded == if works then entries else old(uploaded)
    {
      if works {
        uploaded := entries;
      }
      return works;
    }

    method Post(d: Delta, works: bool) returns (ok: bool)
      modifies this
      ensures ok == works && uploaded == old(uploaded)
      ensures log == if works then old(log) + [d] else old(log)
    {
      if works {
        log := log + [d];
      }
      return works;
    }
  }

  class Producer {
    const clusterId: string
    const epoch: nat
    const hash: string -> string
    const api: DownloadApi

    var seqNo: nat
    var index: Index
    var lastVersion: string

    /** lastVersion describes the last upload. */
    ghost predicate Valid()
      reads this, api
    {
      && GoodIndex(index)
      && (lastVersion != "" ==> UniqueIPs(api.uploaded) && lastVersion == Version(hash, api.uploaded))
    }

    ghost function Snapshot(): State
      reads this, api
    {
      State(epoch, seqNo, index, api.log)
    }

    constructor (clusterId: string, now: nat, hash: string -> string)
      ensures fresh(api) && Valid() && Snapshot() == State(now, 0, map[], [])
    {
      this.clusterId, epoch, this.hash := clusterId, now, hash;
      api := new DownloadApi();
      seqNo, index, lastVersion := 0, map[], "";
    }

    /** buildAndUpload: the diff base is reseeded on every successful listing; an empty table
        and one whose version is the last uploaded one are not sent. */
    method BuildAndUpload(pods: Option<seq<Pod>>, exposed: set<string>, control: string -> bool, works: bool)
      returns (ghost entries: seq<Entry>)
      requires Valid()
      modifies this, api
      ensures Valid() && seqNo == old(seqNo) && api.log == old(api.log)
      ensures match pods
              case None => index == old(index)
              case Some(ps) => TableOf(ps, index) && Stamped(index, exposed, control, entries)
      ensures forall e :: e in entries ==>
        && e.ip in index && e == index[e.ip].(internetExposed := e.internetExposed, controlPlane := e.controlPlane)
        && (e.internetExposed <==> e.ns + "/" + e.workload in exposed) && (e.controlPlane <==> control(e.workload))
      ensures if pods.None? || entries == [] || Version(hash, entries) == old(lastVersion) || !works
        then lastVersion == old(lastVersion) && api.uploaded == old(api.uploaded)
        else lastVersion == Version(hash, entries) && api.uploaded == entries
    {
      hide IsTable, TableOf, Version;
      entries := [];
      if pods.None? {
        return;
      }
      var rows := ResolveIdentityEntries(pods.value);
      TableRowsUnique(pods.value, rows);
      index := IndexEntries(pods.value, rows);
      TableIsGood(pods.value, index);
      if |rows| == 0 {
        assert index == map[] by { EmptyTableIndex(rows, index); }
        return;
      }
      rows := StampAll(rows, index, exposed, control);
      entries := rows;
      var version := IdentityVersion(hash, rows);
      if version == lastVersion {
        return;
      }
      var ok := api.Put(rows, works);
      if !ok {
        return;
      }
      lastVersion := version;
    }

    /** flushDelta: seq and index advance only when the post worked. */
    method FlushDelta(pods: Option<seq<Pod>>, postWorks: bool) returns (ghost table: Option<Index>)
      requires Valid()
      modifies this, api
      ensures Valid()
      ensures table.Some? <==> pods.Some?
      ensures pods.Some? ==> TableOf(pods.value, table.value)
      ensures FlushStep(old(Snapshot()), Flush(table, postWorks), Snapshot())
      ensures lastVersion == old(lastVersion) && api.uploaded == old(api.uploaded)
      ensures forall i :: |old(api.log)| <= i < |api.log| ==> api.log[i].cluster == clusterId
    {
      hide IsTable, TableOf, Version, EqualTo;
      table := None;
      if pods.None? {
        return;
      }
      ghost var s := Snapshot();
      var rows := ResolveIdentityEntries(pods.value);
      var newIndex := IndexEntries(pods.value, rows);
      TableIsGood(pods.value, newIndex);
      table := Some(newIndex);
      var upserts := CollectUpserts(index, newIndex);
      var removes := CollectRemoves(index, newIndex);
      if |upserts| == 0 && |removes| == 0 {
        NoUpserts(index, newIndex, upserts, removes);
        return;
      }
      SomeUpserts(index, newIndex, upserts, removes);
      var delta := Delta(epoch, seqNo + 1, clusterId, upserts, removes);
      var ok := api.Post(delta, postWorks);
      if !ok {
        return;
      }
      seqNo := delta.seqNo;
      index := newIndex;
      assert DeltaFor(delta, s.index, newIndex) && Snapshot() == Delivered(s, delta, newIndex);
    }
  }

  lemma TableRowsUnique(pods: seq<Pod>, rows: seq<Entry>)
    requires IsTable(pods, rows)
    ensures UniqueIPs(rows)
  {}

  lemma EmptyTableIndex(rows: seq<Entry>, index: Index)
    requires rows == [] && forall e :: e in rows <==> e.ip in index && index[e.ip] == e
    requires GoodIndex(index)
    ensures index == map[]
  {
    assert forall ip :: ip in index ==> index[ip] in rows;
  }

  ghost predicate IsUpserts(prev: Index, next: Index, upserts: seq<Row>) {
    && (forall r :: r in upserts <==> r.ip in next && r == RowOf(next[r.ip]) && Changed(prev, r.ip, next[r.ip]))
    && (forall i, j :: 0 <= i < j < |upserts| ==> upserts[i].ip != upserts[j].ip)
  }

  method CollectUpserts(prev: Index, next: Index) returns (upserts: seq<Row>)
    requires GoodIndex(next)
    ensures IsUpserts(prev, next, upserts)
  {
    hide EqualTo;
    upserts := [];
    var keys := CollectKeys(next.Keys);
    SetElementsNoDuplicates(keys, next.Keys);
    for i := 0 to |keys|
      invariant forall r :: r in upserts ==> r.ip in keys[..i]
      invariant forall r :: r in upserts <==>
        r.ip in keys[..i] && r == RowOf(next[r.ip]) && Changed(prev, r.ip, next[r.ip])
      invariant forall j, k :: 0 <= j < k < |upserts| ==> upserts[j].ip != upserts[k].ip
    {
      var ip := keys[i];
      var e := next[ip];
      assert keys[..i + 1] == keys[..i] + [ip] && ip !in keys[..i];
      var same := false;
      if ip in prev {
        same := EntriesEqual(prev[ip], e);
      }
      if ip !in prev || !same {
        upserts := upserts + [Row(e.ip, e.workload, e.ns, e.app, e.labels)];
      }
    }
    assert keys[..|keys|] == keys;
  }

  method CollectRemoves(prev: Index, next: Index) returns (removes: seq<string>)
    ensures forall ip :: ip in removes <==> ip in prev && ip !in next
  {
    removes := [];
    var keys := CollectKeys(prev.Keys);
    SetElementsNoDuplicates(keys, prev.Keys);
    for i := 0 to |keys|
      invariant forall ip :: ip in removes <==> ip in keys[..i] && ip !in next
    {
      assert keys[..i + 1] == keys[..i] + [keys[i]];
      if keys[i] !in next {
        removes := removes + [keys[i]];
      }
    }
    assert keys[..|keys|] == keys;
  }

  lemma NoUpserts(prev: Index, next: Index, upserts: seq<Row>, removes: seq<string>)
    requires IsUpserts(prev, next, upserts) && GoodIndex(next) && upserts == [] && removes == []
    requires forall ip :: ip in removes <==> ip in prev && ip !in next
    ensures NothingToSend(prev, next)
  {
    hide EqualTo;
    forall ip | ip in next ensures !Changed(prev, ip, next[ip]) {
      assert RowOf(next[ip]) !in upserts;
    }
  }

  lemma SomeUpserts(prev: Index, next: Index, upserts: seq<Row>, removes: seq<string>)
    requires IsUpserts(prev, next, upserts) && (upserts != [] || removes != [])
    requires forall ip :: ip in removes <==> ip in prev && ip !in next
    ensures !NothingToSend(prev, next)
  {
    hide EqualTo;
    if upserts != [] {
      assert upserts[0] in upserts;
    } else {
      assert removes[0] in removes;
    }
  }
}
