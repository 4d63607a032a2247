/** The edge delta stream (controllers/edge_producer.go). */
module EdgeProducer {
  // Periodic full baselines and incremental deltas to the download-api, with failures anywhere.

  import opened Wrappers
  import opened Strings
  import opened Sorting
  import opened Kube
  import opened Edges
  import Workload

  datatype Delta = Delta(epoch: nat, seqNo: nat, cluster: string, upserts: seq<string>, removes: seq<string>)

  // ---- documents and versions ----------------------------------------------------

  ghost predicate GoodLines(lines: set<string>) {
    forall l :: l in lines ==> l != "" && l[0] != '#' && '\n' !in l
  }

  ghost function VersionText(lines: set<string>): string { Join(SortedKeys(lines), "\n") }

  /** h is any function of the text: the code keeps 16 digits of its SHA-256. */
  ghost function Version(h: string -> string, lines: set<string>): string { "edges-" + h(VersionText(lines)) }

  /** What a reader of an uploaded document sees: its lines, comments left out. */
  function ReadDoc(doc: string): set<string> {
    set l | l in Split(doc, '\n') && l != "" && l[0] != '#'
  }

  ghost function Doc(lines: set<string>): string { DOC_HEADER + DocBody(SortedKeys(lines)) }

  lemma {:induction false} DocBodyCons(l: string, ls: seq<string>)
    ensures DocBody([l] + ls) == l + "\n" + DocBody(ls)
  {
    if ls == [] {
      assert [l] + ls == [l] && [l][..0] == [];
    } else {
      var init := ls[..|ls| - 1];
      DocBodyCons(l, init);
      assert ([l] + ls)[..|ls|] == [l] + init;
    }
  }

  lemma {:induction false} SplitBody(ls: seq<string>)
    requires forall l :: l in ls ==> '\n' !in l
    ensures Split(DocBody(ls), '\n') == ls + [""]
  {
    if ls == [] {
      SplitNone("", '\n');
    } else {
      SplitBody(ls[1..]);
      assert ls == [ls[0]] + ls[1..];
      DocBodyCons(ls[0], ls[1..]);
      SplitCons(ls[0], '\n', DocBody(ls[1..]));
    }
  }

  /** Reading an uploaded document gives back the lines it was built from. */
  lemma ReadDocBack(lines: set<string>)
    requires GoodLines(lines)
    ensures ReadDoc(Doc(lines)) == lines
  {
    hide SetOf, SortedKeys, Split, ReadDoc, Doc, DocBody;
    var ls := SortedKeys(lines);
    SortedKeysAsSet(lines);
    SplitDoc(ls);
    DocIs(lines);
    TitleIsComment();
    ContentLines(Doc(lines), TITLE, ls);
  }

  lemma SortedKeysAsSet(lines: set<string>)
    ensures SetOf(SortedKeys(lines)) == lines
    ensures forall l :: l in SortedKeys(lines) <==> l in lines
  {
    SortedKeysMembers(lines);
  }

  lemma DocIs(lines: set<string>)
    ensures Doc(lines) == DOC_HEADER + DocBody(SortedKeys(lines))
  {}

  lemma TitleIsComment()
    ensures TITLE != "" && TITLE[0] == '#'
  {}

  lemma ContentLines(doc: string, title: string, ls: seq<string>)
    requires Split(doc, '\n') == [title] + (ls + [""]) && title != "" && title[0] == '#'
    requires forall l :: l in ls ==> l != "" && l[0] != '#'
    ensures ReadDoc(doc) == SetOf(ls)
  {
    hide Split;
    var parts := [title] + (ls + [""]);
    assert forall l :: l in parts <==> l == title || l in ls || l == "";
  }

  lemma SplitDoc(ls: seq<string>)
    requires forall l :: l in ls ==> '\n' !in l
    ensures Split(DOC_HEADER + DocBody(ls), '\n') == [TITLE] + (ls + [""])
  {
    hide Split, DocBody;
    SplitBody(ls);
    TitleHasNoNewline();
    assert DOC_HEADER == TITLE + ['\n'];
    SplitCons(TITLE, '\n', DocBody(ls));
  }

  lemma TitleHasNoNewline()
    ensures '\n' !in TITLE
  {
    assert '\n' !in "# " && '\n' !in "NetworkPolicy-derived " && '\n' !in "declared-edge allow-list";
  }

  lemma VersionTextInjective(a: set<string>, b: set<string>)
    requires GoodLines(a) && GoodLines(b)
    ensures VersionText(a) == VersionText(b) <==> a == b
  {
    if VersionText(a) == VersionText(b) {
      var x, y := SortedKeys(a), SortedKeys(b);
      SortedKeysMembers(a);
      SortedKeysMembers(b);
      JoinInjective(x, y, '\n');
      assert forall l :: l in a <==> l in x;
    }
  }

  /** For every hash: two versions are equal exactly when the lines are, or when the hash
      collides on their texts. */
  lemma VersionExact(h: string -> string, a: set<string>, b: set<string>)
    requires GoodLines(a) && GoodLines(b)
    ensures Version(h, a) == Version(h, b) <==> a == b || Collide(h, VersionText(a), VersionText(b))
  {
    hide VersionText, GoodLines;
    VersionTextInjective(a, b);
    assert Version(h, a)[6..] == h(VersionText(a)) && Version(h, b)[6..] == h(VersionText(b));
  }

  lemma VersionNotEmpty(h: string -> string, lines: set<string>)
    ensures Version(h, lines) != ""
  {}

  // ---- the protocol as a relation on states ----------------------------------------

  /** The producer's fields, the download-api's content, and two marks for the proofs:
      whether the latest reseed of the index was published, and how many deltas had been
      delivered by then. */
  datatype State = State(
    epoch: nat,
    seqNo: nat,
    index: set<string>,
    lastVersion: string,
    stored: set<string>,
    log: seq<Delta>,
    published: bool,
    mark: nat)

  function InitState(epoch: nat): State { State(epoch, 0, {}, "", {}, [], false, 0) }

  /** lines: None is a failed listing. */
  datatype Action =
    | Baseline(lines: Option<set<string>>, uploadOk: bool)
    | Flush(lines: Option<set<string>>, postOk: bool)

  ghost function BaselineStep(h: string -> string, s: State, a: Action): State
    requires a.Baseline?
  {
    match a.lines
    case None => s
    case Some(lines) =>
      var reseeded := s.(index := lines, mark := |s.log|);
      if Version(h, lines) == s.lastVersion then reseeded.(published := true)
      else if a.uploadOk then
        reseeded.(published := true, stored := lines, lastVersion := Version(h, lines))
      else reseeded.(published := false)
  }

  lemma BaselineIdle(h: string -> string, s: State, uploadOk: bool)
    ensures BaselineStep(h, s, Baseline(None, uploadOk)) == s
  {}

  lemma BaselineReseeds(h: string -> string, s: State, lines: set<string>, uploadOk: bool)
    ensures var s' := BaselineStep(h, s, Baseline(Some(lines), uploadOk));
      && s' == s.(index := lines, mark := |s.log|, published := Version(h, lines) == s.lastVersion || uploadOk,
                  stored := s'.stored, lastVersion := s'.lastVersion)
      && if Version(h, lines) != s.lastVersion && uploadOk
         then s'.stored == lines && s'.lastVersion == Version(h, lines)
         else s'.stored == s.stored && s'.lastVersion == s.lastVersion
    ensures Version(h, lines) == "edges-" + h(Join(SortedKeys(lines), "\n"))
  {}

  /** The one delta that leads from index to lines, up to the order of its lists. */
  ghost predicate DeltaFor(d: Delta, s: State, lines: set<string>) {
    && d.epoch == s.epoch && d.seqNo == s.seqNo + 1
    && SetOf(d.upserts) == lines - s.index && SetOf(d.removes) == s.index - lines
  }

  ghost predicate FlushStep(s: State, s': State, a: Action)
    requires a.Flush?
  {
    match a.lines
    case None => s' == s
    case Some(lines) =>
      if lines == s.index || !a.postOk then s' == s
      else exists d :: DeltaFor(d, s, lines) && s' == Delivered(s, d, lines)
  }

  ghost function Delivered(s: State, d: Delta, lines: set<string>): State {
    s.(seqNo := d.seqNo, index := lines, log := s.log + [d])
  }

  ghost predicate Next(h: string -> string, s: State, a: Action, s': State) {
    && (a.lines.Some? ==> GoodLines(a.lines.value))
    && if a.Baseline? then s' == BaselineStep(h, s, a) else FlushStep(s, s', a)
  }

  ghost predicate IsRun(h: string -> string, trace: seq<State>, actions: seq<Action>) {
    && |trace| == |actions| + 1
    && (exists epoch :: trace[0] == InitState(epoch))
    && forall i :: 0 <= i < |actions| ==> Next(h, trace[i], actions[i], trace[i + 1])
  }

  /** A consumer applies a delta by dropping its removes and adding its upserts. */
  function ApplyDelta(lines: set<string>, d: Delta): set<string> {
    (lines - SetOf(d.removes)) + SetOf(d.upserts)
  }

  function Replay(lines: set<string>, log: seq<Delta>): set<string> {
    if log == [] then lines else ApplyDelta(Replay(lines, log[..|log| - 1]), log[|log| - 1])
  }

  // ---- what every run keeps -----------------------------------------------------------

  ghost predicate Inv(h: string -> string, s: State) {
    && s.seqNo == |s.log|
    && (forall i :: 0 <= i < |s.log| ==> s.log[i].seqNo == i + 1 && s.log[i].epoch == s.epoch)
    && s.mark <= |s.log|
    && (s.lastVersion == "" || (GoodLines(s.stored) && s.lastVersion == Version(h, s.stored)))
  }

  /** If the latest reseed was published, the stored lines and the deltas since are the index. */
  ghost predicate InStep(s: State) {
    s.mark <= |s.log| && (s.published ==> Replay(s.stored, s.log[s.mark..]) == s.index)
  }

  /** A baseline whose lines have the version of other lines that are stored. */
  ghost predicate Collides(h: string -> string, s: State, a: Action) {
    && a.Baseline? && a.lines.Some? && s.lastVersion != ""
    && Collide(h, VersionText(a.lines.value), VersionText(s.stored))
  }

  lemma DeltaApplied(d: Delta, s: State, lines: set<string>)
    requires DeltaFor(d, s, lines)
    ensures ApplyDelta(s.index, d) == lines
  {}

  lemma BaselineKeeps(h: string -> string, s: State, a: Action)
    requires Inv(h, s) && a.Baseline? && a.lines.Some? && GoodLines(a.lines.value)
    ensures Inv(h, BaselineStep(h, s, a))
    ensures InStep(BaselineStep(h, s, a)) <==> !Collides(h, s, a)
  {
    hide Version, GoodLines, VersionText;
    var lines, s' := a.lines.value, BaselineStep(h, s, a);
    VersionNotEmpty(h, lines);
    if s.lastVersion != "" {
      VersionExact(h, lines, s.stored);
      VersionTextInjective(lines, s.stored);
    }
    assert s'.log[s'.mark..] == [];
  }

  lemma ReplaySnoc(lines: set<string>, log: seq<Delta>, d: Delta)
    ensures Replay(lines, log + [d]) == ApplyDelta(Replay(lines, log), d)
  {
    assert (log + [d])[..|log|] == log;
  }

  lemma FlushKeeps(h: string -> string, s: State, d: Delta, lines: set<string>)
    requires Inv(h, s) && DeltaFor(d, s, lines)
    ensures Inv(h, Delivered(s, d, lines))
    ensures InStep(s) ==> InStep(Delivered(s, d, lines))
  {
    hide Version, GoodLines, DeltaFor, Replay;
    assert d.epoch == s.epoch && d.seqNo == s.seqNo + 1 by { DeltaNumber(d, s, lines); }
    DeltaApplied(d, s, lines);
    ReplaySnoc(s.stored, s.log[s.mark..], d);
    assert (s.log + [d])[s.mark..] == s.log[s.mark..] + [d];
  }

  lemma DeltaNumber(d: Delta, s: State, lines: set<string>)
    requires DeltaFor(d, s, lines)
    ensures d.epoch == s.epoch && d.seqNo == s.seqNo + 1
  {}

  lemma NextKeeps(h: string -> string, s: State, a: Action, s': State)
    requires Inv(h, s) && Next(h, s, a, s')
    ensures Inv(h, s') && s'.epoch == s.epoch
    ensures InStep(s) ==> (InStep(s') <==> !Collides(h, s, a))
  {
    hide Inv, InStep, Collide, DeltaFor, GoodLines, Version, VersionText;
    if a.lines.Some? {
      if a.Baseline? {
        BaselineKeeps(h, s, a);
      } else if s' != s {
        var d :| DeltaFor(d, s, a.lines.value) && s' == Delivered(s, d, a.lines.value);
        FlushKeeps(h, s, d, a.lines.value);
      }
    }
  }

  lemma {:induction false} RunsNumber(h: string -> string, trace: seq<State>, actions: seq<Action>, n: nat)
    requires IsRun(h, trace, actions) && n < |trace|
    ensures Inv(h, trace[n])
  {
    if n == 0 {
    } else {
      RunsNumber(h, trace, actions, n - 1);
      NextKeeps(h, trace[n - 1], actions[n - 1], trace[n]);
    }
  }

  /** In every run of baselines and flushes, with arbitrary failures and any hash: deltas are
      numbered 1, 2, ... without gap or repeat; and whenever the latest reseed was published,
      the stored document and the deltas delivered since are exactly the index, all along
      the run exactly when no baseline's version collides with the stored one's. */
  lemma {:induction false} RunsConverge(h: string -> string, trace: seq<State>, actions: seq<Action>, n: nat)
    requires IsRun(h, trace, actions) && n < |trace|
    ensures Inv(h, trace[n])
    ensures (forall m :: 0 <= m <= n ==> InStep(trace[m])) <==>
            (forall i :: 0 <= i < n ==> !Collides(h, trace[i], actions[i]))
  {
    hide Inv, InStep, Collides, Next;
    RunsNumber(h, trace, actions, n);
    if n == 0 {
      NothingPublished(h, trace, actions);
    } else {
      RunsConverge(h, trace, actions, n - 1);
      RunsNumber(h, trace, actions, n - 1);
      NextKeeps(h, trace[n - 1], actions[n - 1], trace[n]);
      assert InStep(trace[n - 1]) || !InStep(trace[n - 1]);
    }
  }

  lemma NothingPublished(h: string -> string, trace: seq<State>, actions: seq<Action>)
    requires IsRun(h, trace, actions)
    ensures InStep(trace[0])
  {
    hide Next;
  }

  // ---- failures ---------------------------------------------------------------------------

  /** The listing failed, or the delta was not accepted. */
  predicate Fails(a: Action) { a.lines.None? || (a.Flush? && !a.postOk) }

  lemma {:induction false} FailuresKeep(h: string -> string, trace: seq<State>, actions: seq<Action>, i: nat, j: nat)
    requires IsRun(h, trace, actions) && i <= j < |trace|
    requires forall m :: i <= m < j ==> Fails(actions[m])
    ensures trace[j] == trace[i]
  {
    if i == j {
    } else {
      FailuresKeep(h, trace, actions, i, j - 1);
      hide Version, GoodLines, DeltaFor;
      assert Next(h, trace[j - 1], actions[j - 1], trace[j]);
    }
  }

  /** After any number of failures the next flush of the same lines that works delivers what
      the failed ones had offered: the same epoch and number, the same upserts and removes. */
  lemma RetryOffersSame(h: string -> string, trace: seq<State>, actions: seq<Action>, i: nat, j: nat, offered: Delta)
    requires IsRun(h, trace, actions) && i <= j < |actions|
    requires forall m :: i <= m < j ==> Fails(actions[m])
    requires actions[j].Flush? && !Fails(actions[j]) && actions[j].lines.value != trace[i].index
    requires DeltaFor(offered, trace[i], actions[j].lines.value)
    ensures trace[j] == trace[i]
    ensures exists d :: trace[j + 1].log == trace[i].log + [d] && SameOffer(d, offered)
    ensures trace[j + 1].seqNo == offered.seqNo && trace[j + 1].index == ApplyDelta(trace[i].index, offered)
  {
    FailuresKeep(h, trace, actions, i, j);
    hide Version, GoodLines;
    assert Next(h, trace[j], actions[j], trace[j + 1]);
    var lines := actions[j].lines.value;
    var d :| DeltaFor(d, trace[j], lines) && trace[j + 1] == Delivered(trace[j], d, lines);
    assert SameOffer(d, offered);
    DeltaApplied(offered, trace[i], lines);
  }

  /** The same delta up to the order of its lists. */
  predicate SameOffer(d: Delta, e: Delta) {
    && d.epoch == e.epoch && d.seqNo == e.seqNo
    && SetOf(d.upserts) == SetOf(e.upserts) && SetOf(d.removes) == SetOf(e.removes)
  }

  // ---- those who only follow deltas --------------------------------------------------------

  /** What a consumer holds at s that had the index at s0 and followed the deltas since. */
  function Follower(s0: State, s: State): set<string>
    requires |s0.log| <= |s.log|
  {
    Replay(s0.index, s.log[|s0.log|..])
  }

  /** The lines that are in one set and not in the other. */
  function Diff(a: set<string>, b: set<string>): set<string> { (a - b) + (b - a) }

  /** The lines about which followers have not been told between k and n: a baseline moves
      lines without telling, moving one back takes it off again; a delivered delta tells of
      every line it moves. */
  function Untold(trace: seq<State>, actions: seq<Action>, k: nat, n: nat): set<string>
    requires k <= n < |trace| == |actions| + 1
  {
    if n == k then {}
    else
      var before, moved := Untold(trace, actions, k, n - 1), Diff(trace[n - 1].index, trace[n].index);
      if actions[n - 1].Baseline? then Diff(before, moved) else before - moved
  }

  lemma FollowerStep(h: string -> string, s0: State, s: State, a: Action, s': State)
    requires Next(h, s, a, s') && |s0.log| <= |s.log|
    ensures |s0.log| <= |s'.log|
    ensures var before, moved := Diff(Follower(s0, s), s.index), Diff(s.index, s'.index);
      Diff(Follower(s0, s'), s'.index) == if a.Baseline? then Diff(before, moved) else before - moved
  {
    hide GoodLines, Version, Replay;
    if a.Flush? && s' != s {
      var d :| DeltaFor(d, s, a.lines.value) && s' == Delivered(s, d, a.lines.value);
      ReplaySnoc(s0.index, s.log[|s0.log|..], d);
      assert (s.log + [d])[|s0.log|..] == s.log[|s0.log|..] + [d];
    }
  }

  /** In every run, with any failures: a consumer that had the index at some point and follows
      deltas alone is wrong about exactly the untold lines, and so in step exactly when
      there are none. */
  lemma {:induction false} FollowersExact(h: string -> string, trace: seq<State>, actions: seq<Action>, k: nat, n: nat)
    requires IsRun(h, trace, actions) && k <= n < |trace|
    ensures |trace[k].log| <= |trace[n].log|
    ensures Diff(Follower(trace[k], trace[n]), trace[n].index) == Untold(trace, actions, k, n)
    ensures Follower(trace[k], trace[n]) == trace[n].index <==> Untold(trace, actions, k, n) == {}
  {
    hide Next;
    if n == k {
      assert trace[k].log[|trace[k].log|..] == [];
    } else {
      FollowersExact(h, trace, actions, k, n - 1);
      FollowerStep(h, trace[k], trace[n - 1], actions[n - 1], trace[n]);
    }
    DiffNone(Follower(trace[k], trace[n]), trace[n].index);
  }

  lemma DiffNone(a: set<string>, b: set<string>)
    ensures Diff(a, b) == {} <==> a == b
  {
    if Diff(a, b) == {} {
      forall x ensures x in a <==> x in b { assert x !in Diff(a, b); }
    }
  }

  /** The baseline found what the index already held. */
  ghost predicate QuietBaseline(s: State, a: Action) {
    a.Baseline? && a.lines.Some? ==> a.lines.value == s.index
  }

  /** A consumer that had the index at some point and follows deltas alone keeps it through
      any run in which the baselines found what the index held, whatever failed. */
  lemma FollowersInStep(h: string -> string, trace: seq<State>, actions: seq<Action>, k: nat, n: nat)
    requires IsRun(h, trace, actions) && k <= n < |trace|
    requires forall i :: k <= i < n ==> QuietBaseline(trace[i], actions[i])
    ensures |trace[k].log| <= |trace[n].log| && Follower(trace[k], trace[n]) == trace[n].index
  {
    FollowersExact(h, trace, actions, k, n);
    NothingUntold(h, trace, actions, k, n);
  }

  lemma {:induction false} NothingUntold(h: string -> string, trace: seq<State>, actions: seq<Action>, k: nat, n: nat)
    requires IsRun(h, trace, actions) && k <= n < |trace|
    requires forall i :: k <= i < n ==> QuietBaseline(trace[i], actions[i])
    ensures Untold(trace, actions, k, n) == {}
  {
    if n == k {
    } else {
      NothingUntold(h, trace, actions, k, n - 1);
      hide GoodLines, Version, DeltaFor;
      assert Next(h, trace[n - 1], actions[n - 1], trace[n]) && QuietBaseline(trace[n - 1], actions[n - 1]);
    }
  }

  /** A run in which a consumer of deltas alone falls behind for good: the second baseline
      moves the index, and the flush after it finds nothing to tell. */
  lemma FollowerLeftBehind(h: string -> string, epoch: nat, a: set<string>, b: set<string>)
    returns (trace: seq<State>, actions: seq<Action>)
    requires GoodLines(a) && GoodLines(b) && a != b
    ensures IsRun(h, trace, actions) && |trace| == 4 && trace[3].index == b && trace[3].log == []
    ensures actions[2] == Flush(Some(b), true)
    ensures Follower(trace[1], trace[1]) == a == trace[1].index && Follower(trace[1], trace[3]) == a
  {
    hide GoodLines, Version;
    actions := [Baseline(Some(a), true), Baseline(Some(b), true), Flush(Some(b), true)];
    var s0 := InitState(epoch);
    var s1 := BaselineStep(h, s0, actions[0]);
    var s2 := BaselineStep(h, s1, actions[1]);
    trace := [s0, s1, s2, s2];
    assert Next(h, s2, actions[2], s2);
  }

  // ---- the producer and the download-api ---------------------------------------------

  class DownloadApi {
    var stored: string
    var log: seq<Delta>
    /** Every delta a request carried, accepted or not. */
    ghost var offered: seq<Delta>

    constructor ()
      ensures stored == "" && log == [] && offered == []
    {
      stored, log, offered := "", [], [];
    }

    /** A request that fails was not applied. */
    method Put(doc: string, works: bool) returns (ok: bool)
      modifies this
      ensures ok == works && log == old(log) && offered == old(offered)
      ensures stored == if works then doc else old(stored)
    {
      if works {
        stored := doc;
      }
      return works;
    }

    method Post(d: Delta, works: bool) returns (ok: bool)
      modifies this
      ensures ok == works && stored == old(stored) && offered == old(offered) + [d]
      ensures log == if works then old(log) + [d] else old(log)
    {
      offered := offered + [d];
      if works {
        log := log + [d];
      }
      return works;
    }
  }

  datatype Inputs = Inputs(nps: seq<NetworkPolicy>, pods: seq<Pod>, nss: seq<Namespace>)

  ghost function InputLines(inputs: Option<Inputs>): Option<set<string>> {
    match inputs
    case None => None
    case Some(i) => Some(LineSet(i.nps, i.pods, i.nss))
  }

  /** Lines built from names without newlines are good lines. */
  lemma InputLinesGood(i: Inputs)
    requires forall p :: p in i.pods ==> '\n' !in Workload.Ref(p)
    ensures GoodLines(LineSet(i.nps, i.pods, i.nss))
  {
    hide Workload.Ref, Workload.Name;
    forall l | l in LineSet(i.nps, i.pods, i.nss) ensures l != "" && l[0] != '#' && '\n' !in l {
      if l in EdgesOf(i.nps, i.pods, NsLabelsOf(i.nss)) {
        EdgeLineGood(i, l);
      }
    }
  }

  lemma RefsGood(pods: seq<Pod>, ps: set<Pod>, ref: string)
    requires forall p :: p in pods ==> '\n' !in Workload.Ref(p)
    requires (forall p :: p in ps ==> p in pods) && ref in Refs(ps)
    ensures '\n' !in ref
  {
    hide Workload.Ref, Workload.Name;
  }

  lemma EdgeLineGood(i: Inputs, l: string)
    requires forall p :: p in i.pods ==> '\n' !in Workload.Ref(p)
    requires l in EdgesOf(i.nps, i.pods, NsLabelsOf(i.nss))
    ensures l != "" && l[0] == 'E' && '\n' !in l
  {
    hide Workload.Ref, Workload.Name, Refs, RulePorts, Picked, PeersPicked, EdgeLine;
    var nsl := NsLabelsOf(i.nss);
    var np :| np in i.nps && l in PolicyEdges(np, i.pods, nsl);
    var selected := Picked(i.pods, np.ns, np.podSelector);
    PickedArePods(np, [], i.pods, nsl);
    if HasIngress(np) && l in RulesEdges(np, np.ingress, true, i.pods, nsl) {
      var r :| r in np.ingress && l in RuleEdges(np, r, true, i.pods, nsl);
      var s, d, p :| s in PeerRefs(r.peers, np.ns, i.pods, nsl) && d in Refs(selected)
                     && p in RulePorts(r.ports, selected) && l == EdgeLine(s, d, p);
      PeerRefGood(i, np, r.peers, s);
      RefsGood(i.pods, selected, d);
      PortTextGood(r.ports, selected, p);
      EdgeTextGood(s, d, p);
    } else {
      var r :| r in np.egress && l in RuleEdges(np, r, false, i.pods, nsl);
      var s, d, p :| s in Refs(selected) && d in PeerRefs(r.peers, np.ns, i.pods, nsl)
                     && p in RulePorts(r.ports, PeersPicked(r.peers, np.ns, i.pods, nsl)) && l == EdgeLine(s, d, p);
      PeerRefGood(i, np, r.peers, d);
      RefsGood(i.pods, selected, s);
      PortTextGood(r.ports, PeersPicked(r.peers, np.ns, i.pods, nsl), p);
      EdgeTextGood(s, d, p);
    }
  }

  lemma PickedArePods(np: NetworkPolicy, peers: seq<Peer>, pods: seq<Pod>, nsl: NsLabels)
    ensures forall p :: p in Picked(pods, np.ns, np.podSelector) ==> p in pods
    ensures forall p :: p in PeersPicked(peers, np.ns, pods, nsl) ==> p in pods
  {}

  lemma PeerRefGood(i: Inputs, np: NetworkPolicy, peers: seq<Peer>, ref: string)
    requires forall p :: p in i.pods ==> '\n' !in Workload.Ref(p)
    requires ref in PeerRefs(peers, np.ns, i.pods, NsLabelsOf(i.nss))
    ensures '\n' !in ref
  {
    hide Workload.Ref, Workload.Name, Refs, PeersPicked;
    PickedArePods(np, peers, i.pods, NsLabelsOf(i.nss));
    if peers != [] { RefsGood(i.pods, PeersPicked(peers, np.ns, i.pods, NsLabelsOf(i.nss)), ref); }
  }

  lemma EdgeTextGood(s: string, d: string, p: string)
    requires '\n' !in s && '\n' !in d && '\n' !in p
    ensures var l := EdgeLine(s, d, p); l != "" && l[0] == 'E' && '\n' !in l
  {}

  lemma PortTextGood(ports: seq<Option<PortRef>>, ps: set<Pod>, t: string)
    requires t in RulePorts(ports, ps)
    ensures '\n' !in t
  {
    forall n ensures '\n' !in IntText(n) {
      assert '\n' !in NatText(if n < 0 then -n else n);
    }
  }

  // ---- the producer --------------------------------------------------------------------

  /** The members of one set missing from another, in the order the map yields them. */
  method Missing(from: set<string>, other: set<string>) returns (out: seq<string>)
    ensures SetOf(out) == from - other
  {
    out := [];
    var rest := from;
    while rest != {}
      invariant rest <= from && SetOf(out) == from - rest - other
      decreases rest
    {
      var l :| l in rest;
      if l !in other {
        assert SetOf(out + [l]) == SetOf(out) + {l};
        out := out + [l];
      }
      rest := rest - {l};
    }
  }

  /** The listed objects as a document, its version and its lines. */
  method ListAndBuild(i: Inputs, hash: string -> string) returns (doc: string, version: string, lines: set<string>)
    requires GoodLines(InputLines(Some(i)).value)
    ensures lines == InputLines(Some(i)).value && version == Version(hash, lines) && ReadDoc(doc) == lines
  {
    hide LineSet, GoodLines, ReadDoc;
    ghost var all := LineSet(i.nps, i.pods, i.nss);
    ReadDocBack(all);
    SortedKeysMembers(all);
    var hashed;
    var count;
    doc, hashed, count := BuildEdgeDoc(i.nps, i.pods, i.nss);
    version := "edges-" + hash(hashed);
    var sorted, _ := ComputeEdgeLines(i.nps, i.pods, i.nss);
    lines := SetOf(sorted);
    assert lines == all;
  }

  class Producer {
    const clusterId: string
    const epoch: nat
    const hash: string -> string
    const api: DownloadApi

    var seqNo: nat
    var index: set<string>
    var lastVersion: string
    ghost var published: bool
    ghost var mark: nat

    ghost function Snapshot(): State
      reads this, api
    {
      State(epoch, seqNo, index, lastVersion, ReadDoc(api.stored), api.log, published, mark)
    }

    constructor (clusterId: string, now: nat, hash: string -> string)
      ensures fresh(api) && Snapshot() == InitState(now) && this.hash == hash
    {
      this.clusterId, epoch, this.hash := clusterId, now, hash;
      api := new DownloadApi();
      seqNo, index, lastVersion := 0, {}, "";
      published, mark := false, 0;
      new;
      SplitNone("", '\n');
    }

    /** buildAndUpload: list, reseed the index, upload unless the content is unchanged. */
    method BuildAndUpload(inputs: Option<Inputs>, uploadWorks: bool)
      requires inputs.Some? ==> GoodLines(InputLines(inputs).value)
      modifies this, api
      ensures Snapshot() == BaselineStep(hash, old(Snapshot()), Baseline(InputLines(inputs), uploadWorks))
    {
      hide LineSet, GoodLines, BaselineStep, ReadDoc, Version, VersionText;
      ghost var s := Snapshot();
      if inputs.None? {
        BaselineIdle(hash, s, uploadWorks);
        return;
      }
      ghost var all := InputLines(inputs).value;
      BaselineReseeds(hash, s, all, uploadWorks);
      hide InputLines;
      var doc, version, lines := ListAndBuild(inputs.value, hash);
      index := lines;
      mark := |api.log|;
      if version == lastVersion {
        published := true;
        return;
      }
      published := false;
      var ok := api.Put(doc, uploadWorks);
      if !ok {
        return;
      }
      published := true;
      lastVersion := version;
    }

    /** flushDelta: list, diff against the index, post; advance only when the post worked.
        The request carries the delta from the index to the lines, also when it fails. */
    method FlushDelta(inputs: Option<Inputs>, postWorks: bool)
      modifies this, api
      ensures FlushStep(old(Snapshot()), Snapshot(), Flush(InputLines(inputs), postWorks))
      ensures if inputs.None? || InputLines(inputs).value == old(index) then api.offered == old(api.offered)
        else OfferedFor(old(api.offered), api.offered, old(Snapshot()), InputLines(inputs).value)
      ensures TaggedSince(old(api.offered), api.offered, clusterId)
    {
      hide LineSet, FlushStep, ReadDoc, OfferedFor, TaggedSince, DeltaFor, StrLe, SortedKeys, NoDuplicates, Sorted;
      ghost var s := Snapshot();
      ghost var tried := api.offered;
      FlushIdle(s, InputLines(inputs), postWorks);
      NoneTagged(tried, clusterId);
      if inputs.None? {
        return;
      }
      var i := inputs.value;
      ghost var all := LineSet(i.nps, i.pods, i.nss);
      SortedKeysMembers(all);
      var lines, _ := ComputeEdgeLines(i.nps, i.pods, i.nss);
      var newSet := SetOf(lines);
      assert newSet == all;
      var upserts := Missing(newSet, index);
      var removes := Missing(index, newSet);
      if |upserts| == 0 && |removes| == 0 {
        assert SetOf(upserts) == {} && SetOf(removes) == {};
        return;
      }
      if |upserts| > 0 { assert upserts[0] in SetOf(upserts); }
      if |removes| > 0 { assert removes[0] in SetOf(removes); }
      var delta := Delta(epoch, seqNo + 1, clusterId, upserts, removes);
      DeltaIs(delta, s, all);
      var ok := api.Post(delta, postWorks);
      OneOffered(tried, delta, s, all);
      if !ok {
        return;
      }
      seqNo := delta.seqNo;
      index := newSet;
      FlushPosted(s, delta, all);
    }
  }

  lemma FlushIdle(s: State, lines: Option<set<string>>, postOk: bool)
    ensures lines.None? || lines.value == s.index || !postOk ==> FlushStep(s, s, Flush(lines, postOk))
  {}

  /** One more request was made, with the delta that leads from the index to lines. */
  ghost predicate OfferedFor(before: seq<Delta>, after: seq<Delta>, s: State, lines: set<string>) {
    |after| == |before| + 1 && after[..|before|] == before && DeltaFor(after[|before|], s, lines)
  }

  lemma OneOffered(before: seq<Delta>, d: Delta, s: State, lines: set<string>)
    requires DeltaFor(d, s, lines)
    ensures OfferedFor(before, before + [d], s, lines) && TaggedSince(before, before + [d], d.cluster)
  {}

  /** Every request made since carries the name of the cluster. */
  ghost predicate TaggedSince(before: seq<Delta>, after: seq<Delta>, cluster: string) {
    |before| <= |after| && forall i :: |before| <= i < |after| ==> after[i].cluster == cluster
  }

  lemma NoneTagged(before: seq<Delta>, cluster: string)
    ensures TaggedSince(before, before, cluster)
  {}

  lemma DeltaIs(d: Delta, s: State, lines: set<string>)
    requires d.epoch == s.epoch && d.seqNo == s.seqNo + 1
    requires SetOf(d.upserts) == lines - s.index && SetOf(d.removes) == s.index - lines
    ensures DeltaFor(d, s, lines)
  {}

  lemma FlushPosted(s: State, d: Delta, lines: set<string>)
    requires DeltaFor(d, s, lines) && lines != s.index
    ensures FlushStep(s, Delivered(s, d, lines), Flush(Some(lines), true))
  {}
}
