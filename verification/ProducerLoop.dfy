/** The producers' select loop (edge_producer.go, identity_producer.go). */
module ProducerLoop {
  // Informer events, one dirty slot, a debounce timer, flushes and periodic baselines, over any
  // kind of content; EdgeLoop and IdentityLoop put the two protocols into it.

  import opened Wrappers

  /** What the loop's goroutine is doing: a flush or a baseline, before or after its listing. */
  datatype Busy<T> = Idle | Working(flush: bool, listed: Option<T>)

  /** cluster: what the informer cache stands for; notices: events not yet handed to the
      handler; dirty: the channel of capacity one; debounce: when the armed timer expires;
      index: the diff base; failed: the last flush failed while the index was behind. */
  datatype State<T> = State(
    clock: int,
    cluster: T,
    notices: nat,
    dirty: bool,
    debounce: Option<int>,
    busy: Busy<T>,
    index: T,
    failed: bool)

  datatype Action<T> =
    | Change(content: T)
    | Event
    | Receive(t: int)
    | Expire(t: int)
    | Tick
    | List(ok: bool)
    | Finish(ok: bool)

  predicate Enabled<T>(s: State<T>, a: Action<T>) {
    match a
    case Change(_) => true
    case Event => s.notices > 0
    case Receive(t) => s.busy.Idle? && s.dirty && t >= s.clock
    case Expire(t) => s.busy.Idle? && s.debounce.Some? && t >= s.debounce.value && t >= s.clock
    case Tick => s.busy.Idle?
    case List(_) => s.busy.Working? && s.busy.listed.None?
    case Finish(_) => s.busy.Working? && s.busy.listed.Some?
  }

  /** A flush whose post fails leaves the index; every other listing that worked ends with
      what it found as the index. */
  function Next<T(==)>(delay: int, s: State<T>, a: Action<T>): State<T>
    requires Enabled(s, a)
  {
    match a
    case Change(content) => s.(cluster := content, notices := s.notices + 1)
    case Event => s.(notices := s.notices - 1, dirty := true)
    case Receive(t) =>
      s.(clock := t, dirty := false, debounce := if s.debounce.None? then Some(t + delay) else s.debounce)
    case Expire(t) => s.(clock := t, debounce := None, busy := Working(true, None))
    case Tick => s.(busy := Working(false, None))
    case List(ok) =>
      if ok then s.(busy := Working(s.busy.flush, Some(s.cluster)))
      else s.(busy := Idle, failed := if s.busy.flush then s.cluster != s.index else s.failed)
    case Finish(ok) =>
      if s.busy.flush && !ok then s.(busy := Idle, failed := s.busy.listed.value != s.index)
      else s.(busy := Idle, index := s.busy.listed.value, failed := false)
  }

  /** The loop starts idle after the first baseline; the informers replay what they hold. */
  predicate Started<T(==)>(s: State<T>) {
    && s.busy.Idle? && !s.dirty && s.debounce.None?
    && (s.index == s.cluster || s.notices > 0 || s.failed)
    && (s.failed ==> s.index != s.cluster || s.notices > 0)
  }

  ghost predicate IsRun<T>(delay: int, trace: seq<State<T>>, actions: seq<Action<T>>) {
    && |trace| == |actions| + 1 && Started(trace[0])
    && forall i :: 0 <= i < |actions| ==>
         Enabled(trace[i], actions[i]) && trace[i + 1] == Next(delay, trace[i], actions[i])
  }

  // ---- no lost wakeup -------------------------------------------------------------------

  predicate Waiting<T>(s: State<T>) { s.dirty || s.debounce.Some? }

  /** An event that no flush start has followed yet is in the channel or behind the timer. */
  lemma {:induction false} EventNotLost<T>(delay: int, trace: seq<State<T>>, actions: seq<Action<T>>, i: nat, n: nat)
    requires IsRun(delay, trace, actions) && i < n < |trace|
    requires actions[i].Event? && forall j :: i < j < n ==> !actions[j].Expire?
    ensures Waiting(trace[n])
  {
    hide Started;
    if n == i + 1 {
      assert trace[n] == Next(delay, trace[i], actions[i]);
    } else {
      EventNotLost(delay, trace, actions, i, n - 1);
      assert trace[n] == Next(delay, trace[n - 1], actions[n - 1]);
    }
  }

  /** An armed timer keeps its deadline until it expires: no later event postpones it. */
  lemma {:induction false} DeadlineKept<T>(delay: int, trace: seq<State<T>>, actions: seq<Action<T>>, i: nat, n: nat)
    requires IsRun(delay, trace, actions) && i <= n < |trace|
    requires trace[i].debounce.Some? && forall j :: i <= j < n ==> !actions[j].Expire?
    ensures trace[n].debounce == trace[i].debounce
  {
    hide Started;
    if n == i {
    } else {
      DeadlineKept(delay, trace, actions, i, n - 1);
      assert trace[n] == Next(delay, trace[n - 1], actions[n - 1]);
    }
  }

  /** The event that arms the timer is flushed one delay later, not before and not put off: until
      then the timer is due at just that time, and the flush that ends the wait starts no earlier. */
  lemma FlushDue<T>(delay: int, trace: seq<State<T>>, actions: seq<Action<T>>, i: nat, n: nat)
    requires IsRun(delay, trace, actions) && i < n < |trace|
    requires actions[i].Receive? && trace[i].debounce.None? && forall j :: i < j < n ==> !actions[j].Expire?
    ensures trace[n].debounce == Some(actions[i].t + delay)
    ensures n < |actions| && actions[n].Expire? ==> actions[n].t >= actions[i].t + delay && trace[n + 1].busy.Working?
  {
    hide Started;
    assert trace[i + 1] == Next(delay, trace[i], actions[i]);
    DeadlineKept(delay, trace, actions, i + 1, n);
    if n < |actions| { assert Enabled(trace[n], actions[n]) && trace[n + 1] == Next(delay, trace[n], actions[n]); }
  }

  // ---- the index catches up with the cluster ------------------------------------------------

  predicate Notified<T>(s: State<T>) { s.notices > 0 || Waiting(s) }

  /** A flush, or a baseline that has found the cluster as it is, is under way. */
  predicate UnderWay<T(==)>(s: State<T>) {
    s.busy.Working? && (if s.busy.listed.None? then s.busy.flush else s.busy.listed.value == s.cluster)
  }

  /** The index shows the cluster, or something on the way to a flush remembers that it does
      not, or the last flush failed; and a failure on record, unless a flush is about to
      replace it, is one the index has not recovered from. */
  predicate CatchingUp<T(==)>(s: State<T>) {
    && (s.index == s.cluster || Notified(s) || s.failed || UnderWay(s))
    && (s.busy.Working? && s.busy.listed.Some? && s.busy.listed.value != s.cluster ==> Notified(s))
    && (s.failed && !(s.busy.Working? && s.busy.flush) ==> s.index != s.cluster || Notified(s))
  }

  lemma NextKeepsCatchingUp<T>(delay: int, s: State<T>, a: Action<T>)
    requires CatchingUp(s) && Enabled(s, a)
    ensures CatchingUp(Next(delay, s, a))
  {}

  lemma {:induction false} AlwaysCatchingUp<T>(delay: int, trace: seq<State<T>>, actions: seq<Action<T>>, n: nat)
    requires IsRun(delay, trace, actions) && n < |trace|
    ensures CatchingUp(trace[n])
  {
    hide Next;
    if n == 0 {
    } else {
      hide CatchingUp;
      AlwaysCatchingUp(delay, trace, actions, n - 1);
      NextKeepsCatchingUp(delay, trace[n - 1], actions[n - 1]);
    }
  }

  predicate Quiet<T>(s: State<T>) { s.busy.Idle? && !Notified(s) }

  /** In every interleaving of changes, events, timers, flushes and baselines: a quiet loop
      has the cluster as its index exactly when its last flush did not fail. */
  lemma QuietExact<T>(delay: int, trace: seq<State<T>>, actions: seq<Action<T>>, n: nat)
    requires IsRun(delay, trace, actions) && n < |trace| && Quiet(trace[n])
    ensures trace[n].index == trace[n].cluster <==> !trace[n].failed
  {
    hide IsRun;
    AlwaysCatchingUp(delay, trace, actions, n);
  }

  /** What happens next when the cluster rests and every request works. */
  function NextUp<T>(s: State<T>): Action<T>
    requires !Quiet(s)
  {
    if s.busy.Working? then if s.busy.listed.None? then List(true) else Finish(true)
    else if s.notices > 0 then Event
    else if s.dirty then Receive(s.clock)
    else Expire(if s.debounce.value > s.clock then s.debounce.value else s.clock)
  }

  ghost predicate Follows<T>(delay: int, s: State<T>, steps: seq<Action<T>>, s': State<T>)
    decreases |steps|
  {
    if steps == [] then s' == s
    else Enabled(s, steps[0]) && Follows(delay, Next(delay, s, steps[0]), steps[1..], s')
  }

  /** From every state steps without changes and failures lead to a quiet one, and to the
      cluster as the index unless the loop was quiet and behind already. */
  lemma {:induction false} Settles<T>(delay: int, s: State<T>) returns (steps: seq<Action<T>>, quiet: State<T>)
    requires CatchingUp(s)
    ensures Follows(delay, s, steps, quiet) && Quiet(quiet) && quiet.cluster == s.cluster
    ensures quiet.index == s.cluster <==> !(Quiet(s) && s.failed)
    ensures forall a :: a in steps ==> !a.Change? && (a.List? || a.Finish? ==> a.ok)
    decreases s.notices, s.dirty, s.debounce.Some?, s.busy.Working?, s.busy.Working? && s.busy.listed.None?
  {
    if Quiet(s) {
      return [], s;
    }
    var a := NextUp(s);
    NextKeepsCatchingUp(delay, s, a);
    var rest;
    rest, quiet := Settles(delay, Next(delay, s, a));
    steps := [a] + rest;
    assert steps[1..] == rest;
  }

  // ---- a failure is not retried -------------------------------------------------------------

  /** The states a failed flush of content leads through. */
  function FailedFlush<T>(delay: int, s: State<T>, content: T): seq<State<T>> {
    var changed := s.(cluster := content, notices := 1);
    var noticed := changed.(notices := 0, dirty := true);
    var armed := noticed.(dirty := false, debounce := Some(s.clock + delay));
    var expired := armed.(clock := s.clock + delay, debounce := None, busy := Working(true, None));
    var listed := expired.(busy := Working(true, Some(content)));
    [s, changed, noticed, armed, expired, listed, listed.(busy := Idle, failed := true)]
  }

  function FailedFlushActions<T>(delay: int, s: State<T>, content: T): seq<Action<T>> {
    [Change(content), Event, Receive(s.clock), Expire(s.clock + delay), List(true), Finish(false)]
  }

  /** A failed flush is not retried on its own: a quiet loop can stay behind until the next
      event or baseline. */
  lemma FailureStaysBehind<T>(delay: int, s: State<T>, content: T)
    returns (trace: seq<State<T>>, actions: seq<Action<T>>)
    requires Started(s) && !s.failed && s.index == s.cluster && s.notices == 0
    requires content != s.cluster && delay >= 0
    ensures IsRun(delay, trace, actions) && trace[0] == s
    ensures var last := trace[|actions|]; Quiet(last) && last.failed && last.index != last.cluster
  {
    trace, actions := FailedFlush(delay, s, content), FailedFlushActions(delay, s, content);
    FailedFlushEnds(delay, s, content);
    hide Started, Next, FailedFlush, FailedFlushActions;
    forall i | 0 <= i < |actions|
      ensures Enabled(trace[i], actions[i]) && trace[i + 1] == Next(delay, trace[i], actions[i])
    {
    }
  }

  lemma FailedFlushEnds<T>(delay: int, s: State<T>, content: T)
    requires !s.dirty && s.debounce.None? && s.index != content
    ensures var trace := FailedFlush(delay, s, content);
      && |trace| == 7 && |FailedFlushActions(delay, s, content)| == 6 && trace[0] == s
      && Quiet(trace[6]) && trace[6].failed && trace[6].index != trace[6].cluster
  {}
}
