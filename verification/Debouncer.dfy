/** The reload debouncer (controllers/signal.go). */
module Debouncer {
  // A burst of triggers becomes one leading and one trailing reload: the object, and the timed
  // system of triggers, timers and reloads that interleave on it.

  import opened Wrappers

  // ---- the object -------------------------------------------------------------------

  /** The fields under the mutex; last: None until the first fire. */
  datatype Core = Core(window: int, last: Option<int>, pending: bool)

  datatype Decision = FireNow | AlreadyPending | Schedule(wait: int)

  /** now is a window or more after the last fire. */
  predicate Quiet(c: Core, now: int) {
    c.window <= 0 || c.last.None? || now - c.last.value >= c.window
  }

  function Decide(c: Core, now: int): Decision {
    if Quiet(c, now) then FireNow
    else if c.pending then AlreadyPending
    else Schedule(c.window - (now - c.last.value))
  }

  function AfterTrigger(c: Core, now: int): Core {
    match Decide(c, now)
    case FireNow => c.(last := Some(now))
    case AlreadyPending => c
    case Schedule(_) => c.(pending := true)
  }

  function AfterCallback(c: Core, now: int): Core { c.(pending := false, last := Some(now)) }

  class ReloadDebouncer {
    const window: int
    var last: Option<int>
    var pending: bool

    function Fields(): Core
      reads this
    {
      Core(window, last, pending)
    }

    constructor (window: int)
      ensures Fields() == Core(window, None, false)
    {
      this.window, last, pending := window, None, false;
    }

    /** trigger, up to the unlock: what to do once the mutex is free. */
    method Trigger(now: int) returns (d: Decision)
      modifies this
      ensures Fields() == AfterTrigger(old(Fields()), now) && d == Decide(old(Fields()), now)
    {
      if window <= 0 || last.None? || now - last.value >= window {
        last := Some(now);
        return FireNow;
      }
      if pending {
        return AlreadyPending;
      }
      pending := true;
      var wait := window - (now - last.value);
      return Schedule(wait);
    }

    /** The timer's function, up to the unlock; a reload follows. */
    method TimerFired(now: int)
      modifies this
      ensures Fields() == AfterCallback(old(Fields()), now)
    {
      pending := false;
      last := Some(now);
    }
  }

  // ---- the system ----------------------------------------------------------------------

  /** A timer about to be created, for a trigger that unlocked the mutex at `at`. */
  datatype Arming = Arming(at: int, wait: int)

  /** todo counts the reloads decided under the mutex that have not started yet; fires are
      the times at which reloads were decided. */
  datatype State = State(
    clock: int, core: Core, arming: Option<Arming>, timer: Option<int>, todo: nat, fires: seq<int>)

  /** Trigger and Callback are the two critical sections; Arm is the creation of the timer
      after the unlock; Start is a reload starting after an unlock. */
  datatype Action = Trigger(t: int) | Arm(t: int) | Callback(t: int) | Start(t: int)

  function InitState(window: int, clock: int): State {
    State(clock, Core(window, None, false), None, None, 0, [])
  }

  predicate Enabled(s: State, a: Action) {
    && a.t >= s.clock
    && match a
       case Trigger(_) => true
       case Arm(_) => s.arming.Some?
       case Callback(t) => s.timer.Some? && t >= s.timer.value
       case Start(_) => s.todo > 0
  }

  /** The timer a call at time t with this wait creates is due at t + wait, or later. */
  function Next(s: State, a: Action): State
    requires Enabled(s, a)
  {
    match a
    case Trigger(t) =>
      var s' := s.(clock := t, core := AfterTrigger(s.core, t));
      (match Decide(s.core, t)
       case FireNow => s'.(todo := s.todo + 1, fires := s.fires + [t])
       case AlreadyPending => s'
       case Schedule(wait) => s'.(arming := Some(Arming(t, wait))))
    case Arm(t) => s.(clock := t, arming := None, timer := Some(t + s.arming.value.wait))
    case Callback(t) =>
      s.(clock := t, core := AfterCallback(s.core, t), timer := None, todo := s.todo + 1, fires := s.fires + [t])
    case Start(t) => s.(clock := t, todo := s.todo - 1)
  }

  ghost predicate IsRun(trace: seq<State>, actions: seq<Action>, window: int) {
    && |trace| == |actions| + 1
    && (exists clock :: trace[0] == InitState(window, clock))
    && forall i :: 0 <= i < |actions| ==> Enabled(trace[i], actions[i]) && trace[i + 1] == Next(trace[i], actions[i])
  }

  // ---- one timer --------------------------------------------------------------------------

  /** pending holds exactly while one timer is being created or outstanding. */
  ghost predicate OneTimer(s: State) {
    && (s.core.pending <==> s.arming.Some? || s.timer.Some?)
    && !(s.arming.Some? && s.timer.Some?)
    && (s.core.pending ==> s.fires != [])
    && s.core.last == (if s.fires == [] then None else Some(s.fires[|s.fires| - 1]))
    && (s.fires != [] ==> s.fires[|s.fires| - 1] <= s.clock)
    && forall i, j :: 0 <= i < j < |s.fires| ==> s.fires[i] <= s.fires[j]
  }

  lemma NextKeepsOneTimer(s: State, a: Action)
    requires OneTimer(s) && Enabled(s, a)
    ensures OneTimer(Next(s, a)) && Next(s, a).core.window == s.core.window
  {}

  lemma {:induction false} AtMostOneTimer(trace: seq<State>, actions: seq<Action>, window: int, n: nat)
    requires IsRun(trace, actions, window) && n < |trace|
    ensures OneTimer(trace[n]) && trace[n].core.window == window
  {
    hide OneTimer, Enabled, Next;
    if n == 0 {
      InitOneTimer(window, trace[0].clock);
    } else {
      AtMostOneTimer(trace, actions, window, n - 1);
      NextKeepsOneTimer(trace[n - 1], actions[n - 1]);
    }
  }

  lemma InitOneTimer(window: int, clock: int)
    ensures OneTimer(InitState(window, clock))
  {}

  // ---- no trigger is lost --------------------------------------------------------------------

  /** A trigger after which no reload has started yet leaves one that will: decided
      already, or behind the pending timer. */
  lemma {:induction false} TriggerNotLost(trace: seq<State>, actions: seq<Action>, window: int, i: nat, n: nat)
    requires IsRun(trace, actions, window) && i < n < |trace|
    requires actions[i].Trigger? && forall j :: i < j < n ==> !actions[j].Start?
    ensures trace[n].todo > 0 || trace[n].core.pending
  {
    hide OneTimer;
    if n == i + 1 {
      assert trace[n] == Next(trace[i], actions[i]);
    } else {
      TriggerNotLost(trace, actions, window, i, n - 1);
      AtMostOneTimer(trace, actions, window, n - 1);
    }
  }

  /** When nothing is pending and nothing is left to do, every trigger has been followed by
      the start of a reload. */
  lemma QuietMeansServed(trace: seq<State>, actions: seq<Action>, window: int, i: nat)
    requires IsRun(trace, actions, window) && i < |actions| && actions[i].Trigger?
    requires trace[|actions|].todo == 0 && !trace[|actions|].core.pending
    ensures exists j :: i < j < |actions| && actions[j].Start? && actions[j].t >= actions[i].t
  {
    hide OneTimer, Enabled, Next;
    if forall j :: i < j < |actions| ==> !actions[j].Start? {
      TriggerNotLost(trace, actions, window, i, |actions|);
    }
    var j :| i < j < |actions| && actions[j].Start?;
    ClockMoves(trace, actions, window, i, j);
  }

  lemma {:induction false} ClockMoves(trace: seq<State>, actions: seq<Action>, window: int, i: nat, j: nat)
    requires IsRun(trace, actions, window) && i <= j < |actions|
    ensures actions[i].t <= actions[j].t && trace[j + 1].clock == actions[j].t
  {
    assert trace[j + 1] == Next(trace[j], actions[j]);
    if i == j {
    } else {
      ClockMoves(trace, actions, window, i, j - 1);
    }
  }

  /** What is owed can always be paid: some steps without new triggers reach quiet. */
  lemma Drain(s: State) returns (steps: seq<Action>, quiet: State)
    requires OneTimer(s)
    ensures Follows(s, steps, quiet) && quiet.todo == 0 && !quiet.core.pending
    ensures forall a :: a in steps ==> !a.Trigger?
    decreases s.arming.Some?, s.timer.Some?, s.todo
  {
    if s.todo == 0 && !s.core.pending {
      return [], s;
    }
    var a :=
      if s.todo > 0 then Start(s.clock)
      else if s.arming.Some? then Arm(s.clock)
      else Callback(if s.timer.value > s.clock then s.timer.value else s.clock);
    NextKeepsOneTimer(s, a);
    var rest;
    rest, quiet := Drain(Next(s, a));
    steps := [a] + rest;
    assert steps[1..] == rest;
  }

  ghost predicate Follows(s: State, steps: seq<Action>, s': State)
    decreases |steps|
  {
    if steps == [] then s' == s
    else Enabled(s, steps[0]) && Follows(Next(s, steps[0]), steps[1..], s')
  }

  // ---- how often reloads fire -----------------------------------------------------------------

  /** From fire b on, consecutive fires are a window apart. */
  ghost predicate SpacedFrom(fires: seq<int>, b: nat, window: int) {
    forall i :: b <= i < |fires| - 1 ==> fires[i + 1] - fires[i] >= window
  }

  /** b is the last fire before the pending trigger: the timer waits out its window, and
      only leading fires have happened since. */
  ghost predicate WaitsFor(s: State, b: nat) {
    && b < |s.fires| && SpacedFrom(s.fires, b, s.core.window)
    && (s.arming.Some? ==> s.arming.value.at + s.arming.value.wait >= s.fires[b] + s.core.window
                           && s.arming.value.at <= s.clock)
    && (s.timer.Some? ==> s.timer.value >= s.fires[b] + s.core.window)
  }

  ghost predicate Spaced(s: State) {
    && (forall i :: 0 <= i < |s.fires| - 2 ==> s.fires[i + 2] - s.fires[i] >= s.core.window)
    && (s.core.pending ==> exists b :: WaitsFor(s, b))
  }

  lemma LeadingFire(s: State, t: int)
    requires OneTimer(s) && Spaced(s) && s.core.window > 0 && t >= s.clock && Decide(s.core, t).FireNow?
    ensures Spaced(Next(s, Trigger(t)))
  {
    var s' := Next(s, Trigger(t));
    var n := |s.fires|;
    if n >= 1 { assert s'.fires[n] - s'.fires[n - 1] >= s.core.window; }
    if s.core.pending {
      var b: nat :| WaitsFor(s, b);
      assert WaitsFor(s', b);
    }
  }

  lemma ScheduledFire(s: State, t: int)
    requires OneTimer(s) && Spaced(s) && s.core.window > 0 && t >= s.clock && Decide(s.core, t).Schedule?
    ensures Spaced(Next(s, Trigger(t)))
  {
    assert WaitsFor(Next(s, Trigger(t)), |s.fires| - 1);
  }

  lemma TrailingFire(s: State, t: int)
    requires OneTimer(s) && Spaced(s) && s.core.window > 0 && Enabled(s, Callback(t))
    ensures Spaced(Next(s, Callback(t)))
  {
    var s', n := Next(s, Callback(t)), |s.fires|;
    var b: nat :| WaitsFor(s, b);
    if b + 2 <= n {
      var i := n - 2;
      assert s.fires[i + 1] - s.fires[i] >= s.core.window;
    }
  }

  lemma NextKeepsSpaced(s: State, a: Action)
    requires OneTimer(s) && Spaced(s) && s.core.window > 0 && Enabled(s, a)
    ensures Spaced(Next(s, a))
  {
    match a {
      case Trigger(t) =>
        match Decide(s.core, t) {
          case FireNow => LeadingFire(s, t);
          case AlreadyPending =>
            var b: nat :| WaitsFor(s, b);
            assert WaitsFor(Next(s, a), b);
          case Schedule(_) => ScheduledFire(s, t);
        }
      case Arm(t) =>
        var b: nat :| WaitsFor(s, b);
        assert WaitsFor(Next(s, a), b);
      case Callback(t) => TrailingFire(s, t);
      case Start(_) =>
        if s.core.pending {
          var b: nat :| WaitsFor(s, b);
          assert WaitsFor(Next(s, a), b);
        }
    }
  }

  /** However late timers are, no interval of one window holds three fires. */
  lemma {:induction false} AtMostTwoPerWindow(trace: seq<State>, actions: seq<Action>, window: int, n: nat)
    requires IsRun(trace, actions, window) && window > 0 && n < |trace|
    ensures Spaced(trace[n])
    ensures var f := trace[n].fires; forall i, k :: 0 <= i && i + 2 <= k < |f| ==> f[k] - f[i] >= window
  {
    hide Enabled, Next;
    AtMostOneTimer(trace, actions, window, n);
    if n == 0 {
    } else {
      hide Spaced, OneTimer;
      AtMostTwoPerWindow(trace, actions, window, n - 1);
      AtMostOneTimer(trace, actions, window, n - 1);
      NextKeepsSpaced(trace[n - 1], actions[n - 1]);
    }
    ThreeFires(trace[n]);
  }

  lemma ThreeFires(s: State)
    requires OneTimer(s) && Spaced(s)
    ensures forall i, k :: 0 <= i && i + 2 <= k < |s.fires| ==> s.fires[k] - s.fires[i] >= s.core.window
  {
    forall i, k | 0 <= i && i + 2 <= k < |s.fires| ensures s.fires[k] - s.fires[i] >= s.core.window {
      assert s.fires[i + 2] - s.fires[i] >= s.core.window;
      assert s.fires[i + 2] <= s.fires[k];
    }
  }

  /** Two fires at the same instant do happen: a late timer runs right after a trigger
      that found the window over. */
  lemma LateTimerFiresTwice(window: int) returns (trace: seq<State>, actions: seq<Action>)
    requires window > 0
    ensures IsRun(trace, actions, window)
    ensures var f := trace[|actions|].fires; |f| == 3 && f[1] == f[2]
  {
    var s0 := InitState(window, 0);
    actions := [Trigger(0), Trigger(0), Arm(0), Trigger(window), Callback(window)];
    var s1 := Next(s0, actions[0]);
    var s2 := Next(s1, actions[1]);
    var s3 := Next(s2, actions[2]);
    var s4 := Next(s3, actions[3]);
    var s5 := Next(s4, actions[4]);
    trace := [s0, s1, s2, s3, s4, s5];
  }

  // ---- punctual timers --------------------------------------------------------------------------

  /** When the pending fire is due. */
  function Deadline(s: State): int {
    if s.timer.Some? then s.timer.value
    else if s.arming.Some? then s.arming.value.at + s.arming.value.wait
    else s.clock
  }

  /** Timers are created at once and run when due, before anything later. */
  predicate Punctual(s: State, a: Action) {
    && (s.arming.Some? ==> a.t == s.arming.value.at)
    && (s.timer.Some? ==> if a.Callback? then a.t == s.timer.value else a.t < s.timer.value)
  }

  ghost predicate PunctualRun(trace: seq<State>, actions: seq<Action>, window: int) {
    IsRun(trace, actions, window) && forall i :: 0 <= i < |actions| ==> Punctual(trace[i], actions[i])
  }

  /** The deadline of a pending fire is the end of the window of the last fire. */
  ghost predicate OnTime(s: State) {
    && SpacedFrom(s.fires, 0, s.core.window)
    && (s.core.pending ==> s.fires != [] && Deadline(s) == s.fires[|s.fires| - 1] + s.core.window > s.clock)
    && (s.arming.Some? ==> s.arming.value.at == s.clock)
  }

  lemma NextKeepsOnTime(s: State, a: Action)
    requires OneTimer(s) && OnTime(s) && s.core.window > 0 && Enabled(s, a) && Punctual(s, a)
    ensures OnTime(Next(s, a))
  {}

  /** With punctual timers, any two fires are at least one window apart. */
  lemma {:induction false} OneWindowApart(trace: seq<State>, actions: seq<Action>, window: int, n: nat)
    requires PunctualRun(trace, actions, window) && window > 0 && n < |trace|
    ensures OnTime(trace[n])
    ensures var f := trace[n].fires; forall i, j :: 0 <= i < j < |f| ==> f[j] - f[i] >= window
  {
    hide Enabled, Next, OneTimer, Punctual;
    AtMostOneTimer(trace, actions, window, n);
    if n == 0 {
    } else {
      hide OnTime;
      OneWindowApart(trace, actions, window, n - 1);
      AtMostOneTimer(trace, actions, window, n - 1);
      NextKeepsOnTime(trace[n - 1], actions[n - 1]);
    }
    AllApart(trace[n]);
  }

  lemma AllApart(s: State)
    requires OneTimer(s) && OnTime(s)
    ensures forall i, j :: 0 <= i < j < |s.fires| ==> s.fires[j] - s.fires[i] >= s.core.window
  {
    forall i, j | 0 <= i < j < |s.fires| ensures s.fires[j] - s.fires[i] >= s.core.window {
      assert s.fires[i + 1] - s.fires[i] >= s.core.window && s.fires[i + 1] <= s.fires[j];
    }
  }

  /** Every timer's function that ran before n found the window of the last fire over. */
  ghost predicate CallbacksQuiet(trace: seq<State>, actions: seq<Action>, n: nat)
    requires n < |trace| == |actions| + 1
  {
    forall i :: 0 <= i < n && actions[i].Callback? ==> Quiet(trace[i].core, actions[i].t)
  }

  lemma SpacedStep(s: State, a: Action)
    requires OneTimer(s) && Enabled(s, a)
    ensures SpacedFrom(Next(s, a).fires, 0, s.core.window) <==>
      SpacedFrom(s.fires, 0, s.core.window) && (a.Callback? ==> Quiet(s.core, a.t))
  {
    var f, f' := s.fires, Next(s, a).fires;
    if f' != f {
      assert f' == f + [a.t];
      assert forall i :: 0 <= i < |f| - 1 ==> f'[i + 1] - f'[i] == f[i + 1] - f[i];
      if f != [] { assert f'[|f| - 1 + 1] - f'[|f| - 1] == a.t - f[|f| - 1]; }
    }
  }

  /** In every run: any two fires in a row are a window apart exactly when every timer's
      function found the last window over. The code does not look: a trigger looks at the
      window, the function of a timer that runs late does not. */
  lemma {:induction false} OneWindowApartExactly(trace: seq<State>, actions: seq<Action>, window: int, n: nat)
    requires IsRun(trace, actions, window) && n < |trace|
    ensures SpacedFrom(trace[n].fires, 0, window) <==> CallbacksQuiet(trace, actions, n)
  {
    hide Enabled, Next, OneTimer, Quiet, SpacedFrom;
    if n == 0 {
      NoFires(window, trace[0].clock);
    } else {
      OneWindowApartExactly(trace, actions, window, n - 1);
      AtMostOneTimer(trace, actions, window, n - 1);
      SpacedStep(trace[n - 1], actions[n - 1]);
    }
  }

  lemma NoFires(window: int, clock: int)
    ensures SpacedFrom(InitState(window, clock).fires, 0, window)
  {}

  /** A fire within one window of time t. */
  ghost predicate ServedAt(s: State, t: int) {
    exists k :: 0 <= k < |s.fires| && t <= s.fires[k] <= t + s.core.window
  }

  ghost predicate WillServe(s: State, t: int) {
    ServedAt(s, t) || (s.core.pending && t <= s.clock && Deadline(s) <= t + s.core.window)
  }

  lemma TriggerPromises(s: State, t: int)
    requires OneTimer(s) && OnTime(s) && s.core.window > 0 && Enabled(s, Trigger(t)) && Punctual(s, Trigger(t))
    ensures WillServe(Next(s, Trigger(t)), t)
  {
    var s' := Next(s, Trigger(t));
    if Decide(s.core, t).FireNow? {
      assert s'.fires[|s.fires|] == t;
    }
  }

  lemma PromiseStays(s: State, a: Action, t: int)
    requires OneTimer(s) && OnTime(s) && s.core.window > 0 && Enabled(s, a) && Punctual(s, a) && WillServe(s, t)
    ensures WillServe(Next(s, a), t)
  {
    var s' := Next(s, a);
    if ServedAt(s, t) {
      var k :| 0 <= k < |s.fires| && t <= s.fires[k] <= t + s.core.window;
      assert s'.fires[k] == s.fires[k];
    } else if a.Callback? {
      assert s'.fires[|s.fires|] == a.t;
    }
  }

  /** With punctual timers, every trigger is served within one window: by the time the
      clock has passed it, a fire has happened between the trigger and its end. */
  lemma {:induction false} ServedWithinWindow(trace: seq<State>, actions: seq<Action>, window: int, i: nat, n: nat)
    requires PunctualRun(trace, actions, window) && window > 0 && i < n < |trace| && actions[i].Trigger?
    ensures WillServe(trace[n], actions[i].t)
    ensures trace[n].clock >= actions[i].t + window ==> ServedAt(trace[n], actions[i].t)
  {
    hide Enabled, Next, OneTimer, Punctual, WillServe, ServedAt, OnTime;
    AtMostOneTimer(trace, actions, window, n - 1);
    OneWindowApart(trace, actions, window, n - 1);
    OneWindowApart(trace, actions, window, n);
    AtMostOneTimer(trace, actions, window, n);
    if n == i + 1 {
      TriggerPromises(trace[i], actions[i].t);
    } else {
      ServedWithinWindow(trace, actions, window, i, n - 1);
      PromiseStays(trace[n - 1], actions[n - 1], actions[i].t);
    }
    PromiseDue(trace[n], actions[i].t);
  }

  lemma PromiseDue(s: State, t: int)
    requires OnTime(s) && WillServe(s, t)
    ensures s.clock >= t + s.core.window ==> ServedAt(s, t)
  {}

  /** Without a window every trigger fires at once, and no timer is ever created. */
  lemma {:induction false} NoWindowNoDelay(trace: seq<State>, actions: seq<Action>, window: int, n: nat)
    requires IsRun(trace, actions, window) && window <= 0 && n < |trace|
    ensures trace[n].arming.None? && trace[n].timer.None? && !trace[n].core.pending && trace[n].core.window == window
    ensures n < |actions| && actions[n].Trigger? ==> trace[n + 1].fires == trace[n].fires + [actions[n].t]
  {
    if n == 0 {
    } else {
      NoWindowNoDelay(trace, actions, window, n - 1);
    }
  }
}
