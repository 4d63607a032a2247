/** The identity producer in its select loop (controllers/identity_producer.go). */
module IdentityLoop {
  // Each flush of the loop ends with a step of the delta protocol, each baseline reseeds the table.

  import opened Wrappers
  import I = IdentityProducer
  import L = ProducerLoop

  type Loop = L.State<I.Index>

  type Action = L.Action<I.Index>

  /** A table the listing can resolve to, without empty label values. */
  ghost predicate Sound(index: I.Index) { I.GoodIndex(index) && I.NoEmptyLabels(index) }

  /** The protocol, and the state its last baseline left: where consumers start. */
  datatype Proto = Proto(now: I.State, base: I.State)

  /** How the protocol moves with the loop. A baseline neither numbers nor posts. */
  ghost predicate Moves(s: Loop, a: Action, p: Proto, p': Proto)
    requires L.Enabled(s, a)
  {
    && (a.Change? ==> Sound(a.content))
    && if !a.Finish? then p' == p
       else if s.busy.flush then p'.base == p.base && I.FlushStep(p.now, I.Flush(s.busy.listed, a.ok), p'.now)
       else p'.now == p.now.(index := s.busy.listed.value) && p'.base == p'.now
  }

  ghost predicate IsRun(delay: int, trace: seq<Loop>, actions: seq<Action>, protos: seq<Proto>) {
    && L.IsRun(delay, trace, actions) && |protos| == |trace|
    && protos[0].base == protos[0].now && protos[0].now.index == trace[0].index
    && Sound(trace[0].index) && Sound(trace[0].cluster)
    && forall i :: 0 <= i < |actions| ==> Moves(trace[i], actions[i], protos[i], protos[i + 1])
  }

  ghost predicate Kept(s: Loop, p: Proto) {
    && p.now.index == s.index && I.InSync(p.base, p.now) && Sound(s.cluster)
    && (s.busy.Working? && s.busy.listed.Some? ==> Sound(s.busy.listed.value))
  }

  /** Without flags, tables with the same rows are the same. */
  lemma RowsDetermine(a: I.Index, b: I.Index)
    requires Sound(a) && Sound(b)
    ensures I.Rows(a) == I.Rows(b) <==> a == b
  {
    if I.Rows(a) == I.Rows(b) {
      assert a.Keys == I.Rows(a).Keys && b.Keys == I.Rows(b).Keys;
      forall ip | ip in a ensures a[ip] == b[ip] {
        assert I.Rows(a)[ip] == I.Rows(b)[ip];
      }
    }
  }

  lemma NothingSameTable(a: I.Index, b: I.Index)
    requires Sound(a) && Sound(b) && I.NothingToSend(a, b)
    ensures a == b
  {
    hide I.NothingToSend, I.Rows;
    I.NothingToSendSameRows(a, b);
    RowsDetermine(a, b);
  }

  lemma FlushKeeps(p: Proto, listed: I.Index, ok: bool, now: I.State)
    requires I.FlushStep(p.now, I.Flush(Some(listed), ok), now) && I.InSync(p.base, p.now) && Sound(listed)
    ensures I.InSync(p.base, now) && now.index == if ok then listed else p.now.index
  {
    InSyncSound(p.base, p.now);
    hide I.InSync, I.DeltaFor, I.NothingToSend, Sound;
    if I.NothingToSend(p.now.index, listed) {
      NothingSameTable(p.now.index, listed);
    } else if ok {
      var d :| I.DeltaFor(d, p.now.index, listed) && d.epoch == p.now.epoch && d.seqNo == p.now.seqNo + 1
               && now == I.Delivered(p.now, d, listed);
      Delivery(p, d, listed);
    }
  }

  lemma InSyncSound(base: I.State, now: I.State)
    requires I.InSync(base, now)
    ensures Sound(now.index)
  {}

  lemma Delivery(p: Proto, d: I.Delta, listed: I.Index)
    requires I.InSync(p.base, p.now) && Sound(listed)
    requires I.DeltaFor(d, p.now.index, listed) && d.seqNo == p.now.seqNo + 1
    ensures I.InSync(p.base, I.Delivered(p.now, d, listed))
  {
    hide I.InSync, I.DeltaFor;
    I.DeliveredInSync(p.base, p.now, d, listed);
  }

  lemma Reseeded(s: I.State, listed: I.Index)
    requires Sound(listed)
    ensures I.InSync(s.(index := listed), s.(index := listed))
  {
    I.StartsInSync(s.(index := listed));
  }

  lemma MovesKeep(delay: int, s: Loop, a: Action, p: Proto, p': Proto)
    requires L.Enabled(s, a) && Moves(s, a, p, p') && Kept(s, p)
    ensures Kept(L.Next(delay, s, a), p')
  {
    hide I.InSync, I.FlushStep, Sound;
    if a.Finish? {
      if s.busy.flush {
        FlushKeeps(p, s.busy.listed.value, a.ok, p'.now);
      } else {
        Reseeded(p.now, s.busy.listed.value);
      }
    }
  }

  lemma {:induction false} RunKeeps(delay: int, trace: seq<Loop>, actions: seq<Action>, protos: seq<Proto>, n: nat)
    requires IsRun(delay, trace, actions, protos) && n < |trace|
    ensures Kept(trace[n], protos[n])
  {
    hide Moves, L.Next, I.InSync, Sound;
    if n == 0 {
      Reseeded(protos[0].now, trace[0].index);
      assert protos[0].now.(index := trace[0].index) == protos[0].now;
    } else {
      hide Kept;
      RunKeeps(delay, trace, actions, protos, n - 1);
      MovesKeep(delay, trace[n - 1], actions[n - 1], protos[n - 1], protos[n]);
    }
  }

  /** In every interleaving over tables without empty labels: a quiet loop has the cluster's
      table as its index exactly when its last flush did not fail; and a consumer that took
      the table at the last baseline and applied every delta since holds its rows. */
  lemma QuietMeansPublished(delay: int, trace: seq<Loop>, actions: seq<Action>, protos: seq<Proto>, n: nat)
    requires IsRun(delay, trace, actions, protos) && n < |trace| && L.Quiet(trace[n])
    ensures var p := protos[n];
      && |p.base.log| <= |p.now.log|
      && (p.now.index == trace[n].cluster <==> !trace[n].failed)
      && (I.Replay(I.Rows(p.base.index), p.now.log[|p.base.log|..]) == I.Rows(trace[n].cluster) <==> !trace[n].failed)
  {
    RunKeeps(delay, trace, actions, protos, n);
    L.QuietExact(delay, trace, actions, n);
    hide L.IsRun, Moves, I.Replay;
    RowsDetermine(protos[n].now.index, trace[n].cluster);
  }
}
