/** The edge producer in its select loop (controllers/edge_producer.go). */
module EdgeLoop {
  // Each flush and baseline of the loop ends with a step of the edge protocol.

  import opened Wrappers
  import P = EdgeProducer
  import L = ProducerLoop

  type Loop = L.State<set<string>>

  type Action = L.Action<set<string>>

  /** The protocol step that ends the current work. */
  function StepOf(s: Loop, ok: bool): P.Action
    requires s.busy.Working? && s.busy.listed.Some?
  {
    if s.busy.flush then P.Flush(s.busy.listed, ok) else P.Baseline(s.busy.listed, ok)
  }

  /** How the protocol moves with the loop. */
  ghost predicate Moves(h: string -> string, s: Loop, a: Action, p: P.State, p': P.State)
    requires L.Enabled(s, a)
  {
    && (a.Change? ==> P.GoodLines(a.content))
    && if a.Finish? then P.Next(h, p, StepOf(s, a.ok), p') else p' == p
  }

  ghost predicate IsRun(h: string -> string, delay: int, trace: seq<Loop>, actions: seq<Action>, protos: seq<P.State>) {
    && L.IsRun(delay, trace, actions) && |protos| == |trace|
    && P.Inv(h, protos[0]) && P.InStep(protos[0]) && protos[0].index == trace[0].index
    && forall i :: 0 <= i < |actions| ==> Moves(h, trace[i], actions[i], protos[i], protos[i + 1])
  }

  /** A baseline ends whose version collides with that of other, stored lines. */
  ghost predicate Collides(h: string -> string, s: Loop, a: Action, p: P.State) {
    a.Finish? && s.busy.Working? && s.busy.listed.Some? && P.Collides(h, p, StepOf(s, a.ok))
  }

  ghost predicate NoCollision(h: string -> string, trace: seq<Loop>, actions: seq<Action>, protos: seq<P.State>, n: nat)
    requires n < |trace| == |actions| + 1 == |protos|
  {
    forall i :: 0 <= i < n ==> !Collides(h, trace[i], actions[i], protos[i])
  }

  lemma IndexAfter(h: string -> string, s: Loop, ok: bool, p: P.State, p': P.State)
    requires s.busy.Working? && s.busy.listed.Some? && P.Next(h, p, StepOf(s, ok), p')
    ensures p'.index == if s.busy.flush && !ok then p.index else s.busy.listed.value
  {
    hide P.GoodLines, P.Version, P.DeltaFor;
  }

  lemma MovesKeep(h: string -> string, delay: int, s: Loop, a: Action, p: P.State, p': P.State)
    requires L.Enabled(s, a) && Moves(h, s, a, p, p') && p.index == s.index
    requires P.Inv(h, p) && P.InStep(p) && !Collides(h, s, a, p)
    ensures P.Inv(h, p') && P.InStep(p') && p'.index == L.Next(delay, s, a).index
  {
    hide P.Inv, P.InStep, P.Next, P.Collides, P.GoodLines;
    if a.Finish? {
      P.NextKeeps(h, p, StepOf(s, a.ok), p');
      IndexAfter(h, s, a.ok, p, p');
    }
  }

  lemma {:induction false} RunKeeps(h: string -> string, delay: int, trace: seq<Loop>, actions: seq<Action>,
                                    protos: seq<P.State>, n: nat)
    requires IsRun(h, delay, trace, actions, protos) && n < |trace| && NoCollision(h, trace, actions, protos, n)
    ensures P.Inv(h, protos[n]) && P.InStep(protos[n]) && protos[n].index == trace[n].index
  {
    hide P.Inv, P.InStep, Collides, Moves, L.Next, L.Started;
    if n == 0 {
    } else {
      RunKeeps(h, delay, trace, actions, protos, n - 1);
      MovesKeep(h, delay, trace[n - 1], actions[n - 1], protos[n - 1], protos[n]);
    }
  }

  /** In every interleaving: a quiet loop has the cluster's lines as its index exactly when
      its last flush did not fail; and then the stored document and the deltas since it are
      those lines, if the last baseline was published. */
  lemma QuietMeansPublished(h: string -> string, delay: int, trace: seq<Loop>, actions: seq<Action>,
                            protos: seq<P.State>, n: nat)
    requires IsRun(h, delay, trace, actions, protos) && n < |trace| && NoCollision(h, trace, actions, protos, n)
    requires L.Quiet(trace[n])
    ensures var p, cluster := protos[n], trace[n].cluster;
      && (p.index == cluster <==> !trace[n].failed) && p.mark <= |p.log|
      && (p.published ==> (P.Replay(p.stored, p.log[p.mark..]) == cluster <==> !trace[n].failed))
  {
    hide L.IsRun, NoCollision, Moves, P.Version, P.GoodLines, P.Replay;
    RunKeeps(h, delay, trace, actions, protos, n);
    L.QuietExact(delay, trace, actions, n);
  }
}
