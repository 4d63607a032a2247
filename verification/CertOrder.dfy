/** Gateways are iterated in listing order (controllers/gateway.go, renderGateways): which
    Secret a shared certificate stem projects can depend on it. Exactly when. */
module CertOrder {
  import opened Wrappers
  import opened Sorting
  import opened RouteModel
  import opened RenderOps
  import opened CertNames
  import opened Ingress
  import opened Gateway

  type Projections = map<string, CertProjection>

  function OneProjection(op: Op): Projections {
    if op.Do? && op.call.Cert? && op.call.stem != "" && op.call.ns != "" && op.call.name != ""
    then map[op.call.stem := CertProjection(op.call.stem, op.call.ns, op.call.name)] else map[]
  }

  /** The Secret each stem gets from the operations alone: its first one. */
  function Projected(ops: seq<Op>): Projections {
    if ops == [] then map[] else OneProjection(ops[|ops| - 1]) + Projected(ops[..|ops| - 1])
  }

  lemma StepProjects(m: Model, op: Op)
    ensures Step(m, op).certProjections == OneProjection(op) + m.certProjections
  {
    hide Apply;
    if op.Do? && op.call.Cert? {
      CertProjects(m, op.call);
    } else {
      if op.Do? { OthersProjectNothing(m, op.call); }
      assert map[] + m.certProjections == m.certProjections;
    }
  }

  lemma CertProjects(m: Model, c: Call)
    requires c.Cert?
    ensures Apply(m, c).certProjections == OneProjection(Do(c)) + m.certProjections
  {}

  lemma OthersProjectNothing(m: Model, c: Call)
    requires !c.Cert?
    ensures Apply(m, c).certProjections == m.certProjections
  {
    hide Write;
  }

  /** Stems that are taken stay as they are; the others get their first Secret. */
  lemma {:induction false} ProjectedAfter(m: Model, ops: seq<Op>)
    ensures RunOps(m, ops).certProjections == Projected(ops) + m.certProjections
  {
    hide Step, OneProjection;
    if ops == [] {
      assert map[] + m.certProjections == m.certProjections;
    } else {
      var init, op := ops[..|ops| - 1], ops[|ops| - 1];
      ProjectedAfter(m, init);
      StepProjects(RunOps(m, init), op);
      assert OneProjection(op) + (Projected(init) + m.certProjections)
          == (OneProjection(op) + Projected(init)) + m.certProjections;
    }
  }

  lemma {:induction false} ProjectedAppend(a: seq<Op>, b: seq<Op>)
    ensures Projected(a + b) == Projected(b) + Projected(a)
  {
    hide OneProjection;
    if b == [] {
      assert a + b == a && map[] + Projected(a) == Projected(a);
    } else {
      assert (a + b)[..|a + b| - 1] == a + b[..|b| - 1];
      ProjectedAppend(a, b[..|b| - 1]);
    }
  }

  type Source = Gateway -> seq<Op>

  /** The first Gateway of the list that projects the stem decides its Secret. */
  lemma {:induction false} FirstProjector(gws: seq<Gateway>, f: Source, s: string) returns (i: nat)
    requires s in Projected(Flat(gws, f))
    ensures i < |gws| && s in Projected(f(gws[i]))
    ensures Projected(Flat(gws, f))[s] == Projected(f(gws[i]))[s]
    ensures forall j :: 0 <= j < i ==> s !in Projected(f(gws[j]))
  {
    hide Projected, Flat;
    assert gws != [] by { NothingProjected(f); }
    var init, last := gws[..|gws| - 1], gws[|gws| - 1];
    LastProjects(gws, f);
    if s in Projected(Flat(init, f)) {
      i := FirstProjector(init, f, s);
    } else {
      i := |gws| - 1;
      forall j | 0 <= j < i ensures s !in Projected(f(gws[j])) {
        if s in Projected(f(init[j])) { ProjectorCounts(init, f, j, s); }
      }
    }
  }

  lemma NothingProjected(f: Source)
    ensures Projected(Flat([], f)) == map[]
  {}

  lemma LastProjects(gws: seq<Gateway>, f: Source)
    requires gws != []
    ensures Projected(Flat(gws, f)) == Projected(f(gws[|gws| - 1])) + Projected(Flat(gws[..|gws| - 1], f))
  {
    hide Projected;
    ProjectedAppend(Flat(gws[..|gws| - 1], f), f(gws[|gws| - 1]));
  }

  lemma {:induction false} ProjectorCounts(gws: seq<Gateway>, f: Source, i: nat, s: string)
    requires i < |gws| && s in Projected(f(gws[i]))
    ensures s in Projected(Flat(gws, f))
  {
    var init := gws[..|gws| - 1];
    ProjectedAppend(Flat(init, f), f(gws[|gws| - 1]));
    if i == |init| {
    } else {
      ProjectorCounts(init, f, i, s);
    }
  }

  /** Gateways that project the same free stem project the same Secret for it. */
  ghost predicate StemsAgree(m: Model, gws: seq<Gateway>, f: Source) {
    forall g, h, s :: g in gws && h in gws && s in Projected(f(g)) && s in Projected(f(h)) && s !in m.certProjections
      ==> Projected(f(g))[s] == Projected(f(h))[s]
  }

  ghost function After(m: Model, gws: seq<Gateway>, f: Source): Projections {
    RunOps(m, Flat(gws, f)).certProjections
  }

  lemma AgreeingOrders(m: Model, gws: seq<Gateway>, other: seq<Gateway>, f: Source)
    requires StemsAgree(m, gws, f) && multiset(gws) == multiset(other)
    ensures After(m, gws, f) == After(m, other, f)
  {
    hide Projected, Flat, RunOps;
    PermutedMembers(gws, other);
    ProjectedAfter(m, Flat(gws, f));
    ProjectedAfter(m, Flat(other, f));
    var a, b := Projected(Flat(gws, f)), Projected(Flat(other, f));
    forall s ensures s in a <==> s in b {
      if s in a { ProjectsToo(gws, other, f, s); }
      if s in b { ProjectsToo(other, gws, f, s); }
    }
    forall s | s in a && s !in m.certProjections ensures a[s] == b[s] {
      var i := FirstProjector(gws, f, s);
      var j := FirstProjector(other, f, s);
      assert gws[i] in gws && other[j] in other;
    }
  }

  lemma ProjectsToo(a: seq<Gateway>, b: seq<Gateway>, f: Source, s: string)
    requires (forall g :: g in a ==> g in b) && s in Projected(Flat(a, f))
    ensures s in Projected(Flat(b, f))
  {
    hide Projected, Flat;
    var i := FirstProjector(a, f, s);
    assert a[i] in b;
    var j :| 0 <= j < |b| && b[j] == a[i];
    ProjectorCounts(b, f, j, s);
  }

  lemma FirstListedWins(m: Model, gws: seq<Gateway>, i: nat, f: Source, s: string)
    requires i < |gws| && s in Projected(f(gws[i])) && s !in m.certProjections
    ensures multiset(MoveFirst(gws, i)) == multiset(gws)
    ensures s in After(m, MoveFirst(gws, i), f) && After(m, MoveFirst(gws, i), f)[s] == Projected(f(gws[i]))[s]
  {
    hide Projected, Flat, RunOps;
    assert gws == gws[..i] + [gws[i]] + gws[i + 1..];
    var moved := MoveFirst(gws, i);
    ProjectedAfter(m, Flat(moved, f));
    ProjectorCounts(moved, f, 0, s);
    var j := FirstProjector(moved, f, s);
    assert moved[0] == gws[i];
  }

  /** Every order of the Gateways projects the same Secrets exactly when those sharing a
      stem no Ingress has taken agree on its Secret. */
  lemma ProjectionsExact(m: Model, gws: seq<Gateway>, f: Source)
    ensures StemsAgree(m, gws, f) <==>
      forall other :: multiset(other) == multiset(gws) ==> After(m, other, f) == After(m, gws, f)
  {
    hide Projected, Flat, After, MoveFirst;
    if StemsAgree(m, gws, f) {
      forall other | multiset(other) == multiset(gws) ensures After(m, other, f) == After(m, gws, f) {
        AgreeingOrders(m, gws, other, f);
      }
    }
    if forall other :: multiset(other) == multiset(gws) ==> After(m, other, f) == After(m, gws, f) {
      forall g, h, s | g in gws && h in gws && s in Projected(f(g)) && s in Projected(f(h)) && s !in m.certProjections
        ensures Projected(f(g))[s] == Projected(f(h))[s]
      {
        var i :| 0 <= i < |gws| && gws[i] == g;
        var j :| 0 <= j < |gws| && gws[j] == h;
        FirstListedWins(m, gws, i, f, s);
        FirstListedWins(m, gws, j, f, s);
      }
    }
  }

  // ---- the two orders of a small cluster ---------------------------------------------------

  function HostGateway(name: string, secret: string): Gateway {
    Gateway("ns", name, "c", [Listener(Some("a"), Some(ListenerTls(None, [CertRef(None, None, secret)])))])
  }

  lemma FlatOne<T>(x: T, f: T -> seq<Op>)
    ensures Flat([x], f) == f(x)
  {
    assert [x][..0] == [];
  }

  lemma OneHostOps(name: string, secret: string)
    ensures GatewayF({"c"})(HostGateway(name, secret)) == [Do(Cert("a", "a", "ns", secret))]
  {
    hide Flat;
    var cr := CertRef(None, None, secret);
    var l := Listener(Some("a"), Some(ListenerTls(None, [cr])));
    assert SanitizeStem("a") == "a";
    FlatOne(cr, RefOps("ns", "a"));
    FlatOne(l, ListenerF("ns"));
  }

  lemma OneHostProjects(name: string, secret: string)
    requires secret != ""
    ensures "a" in Projected(GatewayF({"c"})(HostGateway(name, secret)))
    ensures Projected(GatewayF({"c"})(HostGateway(name, secret)))["a"].name == secret
  {
    hide Flat, GatewayF;
    OneHostOps(name, secret);
    var op := Do(Cert("a", "a", "ns", secret));
    assert [op][..0] == [];
  }

  /** Two Gateways sharing a host but not a Secret: the one listed first is projected. */
  lemma ProjectionFollowsListing()
    ensures var g, h, f := HostGateway("g", "s"), HostGateway("h", "t"), GatewayF({"c"});
      && "a" in After(EMPTY_MODEL, [g, h], f) && After(EMPTY_MODEL, [g, h], f)["a"].name == "s"
      && "a" in After(EMPTY_MODEL, [h, g], f) && After(EMPTY_MODEL, [h, g], f)["a"].name == "t"
  {
    hide Projected, GatewayF, After, HostGateway;
    var g, h, f := HostGateway("g", "s"), HostGateway("h", "t"), GatewayF({"c"});
    OneHostProjects("g", "s");
    OneHostProjects("h", "t");
    FirstListedWins(EMPTY_MODEL, [g, h], 0, f, "a");
    FirstListedWins(EMPTY_MODEL, [h, g], 0, f, "a");
    assert MoveFirst([g, h], 0) == [g, h] && MoveFirst([h, g], 0) == [h, g];
  }
}
