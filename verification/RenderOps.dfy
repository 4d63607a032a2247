/** What a source object does to the route model, as a list of operations: the shape in which
    the nested loops of render and renderGateways are specified. */
module RenderOps {
  import opened Strings
  import opened RouteModel

  datatype Op = Do(call: Call) | MarkSticky | SetAcme(addr: string)

  /** The ACME solver address is set once; the other operations are the model's own. */
  function Step(m: Model, op: Op): Model {
    match op
    case Do(c) => Apply(m, c)
    case MarkSticky => m.(sticky := true)
    case SetAcme(addr) => if m.acme == "" then m.(acme := addr) else m
  }

  function RunOps(m: Model, ops: seq<Op>): Model {
    if ops == [] then m else Step(RunOps(m, ops[..|ops| - 1]), ops[|ops| - 1])
  }

  lemma {:induction false} RunOpsAppend(m: Model, a: seq<Op>, b: seq<Op>)
    ensures RunOps(m, a + b) == RunOps(RunOps(m, a), b)
  {
    hide Step;
    if b == [] {
      assert a + b == a;
    } else {
      assert (a + b)[..|a + b| - 1] == a + b[..|b| - 1];
      RunOpsAppend(m, a, b[..|b| - 1]);
    }
  }

  lemma RunOpsOne(m: Model, op: Op)
    ensures RunOps(m, [op]) == Step(m, op) && RunOps(m, []) == m
  {
    assert [op][..0] == [];
  }

  function Flat<T>(xs: seq<T>, f: T -> seq<Op>): seq<Op> {
    if xs == [] then [] else Flat(xs[..|xs| - 1], f) + f(xs[|xs| - 1])
  }

  /** One more turn of a loop over xs. */
  lemma FlatStep<T>(m: Model, xs: seq<T>, i: nat, f: T -> seq<Op>)
    requires i < |xs|
    ensures RunOps(m, Flat(xs[..i + 1], f)) == RunOps(RunOps(m, Flat(xs[..i], f)), f(xs[i]))
    ensures xs[..|xs|] == xs
  {
    assert xs[..i + 1][..i] == xs[..i];
    RunOpsAppend(m, Flat(xs[..i], f), f(xs[i]));
  }

  lemma FlatNone<T>(m: Model, xs: seq<T>, f: T -> seq<Op>)
    ensures RunOps(m, Flat(xs[..0], f)) == m && RunOps(m, []) == m
    ensures xs[..|xs|] == xs
  {}

  lemma {:induction false} FlatSame<T>(xs: seq<T>, f: T -> seq<Op>, g: T -> seq<Op>)
    requires forall x :: x in xs ==> f(x) == g(x)
    ensures Flat(xs, f) == Flat(xs, g)
  {
    if xs == [] {
    } else {
      FlatSame(xs[..|xs| - 1], f, g);
    }
  }

  lemma {:induction false} FlatMembers<T>(xs: seq<T>, f: T -> seq<Op>, op: Op)
    ensures op in Flat(xs, f) <==> exists i :: 0 <= i < |xs| && op in f(xs[i])
  {
    if xs == [] {
    } else {
      FlatMembers(xs[..|xs| - 1], f, op);
    }
  }

  // ---- validity -------------------------------------------------------------------------

  lemma StepKeepsValid(m: Model, op: Op)
    requires ValidModel(m)
    ensures ValidModel(Step(m, op))
  {
    if op.Do? { ApplyKeepsValid(m, op.call); }
  }

  lemma {:induction false} RunOpsValid(m: Model, ops: seq<Op>)
    requires ValidModel(m)
    ensures ValidModel(RunOps(m, ops))
  {
    hide Step, ValidModel;
    if ops == [] {
    } else {
      RunOpsValid(m, ops[..|ops| - 1]);
      StepKeepsValid(RunOps(m, ops[..|ops| - 1]), ops[|ops| - 1]);
    }
  }

  /** What the model holds for a host and key is never changed by later sources. */
  lemma {:induction false} LaterSourcesKeep(m: Model, ops: seq<Op>, host: string, key: string)
    requires ValidModel(m)
    ensures KeepsClaim(m, RunOps(m, ops), host, key)
    ensures m.acme != "" ==> RunOps(m, ops).acme == m.acme
  {
    hide ValidModel, Apply;
    if ops == [] {
    } else {
      var before, op := RunOps(m, ops[..|ops| - 1]), ops[|ops| - 1];
      LaterSourcesKeep(m, ops[..|ops| - 1], host, key);
      RunOpsValid(m, ops[..|ops| - 1]);
      if op.Do? {
        ApplyKeepsClaim(before, op.call, host, key);
        ApplyGlobals(before, op.call);
      }
    }
  }

  lemma ApplyGlobals(m: Model, c: Call)
    ensures Apply(m, c).acme == m.acme && (m.sticky ==> Apply(m, c).sticky)
  {
    hide Write;
  }

  // ---- the solver and sticky sessions --------------------------------------------------------

  /** The first operation that names a solver. */
  ghost predicate FirstSolver(ops: seq<Op>, i: nat) {
    i < |ops| && ops[i].SetAcme? && ops[i].addr != ""
    && forall j :: 0 <= j < i ==> !(ops[j].SetAcme? && ops[j].addr != "")
  }

  /** The ACME solver is the first one named, and there is none when none is; sessions are sticky
      once a source asks for it. */
  lemma {:induction false} FirstSolverKept(ops: seq<Op>)
    ensures forall i: nat :: i < |ops| && FirstSolver(ops, i) ==> RunOps(EMPTY_MODEL, ops).acme == ops[i].addr
    ensures RunOps(EMPTY_MODEL, ops).acme != "" ==> exists i: nat :: i < |ops| && FirstSolver(ops, i)
    ensures MarkSticky in ops ==> RunOps(EMPTY_MODEL, ops).sticky
  {
    hide Apply;
    if ops == [] {
    } else {
      var n := |ops| - 1;
      var init, op := ops[..n], ops[n];
      FirstSolverKept(init);
      if op.Do? { ApplyGlobals(RunOps(EMPTY_MODEL, init), op.call); }
      assert forall j :: 0 <= j < n ==> init[j] == ops[j];
      forall i: nat | i < n ensures FirstSolver(init, i) <==> FirstSolver(ops, i) {}
      if RunOps(EMPTY_MODEL, init).acme == "" && op.SetAcme? && op.addr != "" {
        NoSolverYet(init);
        assert FirstSolver(ops, n);
      }
    }
  }

  lemma {:induction false} NoSolverYet(ops: seq<Op>)
    requires RunOps(EMPTY_MODEL, ops).acme == ""
    ensures forall j :: 0 <= j < |ops| ==> !(ops[j].SetAcme? && ops[j].addr != "")
  {
    hide Apply;
    if ops == [] {
    } else {
      var n := |ops| - 1;
      if ops[n].Do? { ApplyGlobals(RunOps(EMPTY_MODEL, ops[..n]), ops[n].call); }
      NoSolverYet(ops[..n]);
      assert forall j :: 0 <= j < n ==> ops[..n][j] == ops[j];
    }
  }

  // ---- the calls behind the operations -----------------------------------------------------

  function CallsOf(ops: seq<Op>): seq<Call> {
    if ops == [] then []
    else
      var init, op := CallsOf(ops[..|ops| - 1]), ops[|ops| - 1];
      if op.Do? then init + [op.call] else init
  }

  /** The two models agree on hosts, passthrough hosts and certificates. */
  predicate SameRouting(m: Model, n: Model) { m == n.(acme := m.acme, sticky := m.sticky) }

  lemma ApplySameRouting(m: Model, n: Model, c: Call)
    requires SameRouting(m, n)
    ensures SameRouting(Apply(m, c), Apply(n, c))
  {
    hide Write, Claim, Paths;
    PathsSameRouting(m, n, c.host);
    if (c.Route? || c.Regex?) && Write(c).Some? {
      var (key, rc) := Write(c).value;
      ClaimSameRouting(m, n, c.host, key, rc, c.a.sticky);
    }
  }

  lemma PathsSameRouting(m: Model, n: Model, host: string)
    requires SameRouting(m, n)
    ensures Paths(m, host) == Paths(n, host)
    ensures forall key :: Terminates(m, host, key) == Terminates(n, host, key)
  {}

  lemma ClaimSameRouting(m: Model, n: Model, host: string, key: string, rc: RouteCfg, sticky: bool)
    requires SameRouting(m, n)
    ensures SameRouting(Claim(m, host, key, rc, sticky), Claim(n, host, key, rc, sticky))
  {
    hide Paths, Terminates;
    PathsSameRouting(m, n, host);
  }

  /** The routing of a model is what its calls alone make of it. */
  lemma {:induction false} RoutingByCalls(ops: seq<Op>)
    ensures SameRouting(RunOps(EMPTY_MODEL, ops), Run(EMPTY_MODEL, CallsOf(ops)))
  {
    hide Apply;
    if ops == [] {
    } else {
      var init, op := ops[..|ops| - 1], ops[|ops| - 1];
      RoutingByCalls(init);
      if op.Do? {
        ApplySameRouting(RunOps(EMPTY_MODEL, init), Run(EMPTY_MODEL, CallsOf(init)), op.call);
        assert (CallsOf(init) + [op.call])[..|CallsOf(init)|] == CallsOf(init);
      }
    }
  }

  /** Each host and path holds what the first operation that claimed it asked for. */
  lemma FirstOpWins(ops: seq<Op>, host: string)
    ensures HostAsClaimed(RunOps(EMPTY_MODEL, ops), CallsOf(ops), host)
  {
    hide FirstClaim, KeyAsWritten, RunOps, Run, CallsOf;
    RoutingByCalls(ops);
    FirstWriterWins(CallsOf(ops), host);
  }

  // ---- the part of the model the text shows ------------------------------------------------

  /** Everything but the projected Secrets. */
  function Shown(m: Model): Model { m.(certProjections := map[]) }

  lemma StepShown(m: Model, n: Model, op: Op)
    requires Shown(m) == Shown(n)
    ensures Shown(Step(m, op)) == Shown(Step(n, op))
  {
    hide Apply;
    OtherFields(m, n);
    if op.Do? {
      if op.call.Cert? {
        CertShown(m, n.certProjections, op.call);
      } else if op.call.Passthrough? {
        PassthroughShown(m, n.certProjections, op.call);
      } else {
        ClaimShown(m, n.certProjections, op.call);
      }
    }
  }

  lemma OtherFields(m: Model, n: Model)
    requires Shown(m) == Shown(n)
    ensures n == m.(certProjections := n.certProjections)
  {
    assert Shown(m).hosts == m.hosts && Shown(n).hosts == n.hosts;
    assert Shown(m).passthroughHosts == m.passthroughHosts && Shown(n).passthroughHosts == n.passthroughHosts;
    assert Shown(m).hostCert == m.hostCert && Shown(n).hostCert == n.hostCert;
    assert Shown(m).acme == m.acme && Shown(n).acme == n.acme;
    assert Shown(m).sticky == m.sticky && Shown(n).sticky == n.sticky;
  }

  lemma CertShown(m: Model, p: map<string, CertProjection>, c: Call)
    requires c.Cert?
    ensures Shown(Apply(m, c)) == Shown(Apply(m.(certProjections := p), c))
  {}

  lemma PassthroughShown(m: Model, p: map<string, CertProjection>, c: Call)
    requires c.Passthrough?
    ensures Shown(Apply(m, c)) == Shown(Apply(m.(certProjections := p), c))
  {
    hide Shown, Paths;
    var n := m.(certProjections := p);
    SamePaths(m, p, c.host);
    assert Apply(n, c) == Apply(m, c).(certProjections := p);
    ProjectionsHidden(Apply(m, c), p);
  }

  lemma SamePaths(m: Model, p: map<string, CertProjection>, host: string)
    ensures Paths(m.(certProjections := p), host) == Paths(m, host)
  {}

  lemma ProjectionsHidden(m: Model, p: map<string, CertProjection>)
    ensures Shown(m.(certProjections := p)) == Shown(m)
  {}

  lemma ClaimIgnores(m: Model, p: map<string, CertProjection>, host: string, key: string, rc: RouteCfg, sticky: bool)
    ensures Claim(m.(certProjections := p), host, key, rc, sticky)
         == Claim(m, host, key, rc, sticky).(certProjections := p)
  {
    hide Paths;
    SamePaths(m, p, host);
  }

  lemma ClaimShown(m: Model, p: map<string, CertProjection>, c: Call)
    requires c.Route? || c.Regex?
    ensures Shown(Apply(m, c)) == Shown(Apply(m.(certProjections := p), c))
  {
    hide Write, Claim, Shown;
    if Write(c).Some? {
      var (key, rc) := Write(c).value;
      ClaimIgnores(m, p, c.host, key, rc, c.a.sticky);
      ProjectionsHidden(Claim(m, c.host, key, rc, c.a.sticky), p);
    } else {
      ProjectionsHidden(m, p);
    }
  }

  lemma {:induction false} RunOpsShown(m: Model, n: Model, ops: seq<Op>)
    requires Shown(m) == Shown(n)
    ensures Shown(RunOps(m, ops)) == Shown(RunOps(n, ops))
  {
    hide Step, Shown;
    if ops == [] {
    } else {
      RunOpsShown(m, n, ops[..|ops| - 1]);
      StepShown(RunOps(m, ops[..|ops| - 1]), RunOps(n, ops[..|ops| - 1]), ops[|ops| - 1]);
    }
  }

  // ---- the object ---------------------------------------------------------------------------

  method SetSticky(m: RenderModel)
    requires m.Valid()
    modifies m
    ensures m.Valid() && m.Snapshot() == Step(old(m.Snapshot()), MarkSticky)
  {
    m.sticky := true;
  }

  method SetSolver(m: RenderModel, addr: string)
    requires m.Valid()
    modifies m
    ensures m.Valid() && m.Snapshot() == Step(old(m.Snapshot()), SetAcme(addr))
  {
    if m.acme == "" {
      m.acme := addr;
    }
  }
}
