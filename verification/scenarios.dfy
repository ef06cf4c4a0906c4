/** Concrete runs of the orchestration, worked through step by step. */
module Scenarios {
  import opened State
  import opened Coupling
  import Refinement
  import opened Multiphysics

  /** Phase field disabled, first step 0.1, three steps, tolerance 1.0. */
  function ParamsA(): Params {
    Params(0.1, 0.1, 0, 3, 1.0, false, 1.0, 0.0, 1.0, 1.0, 1)
  }

  /** A solution evaluated on a cell with no quadrature points. */
  function NoPoints(phi: seq<real>, c: Cell): seq<real> {
    []
  }

  /** No rank ever flags a cell. */
  function Quiet(n: nat): Refinement.Transfer {
    Refinement.Transfer(NoPoints, [], [], [], [])
  }

  function EmptyWorld(): World {
    World(Field([], []), Field([], []), [], 0, [])
  }

  /** One disabled-phase-field step whose elasticity solve converges at once. */
  lemma StepA(s: Sim, script: seq<Outcome>)
    requires s.world.cells == [] && s.currentTimestep == 0.1
    requires |script| >= 1 && script[0] == Converged(0.5, [])
    ensures var t := TimeStep(ParamsA(), s, script, Quiet(s.timestepNumber));
      && t.Stepped? && t.shrinks == 0 && t.rest == script[1..] && !t.refined
      && t.sim.time == s.time + 0.1 && t.sim.currentTimestep == 0.1
      && t.sim.timestepNumber == s.timestepNumber + 1
      && t.sim.world.cells == []
      && t.sim.statistics == s.statistics + [StatRow(s.timestepNumber, s.time + 0.1)]
  {
    var p := ParamsA();
    var a := Advance(p, s);
    var s1 := Recorded(p, a);
    var first := SweepSim(false, s1, script);
    assert first.swept && first.reduction == 0.5 && first.rest == script[1..];
    var l := ShrinkLoop(p, first.sim, first.reduction, first.rest);
    assert l == Shrunk(Settled, first.sim, first.rest, 0);
    assert TrySweep(p, s1, script) == Tried(l, 0.5);
    assert Attempt(p, a, script, 0) == Accepted(first.sim, script[1..], 0.5, WithinTolerance, 0);
  }

  /** Three steps of 0.1 from step 1 at time 0, every solve converging: the
      counter ends at 4, the clock at 0.3, and no step was ever shrunk. */
  lemma ScenarioA(s0: Sim, script: seq<Outcome>)
    requires s0 == Sim(0.0, 0.0, 0.0, 1, EmptyWorld(), [])
    requires script == [Converged(0.5, []), Converged(0.5, []), Converged(0.5, [])]
    ensures var r := Run(ParamsA(), Some([]), s0, script, Quiet);
      && r.Finished?
      && r.sim.timestepNumber == 4
      && r.sim.time == 0.3
      && r.sim.statistics == [StatRow(1, 0.1), StatRow(2, 0.2), StatRow(3, 0.3)]
  {
    var p := ParamsA();
    var s := Start(p, s0, []);
    StepA(s, script);
    var t1 := TimeStep(p, s, script, Quiet(1));
    StepA(t1.sim, t1.rest);
    var t2 := TimeStep(p, t1.sim, t1.rest, Quiet(2));
    StepA(t2.sim, t2.rest);
    var t3 := TimeStep(p, t2.sim, t2.rest, Quiet(3));
    assert Loop(p, t2.sim, t2.rest, Quiet) == Finished(t3.sim);
    assert Loop(p, t1.sim, t1.rest, Quiet) == Finished(t3.sim);
    assert Loop(p, s, script, Quiet) == Finished(t3.sim);
  }

  /** Phase field enabled, first step 0.1, tolerance 1.0. */
  function ParamsB(): Params {
    Params(0.1, 0.1, 0, 3, 1.0, true, 1.0, 0.0, 1.0, 1.0, 1)
  }

  /** The world of scenario B with solutions `e` and `f`, snapshots `se` and
      `sf`, and trace `t`. */
  function WorldB(e: seq<real>, se: seq<real>, f: seq<real>, sf: seq<real>, t: seq<Event>): World {
    World(Field(e, se), Field(f, sf), [], 0, t)
  }

  /** The events of one record of both fields. */
  function RecordBoth(): seq<Event> {
    [On(Record, Elasticity), On(Record, PhaseField)]
  }

  /** First attempt of scenario B: both fields are recorded and the
      phase-field solve throws, leaving its diverged vector behind. */
  lemma FirstTryB(a: Sim, script: seq<Outcome>, e0: seq<real>, f0: seq<real>)
    requires a == Sim(0.1, 0.1, 0.1, 1, WorldB(e0, [], f0, [], []), [])
    requires script == [NoConvergence([9.0]), Converged(0.2, [1.0]), Converged(0.3, [2.0])]
    ensures TrySweep(ParamsB(), Recorded(ParamsB(), a), script)
      == Tried(Shrunk(Threw, a.(world := WorldB(e0, e0, [9.0], f0, RecordBoth() + [On(Update, PhaseField)])),
                      script[1..], 0), 0.0)
  {
    var first := SweepSim(true, Recorded(ParamsB(), a), script);
    assert !first.swept && first.rest == script[1..];
  }

  /** Second attempt of scenario B: after the rollback to step 0.01 the
      fields are recorded again and both solves converge, the elasticity
      reduction 0.3 being the larger. */
  lemma SecondTryB(f: Sim, script: seq<Outcome>, e0: seq<real>, f0: seq<real>)
    requires f == Sim(0.1, 0.1, 0.1, 1, WorldB(e0, e0, [9.0], f0, RecordBoth() + [On(Update, PhaseField)]), [])
    requires script == [Converged(0.2, [1.0]), Converged(0.3, [2.0])]
    ensures Retry(ParamsB(), f, script, 0)
      == Accepted(Sim(0.01, 0.01, 0.1, 1, WorldB([2.0], e0, [1.0], f0, TraceB()), []), [], 0.3, WithinTolerance, 1)
  {
    var p := ParamsB();
    var back := Rollback(true, f);
    assert back == Sim(0.01, 0.01, 0.1, 1, WorldB(e0, e0, f0, f0,
      RecordBoth() + [On(Update, PhaseField), On(Return, Elasticity), On(Return, PhaseField)]), []);
    var s2 := Recorded(p, back);
    var second := SweepSim(true, s2, script);
    assert second.swept && second.reduction == 0.3 && second.rest == [];
    assert second.sim == Sim(0.01, 0.01, 0.1, 1, WorldB([2.0], e0, [1.0], f0, TraceB()), []);
    var l := ShrinkLoop(p, second.sim, 0.3, []);
    assert l == Shrunk(Settled, second.sim, [], 0);
    assert TrySweep(p, s2, script) == Tried(l, 0.3);
    assert Conclude(p, Tried(l, 0.3), 1) == Accepted(second.sim, [], 0.3, WithinTolerance, 1);
  }

  /** The calls of scenario B up to the accepted attempt. */
  function TraceB(): seq<Event> {
    [On(Record, Elasticity), On(Record, PhaseField), On(Update, PhaseField),
     On(Return, Elasticity), On(Return, PhaseField),
     On(Record, Elasticity), On(Record, PhaseField),
     On(Update, PhaseField), FinalizePointHistory, EnforcePhaseFieldLimitation,
     On(Update, Elasticity), FinalizePointHistory]
  }

  /** One enabled step whose first phase-field solve throws: the fields are
      rolled back, the step shrinks to 0.01, the retry records again and
      converges. The clock advances by 0.01, the step size is restored to
      0.1, the snapshots hold the starting solutions, and the calls come in
      exactly this order. */
  lemma ScenarioB(s: Sim, script: seq<Outcome>, e0: seq<real>, f0: seq<real>)
    requires s == Sim(0.0, 0.1, 0.1, 1, WorldB(e0, [], f0, [], []), [])
    requires script == [NoConvergence([9.0]), Converged(0.2, [1.0]), Converged(0.3, [2.0])]
    ensures var t := TimeStep(ParamsB(), s, script, Quiet(1));
      && t.Stepped? && t.shrinks == 1 && t.rest == [] && !t.refined
      && t.increment == 0.01 && t.sim.time == 0.01 && t.sim.currentTimestep == 0.1
      && t.sim.timestepNumber == 2 && t.sim.statistics == [StatRow(1, 0.01)]
      && t.sim.world == WorldB([2.0], e0, [1.0], f0,
           TraceB() + [On(Output, Elasticity), On(Output, PhaseField)])
  {
    var p := ParamsB();
    var a := Advance(p, s);
    assert a == Sim(0.1, 0.1, 0.1, 1, WorldB(e0, [], f0, [], []), []);
    FirstTryB(a, script, e0, f0);
    var f := a.(world := WorldB(e0, e0, [9.0], f0, RecordBoth() + [On(Update, PhaseField)]));
    SecondTryB(f, script[1..], e0, f0);
    var solved := Sim(0.01, 0.01, 0.1, 1, WorldB([2.0], e0, [1.0], f0, TraceB()), []);
    assert Attempt(p, a, script, 0) == Accepted(solved, [], 0.3, WithinTolerance, 1);
  }

  /** Phase field enabled, first step 0.1, no size floor, refinement
      threshold exp(-a2) / l_phi = 1.0. */
  function ParamsC(): Params {
    Params(0.1, 0.1, 0, 3, 1.0, true, 1.0, 0.0, 1.0, 1.0, 1)
  }

  /** The one owned cell of scenario C, not yet flagged. */
  function CellC(): Cell {
    Cell(0, true, 1.0, false)
  }

  /** The cells that replace it when the mesh is refined. */
  function RefinedC(): seq<Cell> {
    [Cell(1, true, 0.5, false), Cell(2, true, 0.5, false)]
  }

  /** A gradient evaluation whose magnitudes at the cell's quadrature points
      are the phase-field solution's own entries. */
  function Echo(phi: seq<real>, c: Cell): seq<real> {
    phi
  }

  /** No peer flags; the gradients follow the phase-field solution. */
  function Sensed(n: nat): Refinement.Transfer {
    Refinement.Transfer(Echo, [], RefinedC(), [], [])
  }

  /** One step of scenario C whose phase-field solve converges to [v]: the
      cell is refined exactly when the gradient of the accepted solution
      exceeds the threshold. */
  lemma StepC(s: Sim, script: seq<Outcome>, v: real)
    requires s.world.cells == [CellC()] && s.currentTimestep == 0.1
    requires |script| >= 2 && script[0] == Converged(0.5, [v]) && script[1] == Converged(0.5, [])
    ensures var t := TimeStep(ParamsC(), s, script, Sensed(s.timestepNumber));
      && t.Stepped? && t.rest == script[2..] && t.sim.currentTimestep == 0.1
      && (t.refined <==> v > 1.0)
      && (!t.refined ==> t.sim.world.cells == [CellC()])
      && (t.refined ==> t.sim.world.cells == RefinedC())
  {
    var p := ParamsC();
    var a := Advance(p, s);
    var s1 := Recorded(p, a);
    var first := SweepSim(true, s1, script);
    assert first.swept && first.reduction == 0.5 && first.rest == script[2..];
    assert first.sim.world.phasefield.solution == [v];
    var l := ShrinkLoop(p, first.sim, first.reduction, first.rest);
    assert l == Shrunk(Settled, first.sim, first.rest, 0);
    assert TrySweep(p, s1, script) == Tried(l, 0.5);
    assert Attempt(p, a, script, 0) == Accepted(first.sim, script[2..], 0.5, WithinTolerance, 0);
    assert Refinement.MaxGradient([v]) == Max(0.0, v) by {
      assert [v][..0] == [];
    }
    assert Refinement.ThresholdOf(p) == Refinement.Finite(1.0);
  }

  /** Two steps on the same unflagged cell with no peer flags: the first
      accepts a flat phase field and does not refine, the second accepts a
      steeper one and refines. The refinement decision follows the solution
      each step accepts. */
  lemma ScenarioC(s: Sim, script: seq<Outcome>)
    requires s.world.cells == [CellC()] && s.currentTimestep == 0.1
    requires script == [Converged(0.5, [0.5]), Converged(0.5, []), Converged(0.5, [2.0]), Converged(0.5, [])]
    ensures var t1 := TimeStep(ParamsC(), s, script, Sensed(s.timestepNumber));
      && t1.Stepped? && !t1.refined
      && var t2 := TimeStep(ParamsC(), t1.sim, t1.rest, Sensed(t1.sim.timestepNumber));
      && t2.Stepped? && t2.refined && t2.sim.world.cells == RefinedC()
  {
    StepC(s, script, 0.5);
    var t1 := TimeStep(ParamsC(), s, script, Sensed(s.timestepNumber));
    StepC(t1.sim, t1.rest, 2.0);
  }
}
