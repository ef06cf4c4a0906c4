/** The time-step driver of the multiphysics simulation: mesh setup, the
    do-while loop over time steps, the two nested ways of shrinking a step
    that does not converge, the restore of the step size after acceptance,
    the statistics row of every accepted step, and the refinement pass that
    follows it. */
module Multiphysics {
  import opened State
  import opened Coupling
  import Refinement

  /** The step size below which the residual-driven shrink gives up (1.0e-9). */
  const StepFloor: real := 0.000000001

  /** One row of the statistics table: the step number and the clock. */
  datatype StatRow = StatRow(step: nat, time: real)

  /** The controller's clock and counters, with the world they drive. */
  datatype Sim = Sim(
    time: real,
    currentTimestep: real,
    oldTimestep: real,
    timestepNumber: nat,
    world: World,
    statistics: seq<StatRow>)

  /** Why an attempt was accepted: the reduction was within tolerance, or the
      step had shrunk below the floor and is kept anyway. */
  datatype Acceptance = WithinTolerance | StepTooSmall

  /** How the residual-driven loop ended: its condition did not hold, a
      pass left the step below the floor, a sweep threw NoConvergence, or the
      scripted outcomes ran out. */
  datatype LoopExit = Settled | HitFloor | Threw | ShrinkExhausted

  /** The end of the residual-driven loop, with the shrinks it performed. */
  datatype Shrunk = Shrunk(exit: LoopExit, sim: Sim, rest: seq<Outcome>, shrinks: nat)

  datatype Attempted =
    | Accepted(sim: Sim, rest: seq<Outcome>, reduction: real, how: Acceptance, shrinks: nat)
    | AttemptExhausted(sim: Sim)

  /** A completed time step: `solved` is the state in which the attempt was
      accepted, `increment` the step the clock finally advanced by, and
      `refined` whether the refinement pass changed the mesh. */
  datatype Stepped =
    | Stepped(sim: Sim, solved: Sim, rest: seq<Outcome>, increment: real, shrinks: nat, refined: bool)
    | StepExhausted(sim: Sim)

  /** MeshFileNotFound is the source's fatal error; ScriptExhausted means the
      scripted solver outcomes ran out before the run ended. */
  datatype Failure = MeshFileNotFound | ScriptExhausted

  datatype RunResult = Finished(sim: Sim) | Aborted(failure: Failure, sim: Sim)

  /** The step `c` after `k` tenfold shrinks. */
  function Shrink(c: real, k: nat): real
    decreases k
  {
    if k == 0 then c else Shrink(c / 10.0, k - 1)
  }

  function Pow10(k: nat): (r: real)
    ensures r >= 1.0
  {
    if k == 0 then 1.0 else 10.0 * Pow10(k - 1)
  }

  /** `k` tenfold shrinks divide the step by exactly 10^k. */
  lemma {:induction false} ShrinkIsPow10(c: real, k: nat)
    ensures Shrink(c, k) == c / Pow10(k)
    decreases k
  {
    if k > 0 {
      ShrinkIsPow10(c / 10.0, k - 1);
      var q := Pow10(k - 1);
      assert c / 10.0 / q == c / (10.0 * q);
    }
  }

  /** Shrinking `k` times and then `j` times is shrinking `k + j` times. */
  lemma {:induction false} ShrinkCompose(c: real, k: nat, j: nat)
    ensures Shrink(Shrink(c, k), j) == Shrink(c, k + j)
    decreases k
  {
    if k > 0 {
      ShrinkCompose(c / 10.0, k - 1, j);
    }
  }

  /** One more tenfold shrink. */
  lemma {:induction false} ShrinkOnce(c: real, k: nat)
    ensures Shrink(c, k) / 10.0 == Shrink(c, k + 1)
    decreases k
  {
    if k > 0 {
      ShrinkOnce(c / 10.0, k - 1);
    }
  }

  /** A positive step stays strictly positive however often it shrinks. */
  lemma {:induction false} ShrinkPositive(c: real, k: nat)
    requires c > 0.0
    ensures Shrink(c, k) > 0.0
    decreases k
  {
    if k > 0 {
      ShrinkPositive(c / 10.0, k - 1);
    }
  }

  /** The outcomes `k` complete sweeps consume. */
  function Sweeps(enabled: bool, k: int): int {
    if enabled then 2 * k else k
  }

  /** The parts of the state the attempt loop never writes: the step
      counter, the saved step size, the statistics table, the mesh and the
      point history. The trace only grows. */
  predicate Frame(s: Sim, r: Sim) {
    && r.oldTimestep == s.oldTimestep
    && r.timestepNumber == s.timestepNumber
    && r.statistics == s.statistics
    && r.world.cells == s.world.cells
    && r.world.historyEntries == s.world.historyEntries
    && s.world.trace <= r.world.trace
  }

  lemma FrameTrans(a: Sim, b: Sim, c: Sim)
    requires Frame(a, b) && Frame(b, c)
    ensures Frame(a, c)
  {
  }

  /** The start of the step, time - current_timestep, is the same in both. */
  predicate SameStart(s: Sim, r: Sim) {
    r.time - r.currentTimestep == s.time - s.currentTimestep
  }

  /** Neither snapshot moved, and a disabled phase field was not touched. */
  predicate KeepsSnapshots(enabled: bool, s: Sim, r: Sim) {
    && r.world.elasticity.snapshot == s.world.elasticity.snapshot
    && r.world.phasefield.snapshot == s.world.phasefield.snapshot
    && (!enabled ==> r.world.phasefield == s.world.phasefield)
  }

  /** The snapshots of `r` hold the solutions `start` had, and a disabled
      phase field is as it was in `start`. */
  predicate SnapshotsAreStart(enabled: bool, start: Sim, r: Sim) {
    && r.world.elasticity.snapshot == start.world.elasticity.solution
    && (enabled ==> r.world.phasefield.snapshot == start.world.phasefield.solution)
    && (!enabled ==> r.world.phasefield == start.world.phasefield)
  }

  /** A sweep's result lifted to the controller state. */
  datatype Pass = Pass(sim: Sim, swept: bool, reduction: real, rest: seq<Outcome>)

  /** staggered_scheme called from the driver: the clock is not touched, the
      snapshots are kept, and the outcomes consumed are one per field solved. */
  function SweepSim(enabled: bool, s: Sim, script: seq<Outcome>): (r: Pass)
    requires |script| >= Demand(enabled)
    ensures r.sim.time == s.time && r.sim.currentTimestep == s.currentTimestep
    ensures Frame(s, r.sim) && KeepsSnapshots(enabled, s, r.sim)
    ensures r.swept ==> |r.rest| == |script| - Demand(enabled)
    ensures !r.swept ==> |script| - Demand(enabled) <= |r.rest| < |script|
    ensures r.swept ==> r.sim.world.trace == s.world.trace + SweepEvents(enabled)
    ensures enabled && script[0].NoConvergence? ==> !r.swept && r.sim.world.elasticity == s.world.elasticity
  {
    var sw := StaggeredScheme(enabled, s.world, script);
    var reduction := if sw.Swept? then sw.reduction else 0.0;
    Pass(s.(world := sw.world), sw.Swept?, reduction, sw.rest)
  }

  /** One pass of the residual-driven loop up to its floor check: take the
      step back out of the clock, shrink it tenfold, advance the clock by the
      new step, roll the fields back and sweep again. */
  function ShrinkPass(p: Params, s: Sim, script: seq<Outcome>): (r: Pass)
    requires |script| >= Demand(p.enablePhaseField)
    ensures r.sim.currentTimestep == s.currentTimestep / 10.0
    ensures SameStart(s, r.sim)
    ensures Frame(s, r.sim) && KeepsSnapshots(p.enablePhaseField, s, r.sim)
    ensures r.swept ==> |r.rest| == |script| - Demand(p.enablePhaseField)
    ensures !r.swept ==> |script| - Demand(p.enablePhaseField) <= |r.rest| < |script|
  {
    var back := s.time - s.currentTimestep;
    var h := s.currentTimestep / 10.0;
    var s1 := s.(time := back + h, currentTimestep := h);
    var s2 := s1.(world := ReturnOldSolution(p.enablePhaseField, s1.world));
    var r := SweepSim(p.enablePhaseField, s2, script);
    FrameTrans(s, s2, r.sim);
    r
  }

  /** Every pass rolls the fields back before it re-runs the sweep: the
      returns come first, a converging sweep follows them, and when the phase
      field throws, elasticity is left at its snapshot. */
  lemma ShrinkPassRollsBack(p: Params, s: Sim, script: seq<Outcome>)
    requires |script| >= Demand(p.enablePhaseField)
    ensures var r := ShrinkPass(p, s, script);
      && s.world.trace + Each(Return, p.enablePhaseField) <= r.sim.world.trace
      && (r.swept ==>
            r.sim.world.trace == s.world.trace + Each(Return, p.enablePhaseField) + SweepEvents(p.enablePhaseField))
      && (p.enablePhaseField && script[0].NoConvergence? ==>
            r.sim.world.elasticity == Field(s.world.elasticity.snapshot, s.world.elasticity.snapshot))
  {
  }

  /** The residual-driven loop. `reduction` is the value the first sweep of
      the attempt returned; the sweep inside the loop has its value
      discarded, so the loop condition never changes once it holds, and the
      loop ends only when a pass leaves the step below the floor or a sweep
      throws. */
  function ShrinkLoop(p: Params, s: Sim, reduction: real, script: seq<Outcome>): (r: Shrunk)
    decreases |script|
    ensures !(reduction > p.upperNewtonRho) ==> r == Shrunk(Settled, s, script, 0)
    ensures reduction > p.upperNewtonRho ==> !r.exit.Settled?
    ensures reduction > p.upperNewtonRho && !r.exit.ShrinkExhausted? ==> r.shrinks >= 1
    // the start of the step never moves
    ensures SameStart(s, r.sim)
    ensures |r.rest| <= |script|
    ensures Frame(s, r.sim) && KeepsSnapshots(p.enablePhaseField, s, r.sim)
  {
    if !(reduction > p.upperNewtonRho) then Shrunk(Settled, s, script, 0)
    else if |script| < Demand(p.enablePhaseField) then Shrunk(ShrinkExhausted, s, script, 0)
    else
      var pass := ShrinkPass(p, s, script);
      if !pass.swept then Shrunk(Threw, pass.sim, pass.rest, 1)
      else if pass.sim.currentTimestep < StepFloor then Shrunk(HitFloor, pass.sim, pass.rest, 1)
      else
        var r := ShrinkLoop(p, pass.sim, reduction, pass.rest);
        FrameTrans(s, pass.sim, r.sim);
        r.(shrinks := r.shrinks + 1)
  }

  /** Every shrink of the residual-driven loop divides the step by exactly ten. */
  lemma {:induction false} ShrinkLoopDividesByTen(p: Params, s: Sim, reduction: real, script: seq<Outcome>)
    ensures var r := ShrinkLoop(p, s, reduction, script);
      r.sim.currentTimestep == Shrink(s.currentTimestep, r.shrinks)
    decreases |script|
  {
    if reduction > p.upperNewtonRho && |script| >= Demand(p.enablePhaseField) {
      var pass := ShrinkPass(p, s, script);
      if pass.swept && !(pass.sim.currentTimestep < StepFloor) {
        ShrinkLoopDividesByTen(p, pass.sim, reduction, pass.rest);
      }
    }
  }

  /** The loop leaves at the floor on the first shrink that takes the step
      below it, having run one complete sweep per shrink. */
  lemma {:induction false} ShrinkLoopStopsAtFloor(p: Params, s: Sim, reduction: real, script: seq<Outcome>)
    ensures var r := ShrinkLoop(p, s, reduction, script);
      r.exit.HitFloor? ==>
        && r.sim.currentTimestep < StepFloor
        && (r.shrinks == 1 || r.sim.currentTimestep * 10.0 >= StepFloor)
        && |script| - |r.rest| == Sweeps(p.enablePhaseField, r.shrinks)
    decreases |script|
  {
    if reduction > p.upperNewtonRho && |script| >= Demand(p.enablePhaseField) {
      var pass := ShrinkPass(p, s, script);
      if pass.swept && !(pass.sim.currentTimestep < StepFloor) {
        var r := ShrinkLoop(p, pass.sim, reduction, pass.rest);
        ShrinkLoopStopsAtFloor(p, pass.sim, reduction, pass.rest);
        if r.exit.HitFloor? && r.shrinks == 1 {
          ShrinkLoopDividesByTen(p, pass.sim, reduction, pass.rest);
        }
      }
    }
  }

  /** A throw ends the sweep of the last shrink early: every earlier shrink
      ran one complete sweep. */
  lemma {:induction false} ShrinkLoopThrowCount(p: Params, s: Sim, reduction: real, script: seq<Outcome>)
    ensures var r := ShrinkLoop(p, s, reduction, script);
      r.exit.Threw? ==>
        Sweeps(p.enablePhaseField, r.shrinks - 1) < |script| - |r.rest| <= Sweeps(p.enablePhaseField, r.shrinks)
    decreases |script|
  {
    if reduction > p.upperNewtonRho && |script| >= Demand(p.enablePhaseField) {
      var pass := ShrinkPass(p, s, script);
      if pass.swept && !(pass.sim.currentTimestep < StepFloor) {
        var inner := ShrinkLoop(p, pass.sim, reduction, pass.rest);
        assert ShrinkLoop(p, s, reduction, script) == inner.(shrinks := inner.shrinks + 1);
        ShrinkLoopThrowCount(p, pass.sim, reduction, pass.rest);
        if inner.exit.Threw? {
          assert Sweeps(p.enablePhaseField, inner.shrinks + 1)
            == Sweeps(p.enablePhaseField, inner.shrinks) + Demand(p.enablePhaseField);
        }
      }
    }
  }

  /** The calls of `k` complete passes of the residual-driven loop: each
      returns the old solutions and then sweeps. */
  function Passes(enabled: bool, k: nat): seq<Event> {
    if k == 0 then [] else Each(Return, enabled) + SweepEvents(enabled) + Passes(enabled, k - 1)
  }

  /** The trace `t` is `before` followed by exactly `k` complete passes. */
  predicate PassedAfter(t: seq<Event>, before: seq<Event>, enabled: bool, k: nat) {
    t == before + Passes(enabled, k)
  }

  /** One more complete pass in front of a loop that leaves at the floor. */
  lemma FloorStep(before: seq<Event>, mid: seq<Event>, after: seq<Event>, enabled: bool, k: nat)
    requires mid == before + Each(Return, enabled) + SweepEvents(enabled)
    requires PassedAfter(after, mid, enabled, k)
    ensures PassedAfter(after, before, enabled, k + 1)
  {
    assert Passes(enabled, k + 1) == Each(Return, enabled) + SweepEvents(enabled) + Passes(enabled, k);
  }

  /** Every pass of the residual-driven loop rolls the fields back before it
      sweeps: a loop that leaves at the floor issued exactly one return and
      one complete sweep per shrink. */
  lemma {:induction false} ShrinkLoopFloorTrace(p: Params, s: Sim, reduction: real, script: seq<Outcome>)
    ensures var r := ShrinkLoop(p, s, reduction, script);
      r.exit.HitFloor? ==> PassedAfter(r.sim.world.trace, s.world.trace, p.enablePhaseField, r.shrinks)
    decreases |script|
  {
    if reduction > p.upperNewtonRho && |script| >= Demand(p.enablePhaseField) {
      var block := Each(Return, p.enablePhaseField) + SweepEvents(p.enablePhaseField);
      var pass := ShrinkPass(p, s, script);
      ShrinkPassRollsBack(p, s, script);
      if pass.swept && pass.sim.currentTimestep < StepFloor {
        assert Passes(p.enablePhaseField, 1) == block;
      } else if pass.swept {
        var inner := ShrinkLoop(p, pass.sim, reduction, pass.rest);
        assert ShrinkLoop(p, s, reduction, script) == inner.(shrinks := inner.shrinks + 1);
        ShrinkLoopFloorTrace(p, pass.sim, reduction, pass.rest);
        if inner.exit.HitFloor? {
          FloorStep(s.world.trace, pass.sim.world.trace, inner.sim.world.trace, p.enablePhaseField, inner.shrinks);
        }
      }
    }
  }

  /** The trace `t` begins with `k` complete passes after `before`, then the
      returns of one more pass. */
  predicate ThrewAfter(t: seq<Event>, before: seq<Event>, enabled: bool, k: nat) {
    before + Passes(enabled, k) + Each(Return, enabled) <= t
  }

  /** One more complete pass in front of a throwing loop's trace. */
  lemma ThrowStep(before: seq<Event>, mid: seq<Event>, after: seq<Event>, enabled: bool, k: nat)
    requires k >= 1
    requires mid == before + Each(Return, enabled) + SweepEvents(enabled)
    requires ThrewAfter(after, mid, enabled, k - 1)
    ensures ThrewAfter(after, before, enabled, k)
  {
    var block := Each(Return, enabled) + SweepEvents(enabled);
    assert Passes(enabled, k) == block + Passes(enabled, k - 1);
    assert before + Passes(enabled, k) + Each(Return, enabled)
      == mid + Passes(enabled, k - 1) + Each(Return, enabled);
  }

  /** A loop that throws issued a return and a complete sweep for every
      earlier shrink, and a return before its last, partial sweep. */
  lemma {:induction false} ShrinkLoopThrowTrace(p: Params, s: Sim, reduction: real, script: seq<Outcome>)
    ensures var r := ShrinkLoop(p, s, reduction, script);
      r.exit.Threw? ==>
        && r.shrinks >= 1
        && ThrewAfter(r.sim.world.trace, s.world.trace, p.enablePhaseField, r.shrinks - 1)
    decreases |script|
  {
    if reduction > p.upperNewtonRho && |script| >= Demand(p.enablePhaseField) {
      var pass := ShrinkPass(p, s, script);
      ShrinkPassRollsBack(p, s, script);
      if !pass.swept {
        assert s.world.trace + Passes(p.enablePhaseField, 0) == s.world.trace;
      } else if !(pass.sim.currentTimestep < StepFloor) {
        var inner := ShrinkLoop(p, pass.sim, reduction, pass.rest);
        assert ShrinkLoop(p, s, reduction, script) == inner.(shrinks := inner.shrinks + 1);
        ShrinkLoopThrowTrace(p, pass.sim, reduction, pass.rest);
        if inner.exit.Threw? {
          ThrowStep(s.world.trace, pass.sim.world.trace, inner.sim.world.trace, p.enablePhaseField, inner.shrinks);
        }
      }
    }
  }

  /** True when every scripted solve converges. */
  predicate AllConverge(script: seq<Outcome>) {
    forall k :: 0 <= k < |script| ==> script[k].Converged?
  }

  /** Because the re-run sweep's reduction is discarded, a loop entered with
      a reduction above the tolerance never settles, however well the
      re-runs converge: it either takes the step below the floor or runs out
      of scripted solves. */
  lemma {:induction false} ShrinkLoopIgnoresReruns(p: Params, s: Sim, reduction: real, script: seq<Outcome>)
    requires reduction > p.upperNewtonRho
    requires AllConverge(script)
    ensures var r := ShrinkLoop(p, s, reduction, script);
      r.exit.HitFloor? || r.exit.ShrinkExhausted?
    decreases |script|
  {
    var d := Demand(p.enablePhaseField);
    if |script| >= d {
      var back := s.time - s.currentTimestep;
      var h := s.currentTimestep / 10.0;
      var s1 := s.(time := back + h, currentTimestep := h);
      var s2 := s1.(world := ReturnOldSolution(p.enablePhaseField, s1.world));
      var sw := StaggeredScheme(p.enablePhaseField, s2.world, script);
      assert sw.Swept? by {
        assert forall k :: 0 <= k < d ==> script[k].Converged?;
      }
      var pass := ShrinkPass(p, s, script);
      assert pass.swept && pass.rest == script[d..];
      if !(pass.sim.currentTimestep < StepFloor) {
        assert AllConverge(pass.rest) by {
          forall k | 0 <= k < |pass.rest| ensures pass.rest[k].Converged? {
            assert pass.rest[k] == script[d + k];
          }
        }
        ShrinkLoopIgnoresReruns(p, pass.sim, reduction, pass.rest);
      }
    }
  }

  /** The NoConvergence handler: take the step back out of the clock, roll
      the fields back to their snapshots, shrink the step tenfold and advance
      the clock by the new step. */
  function Rollback(enabled: bool, s: Sim): (r: Sim)
    ensures r.currentTimestep == s.currentTimestep / 10.0
    ensures SameStart(s, r)
    ensures r.world.elasticity == Field(s.world.elasticity.snapshot, s.world.elasticity.snapshot)
    ensures enabled ==> r.world.phasefield == Field(s.world.phasefield.snapshot, s.world.phasefield.snapshot)
    ensures !enabled ==> r.world.phasefield == s.world.phasefield
    ensures r.world.trace == s.world.trace + Each(Return, enabled)
    ensures Frame(s, r)
  {
    var back := s.time - s.currentTimestep;
    var w := ReturnOldSolution(enabled, s.world);
    var h := s.currentTimestep / 10.0;
    s.(time := back + h, currentTimestep := h, world := w)
  }

  /** The try block of the attempt loop: the first sweep, then, if it
      converged, the residual-driven loop. A first sweep that throws is a
      loop that ended in a throw before any shrink. */
  datatype Tried = Tried(loop: Shrunk, reduction: real)

  function TrySweep(p: Params, s: Sim, script: seq<Outcome>): (r: Tried)
    requires |script| >= Demand(p.enablePhaseField)
    ensures |r.loop.rest| < |script|
    ensures SameStart(s, r.loop.sim)
    ensures Frame(s, r.loop.sim) && KeepsSnapshots(p.enablePhaseField, s, r.loop.sim)
    ensures r.loop.sim.currentTimestep == Shrink(s.currentTimestep, r.loop.shrinks)
    ensures r.loop.exit.Settled? ==> !(r.reduction > p.upperNewtonRho) && r.loop.shrinks == 0
    ensures r.loop.exit.HitFloor? ==> r.reduction > p.upperNewtonRho && r.loop.sim.currentTimestep < StepFloor
  {
    var first := SweepSim(p.enablePhaseField, s, script);
    if !first.swept then Tried(Shrunk(Threw, first.sim, first.rest, 0), 0.0)
    else
      ShrinkLoopDividesByTen(p, first.sim, first.reduction, first.rest);
      ShrinkLoopStopsAtFloor(p, first.sim, first.reduction, first.rest);
      Tried(ShrinkLoop(p, first.sim, first.reduction, first.rest), first.reduction)
  }

  /** The state after record_old_solution, which opens every attempt. */
  function Recorded(p: Params, s: Sim): (r: Sim)
    ensures Frame(s, r)
    ensures r.time == s.time && r.currentTimestep == s.currentTimestep
    ensures r.world.trace == s.world.trace + Each(Record, p.enablePhaseField)
  {
    s.(world := RecordOldSolution(p.enablePhaseField, s.world))
  }

  /** The attempt loop of one time step: record the old solutions and run
      the try block. `done` counts the shrinks this time step has already
      performed; an accepted attempt reports the total and has consumed at
      least one outcome. */
  function Attempt(p: Params, s: Sim, script: seq<Outcome>, done: nat): (r: Attempted)
    decreases |script|, 0
    ensures r.Accepted? ==> |r.rest| < |script| && r.shrinks >= done
  {
    if |script| < Demand(p.enablePhaseField) then AttemptExhausted(Recorded(p, s))
    else Conclude(p, TrySweep(p, Recorded(p, s), script), done)
  }

  /** How the try block ended decides the attempt: accepted within
      tolerance, accepted at the floor, or caught and retried. */
  function Conclude(p: Params, t: Tried, done: nat): (r: Attempted)
    decreases |t.loop.rest|, 2
    ensures r.Accepted? ==> |r.rest| <= |t.loop.rest| && r.shrinks >= done
  {
    var l := t.loop;
    match l.exit
    case Settled => Accepted(l.sim, l.rest, t.reduction, WithinTolerance, done + l.shrinks)
    case HitFloor => Accepted(l.sim, l.rest, t.reduction, StepTooSmall, done + l.shrinks)
    case ShrinkExhausted => AttemptExhausted(l.sim)
    case Threw => Retry(p, l.sim, l.rest, done + l.shrinks)
  }

  /** The catch clause, which shrinks once more, followed by the next
      attempt on the state `failed` that the throwing sweep left behind. */
  function Retry(p: Params, failed: Sim, script: seq<Outcome>, done: nat): (r: Attempted)
    decreases |script|, 1
    ensures r.Accepted? ==> |r.rest| < |script| && r.shrinks > done
  {
    Attempt(p, Rollback(p.enablePhaseField, failed), script, done + 1)
  }

  /** Both loops take the step back out of the clock before advancing it by
      the shrunk step, so the start of the step never moves. */
  lemma {:induction false} AttemptKeepsStart(p: Params, s: Sim, script: seq<Outcome>, done: nat)
    ensures SameStart(s, Attempt(p, s, script, done).sim)
    decreases |script|, 0
  {
    if |script| >= Demand(p.enablePhaseField) {
      ConcludeKeepsStart(p, TrySweep(p, Recorded(p, s), script), done);
    }
  }

  lemma {:induction false} ConcludeKeepsStart(p: Params, t: Tried, done: nat)
    ensures SameStart(t.loop.sim, Conclude(p, t, done).sim)
    decreases |t.loop.rest|, 2
  {
    var l := t.loop;
    if l.exit.Threw? {
      AttemptKeepsStart(p, Rollback(p.enablePhaseField, l.sim), l.rest, done + l.shrinks + 1);
    }
  }

  /** Every shrink of an attempt, in either loop, divides the step by ten:
      if the attempt starts `done` shrinks away from `c0`, the accepted step
      is `c0` shrunk by the total count. */
  lemma {:induction false} AttemptClock(p: Params, s: Sim, script: seq<Outcome>, done: nat, c0: real)
    requires s.currentTimestep == Shrink(c0, done)
    ensures var r := Attempt(p, s, script, done);
      r.Accepted? ==> r.sim.currentTimestep == Shrink(c0, r.shrinks)
    decreases |script|, 0
  {
    if |script| >= Demand(p.enablePhaseField) {
      var t := TrySweep(p, Recorded(p, s), script);
      ShrinkCompose(c0, done, t.loop.shrinks);
      ConcludeClock(p, t, done, c0);
    }
  }

  lemma {:induction false} ConcludeClock(p: Params, t: Tried, done: nat, c0: real)
    requires t.loop.sim.currentTimestep == Shrink(c0, done + t.loop.shrinks)
    ensures var r := Conclude(p, t, done);
      r.Accepted? ==> r.sim.currentTimestep == Shrink(c0, r.shrinks)
    decreases |t.loop.rest|, 2
  {
    var l := t.loop;
    if l.exit.Threw? {
      var n := done + l.shrinks;
      var back := Rollback(p.enablePhaseField, l.sim);
      ShrinkOnce(c0, n);
      AttemptClock(p, back, l.rest, n + 1, c0);
    }
  }

  /** An attempt is accepted within tolerance exactly when its first sweep's
      reduction met the threshold; otherwise it is accepted because the step
      fell below the floor. */
  lemma {:induction false} AttemptVerdict(p: Params, s: Sim, script: seq<Outcome>, done: nat)
    ensures var r := Attempt(p, s, script, done);
      && (r.Accepted? ==> (r.how == WithinTolerance <==> !(r.reduction > p.upperNewtonRho)))
      && (r.Accepted? && r.how == StepTooSmall ==> r.sim.currentTimestep < StepFloor)
    decreases |script|, 0
  {
    if |script| >= Demand(p.enablePhaseField) {
      ConcludeVerdict(p, TrySweep(p, Recorded(p, s), script), done);
    }
  }

  lemma {:induction false} ConcludeVerdict(p: Params, t: Tried, done: nat)
    requires t.loop.exit.Settled? ==> !(t.reduction > p.upperNewtonRho)
    requires t.loop.exit.HitFloor? ==> t.reduction > p.upperNewtonRho && t.loop.sim.currentTimestep < StepFloor
    ensures var r := Conclude(p, t, done);
      && (r.Accepted? ==> (r.how == WithinTolerance <==> !(r.reduction > p.upperNewtonRho)))
      && (r.Accepted? && r.how == StepTooSmall ==> r.sim.currentTimestep < StepFloor)
    decreases |t.loop.rest|, 2
  {
    var l := t.loop;
    if l.exit.Threw? {
      AttemptVerdict(p, Rollback(p.enablePhaseField, l.sim), l.rest, done + l.shrinks + 1);
    }
  }

  /** Throughout an attempt the snapshots hold the solutions the step started
      from: the attempt records them first, and nothing but the next record
      writes them again. */
  lemma {:induction false} AttemptSnapshots(p: Params, s: Sim, script: seq<Outcome>, done: nat)
    ensures SnapshotsAreStart(p.enablePhaseField, s, Attempt(p, s, script, done).sim)
    decreases |script|, 0
  {
    if |script| >= Demand(p.enablePhaseField) {
      ConcludeSnapshots(p, s, TrySweep(p, Recorded(p, s), script), done);
    }
  }

  lemma {:induction false} ConcludeSnapshots(p: Params, start: Sim, t: Tried, done: nat)
    requires SnapshotsAreStart(p.enablePhaseField, start, t.loop.sim)
    ensures SnapshotsAreStart(p.enablePhaseField, start, Conclude(p, t, done).sim)
    decreases |t.loop.rest|, 2
  {
    var l := t.loop;
    if l.exit.Threw? {
      AttemptSnapshots(p, Rollback(p.enablePhaseField, l.sim), l.rest, done + l.shrinks + 1);
    }
  }

  /** An attempt leaves the counter, the saved step, the statistics, the mesh
      and the point history alone. */
  lemma {:induction false} AttemptFrame(p: Params, s: Sim, script: seq<Outcome>, done: nat)
    ensures Frame(s, Attempt(p, s, script, done).sim)
    decreases |script|, 0
  {
    if |script| >= Demand(p.enablePhaseField) {
      var s1 := Recorded(p, s);
      var t := TrySweep(p, s1, script);
      ConcludeFrame(p, t, done);
      FrameTrans(s, s1, t.loop.sim);
      FrameTrans(s, t.loop.sim, Conclude(p, t, done).sim);
    }
  }

  lemma {:induction false} ConcludeFrame(p: Params, t: Tried, done: nat)
    ensures Frame(t.loop.sim, Conclude(p, t, done).sim)
    decreases |t.loop.rest|, 2
  {
    var l := t.loop;
    if l.exit.Threw? {
      var back := Rollback(p.enablePhaseField, l.sim);
      var n := done + l.shrinks + 1;
      AttemptFrame(p, back, l.rest, n);
      FrameTrans(l.sim, back, Attempt(p, back, l.rest, n).sim);
    }
  }

  /** Every attempt's trace starts with the record of the old solutions. */
  lemma AttemptRecordsFirst(p: Params, s: Sim, script: seq<Outcome>, done: nat)
    ensures s.world.trace + Each(Record, p.enablePhaseField) <= Attempt(p, s, script, done).sim.world.trace
  {
    if |script| >= Demand(p.enablePhaseField) {
      var s1 := Recorded(p, s);
      var t := TrySweep(p, s1, script);
      ConcludeFrame(p, t, done);
      FrameTrans(s1, t.loop.sim, Conclude(p, t, done).sim);
    }
  }

  /** The catch clause restores the old solutions before anything else, and
      the next attempt records them again before it solves: the retry starts
      from exactly the snapshot the failed attempt took. */
  lemma RetryRestoresFirst(p: Params, failed: Sim, script: seq<Outcome>, done: nat)
    ensures var r := Retry(p, failed, script, done);
      failed.world.trace + Each(Return, p.enablePhaseField) + Each(Record, p.enablePhaseField) <= r.sim.world.trace
    ensures var r := Retry(p, failed, script, done);
      && r.sim.world.elasticity.snapshot == failed.world.elasticity.snapshot
      && (p.enablePhaseField ==> r.sim.world.phasefield.snapshot == failed.world.phasefield.snapshot)
  {
    var back := Rollback(p.enablePhaseField, failed);
    AttemptRecordsFirst(p, back, script, done + 1);
    AttemptSnapshots(p, back, script, done + 1);
  }

  /** The switch to the second step size applies after `switchTimestep`
      steps, and only when a switch step is configured at all. */
  predicate Switched(p: Params, n: nat) {
    n > p.switchTimestep && p.switchTimestep > 0
  }

  /** The step size a time step starts with, saved for the restore. */
  function StepSize(p: Params, s: Sim): real {
    if Switched(p, s.timestepNumber) then p.timestepSize2 else s.currentTimestep
  }

  /** The head of a time step: choose the step size, save it as the old
      step, and advance the clock by it. */
  function Advance(p: Params, s: Sim): (r: Sim)
    ensures r.currentTimestep == StepSize(p, s) && r.oldTimestep == StepSize(p, s)
    ensures r.time == s.time + StepSize(p, s)
    ensures r.timestepNumber == s.timestepNumber && r.statistics == s.statistics && r.world == s.world
  {
    var dt := StepSize(p, s);
    s.(currentTimestep := dt, oldTimestep := dt, time := s.time + dt)
  }

  /** output_results as far as the statistics table goes: one row holding
      the current step number and time, then the per-field output. */
  function OutputResults(enabled: bool, s: Sim): (r: Sim)
    ensures r.statistics == s.statistics + [StatRow(s.timestepNumber, s.time)]
    ensures r.world.trace == s.world.trace + Each(Output, enabled)
    ensures r.(statistics := s.statistics, world := s.world) == s
    ensures r.world.(trace := s.world.trace) == s.world
  {
    s.(statistics := s.statistics + [StatRow(s.timestepNumber, s.time)],
       world := RespectiveOutputResults(enabled, s.world))
  }

  /** One pass of the time-step loop body: advance, attempt until accepted,
      restore the saved step size, write the output, count the step and run
      the refinement pass. */
  function TimeStep(p: Params, s: Sim, script: seq<Outcome>, o: Refinement.Transfer): (r: Stepped)
    ensures r.Stepped? ==> |r.rest| < |script|
    // the saved step size is restored, whatever the retries did
    ensures r.Stepped? ==> r.sim.currentTimestep == StepSize(p, s) && r.sim.oldTimestep == StepSize(p, s)
    // the clock advanced by the final, shrunk step
    ensures r.Stepped? ==> r.increment == Shrink(StepSize(p, s), r.shrinks)
    ensures r.Stepped? ==> r.sim.time == s.time + r.increment
    // one statistics row per step, then the counter moves on by one
    ensures r.Stepped? ==> r.sim.timestepNumber == s.timestepNumber + 1
    ensures r.Stepped? ==> r.sim.statistics == s.statistics + [StatRow(s.timestepNumber, r.sim.time)]
    // the solve records first; output once, then refinement
    ensures r.Stepped? ==> s.world.trace + Each(Record, p.enablePhaseField) <= r.solved.world.trace
    ensures r.Stepped? ==>
      r.sim.world.trace == r.solved.world.trace + Each(Output, p.enablePhaseField)
        + (if r.refined then Refinement.TransferProtocol(p.enablePhaseField) else [])
    ensures r.Stepped? ==> (r.refined <==> Refinement.Wanted(p, s.world.cells, r.solved.world.phasefield.solution, o))
    // the trace only grows, also when the outcomes run out
    ensures s.world.trace <= r.sim.world.trace
  {
    var a := Advance(p, s);
    var at := Attempt(p, a, script, 0);
    match at
    case AttemptExhausted(sim) =>
      AttemptFrame(p, a, script, 0);
      StepExhausted(sim)
    case Accepted(solved, rest, _, _, k) =>
      AttemptKeepsStart(p, a, script, 0);
      AttemptClock(p, a, script, 0, a.currentTimestep);
      AttemptFrame(p, a, script, 0);
      AttemptRecordsFirst(p, a, script, 0);
      var restored := solved.(currentTimestep := a.currentTimestep);
      var out := OutputResults(p.enablePhaseField, restored);
      var counted := out.(timestepNumber := out.timestepNumber + 1);
      var g := Refinement.RefineGrid(p, counted.world, o);
      Stepped(counted.(world := g.world), solved, rest, solved.currentTimestep, k, g.executed)
  }

  /** The do-while over time steps: the body runs at least once, and the
      loop goes on while the counter has not passed `maxNoTimesteps`.
      `transfers(n)` is what the refinement pass of step `n` is given. */
  function Loop(p: Params, s: Sim, script: seq<Outcome>, transfers: nat -> Refinement.Transfer): (r: RunResult)
    decreases |script|
    ensures r.Finished? ==> r.sim.timestepNumber > p.maxNoTimesteps
    ensures r.Aborted? ==> r.failure == ScriptExhausted
  {
    match TimeStep(p, s, script, transfers(s.timestepNumber))
    case StepExhausted(sim) => Aborted(ScriptExhausted, sim)
    case Stepped(next, _, rest, _, _, _) =>
      if next.timestepNumber <= p.maxNoTimesteps then Loop(p, next, rest, transfers) else Finished(next)
  }

  /** A finished run stops on the first count past `maxNoTimesteps`, and
      has written one statistics row per step, numbered consecutively from
      the count it started with. */
  lemma {:induction false} LoopCounts(p: Params, s: Sim, script: seq<Outcome>, transfers: nat -> Refinement.Transfer)
    ensures var r := Loop(p, s, script, transfers);
      r.Finished? ==>
        && r.sim.timestepNumber == (if s.timestepNumber > p.maxNoTimesteps then s.timestepNumber + 1 else p.maxNoTimesteps + 1)
        && |r.sim.statistics| == |s.statistics| + (r.sim.timestepNumber - s.timestepNumber)
        && r.sim.statistics[..|s.statistics|] == s.statistics
        && (forall i :: |s.statistics| <= i < |r.sim.statistics| ==>
              r.sim.statistics[i].step == s.timestepNumber + (i - |s.statistics|))
    decreases |script|
  {
    var t := TimeStep(p, s, script, transfers(s.timestepNumber));
    if t.Stepped? && t.sim.timestepNumber <= p.maxNoTimesteps {
      LoopCounts(p, t.sim, t.rest, transfers);
      var r := Loop(p, t.sim, t.rest, transfers);
      assert Loop(p, s, script, transfers) == r;
      if r.Finished? {
        var n := |s.statistics|;
        assert t.sim.statistics == s.statistics + [StatRow(s.timestepNumber, t.sim.time)];
        assert r.sim.statistics[..n] == r.sim.statistics[..n + 1][..n];
        forall i | n <= i < |r.sim.statistics|
          ensures r.sim.statistics[i].step == s.timestepNumber + (i - n)
        {
          if i == n {
            assert r.sim.statistics[..n + 1][n] == t.sim.statistics[n];
          }
        }
      }
    }
  }

  /** With positive step sizes an accepted step moves the clock forward and
      leaves a positive step size for the next one. */
  lemma StepMovesForward(p: Params, s: Sim, script: seq<Outcome>, o: Refinement.Transfer)
    requires s.currentTimestep > 0.0
    requires p.switchTimestep > 0 ==> p.timestepSize2 > 0.0
    ensures var t := TimeStep(p, s, script, o);
      t.Stepped? ==> t.sim.time > s.time && t.sim.currentTimestep > 0.0
  {
    var t := TimeStep(p, s, script, o);
    if t.Stepped? {
      ShrinkPositive(StepSize(p, s), t.shrinks);
    }
  }

  /** From row `n` on, every row's time is after `t`, and times strictly
      increase down the table. */
  predicate Rising(rows: seq<StatRow>, n: nat, t: real) {
    && n <= |rows|
    && (forall i :: n <= i < |rows| ==> rows[i].time > t)
    && (forall i, j :: n <= i < j < |rows| ==> rows[i].time < rows[j].time)
  }

  lemma RisingFrom(rows: seq<StatRow>, n: nat, t: real)
    requires n < |rows| && rows[n].time > t && Rising(rows, n + 1, rows[n].time)
    ensures Rising(rows, n, t)
  {
  }

  /** With positive step sizes every accepted step moves the clock forward,
      so the statistics rows a finished run writes have strictly increasing
      times, all after the time the run started from. */
  lemma {:induction false} LoopTimeIncreases(p: Params, s: Sim, script: seq<Outcome>, transfers: nat -> Refinement.Transfer)
    requires s.currentTimestep > 0.0
    requires p.switchTimestep > 0 ==> p.timestepSize2 > 0.0
    ensures var r := Loop(p, s, script, transfers);
      r.Finished? ==> Rising(r.sim.statistics, |s.statistics|, s.time)
    decreases |script|
  {
    var t := TimeStep(p, s, script, transfers(s.timestepNumber));
    if t.Stepped? {
      StepMovesForward(p, s, script, transfers(s.timestepNumber));
      var n := |s.statistics|;
      if t.sim.timestepNumber <= p.maxNoTimesteps {
        LoopTimeIncreases(p, t.sim, t.rest, transfers);
        LoopKeepsRows(p, t.sim, t.rest, transfers);
        var r := Loop(p, t.sim, t.rest, transfers);
        if r.Finished? {
          assert r.sim.statistics[n] == t.sim.statistics[n];
          RisingFrom(r.sim.statistics, n, s.time);
        }
      } else {
        RisingFrom(t.sim.statistics, n, s.time);
      }
    }
  }

  /** The statistics rows written so far are never rewritten. */
  lemma {:induction false} LoopKeepsRows(p: Params, s: Sim, script: seq<Outcome>, transfers: nat -> Refinement.Transfer)
    ensures var r := Loop(p, s, script, transfers);
      r.Finished? ==> s.statistics <= r.sim.statistics
    decreases |script|
  {
    var t := TimeStep(p, s, script, transfers(s.timestepNumber));
    if t.Stepped? && t.sim.timestepNumber <= p.maxNoTimesteps {
      LoopKeepsRows(p, t.sim, t.rest, transfers);
    }
  }

  /** The trace of a run only grows. */
  lemma {:induction false} LoopExtendsTrace(p: Params, s: Sim, script: seq<Outcome>, transfers: nat -> Refinement.Transfer)
    ensures s.world.trace <= Loop(p, s, script, transfers).sim.world.trace
    decreases |script|
  {
    var t := TimeStep(p, s, script, transfers(s.timestepNumber));
    if t.Stepped? && t.sim.timestepNumber <= p.maxNoTimesteps {
      LoopExtendsTrace(p, t.sim, t.rest, transfers);
    }
  }

  /** The state the time-step loop starts from: the mesh read, the systems
      set up, and both step sizes set to the configured first step. */
  function Start(p: Params, s0: Sim, cells: seq<Cell>): (s: Sim)
    ensures s.currentTimestep == p.timestep && s.oldTimestep == p.timestep
    ensures s.time == s0.time && s.timestepNumber == s0.timestepNumber && s.statistics == s0.statistics
    ensures s.world.cells == cells
    ensures s.world.trace == s0.world.trace + Each(Setup, p.enablePhaseField)
  {
    var w := SetupSystem(p.enablePhaseField, s0.world.(cells := cells));
    s0.(world := w, currentTimestep := p.timestep, oldTimestep := p.timestep)
  }

  /** run: a missing mesh file is fatal before anything is set up; otherwise
      the systems are set up once and the time-step loop runs to the end. */
  function Run(p: Params, meshFile: Option<seq<Cell>>, s0: Sim, script: seq<Outcome>,
               transfers: nat -> Refinement.Transfer): (r: RunResult)
    ensures meshFile.None? <==> r == Aborted(MeshFileNotFound, s0)
    ensures meshFile.Some? ==> s0.world.trace + Each(Setup, p.enablePhaseField) <= r.sim.world.trace
    ensures r.Finished? ==>
      r.sim.timestepNumber == (if s0.timestepNumber > p.maxNoTimesteps then s0.timestepNumber + 1 else p.maxNoTimesteps + 1)
    ensures r.Finished? && p.timestep > 0.0 && (p.switchTimestep > 0 ==> p.timestepSize2 > 0.0) ==>
      Rising(r.sim.statistics, |s0.statistics|, s0.time)
  {
    match meshFile
    case None => Aborted(MeshFileNotFound, s0)
    case Some(cells) =>
      var s := Start(p, s0, cells);
      LoopExtendsTrace(p, s, script, transfers);
      LoopCounts(p, s, script, transfers);
      if p.timestep > 0.0 && (p.switchTimestep > 0 ==> p.timestepSize2 > 0.0) then
        LoopTimeIncreases(p, s, script, transfers);
        Loop(p, s, script, transfers)
      else
        Loop(p, s, script, transfers)
  }
}
