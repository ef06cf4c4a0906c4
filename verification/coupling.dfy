/** The phase-field-fracture coupling: field setup, the snapshot/rollback pair
    and the single-pass staggered sweep, each gated on whether the phase field
    is enabled. A field's nonlinear solve is an oracle: every `update()` call
    consumes the next entry of a scripted sequence of outcomes. */
module Coupling {
  import opened State

  /** What one field's nonlinear solve reports. The solve leaves a solution
      vector behind either way; after a failure it is whatever the diverged
      iteration produced. */
  datatype Outcome =
    | Converged(reduction: real, solution: seq<real>)
    | NoConvergence(solution: seq<real>)

  /** The result of one staggered sweep, with the outcomes not yet consumed. */
  datatype Sweep =
    | Swept(world: World, reduction: real, rest: seq<Outcome>)
    | Diverged(world: World, rest: seq<Outcome>)

  /** The most outcomes one sweep consumes: one per solved field. */
  function Demand(enabled: bool): nat {
    if enabled then 2 else 1
  }

  /** The calls a sweep that converges issues, in order. */
  function SweepEvents(enabled: bool): seq<Event> {
    if enabled then
      [On(Update, PhaseField), FinalizePointHistory, EnforcePhaseFieldLimitation,
       On(Update, Elasticity), FinalizePointHistory]
    else
      [On(Update, Elasticity), FinalizePointHistory]
  }

  /** setup_system: elasticity always, the phase field only when enabled. */
  function SetupSystem(enabled: bool, w: World): (r: World)
    ensures r.(trace := w.trace) == w
    ensures r.trace == w.trace + [On(Setup, Elasticity)] + (if enabled then [On(Setup, PhaseField)] else [])
  {
    w.Log(Each(Setup, enabled))
  }

  function RecordField(w: World, f: FieldId): World {
    w.Put(f, Field(w.Get(f).solution, w.Get(f).solution)).Log([On(Record, f)])
  }

  function ReturnField(w: World, f: FieldId): World {
    w.Put(f, w.Get(f).(solution := w.Get(f).snapshot)).Log([On(Return, f)])
  }

  /** record_old_solution: snapshot the solution of every gated field. */
  function RecordOldSolution(enabled: bool, w: World): (r: World)
    ensures r.elasticity == Field(w.elasticity.solution, w.elasticity.solution)
    ensures enabled ==> r.phasefield == Field(w.phasefield.solution, w.phasefield.solution)
    ensures !enabled ==> r.phasefield == w.phasefield
    ensures r.cells == w.cells && r.historyEntries == w.historyEntries
    ensures r.trace == w.trace + Each(Record, enabled)
  {
    var w1 := RecordField(w, Elasticity);
    if enabled then RecordField(w1, PhaseField) else w1
  }

  /** return_old_solution: put every gated field back to its snapshot. */
  function ReturnOldSolution(enabled: bool, w: World): (r: World)
    ensures r.elasticity == Field(w.elasticity.snapshot, w.elasticity.snapshot)
    ensures enabled ==> r.phasefield == Field(w.phasefield.snapshot, w.phasefield.snapshot)
    ensures !enabled ==> r.phasefield == w.phasefield
    ensures r.cells == w.cells && r.historyEntries == w.historyEntries
    ensures r.trace == w.trace + Each(Return, enabled)
  {
    var w1 := ReturnField(w, Elasticity);
    if enabled then ReturnField(w1, PhaseField) else w1
  }

  /** A record followed, after any change to the solutions that leaves the
      snapshots alone, by a return restores every gated solution exactly. */
  lemma RecordThenReturnRestores(enabled: bool, w: World, v: World)
    requires v.elasticity.snapshot == RecordOldSolution(enabled, w).elasticity.snapshot
    requires enabled ==> v.phasefield.snapshot == RecordOldSolution(enabled, w).phasefield.snapshot
    ensures ReturnOldSolution(enabled, v).elasticity.solution == w.elasticity.solution
    ensures enabled ==> ReturnOldSolution(enabled, v).phasefield.solution == w.phasefield.solution
  {
  }

  /** One field's `update()`: the field takes the solution its solve left behind. */
  function UpdateField(w: World, f: FieldId, o: Outcome): World {
    w.Put(f, w.Get(f).(solution := o.solution)).Log([On(Update, f)])
  }

  /** staggered_scheme: with the phase field enabled, solve the phase field,
      finalise point history, enforce the phase-field limitation, solve
      elasticity, finalise point history, and report the larger of the two
      reductions; otherwise solve elasticity alone and report its reduction.
      A NoConvergence outcome aborts the sweep at the failing update. */
  function StaggeredScheme(enabled: bool, w: World, script: seq<Outcome>): (r: Sweep)
    requires |script| >= Demand(enabled)
    // snapshots, mesh and history are never touched by a sweep
    ensures r.world.elasticity.snapshot == w.elasticity.snapshot
    ensures r.world.phasefield.snapshot == w.phasefield.snapshot
    ensures r.world.cells == w.cells && r.world.historyEntries == w.historyEntries
    ensures !enabled ==> r.world.phasefield == w.phasefield
    // one outcome per field solved, and the sweep converges iff every solve did
    ensures r.Swept? <==> forall k :: 0 <= k < Demand(enabled) ==> script[k].Converged?
    ensures r.Swept? ==> r.rest == script[Demand(enabled)..]
    ensures r.Diverged? ==> 0 < |script| - |r.rest| <= Demand(enabled)
    ensures r.Diverged? ==> r.rest == script[|script| - |r.rest|..]
    ensures r.Diverged? ==> script[|script| - |r.rest| - 1].NoConvergence?
    // call order
    ensures r.Swept? ==> r.world.trace == w.trace + SweepEvents(enabled)
    ensures r.Diverged? ==> r.world.trace == w.trace + SweepEvents(enabled)[..3 * (|script| - |r.rest|) - 2]
    // combined reduction
    ensures r.Swept? && enabled ==>
      && r.reduction >= script[0].reduction && r.reduction >= script[1].reduction
      && (r.reduction == script[0].reduction || r.reduction == script[1].reduction)
    ensures r.Swept? && !enabled ==> r.reduction == script[0].reduction
    // solutions
    ensures r.Swept? && enabled ==>
      r.world.phasefield.solution == script[0].solution && r.world.elasticity.solution == script[1].solution
    ensures r.Swept? && !enabled ==> r.world.elasticity.solution == script[0].solution
    ensures enabled && script[0].NoConvergence? ==> r.world.elasticity == w.elasticity
  {
    if enabled then
      var pf := script[0];
      var w1 := UpdateField(w, PhaseField, pf);
      if pf.NoConvergence? then Diverged(w1, script[1..])
      else
        var w2 := w1.Log([FinalizePointHistory, EnforcePhaseFieldLimitation]);
        var el := script[1];
        var w3 := UpdateField(w2, Elasticity, el);
        if el.NoConvergence? then Diverged(w3, script[2..])
        else Swept(w3.Log([FinalizePointHistory]), Max(el.reduction, pf.reduction), script[2..])
    else
      var el := script[0];
      var w1 := UpdateField(w, Elasticity, el);
      if el.NoConvergence? then Diverged(w1, script[1..])
      else Swept(w1.Log([FinalizePointHistory]), el.reduction, script[1..])
  }

  /** respective_output_results: elasticity output always, phase-field output
      only when enabled. */
  function RespectiveOutputResults(enabled: bool, w: World): (r: World)
    ensures r.(trace := w.trace) == w
    ensures r.trace == w.trace + [On(Output, Elasticity)] + (if enabled then [On(Output, PhaseField)] else [])
  {
    w.Log(Each(Output, enabled))
  }
}
