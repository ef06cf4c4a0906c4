# Phase-field-fracture orchestration, modelled in Dafny

This project models the orchestration layer of a staggered phase-field
fracture simulation. Every finite-element and MPI operation is replaced by an
oracle; what remains is the control logic:

- the time-step loop of `AbstractMultiphysics::run`, with both ways of
  shrinking a step:
  - the residual-driven `while` loop;
  - the `NoConvergence` catch-and-retry loop;
- the restore of the step size after acceptance, the statistics row that
  `output_results` writes, and the fatal missing-mesh check of `setup_mesh`;
- the phase-field-gated dispatch of `setup_system`, `record_old_solution`,
  `return_old_solution` and `respective_output_results`;
- the staggered sweep and its combined residual reduction;
- `refine_grid`: the per-cell marking rule, the global decision over all
  ranks, and the fixed order of the transfer calls.

## Files

- `state.dfy`, module `State`: the shared vocabulary. It holds:
  - the two fields, each a solution and its snapshot;
  - the local cells;
  - the size of the point-history store;
  - the configuration;
  - the trace of collaborator calls the orchestration issues.
- `coupling.dfy`, module `Coupling`: the gated dispatch and the staggered sweep.
- `refinement.dfy`, module `Refinement`: marking, global agreement and transfer.
- `multiphysics.dfy`, module `Multiphysics`: the driver. It covers the
  attempt/retry loops, one time step, the loop over time steps, and `run`.
- `scenarios.dfy`, module `Scenarios`: three concrete runs worked through to
  their exact final states.

## How the model stands in for the environment

- **Field solves.** Every `update()` call of a field consumes the next entry
  of a scripted `seq<Outcome>`. An entry is either `Converged(reduction,
  solution)` or `NoConvergence(solution)`. An enabled sweep consumes one
  entry per field solved.
  - The code's retry loop has no bound, so the script's length is the
    termination measure.
  - A run whose script runs out ends in `Aborted(ScriptExhausted, _)`.
- **Peer ranks.** What the peers and the FE engine hand to the refinement
  pass of step `n` is `transfers(n)`:
  - the FE engine's gradient evaluation (see below);
  - the peers' will-refine flags;
  - the refined local cells;
  - the solutions interpolated onto the refined mesh.
- **Gradients.** The FE engine's evaluation is a function from a
  phase-field solution and a cell to the gradient magnitudes at the cell's
  quadrature points. `refine_grid` applies it to the phase-field solution
  the world holds when it runs, which in a time step is the solution the
  step accepted. A cell carries only its identity, ownership, diameter and
  refine flag.
- **Constants.** `exp(-refine_influence_initial)` and
  `exp(-refine_influence_final)` are positive real parameters.
- **Mesh file.** Its existence is an `Option`. `None` means the file does not
  exist.
- **Arithmetic.** Time and step sizes are `real`, so taking a step out of the
  clock and putting a smaller one back cancels exactly.

## Behaviour the model keeps

- **The re-run sweep's result is discarded.** Inside the residual-driven loop
  (include/abstract_multiphysics.h:116-129), the sweep is re-run but its
  result is thrown away. So `newton_reduction` never changes once the loop is
  entered. The loop then ends only in one of two ways:
  - a shrink takes the step below 1.0e-9, and the step is accepted anyway;
  - a sweep throws.

  `ShrinkLoop` models exactly this. `ShrinkLoopStopsAtFloor` and
  `ShrinkLoopThrowCount` state its consequences. `ShrinkLoopIgnoresReruns`
  proves that even re-runs that all converge cannot end the loop early.
- **One flagging rank is enough.** `refine_grid` sums the 0/1 flags of all
  ranks and refines whenever the sum is non-zero
  (include/phase_field_fracture.h:144-146).
  `Refinement.OneFlaggingRankSuffices` proves that one rank flagging makes
  every rank refine.
- **Refinement ignores the phase-field switch.** `refine_grid` prepares and
  post-refines the phase field even when the phase field is disabled
  (include/phase_field_fracture.h:159-162, 177-178). Only its call to
  `setup_system` is gated. The model keeps both facts.
- **Flags are cleared even without refinement.** When no rank refines, the
  marking pass has still cleared the refine flags of owned cells below the
  size floor. `RefineGrid` says so: the cells keep everything but their
  flags, and flags are only ever cleared.

## Model

| member | source | states |
|---|---|---|
| Coupling.SetupSystem | include/phase_field_fracture.h:42-49 | elasticity is set up always, the phase field only when enabled, in that order; nothing else changes |
| Coupling.RecordOldSolution | include/phase_field_fracture.h:51-56 | the elasticity snapshot becomes its solution; the phase-field snapshot does too exactly when enabled, and a disabled phase field is untouched; mesh and history unchanged; calls logged in order |
| Coupling.ReturnOldSolution | include/phase_field_fracture.h:58-63 | the elasticity solution is put back to its snapshot; the phase field's is too exactly when enabled, and a disabled phase field is untouched; mesh and history unchanged |
| Coupling.RecordThenReturnRestores | include/phase_field_fracture.h:51-63 | a record followed by any change that leaves the snapshots alone and then a return restores every gated solution exactly |
| Coupling.StaggeredScheme | include/phase_field_fracture.h:65-94 | enabled: phase-field update, finalize point history, enforce limitation, elasticity update, finalize point history, reporting max of both reductions (at least each, equal to one); disabled: elasticity update and one finalize, reporting its reduction unchanged; it converges iff every solve did; a NoConvergence stops it at the failing update; snapshots, mesh and history untouched |
| Coupling.RespectiveOutputResults | include/phase_field_fracture.h:96-105 | elasticity output always, phase-field output only when enabled; nothing else changes |
| Refinement.RefineThreshold | include/phase_field_fracture.h:120-137 | the threshold (1/l_phi)*(exp(-a2)/exp(-a1))*exp(-a1) equals exp(-a2)/l_phi; a zero l_phi gives an unbounded threshold no gradient exceeds |
| Refinement.MaxGradient | include/phase_field_fracture.h:132-136 | the fold from 0 is non-negative, at least every point's magnitude, and either 0 or one of them |
| Refinement.ComputeMaxGradient | include/phase_field_fracture.h:132-136 | the loop over quadrature points computes exactly that maximum |
| Refinement.MarkCell | include/phase_field_fracture.h:124-141 | a cell not locally owned is untouched; an owned cell below l_phi*ratio has its flag cleared; any other owned cell is flagged iff it was flagged or its max gradient exceeds the threshold; only the flag ever changes |
| Refinement.MarkCells | include/phase_field_fracture.h:119-142 | every cell gets the per-cell rule; the local will_refine is 0 or 1, and 1 exactly when some cell triggered the rule |
| Refinement.SumNonZeroIffSomeRank | include/phase_field_fracture.h:144-146 | the global sum of the ranks' flags is non-zero iff some rank's flag is non-zero |
| Refinement.QuietMarkingOnlyClears | include/phase_field_fracture.h:124-140 | when no cell triggers, marking changes no cell but its flag and never sets a flag |
| Refinement.TransferState | include/phase_field_fracture.h:148-180 | calls happen in order: history prepare, elasticity and phase-field prepare_refine, execute, gated setup_system, initialize_point_history, interpolate, elasticity then phase-field post_refine; the mesh becomes the refined one, history is resized to its owned cells, and both fields take their interpolated solutions |
| Refinement.RefineGrid | include/phase_field_fracture.h:107-181 | refinement executes iff local will_refine plus the peers' sum is non-zero, i.e. iff some owned cell here triggered on the current phase-field solution's gradients or some peer flagged; otherwise fields, history and trace are unchanged and flags are only cleared; if it executes, the state is the transfer's |
| Refinement.OneFlaggingRankSuffices | include/phase_field_fracture.h:144-146 | a single peer rank with flag 1 makes this rank refine |
| Multiphysics.ShrinkIsPow10 | include/abstract_multiphysics.h:119 | k tenfold shrinks divide a step by exactly 10^k |
| Multiphysics.ShrinkPositive | include/abstract_multiphysics.h:119 | a positive step stays strictly positive however often it shrinks |
| Multiphysics.ShrinkPass | include/abstract_multiphysics.h:118-122 | one pass takes the step out of the clock, divides it by ten and puts it back (time - step unchanged), then sweeps, keeping counter, mesh, history and snapshots and consuming one outcome per field solved |
| Multiphysics.ShrinkPassRollsBack | include/abstract_multiphysics.h:121-122 | each pass issues return_old_solution before the re-run sweep: the returns lead the pass's calls, a converging sweep's calls follow them exactly, and a phase-field throw leaves elasticity at its snapshot |
| Multiphysics.ShrinkLoop | include/abstract_multiphysics.h:116-129 | the loop is skipped iff the first reduction is within tolerance; once entered it never exits as settled, whatever later sweeps return; each exit after entering has shrunk at least once; time - step is invariant |
| Multiphysics.ShrinkLoopDividesByTen | include/abstract_multiphysics.h:116-129 | the loop's final step is the entry step shrunk by ten once per pass |
| Multiphysics.ShrinkLoopStopsAtFloor | include/abstract_multiphysics.h:116-129 | a normal exit happens only with the step below 1.0e-9, on the first shrink that gets it there, after one complete sweep per shrink |
| Multiphysics.ShrinkLoopThrowCount | include/abstract_multiphysics.h:116-129 | a throwing exit ran complete sweeps for all earlier shrinks and a partial sweep for the last |
| Multiphysics.ShrinkLoopFloorTrace | include/abstract_multiphysics.h:116-129 | a loop that leaves at the floor issued exactly one return_old_solution and one complete sweep per shrink, in that order |
| Multiphysics.ShrinkLoopThrowTrace | include/abstract_multiphysics.h:116-129 | a loop that throws shrank at least once, issued a return and a complete sweep for every earlier shrink, and a return before its last sweep |
| Multiphysics.ShrinkLoopIgnoresReruns | include/abstract_multiphysics.h:116-129 | entered with a reduction above the tolerance and given only converging solves, the loop never settles: it ends at the step floor or when the solves run out |
| Multiphysics.Rollback | include/abstract_multiphysics.h:133-140 | the catch clause restores the old solutions, divides the step by ten and keeps time - step invariant |
| Multiphysics.Recorded | include/abstract_multiphysics.h:113 | every attempt starts with record_old_solution, leaving the clock, the current step and the counters alone |
| Multiphysics.TrySweep | include/abstract_multiphysics.h:114-131 | the try block consumes at least one outcome; keeps time - step, counter, mesh, history and snapshots; its step is the entry step shrunk once per shrink; a settled exit had its first reduction within tolerance; a floor exit had it above tolerance with the step below 1.0e-9 |
| Multiphysics.Attempt | include/abstract_multiphysics.h:107-141 | an accepted attempt consumed at least one outcome and reports at least the shrinks already done |
| Multiphysics.Conclude | include/abstract_multiphysics.h:114-140 | accepting or retrying never reads outcomes the try block did not leave, and never loses the shrink count |
| Multiphysics.Retry | include/abstract_multiphysics.h:133-141 | a retry that is accepted has shrunk at least once more and consumed an outcome |
| Multiphysics.AttemptKeepsStart | include/abstract_multiphysics.h:105-141 | whatever retries happen, time - current_timestep equals the time before the advance |
| Multiphysics.ConcludeKeepsStart | include/abstract_multiphysics.h:114-140 | the catch-and-retry path keeps time - current_timestep invariant |
| Multiphysics.AttemptClock | include/abstract_multiphysics.h:107-141 | the accepted step is the starting step divided by ten once per shrink, counting both loops' shrinks |
| Multiphysics.ConcludeClock | include/abstract_multiphysics.h:114-140 | the catch clause adds exactly one tenfold shrink on top of the try block's |
| Multiphysics.AttemptVerdict | include/abstract_multiphysics.h:115-131 | an attempt is accepted within tolerance iff its first sweep's reduction was within tolerance; otherwise it was accepted with the step below 1.0e-9 |
| Multiphysics.ConcludeVerdict | include/abstract_multiphysics.h:115-131 | the verdict of the attempt that is finally accepted is passed through retries unchanged |
| Multiphysics.AttemptSnapshots | include/abstract_multiphysics.h:107-141 | throughout an attempt, the snapshots hold the solutions the step started from; a disabled phase field is untouched |
| Multiphysics.ConcludeSnapshots | include/abstract_multiphysics.h:133-141 | rolling back and recording again keeps the snapshots equal to the step's starting solutions |
| Multiphysics.AttemptFrame | include/abstract_multiphysics.h:107-141 | an attempt never touches the counter, the saved step, the statistics, the mesh or the history, and only appends to the trace |
| Multiphysics.ConcludeFrame | include/abstract_multiphysics.h:114-140 | the same for the accept-or-retry part |
| Multiphysics.AttemptRecordsFirst | include/abstract_multiphysics.h:113 | the first calls of every attempt are the record of the old solutions |
| Multiphysics.RetryRestoresFirst | include/abstract_multiphysics.h:133-141 | on NoConvergence, return_old_solution comes first, then record_old_solution; the retry's snapshots are the failed attempt's |
| Multiphysics.Advance | include/abstract_multiphysics.h:86-105 | the step is timestep_size_2 exactly when timestep_number > switch_timestep > 0, otherwise the current step; it is saved as the old step and added to the clock |
| Multiphysics.OutputResults | include/abstract_multiphysics.h:220-223 | one row (Step = current timestep_number, Time = current time) is appended; then the gated per-field output is issued; nothing else changes |
| Multiphysics.TimeStep | include/abstract_multiphysics.h:85-173 | after acceptance the step is restored to the saved value, the clock has advanced by the saved step shrunk by ten per shrink, one statistics row is written, the counter rises by exactly one, and the trace is: record first, output once, then the transfer calls iff the global decision refined; that decision marks the step's starting cells on the phase-field solution the step accepted |
| Multiphysics.Loop | include/abstract_multiphysics.h:85-174 | a finished loop stops with timestep_number > max_no_timesteps; it aborts only when the outcomes run out |
| Multiphysics.LoopCounts | include/abstract_multiphysics.h:164-174 | the body runs at least once; a finished loop ends at max(start, max_no_timesteps) + 1 with one row per step, numbered consecutively from the start, and earlier rows intact |
| Multiphysics.StepMovesForward | include/abstract_multiphysics.h:105-160 | with positive step sizes an accepted step strictly advances the clock and leaves a positive step |
| Multiphysics.LoopTimeIncreases | include/abstract_multiphysics.h:105-174 | with positive step sizes, the rows of a finished loop have strictly increasing times, all after the starting time |
| Multiphysics.LoopKeepsRows | include/abstract_multiphysics.h:164-174 | rows already written are never rewritten |
| Multiphysics.LoopExtendsTrace | include/abstract_multiphysics.h:85-174 | the trace of a run only grows |
| Multiphysics.Start | include/abstract_multiphysics.h:65-83 | after the mesh is read, the system is set up once and both current and old step are the configured timestep |
| Multiphysics.Run | include/abstract_multiphysics.h:50-177 | a missing mesh file aborts with nothing set up and nothing run, and only then is MeshFileNotFound reported; otherwise setup_system precedes everything the loop does, a finished run's counter is max(start, max_no_timesteps) + 1, and with positive steps its rows' times strictly increase |
| Scenarios.StepA | include/abstract_multiphysics.h:85-173 | a disabled-phase-field step of 0.1 whose solve converges at once is accepted unshrunk, advances the clock by 0.1, keeps the step 0.1 and writes the row (n, time + 0.1) |
| Scenarios.ScenarioA | include/abstract_multiphysics.h:50-177 | three converging steps of 0.1 from step 1 at time 0 finish with the counter at 4, the clock at 0.3 and the rows (1, 0.1), (2, 0.2), (3, 0.3) |
| Scenarios.FirstTryB | include/abstract_multiphysics.h:107-115 | with the phase field enabled, the first try records both fields and throws at the phase-field solve, which leaves its diverged vector behind |
| Scenarios.SecondTryB | include/abstract_multiphysics.h:133-141 | the catch clause rolls both fields back to their snapshots and shrinks the step to 0.01, and the retry records again and is accepted with reduction max(0.3, 0.2) |
| Scenarios.ScenarioB | include/abstract_multiphysics.h:85-173 | a step whose first phase-field solve throws advances the clock by 0.01, restores the step to 0.1, writes the row (1, 0.01), keeps the starting solutions as snapshots, and issues record, update, return, record, the full sweep and output in exactly that order |
| Scenarios.StepC | include/phase_field_fracture.h:124-146 | one enabled step on a single owned cell, with no peer flags, refines iff the gradient of the phase-field solution it accepted exceeds the threshold, and then the mesh is the refined one |
| Scenarios.ScenarioC | include/phase_field_fracture.h:124-146 | on the same cell and with no peer flags, a step that accepts a flat phase field does not refine and the next, accepting a steeper one, does |

## Left out

- Finite-element internals: FEValues, gradient evaluation, DoF handling,
  quadrature and the field solves are oracles. The solves are the scripted
  outcomes; the gradient evaluation is a function supplied with each
  refinement pass.
- MPI: the global sum is a pure sum over the peers' flags plus the local one.
  Communicators are left out, and so is the requirement that every rank
  enter collective calls in lockstep.
- IEEE floating point, `exp` and `sqrt`: time and steps are exact reals, and
  the exp values are parameters. A zero `l_phi` makes the threshold
  unbounded, as the floating-point division would make it +infinity.
- File and stream I/O: Abaqus reading, SVG/VTU/PVTU output and
  `statistics.txt` writing. Only the existence of the mesh file and the
  Step/Time rows are kept.
- Timers, console and debug output.
- The `ExcNotImplemented` default virtuals of the abstract class: only the
  phase-field-fracture overrides are modelled.
- Commented-out code: the redo-after-refinement path and the start-up phase
  field limitation are inactive.
- The contents of the point history and the interpolation mathematics.
  `initialize_point_history` is modelled as sizing the store to one entry per
  quadrature point of every locally owned cell, because the controller that
  implements it is not part of this model.
- Refinement.TransferState: the snapshots are left as they were across a
  refinement. The field classes that would rebuild or keep them are not part
  of this model.
- The per-field `setup_system`, `update`, `output_results`, `prepare_refine`
  and `post_refine` of the field classes, and the phase field's
  `enforce_phase_field_limitation`, are not part of this model. They appear
  only as trace events and, for `update` and `post_refine`, as the solution
  they leave behind. The limitation changes the phase-field solution in the
  code; here the phase-field outcome's `solution` stands for the vector as it
  is after the limitation.
- Running out of scripted outcomes has no counterpart in the code, whose
  retry loop is unbounded. It is the model's termination measure, and
  `Aborted(ScriptExhausted, _)` marks such a run.
- Multiphysics.Loop, Multiphysics.Run: nothing is stated about a run that
  aborts because the outcomes ran out, beyond the reason and a growing trace.
