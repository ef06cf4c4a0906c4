/** Shared vocabulary of the phase-field-fracture orchestration model: the two
    physics fields, the per-rank world the orchestration mutates, the
    configuration it reads, and the trace of collaborator calls it issues.
    Finite-element work is never modelled; only the calls and the values the
    collaborators hand back are. */
module State {

  /** Strictly positive reals: the values exp(-a) takes. */
  type PosReal = r: real | r > 0.0 witness 1.0

  datatype Option<+T> = None | Some(value: T)

  /** The two coupled physics fields. */
  datatype FieldId = Elasticity | PhaseField

  /** The per-field calls the orchestration issues. */
  datatype Action = Setup | Record | Return | Update | Output | PrepareRefine | PostRefine

  /** One call into a collaborator, in the order the orchestration issues it. */
  datatype Event =
    | On(action: Action, field: FieldId)
    | FinalizePointHistory
    | EnforcePhaseFieldLimitation
    | PrepareHistoryTransfer
    | ExecuteRefinement
    | InitializePointHistory
    | InterpolateHistory

  /** A field's current solution vector and the snapshot taken before an attempt. */
  datatype Field = Field(solution: seq<real>, snapshot: seq<real>)

  /** An active cell as the local rank sees it. `id` says which cell of the
      mesh it is (its level and index), so that the finite-element engine can
      evaluate a solution on it. */
  datatype Cell = Cell(id: nat, owned: bool, diameter: real, refineFlag: bool)

  /** Everything one rank's orchestration reads and writes besides the clock:
      both fields, the local part of the mesh, the size of the point-history
      store, and the trace of collaborator calls issued so far. */
  datatype World = World(
    elasticity: Field,
    phasefield: Field,
    cells: seq<Cell>,
    historyEntries: nat,
    trace: seq<Event>)
  {
    function Get(f: FieldId): Field {
      match f
      case Elasticity => elasticity
      case PhaseField => phasefield
    }

    function Put(f: FieldId, v: Field): (w: World)
      ensures w.Get(f) == v
    {
      match f
      case Elasticity => this.(elasticity := v)
      case PhaseField => this.(phasefield := v)
    }

    function Log(events: seq<Event>): World {
      this.(trace := trace + events)
    }
  }

  /** The configuration the orchestration reads. `expNegA1` and `expNegA2`
      stand for exp(-refine_influence_initial) and exp(-refine_influence_final). */
  datatype Params = Params(
    timestep: real,
    timestepSize2: real,
    switchTimestep: nat,
    maxNoTimesteps: nat,
    upperNewtonRho: real,
    enablePhaseField: bool,
    lPhi: real,
    refineMinimumSizeRatio: real,
    expNegA1: PosReal,
    expNegA2: PosReal,
    nQuadrature: nat)

  /** The calls a gated operation issues: `action` on elasticity always,
      then on the phase field only when it is enabled. */
  function Each(action: Action, enabled: bool): (es: seq<Event>)
    ensures |es| >= 1 && es[0] == On(action, Elasticity)
    ensures On(action, PhaseField) in es <==> enabled
  {
    if enabled then [On(action, Elasticity), On(action, PhaseField)] else [On(action, Elasticity)]
  }

  function Max(a: real, b: real): (m: real)
    ensures m >= a && m >= b
    ensures m == a || m == b
  {
    if a < b then b else a
  }
}
