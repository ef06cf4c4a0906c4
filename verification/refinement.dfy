/** Adaptive refinement of the phase-field-fracture mesh: the per-cell marking
    rule, the agreement of all ranks on whether to refine, and the strictly
    ordered transfer of point history and field solutions across the mesh
    change. Gradient evaluation, the distributed mesh and the interpolation
    itself are supplied from outside; only the decisions and the call order
    are modelled. */
module Refinement {
  import opened State
  import Coupling

  /** The gradient level above which a cell is refined. A zero length scale
      makes the floating-point threshold +infinity, which no gradient exceeds. */
  datatype Threshold = Finite(value: real) | Unbounded

  /** The finite-element engine's gradient evaluation: for a phase-field
      solution and a cell, the magnitude of the solution's gradient at each
      quadrature point of the cell. */
  type Gradients = (seq<real>, Cell) -> seq<real>

  /** What the rest of the system supplies to one refinement pass: the
      gradient evaluation, the will-refine flags the other ranks contribute
      to the global sum, and, if refinement executes, the local cells of the
      refined mesh and the field solutions interpolated onto it. */
  datatype Transfer = Transfer(
    gradients: Gradients,
    peerFlags: seq<nat>,
    refined: seq<Cell>,
    elasticity: seq<real>,
    phasefield: seq<real>)

  datatype Marking = Marking(cells: seq<Cell>, willRefine: nat)

  datatype Refined = Refined(world: World, executed: bool)

  /** Cells with a diameter below this are never refined. */
  function SizeFloor(p: Params): real {
    p.lPhi * p.refineMinimumSizeRatio
  }

  /** The threshold (1/l_phi) * (exp(-a2)/exp(-a1)) * exp(-a1). In exact
      arithmetic the initial influence a1 cancels out. */
  function RefineThreshold(lPhi: real, expNegA1: PosReal, expNegA2: PosReal): (t: Threshold)
    ensures t.Unbounded? <==> lPhi == 0.0
    ensures t.Finite? ==> t.value == expNegA2 / lPhi
  {
    if lPhi == 0.0 then Unbounded
    else
      var phiRef := expNegA2 / expNegA1;
      var t := 1.0 / lPhi * phiRef * expNegA1;
      assert phiRef * expNegA1 == expNegA2;
      assert t == (1.0 / lPhi) * (phiRef * expNegA1);
      Finite(t)
  }

  function ThresholdOf(p: Params): Threshold {
    RefineThreshold(p.lPhi, p.expNegA1, p.expNegA2)
  }

  predicate Exceeds(g: real, t: Threshold) {
    t.Finite? && g > t.value
  }

  /** The largest gradient magnitude over a cell's quadrature points, starting
      from 0 and folding in one point at a time. */
  function MaxGradient(gs: seq<real>): (m: real)
    ensures m >= 0.0
    ensures forall q :: 0 <= q < |gs| ==> gs[q] <= m
    ensures m == 0.0 || exists q :: 0 <= q < |gs| && gs[q] == m
  {
    if |gs| == 0 then 0.0
    else
      var m := MaxGradient(gs[..|gs| - 1]);
      assert forall q :: 0 <= q < |gs| - 1 ==> gs[..|gs| - 1][q] == gs[q];
      Max(m, gs[|gs| - 1])
  }

  /** The loop that computes a cell's maximum gradient magnitude. */
  method ComputeMaxGradient(gs: seq<real>) returns (m: real)
    ensures m == MaxGradient(gs)
  {
    m := 0.0;
    var q := 0;
    while q < |gs|
      invariant 0 <= q <= |gs|
      invariant m == MaxGradient(gs[..q])
    {
      assert gs[..q + 1][..q] == gs[..q];
      m := Max(m, gs[q]);
      q := q + 1;
    }
    assert gs[..q] == gs;
  }

  /** A cell this pass flags: owned, not below the size floor, and with a
      maximum gradient of the phase-field solution `phi` above the threshold. */
  predicate Triggers(c: Cell, phi: seq<real>, g: Gradients, floor: real, t: Threshold) {
    c.owned && !(c.diameter < floor) && Exceeds(MaxGradient(g(phi, c)), t)
  }

  /** Two cells that differ at most in their refine flag. */
  predicate SameCell(a: Cell, b: Cell) {
    a.id == b.id && a.owned == b.owned && a.diameter == b.diameter
  }

  /** The marking rule for one cell: only owned cells are examined; a cell
      below the size floor has its flag cleared; any other owned cell is
      flagged when its maximum gradient exceeds the threshold and otherwise
      keeps the flag it had. */
  function MarkCell(c: Cell, phi: seq<real>, g: Gradients, floor: real, t: Threshold): (r: Cell)
    ensures SameCell(r, c)
    ensures !c.owned ==> r == c
    ensures c.owned && c.diameter < floor ==> !r.refineFlag
    ensures c.owned && !(c.diameter < floor) ==>
      r.refineFlag == (c.refineFlag || Exceeds(MaxGradient(g(phi, c)), t))
    ensures Triggers(c, phi, g, floor, t) ==> r.refineFlag
    ensures r.refineFlag ==> c.refineFlag || Triggers(c, phi, g, floor, t)
  {
    if !c.owned then c
    else if c.diameter < floor then c.(refineFlag := false)
    else if Exceeds(MaxGradient(g(phi, c)), t) then c.(refineFlag := true)
    else c
  }

  /** The marking loop over the active cells, evaluating the phase-field
      solution `phi` on each: every cell gets the per-cell rule, and the
      local will-refine flag is 1 exactly when some cell triggered. */
  function MarkCells(cells: seq<Cell>, phi: seq<real>, g: Gradients, floor: real, t: Threshold): (m: Marking)
    ensures |m.cells| == |cells|
    ensures forall i :: 0 <= i < |cells| ==> m.cells[i] == MarkCell(cells[i], phi, g, floor, t)
    ensures m.willRefine <= 1
    ensures m.willRefine == 1 <==> exists i :: 0 <= i < |cells| && Triggers(cells[i], phi, g, floor, t)
  {
    if |cells| == 0 then Marking([], 0)
    else
      var tail := MarkCells(cells[1..], phi, g, floor, t);
      var m := Marking([MarkCell(cells[0], phi, g, floor, t)] + tail.cells,
                       if Triggers(cells[0], phi, g, floor, t) then 1 else tail.willRefine);
      assert forall i :: 1 <= i < |cells| ==> cells[1..][i - 1] == cells[i];
      assert tail.willRefine == 1 ==> exists i :: 1 <= i < |cells| && Triggers(cells[i], phi, g, floor, t) by {
        if tail.willRefine == 1 {
          var j :| 0 <= j < |cells| - 1 && Triggers(cells[1..][j], phi, g, floor, t);
          assert Triggers(cells[j + 1], phi, g, floor, t);
        }
      }
      m
  }

  /** Utilities::MPI::sum over the ranks' will-refine flags. */
  function Sum(flags: seq<nat>): nat {
    if |flags| == 0 then 0 else flags[0] + Sum(flags[1..])
  }

  /** The global sum is non-zero exactly when some rank flagged a cell. */
  lemma {:induction false} SumNonZeroIffSomeRank(flags: seq<nat>)
    ensures Sum(flags) != 0 <==> exists k :: 0 <= k < |flags| && flags[k] != 0
  {
    if |flags| > 0 {
      SumNonZeroIffSomeRank(flags[1..]);
      if Sum(flags[1..]) != 0 {
        var k :| 0 <= k < |flags| - 1 && flags[1..][k] != 0;
        assert flags[k + 1] != 0;
      }
      if exists k :: 0 <= k < |flags| && flags[k] != 0 {
        var k :| 0 <= k < |flags| && flags[k] != 0;
        if k > 0 {
          assert flags[1..][k - 1] != 0;
        }
      }
    }
  }

  function OwnedCount(cells: seq<Cell>): (n: nat)
    ensures n <= |cells|
  {
    if |cells| == 0 then 0 else (if cells[0].owned then 1 else 0) + OwnedCount(cells[1..])
  }

  /** The calls of a refinement that executes, in the order they must happen. */
  function TransferProtocol(enabled: bool): seq<Event> {
    [PrepareHistoryTransfer, On(PrepareRefine, Elasticity), On(PrepareRefine, PhaseField),
     ExecuteRefinement]
    + Each(Setup, enabled)
    + [InitializePointHistory, InterpolateHistory,
       On(PostRefine, Elasticity), On(PostRefine, PhaseField)]
  }

  /** Register the point-history transfer and both solution transfers
      against the mesh about to change. */
  function PrepareTransfers(w: World): World {
    w.Log([PrepareHistoryTransfer, On(PrepareRefine, Elasticity), On(PrepareRefine, PhaseField)])
  }

  /** execute_coarsening_and_refinement: the mesh becomes the refined one. */
  function Execute(w: World, refined: seq<Cell>): World {
    w.(cells := refined).Log([ExecuteRefinement])
  }

  /** initialize_point_history: one entry per quadrature point of every
      locally owned cell. */
  function AllocateHistory(w: World, nQuadrature: nat): World {
    w.(historyEntries := OwnedCount(w.cells) * nQuadrature).Log([InitializePointHistory])
  }

  function Interpolate(w: World): World {
    w.Log([InterpolateHistory])
  }

  /** post_refine: the field takes the solution interpolated onto the new mesh. */
  function FinishTransfer(w: World, f: FieldId, v: seq<real>): World {
    w.Put(f, w.Get(f).(solution := v)).Log([On(PostRefine, f)])
  }

  /** The refinement itself, once all ranks agreed: the transfer protocol in
      order, leaving the state on the refined mesh. */
  function TransferState(p: Params, w: World, o: Transfer): (r: World)
    ensures r.trace == w.trace + TransferProtocol(p.enablePhaseField)
    ensures r.cells == o.refined
    ensures r.historyEntries == OwnedCount(o.refined) * p.nQuadrature
    ensures r.elasticity == Field(o.elasticity, w.elasticity.snapshot)
    ensures r.phasefield == Field(o.phasefield, w.phasefield.snapshot)
  {
    var w1 := PrepareTransfers(w);
    var w2 := Execute(w1, o.refined);
    var w3 := Coupling.SetupSystem(p.enablePhaseField, w2);
    var w4 := Interpolate(AllocateHistory(w3, p.nQuadrature));
    var w5 := FinishTransfer(w4, Elasticity, o.elasticity);
    var w6 := FinishTransfer(w5, PhaseField, o.phasefield);
    assert w3.trace == w.trace + TransferProtocol(p.enablePhaseField)[..|w3.trace| - |w.trace|];
    w6
  }

  /** The marking pass when no rank refines: no cell is newly flagged, so the
      pass can only clear flags. */
  lemma {:induction false} QuietMarkingOnlyClears(cells: seq<Cell>, phi: seq<real>, g: Gradients, floor: real, t: Threshold)
    requires MarkCells(cells, phi, g, floor, t).willRefine == 0
    ensures forall i :: 0 <= i < |cells| ==>
      && SameCell(MarkCells(cells, phi, g, floor, t).cells[i], cells[i])
      && (MarkCells(cells, phi, g, floor, t).cells[i].refineFlag ==> cells[i].refineFlag)
  {
    var m := MarkCells(cells, phi, g, floor, t);
    forall i | 0 <= i < |cells|
      ensures SameCell(m.cells[i], cells[i]) && (m.cells[i].refineFlag ==> cells[i].refineFlag)
    {
      assert m.cells[i] == MarkCell(cells[i], phi, g, floor, t);
      assert !Triggers(cells[i], phi, g, floor, t);
    }
  }

  /** Some rank flagged a cell: one of this rank's owned cells triggers the
      marking rule on the phase-field solution `phi`, or a peer reported a
      non-zero flag. */
  predicate Wanted(p: Params, cells: seq<Cell>, phi: seq<real>, o: Transfer) {
    || (exists i :: 0 <= i < |cells| && Triggers(cells[i], phi, o.gradients, SizeFloor(p), ThresholdOf(p)))
    || (exists k :: 0 <= k < |o.peerFlags| && o.peerFlags[k] != 0)
  }

  /** refine_grid: mark the owned cells on the current phase-field
      solution, agree globally, and, if any rank flagged a cell, move point
      history and both solutions onto the refined mesh in the fixed order. */
  function RefineGrid(p: Params, w: World, o: Transfer): (r: Refined)
    ensures var m := MarkCells(w.cells, w.phasefield.solution, o.gradients, SizeFloor(p), ThresholdOf(p));
      r.executed <==> m.willRefine + Sum(o.peerFlags) != 0
    ensures r.executed <==> Wanted(p, w.cells, w.phasefield.solution, o)
    // nothing flagged anywhere: only this pass's flag clearing touches the mesh
    ensures !r.executed ==>
      && r.world.elasticity == w.elasticity && r.world.phasefield == w.phasefield
      && r.world.historyEntries == w.historyEntries && r.world.trace == w.trace
      && |r.world.cells| == |w.cells|
      && (forall i :: 0 <= i < |w.cells| ==> SameCell(r.world.cells[i], w.cells[i]))
      && (forall i :: 0 <= i < |w.cells| && r.world.cells[i].refineFlag ==> w.cells[i].refineFlag)
    // refinement executes: the protocol in order, and the state moved onto the new mesh
    ensures r.executed ==> r.world == TransferState(p, w, o)
  {
    var m := MarkCells(w.cells, w.phasefield.solution, o.gradients, SizeFloor(p), ThresholdOf(p));
    SumNonZeroIffSomeRank(o.peerFlags);
    if m.willRefine + Sum(o.peerFlags) == 0 then
      QuietMarkingOnlyClears(w.cells, w.phasefield.solution, o.gradients, SizeFloor(p), ThresholdOf(p));
      Refined(w.(cells := m.cells), false)
    else
      Refined(TransferState(p, w, o), true)
  }

  /** One rank flagging a cell is enough to make every rank refine. */
  lemma OneFlaggingRankSuffices(p: Params, w: World, o: Transfer, k: nat)
    requires k < |o.peerFlags| && o.peerFlags[k] == 1
    ensures RefineGrid(p, w, o).executed
  {
  }
}
