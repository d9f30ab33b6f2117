/** Simulated annealing over expressions. The cost of a finished floorplan, the acceptance of
    uphill moves and all random draws are inputs. */
module Annealing {
  import opened PolishExpressions
  import opened Slicings
  import opened SlicingTrees
  import opened TreeBuilder
  import opened Tilings
  import opened Sizing
  import opened TreeToFlp
  import opened Extents
  import opened Placements

  /** What stays fixed during a run. */
  datatype Job = Job(shapes: seq<Shape>, ratio: real, wrapping: Wrapping, sqrt: real -> real, metric: seq<Rect> -> real)

  ghost predicate Doable(job: Job) {
    && |job.shapes| >= 2 && AllPositiveCurves(job.shapes) && job.ratio >= 0.0
    && Wrappable(job.wrapping) && WrapL2.IsSqrt(job.sqrt)
  }

  ghost function Finish(job: Job, core: seq<Rect>, box: Rect): seq<Rect> {
    WithRim(job.wrapping, WithL2(job.sqrt, job.wrapping, core, box), L2Box(job.sqrt, job.wrapping, box))
  }

  ghost predicate FinishedFrom(job: Job, s: seq<int>, units: seq<Rect>, core: seq<Rect>, box: Rect) {
    IsCore(s, job.shapes, job.ratio, core, box) && units == Finish(job, core, box)
  }

  /** units is the finished floorplan of the expression s. */
  ghost predicate IsFinished(job: Job, s: seq<int>, units: seq<Rect>) {
    exists core, box :: FinishedFrom(job, s, units, core, box)
  }

  lemma FinishedUnique(job: Job, s: seq<int>, u: seq<Rect>, v: seq<Rect>)
    requires IsFinished(job, s, u) && IsFinished(job, s, v)
    ensures u == v
  {
    var c, b :| FinishedFrom(job, s, u, c, b);
    var c', b' :| FinishedFrom(job, s, v, c', b');
    CoreUnique(s, job.shapes, job.ratio, c, b, c', b');
  }

  // ---------- the three relations, by name only ----------

  /** Expression to core, core to finished floorplan, expression to finished floorplan. */
  datatype Relations = Relations(core: (seq<int>, seq<Rect>, Rect) -> bool,
                                 wrap: (seq<Rect>, Rect, seq<Rect>) -> bool,
                                 done: (seq<int>, seq<Rect>) -> bool)

  ghost predicate Places(job: Job, rel: Relations) {
    forall s, core, box :: IsCore(s, job.shapes, job.ratio, core, box) ==> rel.core(s, core, box)
  }

  ghost predicate Wraps(job: Job, rel: Relations) {
    forall core, box :: rel.wrap(core, box, Finish(job, core, box))
  }

  ghost predicate Composes(rel: Relations) {
    forall s, core, box, units :: rel.core(s, core, box) && rel.wrap(core, box, units) ==> rel.done(s, units)
  }

  ghost function RelationsOf(job: Job): Relations {
    Relations((s, core, box) => IsCore(s, job.shapes, job.ratio, core, box),
              (core, box, units) => units == Finish(job, core, box),
              (s, units) => IsFinished(job, s, units))
  }

  lemma RelationsHold(job: Job)
    ensures Places(job, RelationsOf(job)) && Wraps(job, RelationsOf(job)) && Composes(RelationsOf(job))
  {
    var rel := RelationsOf(job);
    forall s, core, box, units | rel.core(s, core, box) && rel.wrap(core, box, units)
      ensures rel.done(s, units)
    {
      assert FinishedFrom(job, s, units, core, box);
    }
  }

  // ---------- one candidate ----------

  /** Builds the tree of an expression; fails only on stack overflow. */
  method BuildTree(job: Job, stack: NodeStack, s: seq<int>) returns (ok: bool, root: Tree, ghost sl: Slicing)
    requires Doable(job) && stack.Valid() && stack.top == 0 && IsNpe(s, |job.shapes|)
    modifies stack, stack.cells
    ensures ok <==> ShallowUpTo(s, |s|)
    ensures ok ==> stack.Valid() && stack.top == 0
    ensures ok ==> IsTreeOf(root, sl, job.shapes) && Postorder(sl) == s && Ready(root, |job.shapes|)
  {
    var r := TreeFromNpe(job.shapes, stack, s);
    ok := r.Built?;
    if ok {
      root := r.tree;
      sl :| IsTreeOf(root, sl, job.shapes) && Postorder(sl) == s;
      TreeIsReady(sl, job.shapes);
    } else {
      root := Leaf(0, job.shapes[0]);
      sl := Block(0);
    }
  }

  /** Places a tree with compaction of small dead blocks. */
  method PlaceCore(job: Job, flp: Floorplan, root: Tree, s: seq<int>, ghost sl: Slicing, ghost rel: Relations)
    returns (compacted: nat, ghost box: Rect)
    requires Doable(job) && Places(job, rel) && IsTreeOf(root, sl, job.shapes) && Postorder(sl) == s
    requires Ready(root, |job.shapes|) && flp.nUnits == 2 * |job.shapes| - 1 <= flp.units.Length
    modifies flp, flp.units
    ensures flp.nUnits + compacted == 2 * |job.shapes| - 1 && compacted <= |job.shapes| - 1
    ensures Tiles(flp.units[..flp.nUnits], box) && AllPositive(flp.units[..flp.nUnits]) && PositiveRect(box)
    ensures rel.core(s, flp.units[..flp.nUnits], box)
  {
    ghost var n := |job.shapes|;
    var pos;
    compacted, pos := PlaceTree(root, flp, true, job.ratio, n);
    box := RootBox(root, pos);
    ghost var core := flp.units[..flp.nUnits];
    assert CoreOfTree(root, n, job.ratio, pos, core, box);
    CorePlaced(job, root, s, sl, rel, pos, core, box);
  }

  lemma CorePlaced(job: Job, root: Tree, s: seq<int>, sl: Slicing, rel: Relations, pos: nat, core: seq<Rect>, box: Rect)
    requires Doable(job) && Places(job, rel) && IsTreeOf(root, sl, job.shapes) && Postorder(sl) == s
    requires Ready(root, |job.shapes|) && CoreOfTree(root, |job.shapes|, job.ratio, pos, core, box)
    ensures AllPositive(core) && PositiveRect(box) && rel.core(s, core, box)
  {
    CorePositive(root, |job.shapes|, job.ratio, pos, core, box);
    assert CoreBy(s, job.shapes, job.ratio, sl, pos, core, box);
    assert IsCore(s, job.shapes, job.ratio, core, box);
  }

  /** From an expression to its core. */
  method PlaceExpression(job: Job, flp: Floorplan, stack: NodeStack, s: seq<int>, ghost rel: Relations)
    returns (ok: bool, compacted: nat, ghost box: Rect)
    requires Doable(job) && stack.Valid() && stack.top == 0 && IsNpe(s, |job.shapes|) && Places(job, rel)
    requires flp.nUnits == 2 * |job.shapes| - 1 <= flp.units.Length
    modifies flp, flp.units, stack, stack.cells
    ensures ok <==> ShallowUpTo(s, |s|)
    ensures ok ==> stack.Valid() && stack.top == 0
    ensures ok ==> flp.nUnits + compacted == 2 * |job.shapes| - 1 && compacted <= |job.shapes| - 1
    ensures ok ==> Tiles(flp.units[..flp.nUnits], box) && AllPositive(flp.units[..flp.nUnits]) && PositiveRect(box)
    ensures ok ==> rel.core(s, flp.units[..flp.nUnits], box)
  {
    var root;
    ghost var sl;
    ok, root, sl := BuildTree(job, stack, s);
    if !ok {
      return false, 0, Rect(0.0, 0.0, 0.0, 0.0);
    }
    compacted, box := PlaceCore(job, flp, root, s, sl, rel);
  }

  /** Wraps L2 and rim around a placed core. */
  method WrapUp(job: Job, flp: Floorplan, ghost box: Rect, ghost rel: Relations)
    returns (rimBlocks: nat, ghost outer: Rect)
    requires Doable(job) && Wraps(job, rel)
    requires flp.nUnits <= 2 * |job.shapes| - 1 && Slots(|job.shapes|, job.wrapping) <= flp.units.Length
    requires Tiles(flp.units[..flp.nUnits], box) && AllPositive(flp.units[..flp.nUnits]) && PositiveRect(box)
    modifies flp, flp.units
    ensures flp.nUnits == old(flp.nUnits) + L2Blocks(job.wrapping) + rimBlocks <= Slots(|job.shapes|, job.wrapping)
    ensures job.wrapping.rim.None? ==> rimBlocks == 0
    ensures Tiles(flp.units[..flp.nUnits], outer)
    ensures rel.wrap(old(flp.units[..flp.nUnits]), box, flp.units[..flp.nUnits])
  {
    ghost var core := flp.units[..flp.nUnits];
    AddL2(job.sqrt, flp, job.wrapping, box);
    ghost var mid := L2Box(job.sqrt, job.wrapping, box);
    rimBlocks := AddRim(flp, job.wrapping, mid);
    outer := RimBox(job.wrapping, mid);
    assert rel.wrap(core, box, Finish(job, core, box));
  }

  /** From an expression to its finished floorplan. */
  method FinishExpression(job: Job, flp: Floorplan, stack: NodeStack, s: seq<int>, ghost rel: Relations)
    returns (ok: bool, compacted: nat, rimBlocks: nat, ghost outer: Rect)
    requires Doable(job) && stack.Valid() && stack.top == 0 && IsNpe(s, |job.shapes|)
    requires Places(job, rel) && Wraps(job, rel) && Composes(rel)
    requires flp.nUnits == 2 * |job.shapes| - 1 && Slots(|job.shapes|, job.wrapping) <= flp.units.Length
    modifies flp, flp.units, stack, stack.cells
    ensures ok <==> ShallowUpTo(s, |s|)
    ensures ok ==> stack.Valid() && stack.top == 0 && flp.nUnits <= Slots(|job.shapes|, job.wrapping)
    ensures ok ==> rel.done(s, flp.units[..flp.nUnits]) && Tiles(flp.units[..flp.nUnits], outer)
    ensures ok ==> compacted <= |job.shapes| - 1 && (job.wrapping.rim.None? ==> rimBlocks == 0)
    ensures ok ==> flp.nUnits + compacted == 2 * |job.shapes| - 1 + L2Blocks(job.wrapping) + rimBlocks
  {
    ghost var box;
    ok, compacted, box := PlaceExpression(job, flp, stack, s, rel);
    if !ok {
      return false, 0, 0, box;
    }
    rimBlocks, outer := WrapUp(job, flp, box, rel);
  }

  /** Evaluates an expression and leaves the floorplan as it was found: n units and n - 1
      dead blocks in use. */
  method Evaluate(job: Job, flp: Floorplan, stack: NodeStack, s: seq<int>, ghost rel: Relations)
    returns (ok: bool, cost: real, ghost units: seq<Rect>)
    requires Doable(job) && stack.Valid() && stack.top == 0 && IsNpe(s, |job.shapes|)
    requires Places(job, rel) && Wraps(job, rel) && Composes(rel)
    requires flp.nUnits == 2 * |job.shapes| - 1 && Slots(|job.shapes|, job.wrapping) <= flp.units.Length
    modifies flp, flp.units, stack, stack.cells
    ensures ok <==> ShallowUpTo(s, |s|)
    ensures ok ==> stack.Valid() && stack.top == 0 && flp.nUnits == 2 * |job.shapes| - 1
    ensures ok ==> rel.done(s, units) && cost == job.metric(units)
  {
    var compacted, rimBlocks;
    ghost var outer;
    ok, compacted, rimBlocks, outer := FinishExpression(job, flp, stack, s, rel);
    units := [];
    if !ok {
      return false, 0.0, [];
    }
    units := flp.units[..flp.nUnits];
    cost := job.metric(flp.units[..flp.nUnits]);
    RestoreDeadBlocks(flp, |job.shapes|, compacted, job.wrapping, rimBlocks);
  }
}
