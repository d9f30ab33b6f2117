/** From an expression to a finished floorplan: build its tree, place it, wrap the L2 and the
    rim around it, and afterwards take all of that back. The finished floorplan is a function
    of the expression. */
module Placements {
  import opened PolishExpressions
  import opened Shapes
  import opened Slicings
  import opened SlicingTrees
  import opened Permutations
  import opened Tilings
  import opened Arrangement
  import opened Sizing
  import opened TreeToFlp
  import opened Extents
  import WrapL2
  import WrapRim

  // ---------- the tree of an expression names every unit once ----------

  lemma {:induction false} LabelsBelow(sl: Slicing, shapes: seq<Shape>)
    requires OverUnits(sl, |shapes|)
    ensures Below(Labels(Decorated(sl, shapes)), |shapes|)
  {
    match sl
    case Block(_) =>
    case Slice(_, l, r) =>
      LabelsBelow(l, shapes);
      LabelsBelow(r, shapes);
  }

  lemma {:induction false} PostorderLength(sl: Slicing, shapes: seq<Shape>)
    requires OverUnits(sl, |shapes|)
    ensures |Postorder(sl)| == 2 * |Labels(Decorated(sl, shapes))| - 1
  {
    match sl
    case Block(_) =>
    case Slice(_, l, r) =>
      PostorderLength(l, shapes);
      PostorderLength(r, shapes);
  }

  lemma {:induction false} LabelOccurrences(sl: Slicing, shapes: seq<Shape>, u: nat)
    requires OverUnits(sl, |shapes|)
    ensures multiset(Labels(Decorated(sl, shapes)))[u] == multiset(Postorder(sl))[u]
  {
    match sl
    case Block(_) =>
    case Slice(cut, l, r) =>
      LabelOccurrences(l, shapes, u);
      LabelOccurrences(r, shapes, u);
  }

  lemma RepeatCounts(us: seq<nat>, i: nat, j: nat)
    requires i < j < |us| && us[i] == us[j]
    ensures multiset(us)[us[i]] >= 2
  {
    assert us == us[..i] + [us[i]] + us[i + 1..j] + [us[j]] + us[j + 1..];
  }

  ghost predicate AllPositiveCurves(shapes: seq<Shape>) {
    forall c :: c in shapes ==> Positive(c)
  }

  /** What placing a tree needs. */
  ghost predicate Ready(t: Tree, n: nat) {
    Summed(t) && PositiveLeaves(t) && Distinct(Labels(t)) && Below(Labels(t), n) && |Labels(t)| == n
  }

  lemma LabelsDistinct(sl: Slicing, shapes: seq<Shape>, us: seq<nat>)
    requires OverUnits(sl, |shapes|) && us == Labels(Decorated(sl, shapes)) && Below(us, |shapes|)
    requires EachUnitOnce(Postorder(sl), |shapes|)
    ensures Distinct(us)
  {
    forall i, j | 0 <= i < j < |us|
      ensures us[i] != us[j]
    {
      if us[i] == us[j] {
        RepeatCounts(us, i, j);
        LabelOccurrences(sl, shapes, us[i]);
      }
    }
  }

  lemma TreeIsReady(sl: Slicing, shapes: seq<Shape>)
    requires OverUnits(sl, |shapes|) && IsNpe(Postorder(sl), |shapes|) && AllPositiveCurves(shapes)
    ensures Ready(Decorated(sl, shapes), |shapes|)
  {
    DecoratedIsSummed(sl, shapes);
    DecoratedIsPositive(sl, shapes);
    LabelsBelow(sl, shapes);
    PostorderLength(sl, shapes);
    LabelsDistinct(sl, shapes, Labels(Decorated(sl, shapes)));
  }

  // ---------- the core is determined by the expression ----------

  ghost predicate CoreOfTree(t: Tree, n: nat, ratio: real, pos: nat, core: seq<Rect>, box: Rect) {
    && Ready(t, n) && FirstLeastArea(t, pos) && box == RootBox(t, pos)
    && Holding(core, Arrange(t, pos, box, true, ratio), n)
  }

  ghost predicate CoreBy(s: seq<int>, shapes: seq<Shape>, ratio: real, sl: Slicing, pos: nat, core: seq<Rect>,
                         box: Rect)
  {
    OverUnits(sl, |shapes|) && Postorder(sl) == s && CoreOfTree(Decorated(sl, shapes), |shapes|, ratio, pos, core, box)
  }

  /** core is what the expression s is placed as, inside box. */
  ghost predicate IsCore(s: seq<int>, shapes: seq<Shape>, ratio: real, core: seq<Rect>, box: Rect) {
    exists sl, pos :: CoreBy(s, shapes, ratio, sl, pos, core, box)
  }

  lemma TreeCoreUnique(t: Tree, n: nat, ratio: real, pos: nat, core: seq<Rect>, box: Rect,
                       pos': nat, core': seq<Rect>, box': Rect)
    requires CoreOfTree(t, n, ratio, pos, core, box) && CoreOfTree(t, n, ratio, pos', core', box')
    ensures core == core' && box == box'
  {
    assert Area(t.curve, pos) <= Area(t.curve, pos') <= Area(t.curve, pos);
    ArrangeLeaves(t, pos, box, true, ratio);
    HoldingUnique(core, core', Arrange(t, pos, box, true, ratio), Labels(t), n);
  }

  /** An expression is placed in one way only. */
  lemma CoreUnique(s: seq<int>, shapes: seq<Shape>, ratio: real, core: seq<Rect>, box: Rect, core': seq<Rect>,
                   box': Rect)
    requires IsCore(s, shapes, ratio, core, box) && IsCore(s, shapes, ratio, core', box')
    ensures core == core' && box == box'
  {
    var sl, pos :| CoreBy(s, shapes, ratio, sl, pos, core, box);
    var sl', pos' :| CoreBy(s, shapes, ratio, sl', pos', core', box');
    PostorderInjective(sl, sl', |shapes|);
    TreeCoreUnique(Decorated(sl, shapes), |shapes|, ratio, pos, core, box, pos', core', box');
  }

  lemma CorePositive(t: Tree, n: nat, ratio: real, pos: nat, core: seq<Rect>, box: Rect)
    requires CoreOfTree(t, n, ratio, pos, core, box) && ratio >= 0.0
    ensures AllPositive(core) && PositiveRect(box)
  {
    var l := Arrange(t, pos, box, true, ratio);
    PositiveCurve(t);
    ArrangeLeaves(t, pos, box, true, ratio);
    ArrangeSound(t, pos, box, true, ratio);
    HoldingPositive(core, l, Labels(t), n);
  }

  lemma RootBoxArea(t: Tree, pos: nat)
    requires pos < |t.curve.x|
    ensures AreaOf(RootBox(t, pos)) == Area(t.curve, pos)
  {
  }

  lemma StaircaseTreeIsComplete(sl: Slicing, shapes: seq<Shape>, t: Tree)
    requires OverUnits(sl, |shapes|) && t == Decorated(sl, shapes) && forall c :: c in shapes ==> Staircase(c)
    ensures Complete(t)
  {
    DecoratedIsComplete(sl, shapes);
  }

  /** No choice of orientations for the units packs this expression into less area. */
  lemma CoreIsOptimal(t: Tree, n: nat, ratio: real, pos: nat, core: seq<Rect>, box: Rect, c: Choice, w: real, h: real)
    requires CoreOfTree(t, n, ratio, pos, core, box) && Complete(t)
    requires Fits(t, c) && Width(t, c) <= w && Height(t, c) <= h
    ensures AreaOf(box) <= w * h
  {
    RootBoxArea(t, pos);
    LeastAreaIsOptimal(t, pos, c, w, h);
  }

  /** ... and so for what an expression is placed as: whatever orientations its units take, they need
      no less area. */
  lemma PlacedIsOptimal(s: seq<int>, shapes: seq<Shape>, ratio: real, core: seq<Rect>, box: Rect, sl: Slicing,
                        c: Choice, w: real, h: real)
    requires IsCore(s, shapes, ratio, core, box) && OverUnits(sl, |shapes|) && Postorder(sl) == s
    requires forall e :: e in shapes ==> Staircase(e)
    requires Fits(Decorated(sl, shapes), c) && Width(Decorated(sl, shapes), c) <= w
    requires Height(Decorated(sl, shapes), c) <= h
    ensures AreaOf(box) <= w * h
  {
    var sl', pos :| CoreBy(s, shapes, ratio, sl', pos, core, box);
    PostorderInjective(sl, sl', |shapes|);
    StaircaseTreeIsComplete(sl, shapes, Decorated(sl, shapes));
    CoreIsOptimal(Decorated(sl, shapes), |shapes|, ratio, pos, core, box, c, w, h);
  }

  // ---------- L2 and rim ----------

  /** What is wrapped around the core: L2 cache area and rim thickness. */
  datatype Wrapping = Wrapping(l2: Option<real>, rim: Option<real>)

  predicate Wrappable(w: Wrapping) {
    (w.l2.Some? ==> w.l2.value > 0.0) && (w.rim.Some? ==> w.rim.value > 0.0)
  }

  function L2Blocks(w: Wrapping): nat {
    if w.l2.Some? then WrapL2.L2_ARMS + 1 else 0
  }

  /** Units to allocate: n core units, n - 1 dead blocks, the L2's blocks, and with a rim
      twice as many and two more. */
  function Slots(n: nat, w: Wrapping): nat
    requires n >= 1
  {
    var inner := 2 * n - 1 + L2Blocks(w);
    if w.rim.Some? then inner + (2 * inner + 2) else inner
  }

  ghost function WithL2(sqrt: real -> real, w: Wrapping, core: seq<Rect>, box: Rect): seq<Rect> {
    if w.l2.None? then core
    else WrapL2.Wrapped(core, box, WrapL2.L2SizeOf(sqrt, AreaOf(box), box.width, box.height, w.l2.value))
  }

  ghost function L2Box(sqrt: real -> real, w: Wrapping, box: Rect): Rect {
    if w.l2.None? then box
    else WrapL2.Chip(WrapL2.L2SizeOf(sqrt, AreaOf(box), box.width, box.height, w.l2.value), box.height)
  }

  ghost function WithRim(w: Wrapping, units: seq<Rect>, box: Rect): seq<Rect> {
    if w.rim.None? then units else WrapRim.Framed(units, box, w.rim.value)
  }

  ghost function RimBox(w: Wrapping, box: Rect): Rect {
    if w.rim.None? then box
    else Rect(0.0, 0.0, box.width + 2.0 * w.rim.value, box.height + 2.0 * w.rim.value)
  }

  method AddL2(sqrt: real -> real, flp: Floorplan, w: Wrapping, ghost box: Rect)
    requires WrapL2.IsSqrt(sqrt) && Wrappable(w) && flp.nUnits + L2Blocks(w) <= flp.units.Length
    requires Tiles(flp.units[..flp.nUnits], box) && AllPositive(flp.units[..flp.nUnits]) && PositiveRect(box)
    modifies flp, flp.units
    ensures flp.nUnits == old(flp.nUnits) + L2Blocks(w)
    ensures flp.units[..flp.nUnits] == WithL2(sqrt, w, old(flp.units[..flp.nUnits]), box)
    ensures Tiles(flp.units[..flp.nUnits], L2Box(sqrt, w, box)) && AllPositive(flp.units[..flp.nUnits])
    ensures PositiveRect(L2Box(sqrt, w, box))
  {
    if w.l2.Some? {
      var s := WrapL2.WrapAround(sqrt, flp, w.l2.value, box);
    }
  }

  method AddRim(flp: Floorplan, w: Wrapping, ghost box: Rect) returns (rimBlocks: nat)
    requires Wrappable(w) && flp.nUnits <= flp.units.Length
    requires w.rim.Some? ==> 3 * flp.nUnits + 2 <= flp.units.Length
    requires Tiles(flp.units[..flp.nUnits], box) && AllPositive(flp.units[..flp.nUnits]) && PositiveRect(box)
    modifies flp, flp.units
    ensures flp.nUnits == old(flp.nUnits) + rimBlocks <= flp.units.Length
    ensures if w.rim.Some? then rimBlocks <= 2 * old(flp.nUnits) + 2 else rimBlocks == 0
    ensures flp.units[..flp.nUnits] == WithRim(w, old(flp.units[..flp.nUnits]), box)
    ensures Tiles(flp.units[..flp.nUnits], RimBox(w, box))
  {
    ghost var outer := RimBox(w, box);
    rimBlocks := 0;
    if w.rim.Some? {
      rimBlocks := WrapRim.WrapAround(flp, w.rim.value, box);
      assert Tiles(flp.units[..flp.nUnits], outer);
    }
  }

  /** Takes rim and L2 blocks away again, brings the compacted dead blocks back and blanks all
      dead blocks. */
  method RestoreDeadBlocks(flp: Floorplan, n: nat, compacted: nat, w: Wrapping, rimBlocks: nat)
    requires n >= 1 && compacted <= n - 1 && (w.rim.None? ==> rimBlocks == 0)
    requires flp.nUnits + compacted == 2 * n - 1 + L2Blocks(w) + rimBlocks && 2 * n - 1 <= flp.units.Length
    modifies flp, flp.units
    ensures flp.nUnits == 2 * n - 1
    ensures forall i :: 0 <= i < n ==> flp.units[i] == old(flp.units[i])
    ensures forall i :: n <= i < 2 * n - 1 ==> flp.units[i] == Rect(0.0, 0.0, 0.0, 0.0)
  {
    if w.rim.Some? {
      flp.nUnits := flp.nUnits - rimBlocks;
    }
    if w.l2.Some? {
      flp.nUnits := flp.nUnits - (WrapL2.L2_ARMS + 1);
    }
    flp.nUnits := flp.nUnits + compacted;
    for i := 0 to n - 1
      invariant forall k :: 0 <= k < n ==> flp.units[k] == old(flp.units[k])
      invariant forall k :: n <= k < n + i ==> flp.units[k] == Rect(0.0, 0.0, 0.0, 0.0)
      invariant flp.nUnits == 2 * n - 1
    {
      flp.units[n + i] := Rect(0.0, 0.0, 0.0, 0.0);
    }
  }
}
