/** Where recursive sizing puts the leaves of a slicing tree and the dead space between
    them, and why the result tiles the root's box. Vertical and horizontal cuts are one
    case here: "along" is the direction in which the two parts follow each other, "across"
    the other one. */
module Arrangement {
  import opened PolishExpressions
  import opened Shapes
  import opened SlicingTrees
  import opened Tilings

  function Abs(x: real): real {
    if x < 0.0 then -x else x
  }

  /** How one box is shared out: the across sizes of both parts, the along size of the
      second, and the gap above the lower part with whether it survives as dead space. */
  datatype Division = Division(b1: real, a2: real, b2: real, survives: bool,
                               gapAlong: real, gapAcross: real, gapLength: real, gapDepth: real)

  /** Shares a box of size big along and tall across between parts a1 x b1 and a2 x b2. */
  function Divide(a1: real, b1: real, a2: real, b2: real, big: real, tall: real, compact: bool, ratio: real): Division
    requires b1 > 0.0 && b2 > 0.0
  {
    var slack := if tall > Max(b1, b2) then tall - Max(b1, b2) else 0.0;
    var e1, e2 := b1 + slack, b2 + slack;
    var f2 := if big > a1 + a2 then a2 + (big - (a1 + a2)) else a2;
    var absorbed := compact && Abs(e2 - e1) / Min(e1, e2) <= ratio;
    Division(if absorbed && e2 >= e1 then e2 else e1, f2, if absorbed && e2 < e1 then e1 else e2, !absorbed,
             if e2 >= e1 then 0.0 else a1, Min(e1, e2), if e2 >= e1 then a1 else f2, Abs(e2 - e1))
  }

  /** The rectangle at an along/across offset from (x, y). */
  function PlaceAt(cut: int, x: real, y: real, along: real, across: real, length: real, depth: real): Rect {
    if cut == CUT_VERTICAL then Rect(x + along, y + across, length, depth)
    else Rect(x + across, y + along, depth, length)
  }

  function Along(cut: int, w: real, h: real): real {
    if cut == CUT_VERTICAL then w else h
  }

  function Across(cut: int, w: real, h: real): real {
    if cut == CUT_VERTICAL then h else w
  }

  function GapRect(cut: int, x: real, y: real, d: Division): Rect {
    PlaceAt(cut, x, y, d.gapAlong, d.gapAcross, d.gapLength, d.gapDepth)
  }

  /** A point of the box is in exactly one of the two parts and the surviving gap. */
  lemma DivideCovers(cut: int, x: real, y: real, a1: real, b1: real, a2: real, b2: real, big: real, tall: real,
                     compact: bool, ratio: real, px: real, py: real)
    requires a1 > 0.0 && b1 > 0.0 && a2 > 0.0 && b2 > 0.0
    requires big >= a1 + a2 && tall >= Max(b1, b2)
    ensures var d := Divide(a1, b1, a2, b2, big, tall, compact, ratio);
            Indicator(PlaceAt(cut, x, y, 0.0, 0.0, big, tall), px, py)
            == Indicator(PlaceAt(cut, x, y, 0.0, 0.0, a1, d.b1), px, py)
               + Indicator(PlaceAt(cut, x, y, a1, 0.0, d.a2, d.b2), px, py)
               + if d.survives then Indicator(GapRect(cut, x, y, d), px, py) else 0
  {
  }

  lemma DivideArea(a1: real, b1: real, a2: real, b2: real, big: real, tall: real, compact: bool, ratio: real)
    requires a1 > 0.0 && b1 > 0.0 && a2 > 0.0 && b2 > 0.0
    requires big >= a1 + a2 && tall >= Max(b1, b2)
    ensures var d := Divide(a1, b1, a2, b2, big, tall, compact, ratio);
            big * tall == a1 * d.b1 + d.a2 * d.b2 + if d.survives then d.gapLength * d.gapDepth else 0.0
  {
    var d := Divide(a1, b1, a2, b2, big, tall, compact, ratio);
    assert a1 + d.a2 == big;
    if !d.survives {
      assert d.b1 == d.b2 == tall;
      assert a1 * tall + d.a2 * tall == (a1 + d.a2) * tall;
    } else if d.b2 >= d.b1 {
      assert d.b2 == tall && d.gapLength == a1 && d.gapDepth == tall - d.b1;
      ThreeParts(a1, d.a2, d.b1, tall);
    } else {
      assert d.b1 == tall && d.gapLength == d.a2 && d.gapDepth == tall - d.b2;
      ThreeParts(d.a2, a1, d.b2, tall);
    }
  }

  lemma ThreeParts(u: real, v: real, b: real, tall: real)
    ensures (u + v) * tall == u * b + v * tall + u * (tall - b)
  {
  }

  /** Nothing shrinks; without compaction and slack nothing grows either. */
  lemma DivideGrows(a1: real, b1: real, a2: real, b2: real, big: real, tall: real, compact: bool, ratio: real)
    requires a1 > 0.0 && b1 > 0.0 && a2 > 0.0 && b2 > 0.0
    requires big >= a1 + a2 && tall >= Max(b1, b2)
    ensures var d := Divide(a1, b1, a2, b2, big, tall, compact, ratio);
            && d.b1 >= b1 && d.a2 >= a2 && d.b2 >= b2
            && d.gapLength > 0.0 && d.gapDepth >= 0.0
            && (!compact && big == a1 + a2 && tall == Max(b1, b2) ==> d.b1 == b1 && d.a2 == a2 && d.b2 == b2)
            && (compact && ratio >= 0.0 && d.survives ==> d.gapDepth > 0.0)
  {
    var slack := if tall > Max(b1, b2) then tall - Max(b1, b2) else 0.0;
    var e1, e2 := b1 + slack, b2 + slack;
    if e1 == e2 {
      assert Abs(e2 - e1) / Min(e1, e2) == 0.0;
    }
  }

  // ---------- the whole tree ----------

  /** Placed units, left to right, and surviving dead blocks, outermost first. */
  datatype Layout = Layout(leaves: seq<(nat, Rect)>, dead: seq<Rect>)

  function AlongOf(c: Shape, k: nat, cut: int): real
    requires k < |c.x|
  {
    Along(cut, c.x[k], c.y[k])
  }

  function AcrossOf(c: Shape, k: nat, cut: int): real
    requires k < |c.x|
  {
    Across(cut, c.x[k], c.y[k])
  }

  /** The boxes of the two parts and the dead space, if any survives. */
  datatype Parts = Parts(left: Rect, right: Rect, gap: seq<Rect>)

  /** How a division at a cut fills a box; the second part begins at the median. */
  function PartsOf(cut: int, box: Rect, a1: real, median: real, d: Division): Parts {
    Parts(PlaceAt(cut, box.leftx, box.bottomy, 0.0, 0.0, a1, d.b1),
          PlaceAt(cut, box.leftx, box.bottomy, median, 0.0, d.a2, d.b2),
          if d.survives then [GapRect(cut, box.leftx, box.bottomy, d)] else [])
  }

  /** How entry pos of a node shares its box between the entries it points at. */
  function PartsAt(t: Tree, pos: nat, box: Rect, compact: bool, ratio: real): Parts
    requires t.Node? && pos < |t.curve.x| && Summed(t) && PositiveLeaves(t)
  {
    assert EntryJoins(t.curve, pos, t.left.curve, t.right.curve, t.cut);
    PositiveCurve(t.left);
    PositiveCurve(t.right);
    var p, q := t.curve.leftPos[pos], t.curve.rightPos[pos];
    var a1 := AlongOf(t.left.curve, p, t.cut);
    PartsOf(t.cut, box, a1, t.curve.median[pos],
            Divide(a1, AcrossOf(t.left.curve, p, t.cut),
                   AlongOf(t.right.curve, q, t.cut), AcrossOf(t.right.curve, q, t.cut),
                   Along(t.cut, box.width, box.height), Across(t.cut, box.width, box.height), compact, ratio))
  }

  /** The layout of t at entry pos stretched over a box. */
  function Arrange(t: Tree, pos: nat, box: Rect, compact: bool, ratio: real): Layout
    requires pos < |t.curve.x| && Summed(t) && PositiveLeaves(t)
    decreases t
  {
    match t
    case Leaf(u, _) => Layout([(u, box)], [])
    case Node(cut, l, r, c) =>
      assert EntryJoins(c, pos, l.curve, r.curve, cut);
      var ps := PartsAt(t, pos, box, compact, ratio);
      var left := Arrange(l, c.leftPos[pos], ps.left, compact, ratio);
      var right := Arrange(r, c.rightPos[pos], ps.right, compact, ratio);
      Joined(left, right, ps.gap)
  }

  function Joined(left: Layout, right: Layout, gap: seq<Rect>): Layout {
    Layout(left.leaves + right.leaves, gap + left.dead + right.dead)
  }

  function Rects(ls: seq<(nat, Rect)>): (rs: seq<Rect>)
    ensures |rs| == |ls|
    ensures forall i :: 0 <= i < |ls| ==> rs[i] == ls[i].1
  {
    if ls == [] then [] else Rects(ls[..|ls| - 1]) + [ls[|ls| - 1].1]
  }

  function Covered(l: Layout, px: real, py: real): nat {
    Cover(Rects(l.leaves), px, py) + Cover(l.dead, px, py)
  }

  function Occupied(l: Layout): real {
    TotalArea(Rects(l.leaves)) + TotalArea(l.dead)
  }

  lemma RectsConcat(a: seq<(nat, Rect)>, b: seq<(nat, Rect)>)
    ensures Rects(a + b) == Rects(a) + Rects(b)
  {
  }

  /** Counting and area add up when two layouts and an optional gap are put together. */
  lemma JoinedAddsUp(left: Layout, right: Layout, gap: seq<Rect>, px: real, py: real)
    ensures Covered(Joined(left, right, gap), px, py) ==
            Covered(left, px, py) + Covered(right, px, py) + Cover(gap, px, py)
    ensures Occupied(Joined(left, right, gap)) == Occupied(left) + Occupied(right) + TotalArea(gap)
  {
    RectsConcat(left.leaves, right.leaves);
    CoverConcat(Rects(left.leaves), Rects(right.leaves), px, py);
    CoverConcat(gap + left.dead, right.dead, px, py);
    CoverConcat(gap, left.dead, px, py);
  }

  lemma OptionalGap(survives: bool, g: Rect, px: real, py: real)
    ensures var gap := if survives then [g] else [];
            && Cover(gap, px, py) == (if survives then Indicator(g, px, py) else 0)
            && TotalArea(gap) == (if survives then AreaOf(g) else 0.0)
  {
    CoverLast([], g, px, py);
    assert [] + [g] == [g];
  }

  /** The box is large enough for entry pos. */
  ghost predicate Roomy(t: Tree, pos: nat, box: Rect)
    requires pos < |t.curve.x|
  {
    box.width >= t.curve.x[pos] && box.height >= t.curve.y[pos]
  }

  /** ps fills box: every point counted once, areas adding up. */
  ghost predicate FillsAt(ps: Parts, box: Rect, px: real, py: real) {
    Indicator(box, px, py) == Indicator(ps.left, px, py) + Indicator(ps.right, px, py) + Cover(ps.gap, px, py)
  }

  ghost predicate AreaKept(ps: Parts, box: Rect) {
    AreaOf(box) == AreaOf(ps.left) + AreaOf(ps.right) + TotalArea(ps.gap)
  }

  lemma PartsFill(cut: int, box: Rect, a1: real, b1: real, a2: real, b2: real, compact: bool, ratio: real,
                  px: real, py: real)
    requires a1 > 0.0 && b1 > 0.0 && a2 > 0.0 && b2 > 0.0
    requires Along(cut, box.width, box.height) >= a1 + a2 && Across(cut, box.width, box.height) >= Max(b1, b2)
    ensures var d := Divide(a1, b1, a2, b2, Along(cut, box.width, box.height), Across(cut, box.width, box.height),
                            compact, ratio);
            FillsAt(PartsOf(cut, box, a1, a1, d), box, px, py)
  {
    var big, tall := Along(cut, box.width, box.height), Across(cut, box.width, box.height);
    var d := Divide(a1, b1, a2, b2, big, tall, compact, ratio);
    DivideCovers(cut, box.leftx, box.bottomy, a1, b1, a2, b2, big, tall, compact, ratio, px, py);
    OptionalGap(d.survives, GapRect(cut, box.leftx, box.bottomy, d), px, py);
  }

  lemma PartsArea(cut: int, box: Rect, a1: real, median: real, d: Division)
    requires Along(cut, box.width, box.height) * Across(cut, box.width, box.height)
             == a1 * d.b1 + d.a2 * d.b2 + if d.survives then d.gapLength * d.gapDepth else 0.0
    ensures AreaKept(PartsOf(cut, box, a1, median, d), box)
  {
    OptionalGap(d.survives, GapRect(cut, box.leftx, box.bottomy, d), 0.0, 0.0);
  }

  /** The parts of a roomy box are roomy. */
  lemma NodeRoomy(t: Tree, pos: nat, box: Rect, compact: bool, ratio: real)
    requires t.Node? && pos < |t.curve.x| && Summed(t) && PositiveLeaves(t) && Roomy(t, pos, box)
    ensures EntryJoins(t.curve, pos, t.left.curve, t.right.curve, t.cut)
    ensures Roomy(t.left, t.curve.leftPos[pos], PartsAt(t, pos, box, compact, ratio).left)
    ensures Roomy(t.right, t.curve.rightPos[pos], PartsAt(t, pos, box, compact, ratio).right)
  {
    assert EntryJoins(t.curve, pos, t.left.curve, t.right.curve, t.cut);
    PositiveCurve(t.left);
    PositiveCurve(t.right);
    var p, q := t.curve.leftPos[pos], t.curve.rightPos[pos];
    var a1, b1 := AlongOf(t.left.curve, p, t.cut), AcrossOf(t.left.curve, p, t.cut);
    var a2, b2 := AlongOf(t.right.curve, q, t.cut), AcrossOf(t.right.curve, q, t.cut);
    DivideGrows(a1, b1, a2, b2, Along(t.cut, box.width, box.height), Across(t.cut, box.width, box.height), compact,
                ratio);
  }

  lemma NodeFills(t: Tree, pos: nat, box: Rect, compact: bool, ratio: real, px: real, py: real)
    requires t.Node? && pos < |t.curve.x| && Summed(t) && PositiveLeaves(t) && Roomy(t, pos, box)
    ensures FillsAt(PartsAt(t, pos, box, compact, ratio), box, px, py)
  {
    assert EntryJoins(t.curve, pos, t.left.curve, t.right.curve, t.cut);
    PositiveCurve(t.left);
    PositiveCurve(t.right);
    var p, q := t.curve.leftPos[pos], t.curve.rightPos[pos];
    var a1, b1 := AlongOf(t.left.curve, p, t.cut), AcrossOf(t.left.curve, p, t.cut);
    var a2, b2 := AlongOf(t.right.curve, q, t.cut), AcrossOf(t.right.curve, q, t.cut);
    PartsFill(t.cut, box, a1, b1, a2, b2, compact, ratio, px, py);
  }

  lemma NodeArea(t: Tree, pos: nat, box: Rect, compact: bool, ratio: real)
    requires t.Node? && pos < |t.curve.x| && Summed(t) && PositiveLeaves(t) && Roomy(t, pos, box)
    ensures AreaKept(PartsAt(t, pos, box, compact, ratio), box)
  {
    assert EntryJoins(t.curve, pos, t.left.curve, t.right.curve, t.cut);
    PositiveCurve(t.left);
    PositiveCurve(t.right);
    var p, q := t.curve.leftPos[pos], t.curve.rightPos[pos];
    var a1, b1 := AlongOf(t.left.curve, p, t.cut), AcrossOf(t.left.curve, p, t.cut);
    var a2, b2 := AlongOf(t.right.curve, q, t.cut), AcrossOf(t.right.curve, q, t.cut);
    PartsKeepArea(t.cut, box, a1, b1, a2, b2, compact, ratio);
  }

  lemma PartsKeepArea(cut: int, box: Rect, a1: real, b1: real, a2: real, b2: real, compact: bool, ratio: real)
    requires a1 > 0.0 && b1 > 0.0 && a2 > 0.0 && b2 > 0.0
    requires Along(cut, box.width, box.height) >= a1 + a2 && Across(cut, box.width, box.height) >= Max(b1, b2)
    ensures var d := Divide(a1, b1, a2, b2, Along(cut, box.width, box.height), Across(cut, box.width, box.height),
                            compact, ratio);
            AreaKept(PartsOf(cut, box, a1, a1, d), box)
  {
    var big, tall := Along(cut, box.width, box.height), Across(cut, box.width, box.height);
    DivideArea(a1, b1, a2, b2, big, tall, compact, ratio);
    PartsArea(cut, box, a1, a1, Divide(a1, b1, a2, b2, big, tall, compact, ratio));
  }

  lemma JoinedFills(left: Layout, right: Layout, ps: Parts, box: Rect, px: real, py: real)
    requires FillsAt(ps, box, px, py) && AreaKept(ps, box)
    requires Covered(left, px, py) == Indicator(ps.left, px, py) && Occupied(left) == AreaOf(ps.left)
    requires Covered(right, px, py) == Indicator(ps.right, px, py) && Occupied(right) == AreaOf(ps.right)
    ensures Covered(Joined(left, right, ps.gap), px, py) == Indicator(box, px, py)
    ensures Occupied(Joined(left, right, ps.gap)) == AreaOf(box)
  {
    JoinedAddsUp(left, right, ps.gap, px, py);
  }

  /** Leaves and surviving dead blocks hold every point of the box exactly once and no point
      outside it, and their areas add up to the area of the box. */
  lemma {:induction false} ArrangeFills(t: Tree, pos: nat, box: Rect, compact: bool, ratio: real, px: real, py: real)
    requires pos < |t.curve.x| && Summed(t) && PositiveLeaves(t) && Roomy(t, pos, box)
    ensures Covered(Arrange(t, pos, box, compact, ratio), px, py) == Indicator(box, px, py)
    ensures Occupied(Arrange(t, pos, box, compact, ratio)) == AreaOf(box)
    decreases t
  {
    match t
    case Leaf(u, _) =>
      CoverLast([], box, px, py);
      assert Rects([(u, box)]) == [] + [box];
    case Node(cut, l, r, c) =>
      NodeRoomy(t, pos, box, compact, ratio);
      NodeFills(t, pos, box, compact, ratio, px, py);
      NodeArea(t, pos, box, compact, ratio);
      var ps := PartsAt(t, pos, box, compact, ratio);
      ArrangeFills(l, c.leftPos[pos], ps.left, compact, ratio, px, py);
      ArrangeFills(r, c.rightPos[pos], ps.right, compact, ratio, px, py);
      JoinedFills(Arrange(l, c.leftPos[pos], ps.left, compact, ratio),
                  Arrange(r, c.rightPos[pos], ps.right, compact, ratio), ps, box, px, py);
  }

  // ---------- which units are placed, and how large ----------

  /** Units of the leaves, left to right. */
  function Labels(t: Tree): seq<nat> {
    match t
    case Leaf(u, _) => [u]
    case Node(_, l, r, _) => Labels(l) + Labels(r)
  }

  /** Number of cuts in the tree. */
  function Inner(t: Tree): nat {
    match t
    case Leaf(_, _) => 0
    case Node(_, l, r, _) => Inner(l) + Inner(r) + 1
  }

  /** Boxes of the leaves as entry pos orients them, left to right. */
  function ChosenSizes(t: Tree, pos: nat): seq<(real, real)>
    requires pos < |t.curve.x| && Summed(t)
  {
    match t
    case Leaf(_, c) => [(c.x[pos], c.y[pos])]
    case Node(cut, l, r, c) =>
      assert EntryJoins(c, pos, l.curve, r.curve, cut);
      ChosenSizes(l, c.leftPos[pos]) + ChosenSizes(r, c.rightPos[pos])
  }

  ghost predicate AtLeast(ls: seq<(nat, Rect)>, sizes: seq<(real, real)>) {
    |ls| == |sizes| && forall i :: 0 <= i < |ls| ==> LeafAtLeast(ls[i].1, sizes[i])
  }

  ghost predicate LeafAtLeast(r: Rect, size: (real, real)) {
    r.width >= size.0 && r.height >= size.1
  }

  ghost predicate Labelled(ls: seq<(nat, Rect)>, us: seq<nat>) {
    |ls| == |us| && forall i :: 0 <= i < |ls| ==> ls[i].0 == us[i]
  }

  lemma AtLeastConcat(a: seq<(nat, Rect)>, b: seq<(nat, Rect)>, s: seq<(real, real)>, t: seq<(real, real)>)
    requires AtLeast(a, s) && AtLeast(b, t)
    ensures AtLeast(a + b, s + t)
  {
  }

  lemma LabelledConcat(a: seq<(nat, Rect)>, b: seq<(nat, Rect)>, us: seq<nat>, vs: seq<nat>)
    requires Labelled(a, us) && Labelled(b, vs)
    ensures Labelled(a + b, us + vs)
  {
  }

  /** Each leaf appears once, in order, no smaller than the orientation chosen for it, and
      there are no more dead blocks than cuts. */
  lemma {:induction false} ArrangeLeaves(t: Tree, pos: nat, box: Rect, compact: bool, ratio: real)
    requires pos < |t.curve.x| && Summed(t) && PositiveLeaves(t) && Roomy(t, pos, box)
    ensures var l := Arrange(t, pos, box, compact, ratio);
            && Labelled(l.leaves, Labels(t))
            && AtLeast(l.leaves, ChosenSizes(t, pos))
            && |l.dead| <= Inner(t)
    decreases t
  {
    match t
    case Leaf(u, _) =>
    case Node(cut, l, r, c) =>
      NodeRoomy(t, pos, box, compact, ratio);
      var ps := PartsAt(t, pos, box, compact, ratio);
      ArrangeLeaves(l, c.leftPos[pos], ps.left, compact, ratio);
      ArrangeLeaves(r, c.rightPos[pos], ps.right, compact, ratio);
      var left := Arrange(l, c.leftPos[pos], ps.left, compact, ratio);
      var right := Arrange(r, c.rightPos[pos], ps.right, compact, ratio);
      LabelledConcat(left.leaves, right.leaves, Labels(l), Labels(r));
      AtLeastConcat(left.leaves, right.leaves, ChosenSizes(l, c.leftPos[pos]), ChosenSizes(r, c.rightPos[pos]));
  }

  /** Positive sides for a leaf; dead blocks are flat only when compaction is off. */
  ghost predicate SoundRect(r: Rect, strict: bool) {
    r.width >= 0.0 && r.height >= 0.0 && (strict ==> r.width > 0.0 && r.height > 0.0)
  }

  ghost predicate SoundLayout(l: Layout, strict: bool) {
    && (forall i :: 0 <= i < |l.leaves| ==> SoundRect(l.leaves[i].1, true))
    && (forall i :: 0 <= i < |l.dead| ==> SoundRect(l.dead[i], strict))
  }

  lemma PartsSound(t: Tree, pos: nat, box: Rect, compact: bool, ratio: real)
    requires t.Node? && pos < |t.curve.x| && Summed(t) && PositiveLeaves(t) && Roomy(t, pos, box)
    ensures var ps := PartsAt(t, pos, box, compact, ratio);
            forall i :: 0 <= i < |ps.gap| ==> SoundRect(ps.gap[i], compact && ratio >= 0.0)
  {
    assert EntryJoins(t.curve, pos, t.left.curve, t.right.curve, t.cut);
    PositiveCurve(t.left);
    PositiveCurve(t.right);
    var p, q := t.curve.leftPos[pos], t.curve.rightPos[pos];
    DivideGrows(AlongOf(t.left.curve, p, t.cut), AcrossOf(t.left.curve, p, t.cut),
                AlongOf(t.right.curve, q, t.cut), AcrossOf(t.right.curve, q, t.cut),
                Along(t.cut, box.width, box.height), Across(t.cut, box.width, box.height), compact, ratio);
  }

  lemma {:induction false} ArrangeSound(t: Tree, pos: nat, box: Rect, compact: bool, ratio: real)
    requires pos < |t.curve.x| && Summed(t) && PositiveLeaves(t) && Roomy(t, pos, box)
    ensures SoundLayout(Arrange(t, pos, box, compact, ratio), compact && ratio >= 0.0)
    decreases t
  {
    match t
    case Leaf(_, _) =>
      PositiveCurve(t);
    case Node(cut, l, r, c) =>
      NodeRoomy(t, pos, box, compact, ratio);
      PartsSound(t, pos, box, compact, ratio);
      var ps := PartsAt(t, pos, box, compact, ratio);
      ArrangeSound(l, c.leftPos[pos], ps.left, compact, ratio);
      ArrangeSound(r, c.rightPos[pos], ps.right, compact, ratio);
  }

  /** With compaction off and no stretching every leaf has exactly its chosen size. */
  lemma {:induction false} ArrangeExact(t: Tree, pos: nat, box: Rect, ratio: real)
    requires pos < |t.curve.x| && Summed(t) && PositiveLeaves(t)
    requires box.width == t.curve.x[pos] && box.height == t.curve.y[pos]
    ensures |Arrange(t, pos, box, false, ratio).leaves| == |ChosenSizes(t, pos)|
    ensures forall i :: 0 <= i < |ChosenSizes(t, pos)| ==>
              SizeIs(Arrange(t, pos, box, false, ratio).leaves[i].1, ChosenSizes(t, pos)[i])
    decreases t
  {
    match t
    case Leaf(_, _) =>
    case Node(cut, l, r, c) =>
      PartsExact(t, pos, box, ratio);
      var ps := PartsAt(t, pos, box, false, ratio);
      ArrangeExact(l, c.leftPos[pos], ps.left, ratio);
      ArrangeExact(r, c.rightPos[pos], ps.right, ratio);
  }

  ghost predicate SizeIs(r: Rect, size: (real, real)) {
    r.width == size.0 && r.height == size.1
  }

  lemma PartsExact(t: Tree, pos: nat, box: Rect, ratio: real)
    requires t.Node? && pos < |t.curve.x| && Summed(t) && PositiveLeaves(t)
    requires box.width == t.curve.x[pos] && box.height == t.curve.y[pos]
    ensures EntryJoins(t.curve, pos, t.left.curve, t.right.curve, t.cut)
    ensures var ps := PartsAt(t, pos, box, false, ratio);
            var p, q := t.curve.leftPos[pos], t.curve.rightPos[pos];
            && ps.left.width == t.left.curve.x[p] && ps.left.height == t.left.curve.y[p]
            && ps.right.width == t.right.curve.x[q] && ps.right.height == t.right.curve.y[q]
  {
    assert EntryJoins(t.curve, pos, t.left.curve, t.right.curve, t.cut);
    PositiveCurve(t.left);
    PositiveCurve(t.right);
    var p, q := t.curve.leftPos[pos], t.curve.rightPos[pos];
    DivideGrows(AlongOf(t.left.curve, p, t.cut), AcrossOf(t.left.curve, p, t.cut),
                AlongOf(t.right.curve, q, t.cut), AcrossOf(t.right.curve, q, t.cut),
                Along(t.cut, box.width, box.height), Across(t.cut, box.width, box.height), false, ratio);
  }
}
