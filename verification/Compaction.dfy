/** Which dead space a layout keeps. Each gap lies on the lower of the two parts of its box;
    with compaction it is kept exactly when it is deeper than the ratio times that part. */
module Compaction {
  import opened Shapes
  import opened SlicingTrees
  import opened Tilings
  import opened Arrangement

  /** A dead block, the part it lies on, and the cut between the two parts of their box. */
  datatype Gap = Gap(cut: int, under: Rect, dead: Rect)

  /** The part that reaches less far across. */
  function LowerPart(cut: int, ps: Parts): Rect {
    if Across(cut, ps.right.width, ps.right.height) >= Across(cut, ps.left.width, ps.left.height) then ps.left
    else ps.right
  }

  /** The dead block covers the far side of the part, neither more nor less of it. */
  ghost predicate LiesOn(g: Gap) {
    g.dead == PlaceAt(g.cut, g.under.leftx, g.under.bottomy, 0.0, Across(g.cut, g.under.width, g.under.height),
                      Along(g.cut, g.under.width, g.under.height), Across(g.cut, g.dead.width, g.dead.height))
  }

  ghost predicate Deep(g: Gap, ratio: real) {
    Across(g.cut, g.dead.width, g.dead.height) > ratio * Across(g.cut, g.under.width, g.under.height)
  }

  function GapsAt(cut: int, ps: Parts): seq<Gap> {
    if ps.gap == [] then [] else [Gap(cut, LowerPart(cut, ps), ps.gap[0])]
  }

  /** The surviving gaps of a layout, outermost first. */
  function Gaps(t: Tree, pos: nat, box: Rect, compact: bool, ratio: real): seq<Gap>
    requires pos < |t.curve.x| && Summed(t) && PositiveLeaves(t)
    decreases t
  {
    match t
    case Leaf(_, _) => []
    case Node(cut, l, r, c) =>
      assert EntryJoins(c, pos, l.curve, r.curve, cut);
      var ps := PartsAt(t, pos, box, compact, ratio);
      GapsAt(cut, ps) + Gaps(l, c.leftPos[pos], ps.left, compact, ratio)
      + Gaps(r, c.rightPos[pos], ps.right, compact, ratio)
  }

  // ---------- one box ----------

  lemma QuotientAtMost(x: real, m: real, ratio: real)
    requires m > 0.0
    ensures x / m <= ratio <==> x <= ratio * m
  {
    var q := x / m;
    assert x == q * m;
    if q <= ratio {
      assert (ratio - q) * m >= 0.0;
    } else {
      assert (q - ratio) * m > 0.0;
    }
  }

  /** Both parts are stretched by the slack across. The gap that is left is kept exactly when it is
      deeper than the ratio times the lower part; otherwise both parts reach all the way across. */
  lemma DivideSurvives(a1: real, b1: real, a2: real, b2: real, big: real, tall: real, compact: bool, ratio: real)
    requires b1 > 0.0 && b2 > 0.0 && tall >= Max(b1, b2)
    ensures var d, slack := Divide(a1, b1, a2, b2, big, tall, compact, ratio), tall - Max(b1, b2);
            && (d.survives <==> !compact || Abs(b2 - b1) > ratio * (Min(b1, b2) + slack))
            && d.gapDepth == Abs(b2 - b1) && d.gapAcross == Min(b1, b2) + slack
            && d.b1 == (if d.survives then b1 + slack else tall) && d.b2 == (if d.survives then b2 + slack else tall)
  {
    QuotientAtMost(Abs(b2 - b1), Min(b1, b2) + (tall - Max(b1, b2)), ratio);
  }

  /** The same on the boxes of a node: c1 and c2 are the across sizes of the entries it joins. */
  ghost predicate Kept(cut: int, box: Rect, ps: Parts, c1: real, c2: real, compact: bool, ratio: real) {
    var tall := Across(cut, box.width, box.height);
    var slack := tall - Max(c1, c2);
    && |ps.gap| <= 1
    && (|ps.gap| == 1 <==> !compact || Abs(c2 - c1) > ratio * (Min(c1, c2) + slack))
    && Across(cut, ps.left.width, ps.left.height) == (if ps.gap == [] then tall else c1 + slack)
    && Across(cut, ps.right.width, ps.right.height) == (if ps.gap == [] then tall else c2 + slack)
    && forall i :: 0 <= i < |ps.gap| ==> Across(cut, ps.gap[i].width, ps.gap[i].height) == Abs(c2 - c1)
  }

  lemma PartsKept(cut: int, box: Rect, a1: real, b1: real, a2: real, b2: real, median: real, compact: bool, ratio: real)
    requires b1 > 0.0 && b2 > 0.0 && Across(cut, box.width, box.height) >= Max(b1, b2)
    ensures var d := Divide(a1, b1, a2, b2, Along(cut, box.width, box.height), Across(cut, box.width, box.height),
                            compact, ratio);
            Kept(cut, box, PartsOf(cut, box, a1, median, d), b1, b2, compact, ratio)
  {
    DivideSurvives(a1, b1, a2, b2, Along(cut, box.width, box.height), Across(cut, box.width, box.height), compact,
                   ratio);
  }

  lemma GapSurvivesIff(t: Tree, pos: nat, box: Rect, compact: bool, ratio: real)
    requires t.Node? && pos < |t.curve.x| && Summed(t) && PositiveLeaves(t) && Roomy(t, pos, box)
    ensures EntryJoins(t.curve, pos, t.left.curve, t.right.curve, t.cut)
    ensures Kept(t.cut, box, PartsAt(t, pos, box, compact, ratio),
                 AcrossOf(t.left.curve, t.curve.leftPos[pos], t.cut),
                 AcrossOf(t.right.curve, t.curve.rightPos[pos], t.cut), compact, ratio)
  {
    assert EntryJoins(t.curve, pos, t.left.curve, t.right.curve, t.cut);
    PositiveCurve(t.left);
    PositiveCurve(t.right);
    var p, q := t.curve.leftPos[pos], t.curve.rightPos[pos];
    PartsKept(t.cut, box, AlongOf(t.left.curve, p, t.cut), AcrossOf(t.left.curve, p, t.cut),
              AlongOf(t.right.curve, q, t.cut), AcrossOf(t.right.curve, q, t.cut), t.curve.median[pos], compact,
              ratio);
  }

  lemma GapLies(cut: int, box: Rect, a1: real, b1: real, a2: real, b2: real, compact: bool, ratio: real, g: Gap)
    requires b1 > 0.0 && b2 > 0.0 && Across(cut, box.width, box.height) >= Max(b1, b2)
    requires var d := Divide(a1, b1, a2, b2, Along(cut, box.width, box.height), Across(cut, box.width, box.height),
                             compact, ratio);
             d.survives && GapsAt(cut, PartsOf(cut, box, a1, a1, d)) == [g]
    ensures LiesOn(g) && (compact ==> Deep(g, ratio))
  {
    DivideSurvives(a1, b1, a2, b2, Along(cut, box.width, box.height), Across(cut, box.width, box.height), compact,
                   ratio);
  }

  lemma NodeGapLies(t: Tree, pos: nat, box: Rect, compact: bool, ratio: real, i: nat)
    requires t.Node? && pos < |t.curve.x| && Summed(t) && PositiveLeaves(t) && Roomy(t, pos, box)
    requires i < |GapsAt(t.cut, PartsAt(t, pos, box, compact, ratio))|
    ensures var ps := PartsAt(t, pos, box, compact, ratio); var g := GapsAt(t.cut, ps)[i];
            ps.gap == [g.dead] && LiesOn(g) && (compact ==> Deep(g, ratio))
  {
    GapSurvivesIff(t, pos, box, compact, ratio);
    PositiveCurve(t.left);
    PositiveCurve(t.right);
    var p, q := t.curve.leftPos[pos], t.curve.rightPos[pos];
    GapLies(t.cut, box, AlongOf(t.left.curve, p, t.cut), AcrossOf(t.left.curve, p, t.cut),
            AlongOf(t.right.curve, q, t.cut), AcrossOf(t.right.curve, q, t.cut), compact, ratio,
            GapsAt(t.cut, PartsAt(t, pos, box, compact, ratio))[i]);
  }

  // ---------- the whole tree ----------

  ghost predicate Sits(g: Gap, dead: Rect, compact: bool, ratio: real) {
    g.dead == dead && LiesOn(g) && (compact ==> Deep(g, ratio))
  }

  /** Every dead block lies on a part of the layout, and with compaction it is deep. */
  ghost predicate AllSit(gs: seq<Gap>, dead: seq<Rect>, compact: bool, ratio: real) {
    |gs| == |dead| && forall i :: 0 <= i < |gs| ==> Sits(gs[i], dead[i], compact, ratio)
  }

  lemma AllSitConcat(a: seq<Gap>, b: seq<Gap>, u: seq<Rect>, v: seq<Rect>, compact: bool, ratio: real)
    requires AllSit(a, u, compact, ratio) && AllSit(b, v, compact, ratio)
    ensures AllSit(a + b, u + v, compact, ratio)
  {
  }

  lemma {:induction false} GapsSit(t: Tree, pos: nat, box: Rect, compact: bool, ratio: real)
    requires pos < |t.curve.x| && Summed(t) && PositiveLeaves(t) && Roomy(t, pos, box)
    ensures AllSit(Gaps(t, pos, box, compact, ratio), Arrange(t, pos, box, compact, ratio).dead, compact, ratio)
    decreases t
  {
    match t
    case Leaf(_, _) =>
    case Node(cut, l, r, c) =>
      NodeRoomy(t, pos, box, compact, ratio);
      var ps := PartsAt(t, pos, box, compact, ratio);
      GapsSit(l, c.leftPos[pos], ps.left, compact, ratio);
      GapsSit(r, c.rightPos[pos], ps.right, compact, ratio);
      NodeGapsSit(t, pos, box, compact, ratio);
      var left := Gaps(l, c.leftPos[pos], ps.left, compact, ratio);
      var right := Gaps(r, c.rightPos[pos], ps.right, compact, ratio);
      var u := Arrange(l, c.leftPos[pos], ps.left, compact, ratio).dead;
      var v := Arrange(r, c.rightPos[pos], ps.right, compact, ratio).dead;
      AllSitConcat(GapsAt(cut, ps), left, ps.gap, u, compact, ratio);
      AllSitConcat(GapsAt(cut, ps) + left, right, ps.gap + u, v, compact, ratio);
  }

  lemma NodeGapsSit(t: Tree, pos: nat, box: Rect, compact: bool, ratio: real)
    requires t.Node? && pos < |t.curve.x| && Summed(t) && PositiveLeaves(t) && Roomy(t, pos, box)
    ensures var ps := PartsAt(t, pos, box, compact, ratio); AllSit(GapsAt(t.cut, ps), ps.gap, compact, ratio)
  {
    var ps := PartsAt(t, pos, box, compact, ratio);
    if ps.gap != [] {
      NodeGapLies(t, pos, box, compact, ratio, 0);
    }
  }

  // ---------- when compaction changes nothing ----------

  ghost predicate AllDeep(gs: seq<Gap>, ratio: real) {
    forall i :: 0 <= i < |gs| ==> Deep(gs[i], ratio)
  }

  lemma AllDeepConcat(a: seq<Gap>, b: seq<Gap>, ratio: real)
    ensures AllDeep(a + b, ratio) <==> AllDeep(a, ratio) && AllDeep(b, ratio)
  {
    assert forall i :: 0 <= i < |a| ==> (a + b)[i] == a[i];
    assert forall i :: 0 <= i < |b| ==> (a + b)[|a| + i] == b[i];
  }

  /** Without compaction the gap is kept; with it exactly when it is deep, and then the boxes are
      the same. */
  ghost predicate Idle(cut: int, free: Parts, tight: Parts, ratio: real) {
    && |free.gap| == 1 && |tight.gap| <= 1
    && (AllDeep(GapsAt(cut, free), ratio) <==> |tight.gap| == 1)
    && (|tight.gap| == 1 ==> tight == free)
  }

  lemma OneDeep(g: Gap, ratio: real)
    ensures AllDeep([g], ratio) <==> Deep(g, ratio)
  {
    assert [g][0] == g;
  }

  lemma PartsIdle(cut: int, box: Rect, a1: real, b1: real, a2: real, b2: real, median: real, big: real, tall: real,
                  ratio: real)
    requires b1 > 0.0 && b2 > 0.0 && tall >= Max(b1, b2)
    ensures Idle(cut, PartsOf(cut, box, a1, median, Divide(a1, b1, a2, b2, big, tall, false, ratio)),
                 PartsOf(cut, box, a1, median, Divide(a1, b1, a2, b2, big, tall, true, ratio)), ratio)
  {
    DivideSurvives(a1, b1, a2, b2, big, tall, false, ratio);
    DivideSurvives(a1, b1, a2, b2, big, tall, true, ratio);
    var ps := PartsOf(cut, box, a1, median, Divide(a1, b1, a2, b2, big, tall, false, ratio));
    OneDeep(GapsAt(cut, ps)[0], ratio);
    assert Across(cut, LowerPart(cut, ps).width, LowerPart(cut, ps).height) == Min(b1, b2) + (tall - Max(b1, b2));
  }

  lemma NodeIdle(t: Tree, pos: nat, box: Rect, ratio: real)
    requires t.Node? && pos < |t.curve.x| && Summed(t) && PositiveLeaves(t) && Roomy(t, pos, box)
    ensures Idle(t.cut, PartsAt(t, pos, box, false, ratio), PartsAt(t, pos, box, true, ratio), ratio)
  {
    assert EntryJoins(t.curve, pos, t.left.curve, t.right.curve, t.cut);
    PositiveCurve(t.left);
    PositiveCurve(t.right);
    var p, q := t.curve.leftPos[pos], t.curve.rightPos[pos];
    PartsIdle(t.cut, box, AlongOf(t.left.curve, p, t.cut), AcrossOf(t.left.curve, p, t.cut),
              AlongOf(t.right.curve, q, t.cut), AcrossOf(t.right.curve, q, t.cut), t.curve.median[pos],
              Along(t.cut, box.width, box.height), Across(t.cut, box.width, box.height), ratio);
  }

  /** Without compaction every cut leaves a dead block. With it every cut leaves one exactly when
      all of those are deep, and then the two layouts are the same. */
  lemma {:induction false} CountIdle(t: Tree, pos: nat, box: Rect, ratio: real)
    requires pos < |t.curve.x| && Summed(t) && PositiveLeaves(t) && Roomy(t, pos, box)
    ensures |Arrange(t, pos, box, false, ratio).dead| == Inner(t)
    ensures |Arrange(t, pos, box, true, ratio).dead| == Inner(t) <==> AllDeep(Gaps(t, pos, box, false, ratio), ratio)
    ensures AllDeep(Gaps(t, pos, box, false, ratio), ratio) ==>
              Arrange(t, pos, box, true, ratio) == Arrange(t, pos, box, false, ratio)
    decreases t
  {
    match t
    case Leaf(_, _) =>
    case Node(cut, l, r, c) =>
      var free, tight := PartsAt(t, pos, box, false, ratio), PartsAt(t, pos, box, true, ratio);
      NodeRoomy(t, pos, box, false, ratio);
      NodeIdle(t, pos, box, ratio);
      var p, q := c.leftPos[pos], c.rightPos[pos];
      CountIdle(l, p, free.left, ratio);
      CountIdle(r, q, free.right, ratio);
      var left, right := Gaps(l, p, free.left, false, ratio), Gaps(r, q, free.right, false, ratio);
      AllDeepConcat(GapsAt(cut, free), left, ratio);
      AllDeepConcat(GapsAt(cut, free) + left, right, ratio);
      NodeRoomy(t, pos, box, true, ratio);
      ArrangeLeaves(l, p, tight.left, true, ratio);
      ArrangeLeaves(r, q, tight.right, true, ratio);
  }

  /** Compaction changes nothing exactly when every gap without it is deep. */
  lemma CompactionIdleIff(t: Tree, pos: nat, box: Rect, ratio: real)
    requires pos < |t.curve.x| && Summed(t) && PositiveLeaves(t) && Roomy(t, pos, box)
    ensures Arrange(t, pos, box, true, ratio) == Arrange(t, pos, box, false, ratio) <==>
            AllDeep(Gaps(t, pos, box, false, ratio), ratio)
  {
    CountIdle(t, pos, box, ratio);
  }
}
