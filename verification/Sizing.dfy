/** Recursive sizing: fills the floorplan's unit slots from a slicing tree, in place. */
module Sizing {
  import opened PolishExpressions
  import opened Shapes
  import opened SlicingTrees
  import opened Tilings
  import opened Arrangement
  import opened Permutations

  /** Placed units; only the first nUnits slots are in use. */
  class Floorplan {
    const units: array<Rect>
    var nUnits: nat

    constructor (slots: nat)
      ensures units.Length == slots && nUnits == slots && fresh(units)
    {
      units := new Rect[slots];
      nUnits := slots;
    }
  }

  /** t with the box of one entry replaced: what absorbing dead space does to a curve. */
  function Stretch(t: Tree, pos: nat, w: real, h: real): (s: Tree)
    requires pos < |t.curve.x|
  {
    t.(curve := t.curve.(x := t.curve.x[pos := w], y := t.curve.y[pos := h]))
  }

  // ---------- what a call writes ----------

  ghost predicate LeafAt(u: seq<Rect>, leaf: (nat, Rect)) {
    leaf.0 < |u| && u[leaf.0] == leaf.1
  }

  ghost predicate LeavesAt(u: seq<Rect>, ls: seq<(nat, Rect)>) {
    forall i :: 0 <= i < |ls| ==> LeafAt(u, ls[i])
  }

  ghost predicate DeadAt(u: seq<Rect>, base: nat, dead: seq<Rect>) {
    base + |dead| <= |u| && u[base..base + |dead|] == dead
  }

  /** u and v agree except at the listed slots and from lo up to hi. */
  ghost predicate SameElsewhere(u: seq<Rect>, v: seq<Rect>, labels: seq<nat>, lo: nat, hi: nat) {
    |u| == |v| && forall i :: 0 <= i < |u| && Elsewhere(i, labels, lo, hi) ==> u[i] == v[i]
  }

  ghost predicate Elsewhere(i: int, labels: seq<nat>, lo: nat, hi: nat) {
    i !in labels && !(lo <= i < hi)
  }

  lemma DistinctParts(a: seq<nat>, b: seq<nat>)
    requires Distinct(a + b)
    ensures Distinct(a) && Distinct(b)
    ensures forall i :: i in a ==> i !in b
  {
    var ab := a + b;
    assert forall i :: 0 <= i < |a| ==> ab[i] == a[i];
    assert forall i :: 0 <= i < |b| ==> ab[|a| + i] == b[i];
  }

  lemma BelowParts(a: seq<nat>, b: seq<nat>, n: nat)
    requires Below(a + b, n)
    ensures Below(a, n) && Below(b, n)
  {
    var ab := a + b;
    assert forall i :: 0 <= i < |a| ==> ab[i] == a[i];
    assert forall i :: 0 <= i < |b| ==> ab[|a| + i] == b[i];
  }

  /** Leaves survive a later change that touches none of their slots. */
  lemma LeavesKept(u: seq<Rect>, v: seq<Rect>, ls: seq<(nat, Rect)>, us: seq<nat>, labels: seq<nat>, n: nat, lo: nat,
                   hi: nat)
    requires LeavesAt(u, ls) && Labelled(ls, us) && Below(us, n) && n <= lo
    requires SameElsewhere(u, v, labels, lo, hi)
    requires forall i :: i in us ==> i !in labels
    ensures LeavesAt(v, ls)
  {
    forall i | 0 <= i < |ls|
      ensures LeafAt(v, ls[i])
    {
      assert LeafAt(u, ls[i]) && us[i] in us;
      assert Elsewhere(us[i], labels, lo, hi);
    }
  }

  lemma DeadKept(u: seq<Rect>, v: seq<Rect>, base: nat, dead: seq<Rect>, labels: seq<nat>, n: nat, lo: nat, hi: nat)
    requires DeadAt(u, base, dead) && Below(labels, n) && n <= base && base + |dead| <= lo
    requires SameElsewhere(u, v, labels, lo, hi)
    ensures DeadAt(v, base, dead)
  {
    forall i | base <= i < base + |dead|
      ensures u[i] == v[i]
    {
      assert Elsewhere(i, labels, lo, hi);
    }
  }

  lemma DeadConcat(u: seq<Rect>, base: nat, a: seq<Rect>, b: seq<Rect>)
    requires DeadAt(u, base, a) && DeadAt(u, base + |a|, b)
    ensures DeadAt(u, base, a + b)
  {
    assert u[base..base + |a| + |b|] == u[base..base + |a|] + u[base + |a|..base + |a| + |b|];
  }

  lemma SameChain(u: seq<Rect>, v: seq<Rect>, w: seq<Rect>, a: seq<nat>, b: seq<nat>, lo1: nat, hi1: nat, lo2: nat,
                  hi2: nat, lo: nat, hi: nat)
    requires SameElsewhere(u, v, a, lo1, hi1) && SameElsewhere(v, w, b, lo2, hi2)
    requires lo <= lo1 && hi1 <= hi && lo <= lo2 && hi2 <= hi
    ensures SameElsewhere(u, w, a + b, lo, hi)
  {
    forall i | 0 <= i < |u| && Elsewhere(i, a + b, lo, hi)
      ensures u[i] == w[i]
    {
      assert Elsewhere(i, a, lo1, hi1) && Elsewhere(i, b, lo2, hi2);
    }
  }

  // ---------- the two kinds of cut ----------

  /** Shares a box at a vertical cut, step by step. */
  method SplitVertical(box: Rect, x1: real, y1: real, x2: real, y2: real, median: real, compact: bool, ratio: real)
    returns (left: Rect, right: Rect, gap: Rect, survives: bool)
    requires y1 > 0.0 && y2 > 0.0
    ensures var d := Divide(x1, y1, x2, y2, box.width, box.height, compact, ratio);
            && survives == d.survives && gap == GapRect(CUT_VERTICAL, box.leftx, box.bottomy, d)
            && Parts(left, right, if survives then [gap] else []) == PartsOf(CUT_VERTICAL, box, x1, median, d)
  {
    var ly, ry, rx := y1, y2, x2;
    if box.height > Max(y1, y2) {
      ly := ly + (box.height - Max(y1, y2));
      ry := ry + (box.height - Max(y1, y2));
    }
    if box.width > x1 + x2 {
      rx := rx + (box.width - (x1 + x2));
    }
    gap := Rect(box.leftx + (if ry >= ly then 0.0 else x1), box.bottomy + Min(ly, ry),
                if ry >= ly then x1 else rx, Abs(ry - ly));
    survives := !(compact && Abs(ry - ly) / Min(ly, ry) <= ratio);
    if !survives {
      if ry >= ly {
        ly := ry;
      } else {
        ry := ly;
      }
    }
    left := Rect(box.leftx, box.bottomy, x1, ly);
    right := Rect(box.leftx + median, box.bottomy, rx, ry);
  }

  /** Shares a box at a horizontal cut, step by step. */
  method SplitHorizontal(cut: int, box: Rect, x1: real, y1: real, x2: real, y2: real, median: real, compact: bool,
                         ratio: real)
    returns (left: Rect, right: Rect, gap: Rect, survives: bool)
    requires x1 > 0.0 && x2 > 0.0 && cut != CUT_VERTICAL
    ensures var d := Divide(y1, x1, y2, x2, box.height, box.width, compact, ratio);
            && survives == d.survives && gap == GapRect(cut, box.leftx, box.bottomy, d)
            && Parts(left, right, if survives then [gap] else []) == PartsOf(cut, box, y1, median, d)
  {
    var lx, rx, ry := x1, x2, y2;
    if box.width > Max(x1, x2) {
      lx := lx + (box.width - Max(x1, x2));
      rx := rx + (box.width - Max(x1, x2));
    }
    if box.height > y1 + y2 {
      ry := ry + (box.height - (y1 + y2));
    }
    gap := Rect(box.leftx + Min(lx, rx), box.bottomy + (if rx >= lx then 0.0 else y1),
                Abs(rx - lx), if rx >= lx then y1 else ry);
    survives := !(compact && Abs(rx - lx) / Min(lx, rx) <= ratio);
    if !survives {
      if rx >= lx {
        lx := rx;
      } else {
        rx := lx;
      }
    }
    left := Rect(box.leftx, box.bottomy, lx, y1);
    right := Rect(box.leftx, box.bottomy + median, rx, ry);
  }

  // ---------- recursive sizing ----------

  /** The state of the slots after a layout has been written with its dead blocks from base on. */
  ghost predicate Wrote(u: seq<Rect>, v: seq<Rect>, l: Layout, us: seq<nat>, base: nat, inner: nat) {
    && LeavesAt(v, l.leaves)
    && DeadAt(v, base, l.dead)
    && SameElsewhere(u, v, us, base, base + inner)
  }

  /** Writing one dead block, then the left part, then the right part writes the joined layout. */
  lemma WroteJoined(u0: seq<Rect>, u1: seq<Rect>, u2: seq<Rect>, u3: seq<Rect>, left: Layout, right: Layout,
                    gap: seq<Rect>, a: seq<nat>, b: seq<nat>, n: nat, base: nat, i: nat, j: nat)
    requires |gap| <= 1 && SameElsewhere(u0, u1, [], base, base + 1) && DeadAt(u1, base, gap)
    requires Wrote(u1, u2, left, a, base + |gap|, i) && Wrote(u2, u3, right, b, base + |gap| + |left.dead|, j)
    requires Labelled(left.leaves, a) && Labelled(right.leaves, b)
    requires Below(a, n) && Below(b, n) && n <= base && (forall k :: k in a ==> k !in b)
    requires |left.dead| <= i
    ensures Wrote(u0, u3, Joined(left, right, gap), a + b, base, i + j + 1)
  {
    var mid, last := base + |gap|, base + |gap| + |left.dead|;
    LeavesKept(u2, u3, left.leaves, a, b, n, last, last + j);
    DeadKept(u1, u2, base, gap, a, n, mid, mid + i);
    DeadKept(u2, u3, base, gap, b, n, last, last + j);
    DeadKept(u2, u3, mid, left.dead, b, n, last, last + j);
    DeadConcat(u3, base, gap, left.dead);
    DeadConcat(u3, base, gap + left.dead, right.dead);
    SameChain(u0, u1, u2, [], a, base, base + 1, mid, mid + i, base, base + i + j + 1);
    assert [] + a == a;
    SameChain(u0, u2, u3, a, b, base, base + i + j + 1, last, last + j, base, base + i + j + 1);
  }

  lemma WroteLeaf(u: seq<Rect>, k: nat, r: Rect, base: nat)
    requires k < |u| && base <= |u|
    ensures Wrote(u, u[k := r], Layout([(k, r)], []), [k], base, 0)
  {
  }

  /** What sizing a tree will write: its layout, the labels of its leaves, its number of cuts. */
  datatype Plan = Plan(layout: Layout, labels: seq<nat>, inner: nat)

  /** What sizing t over a box writes, with its first dead block at slot base. */
  ghost predicate Sized(u: seq<Rect>, v: seq<Rect>, t: Tree, pos: nat, box: Rect, compact: bool, ratio: real, base: nat)
    requires pos < |t.curve.x| && Summed(t) && PositiveLeaves(t)
  {
    Wrote(u, v, Arrange(t, pos, box, compact, ratio), Labels(t), base, Inner(t))
  }

  /** A dead block and then both parts have been written, slot states u0 to u3. */
  ghost predicate PartsWritten(u0: seq<Rect>, u1: seq<Rect>, u2: seq<Rect>, u3: seq<Rect>, gap: seq<Rect>,
                               left: Layout, right: Layout, a: seq<nat>, b: seq<nat>, base: nat, i: nat, j: nat)
  {
    && SameElsewhere(u0, u1, [], base, base + 1) && DeadAt(u1, base, gap)
    && Wrote(u1, u2, left, a, base + |gap|, i)
    && Wrote(u2, u3, right, b, base + |gap| + |left.dead|, j)
  }

  /** The two parts of a node's layout and what is known of their labels. */
  lemma PartsOfLayout(t: Tree, pos: nat, box: Rect, compact: bool, ratio: real, ps: Parts, n: nat)
    returns (left: Layout, right: Layout, a: seq<nat>, b: seq<nat>)
    requires t.Node? && pos < |t.curve.x| && Summed(t) && PositiveLeaves(t) && Roomy(t, pos, box)
    requires Distinct(Labels(t)) && Below(Labels(t), n) && ps == PartsAt(t, pos, box, compact, ratio)
    ensures EntryJoins(t.curve, pos, t.left.curve, t.right.curve, t.cut)
    ensures left == Arrange(t.left, t.curve.leftPos[pos], ps.left, compact, ratio)
    ensures right == Arrange(t.right, t.curve.rightPos[pos], ps.right, compact, ratio)
    ensures a == Labels(t.left) && b == Labels(t.right)
    ensures Labelled(left.leaves, a) && Labelled(right.leaves, b) && |left.dead| <= Inner(t.left)
    ensures Below(a, n) && Below(b, n) && (forall k :: k in a ==> k !in b)
    ensures Arrange(t, pos, box, compact, ratio) == Joined(left, right, ps.gap) && Labels(t) == a + b
  {
    NodeRoomy(t, pos, box, compact, ratio);
    a, b := Labels(t.left), Labels(t.right);
    DistinctParts(a, b);
    BelowParts(a, b, n);
    left := Arrange(t.left, t.curve.leftPos[pos], ps.left, compact, ratio);
    right := Arrange(t.right, t.curve.rightPos[pos], ps.right, compact, ratio);
    ArrangeLeaves(t.left, t.curve.leftPos[pos], ps.left, compact, ratio);
    ArrangeLeaves(t.right, t.curve.rightPos[pos], ps.right, compact, ratio);
  }

  /** Both parts of a node fit together. */
  ghost predicate Fit(all: Plan, l: Plan, r: Plan, gap: seq<Rect>, n: nat) {
    && |gap| <= 1 && Labelled(l.layout.leaves, l.labels) && Labelled(r.layout.leaves, r.labels)
    && Below(l.labels, n) && Below(r.labels, n) && (forall k :: k in l.labels ==> k !in r.labels)
    && |l.layout.dead| <= l.inner && all.layout == Joined(l.layout, r.layout, gap)
    && all.labels == l.labels + r.labels && all.inner == l.inner + r.inner + 1
  }

  /** A node's slots after its dead block and both parts have been written. */
  lemma NodeSized(u0: seq<Rect>, u1: seq<Rect>, u2: seq<Rect>, u3: seq<Rect>, n: nat, base: nat, all: Plan, l: Plan,
                  r: Plan, gap: seq<Rect>)
    requires n <= base && Fit(all, l, r, gap, n)
    requires PartsWritten(u0, u1, u2, u3, gap, l.layout, r.layout, l.labels, r.labels, base, l.inner, r.inner)
    ensures Wrote(u0, u3, all.layout, all.labels, base, all.inner)
    ensures |all.layout.dead| == |gap| + |l.layout.dead| + |r.layout.dead|
  {
    WroteJoined(u0, u1, u2, u3, l.layout, r.layout, gap, l.labels, r.labels, n, base, l.inner, r.inner);
  }

  /** The requirements of sizing t over a box. */
  ghost predicate Sizable(t: Tree, pos: nat, box: Rect, n: nat, deadCount: nat, slots: nat) {
    && pos < |t.curve.x| && Summed(t) && PositiveLeaves(t) && Roomy(t, pos, box)
    && Distinct(Labels(t)) && Below(Labels(t), n)
    && n + deadCount + Inner(t) <= slots
  }

  /** Both parts of a node can be sized once its box has been shared out. */
  lemma PartsSizable(t: Tree, pos: nat, box: Rect, n: nat, deadCount: nat, slots: nat, compact: bool, ratio: real)
    requires Sizable(t, pos, box, n, deadCount, slots) && t.Node?
    ensures EntryJoins(t.curve, pos, t.left.curve, t.right.curve, t.cut)
    ensures var ps := PartsAt(t, pos, box, compact, ratio);
            var p, q := t.curve.leftPos[pos], t.curve.rightPos[pos];
            && Sizable(t.left, p, ps.left, n, deadCount + 1, slots)
            && |Arrange(t.left, p, ps.left, compact, ratio).dead| <= Inner(t.left)
            && Sizable(t.right, q, ps.right, n, deadCount + 1 + Inner(t.left), slots)
  {
    NodeRoomy(t, pos, box, compact, ratio);
    DistinctParts(Labels(t.left), Labels(t.right));
    BelowParts(Labels(t.left), Labels(t.right), n);
    ArrangeLeaves(t.left, t.curve.leftPos[pos], PartsAt(t, pos, box, compact, ratio).left, compact, ratio);
  }

  // ---------- plans of parts ----------

  ghost function PlanOf(t: Tree, pos: nat, box: Rect, compact: bool, ratio: real): Plan
    requires pos < |t.curve.x| && Summed(t) && PositiveLeaves(t)
  {
    Plan(Arrange(t, pos, box, compact, ratio), Labels(t), Inner(t))
  }

  /** Which trees can be sized where, and what that will write. */
  datatype Sketch = Sketch(able: (Tree, nat, Rect) -> bool, plan: (Tree, nat, Rect) -> Plan)

  ghost predicate SketchedAt(sk: Sketch, n: nat, slots: nat, compact: bool, ratio: real, c: Tree, p: nat, b: Rect) {
    sk.able(c, p, b) ==> Sizable(c, p, b, n, 0, slots) && sk.plan(c, p, b) == PlanOf(c, p, b, compact, ratio)
  }

  ghost predicate Sketches(sk: Sketch, n: nat, slots: nat, compact: bool, ratio: real) {
    forall c, p, b :: SketchedAt(sk, n, slots, compact, ratio, c, p, b)
  }

  lemma Sketched(sk: Sketch, n: nat, slots: nat, compact: bool, ratio: real, c: Tree, p: nat, b: Rect)
    requires Sketches(sk, n, slots, compact, ratio) && sk.able(c, p, b)
    ensures Sizable(c, p, b, n, 0, slots) && sk.plan(c, p, b) == PlanOf(c, p, b, compact, ratio)
  {
    assert SketchedAt(sk, n, slots, compact, ratio, c, p, b);
  }

  ghost function TheSketch(n: nat, slots: nat, compact: bool, ratio: real): Sketch {
    Sketch((c: Tree, p: nat, b: Rect) => Sizable(c, p, b, n, 0, slots),
           (c: Tree, p: nat, b: Rect) => if Sizable(c, p, b, n, 0, slots) then PlanOf(c, p, b, compact, ratio)
                                         else Plan(Layout([], []), [], 0))
  }

  /** A sketch with the plans of both parts of a node. */
  lemma SketchParts(t: Tree, pos: nat, box: Rect, n: nat, deadCount: nat, slots: nat, compact: bool, ratio: real,
                    ps: Parts, p: nat, q: nat)
    returns (sk: Sketch, all: Plan, l: Plan, r: Plan)
    requires Sizable(t, pos, box, n, deadCount, slots) && t.Node? && ps == PartsAt(t, pos, box, compact, ratio)
    requires |ps.gap| <= 1
    requires pos < |t.curve.leftPos| && pos < |t.curve.rightPos|
    requires p == t.curve.leftPos[pos] && q == t.curve.rightPos[pos]
    ensures Sketches(sk, n, slots, compact, ratio)
    ensures sk.able(t.left, p, ps.left) && l == sk.plan(t.left, p, ps.left)
    ensures sk.able(t.right, q, ps.right) && r == sk.plan(t.right, q, ps.right)
    ensures all == PlanOf(t, pos, box, compact, ratio) && Fit(all, l, r, ps.gap, n)
  {
    PartsSizable(t, pos, box, n, deadCount, slots, compact, ratio);
    sk := TheSketch(n, slots, compact, ratio);
    ghost var left, right, a, b := PartsOfLayout(t, pos, box, compact, ratio, ps, n);
    all, l, r := PlanOf(t, pos, box, compact, ratio), Plan(left, a, Inner(t.left)), Plan(right, b, Inner(t.right));
  }

  /** node and t differ at most in the boxes of their own curve. */
  ghost predicate SameLinks(node: Tree, t: Tree) {
    && node.Node? && t.Node? && node.cut == t.cut && node.left == t.left && node.right == t.right
    && node.curve.leftPos == t.curve.leftPos && node.curve.rightPos == t.curve.rightPos
    && node.curve.median == t.curve.median
  }

  /** node is t with entry pos stretched to box. */
  ghost predicate StretchedTo(node: Tree, t: Tree, pos: nat, box: Rect) {
    && pos < |t.curve.x| && node == Stretch(t, pos, box.width, box.height)
  }

  lemma StretchKeepsLinks(node: Tree, t: Tree, pos: nat, box: Rect)
    requires StretchedTo(node, t, pos, box)
    ensures pos < |node.curve.x| && node.curve.x[pos] == box.width && node.curve.y[pos] == box.height
    ensures node.Leaf? <==> t.Leaf?
    ensures node.Leaf? ==> node.unit == t.unit
    ensures node.Node? ==> SameLinks(node, t)
  {
  }

  /** Shares node's box at its cut. */
  method Split(node: Tree, pos: nat, box: Rect, compact: bool, ratio: real, ghost t: Tree)
    returns (left: Rect, right: Rect, gap: Rect, survives: bool, ghost ps: Parts)
    requires SameLinks(node, t) && pos < |t.curve.x| && Summed(t) && PositiveLeaves(t)
    ensures ps == PartsAt(t, pos, box, compact, ratio)
    ensures ps.left == left && ps.right == right && ps.gap == (if survives then [gap] else [])
  {
    ps := PartsAt(t, pos, box, compact, ratio);
    assert EntryJoins(t.curve, pos, t.left.curve, t.right.curve, t.cut);
    PositiveCurve(t.left);
    PositiveCurve(t.right);
    var l, r := node.left.curve, node.right.curve;
    var p, q := node.curve.leftPos[pos], node.curve.rightPos[pos];
    if node.cut == CUT_VERTICAL {
      left, right, gap, survives :=
        SplitVertical(box, l.x[p], l.y[p], r.x[q], r.y[q], node.curve.median[pos], compact, ratio);
    } else {
      left, right, gap, survives :=
        SplitHorizontal(node.cut, box, l.x[p], l.y[p], r.x[q], r.y[q], node.curve.median[pos],
                                                    compact, ratio);
    }
  }

  /** Sizes node at entry pos with its lower left corner at (leftx, bottomy). node is the
      tree t with that one entry possibly stretched by its parent. Dead blocks go behind the
      units, the first of them at slot n + deadCount; their number so far is returned. */
  method RecursiveSizing(node: Tree, pos: nat, leftx: real, bottomy: real, deadCount: nat, compact: bool, ratio: real,
                         flp: Floorplan, ghost t: Tree, ghost box: Rect, ghost n: nat) returns (count: nat)
    requires n == (flp.nUnits + 1) / 2
    requires StretchedTo(node, t, pos, box) && leftx == box.leftx && bottomy == box.bottomy
    requires Sizable(t, pos, box, n, deadCount, flp.units.Length)
    modifies flp.units
    ensures count == deadCount + |Arrange(t, pos, box, compact, ratio).dead|
    ensures Sized(old(flp.units[..]), flp.units[..], t, pos, box, compact, ratio, n + deadCount)
    decreases t, 3
  {
    StretchKeepsLinks(node, t, pos, box);
    if node.Leaf? {
      assert Labels(t)[0] == node.unit;
      ghost var u0 := flp.units[..];
      flp.units[node.unit] := Rect(leftx, bottomy, node.curve.x[pos], node.curve.y[pos]);
      count := deadCount;
      WroteLeaf(u0, node.unit, box, n + deadCount);
    } else {
      count := SizeParts(node, pos, Rect(leftx, bottomy, node.curve.x[pos], node.curve.y[pos]), deadCount, compact,
                         ratio, flp, t, n);
    }
  }

  /** Stretches entry pos of a child to its box and sizes the child there. */
  method SizePart(child: Tree, pos: nat, box: Rect, deadCount: nat, compact: bool, ratio: real, flp: Floorplan,
                  ghost n: nat, ghost sk: Sketch, ghost l: Plan)
    returns (count: nat)
    requires n == (flp.nUnits + 1) / 2 && n + deadCount + l.inner <= flp.units.Length
    requires Sketches(sk, n, flp.units.Length, compact, ratio)
    requires sk.able(child, pos, box) && l == sk.plan(child, pos, box)
    modifies flp.units
    ensures count == deadCount + |l.layout.dead|
    ensures Wrote(old(flp.units[..]), flp.units[..], l.layout, l.labels, n + deadCount, l.inner)
    decreases child, 4
  {
    Sketched(sk, n, flp.units.Length, compact, ratio, child, pos, box);
    var node := Stretch(child, pos, box.width, box.height);
    count := RecursiveSizing(node, pos, box.leftx, box.bottomy, deadCount, compact, ratio, flp, child, box, n);
  }

  /** Writes a dead block at the next free slot; the slot stays free unless the block survives. */
  method WriteGap(gap: Rect, survives: bool, deadCount: nat, flp: Floorplan, ghost n: nat, ghost gaps: seq<Rect>)
    returns (dead: nat)
    requires n == (flp.nUnits + 1) / 2 && gaps == (if survives then [gap] else [])
    requires n + deadCount < flp.units.Length
    modifies flp.units
    ensures dead == deadCount + |gaps|
    ensures SameElsewhere(old(flp.units[..]), flp.units[..], [], n + deadCount, n + deadCount + 1)
    ensures DeadAt(flp.units[..], n + deadCount, gaps)
  {
    var idx := (flp.nUnits + 1) / 2 + deadCount;
    flp.units[idx] := gap;
    dead := if survives then deadCount + 1 else deadCount;
  }

  /** The dead block, then both parts. */
  method WriteParts(left: Tree, p: nat, lbox: Rect, right: Tree, q: nat, rbox: Rect, gap: Rect, survives: bool,
                    deadCount: nat, compact: bool, ratio: real, flp: Floorplan, ghost t: Tree, ghost n: nat,
                    ghost gaps: seq<Rect>, ghost sk: Sketch, ghost l: Plan, ghost r: Plan)
    returns (count: nat, ghost u1: seq<Rect>, ghost u2: seq<Rect>)
    requires n == (flp.nUnits + 1) / 2 && gaps == (if survives then [gap] else [])
    requires t.Node? && left == t.left && right == t.right
    requires Sketches(sk, n, flp.units.Length, compact, ratio)
    requires sk.able(left, p, lbox) && l == sk.plan(left, p, lbox)
    requires sk.able(right, q, rbox) && r == sk.plan(right, q, rbox)
    requires |l.layout.dead| <= l.inner && n + deadCount + 1 + l.inner + r.inner <= flp.units.Length
    modifies flp.units
    ensures count == deadCount + |gaps| + |l.layout.dead| + |r.layout.dead|
    ensures PartsWritten(old(flp.units[..]), u1, u2, flp.units[..], gaps, l.layout, r.layout, l.labels, r.labels,
                         n + deadCount, l.inner, r.inner)
    decreases t, 1
  {
    var dead := WriteGap(gap, survives, deadCount, flp, n, gaps);
    u1 := flp.units[..];
    dead := SizePart(left, p, lbox, dead, compact, ratio, flp, n, sk, l);
    u2 := flp.units[..];
    count := SizePart(right, q, rbox, dead, compact, ratio, flp, n, sk, r);
  }

  /** The inner-node case: share out the box, then write the dead block and both parts. */
  method SizeParts(node: Tree, pos: nat, box: Rect, deadCount: nat, compact: bool, ratio: real,
                   flp: Floorplan, ghost t: Tree, ghost n: nat) returns (count: nat)
    requires n == (flp.nUnits + 1) / 2
    requires SameLinks(node, t)
    requires Sizable(t, pos, box, n, deadCount, flp.units.Length)
    modifies flp.units
    ensures count == deadCount + |Arrange(t, pos, box, compact, ratio).dead|
    ensures Sized(old(flp.units[..]), flp.units[..], t, pos, box, compact, ratio, n + deadCount)
    decreases t, 2
  {
    ghost var u0 := flp.units[..];
    var left, right, gap, survives;
    ghost var ps, u1, u2;
    left, right, gap, survives, ps := Split(node, pos, box, compact, ratio, t);
    assert EntryJoins(t.curve, pos, t.left.curve, t.right.curve, t.cut);
    ghost var sk, all, l, r := SketchParts(t, pos, box, n, deadCount, flp.units.Length, compact, ratio, ps,
                                           t.curve.leftPos[pos], t.curve.rightPos[pos]);
    count, u1, u2 := WriteParts(node.left, node.curve.leftPos[pos], left, node.right, node.curve.rightPos[pos], right,
                                gap, survives, deadCount, compact, ratio, flp, t, n, ps.gap, sk, l, r);
    NodeSized(u0, u1, u2, flp.units[..], n, n + deadCount, all, l, r, ps.gap);
  }
}
