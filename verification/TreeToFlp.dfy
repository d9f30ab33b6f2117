/** From a slicing tree to a floorplan: the least-area entry of the root, sized in place. */
module TreeToFlp {
  import opened Shapes
  import opened SlicingTrees
  import opened Tilings
  import opened Arrangement
  import opened Compaction
  import opened Permutations
  import opened Sizing
  import ShapeAdd

  // ---------- permutations of slots ----------

  function Pick(v: seq<Rect>, us: seq<nat>): (r: seq<Rect>)
    requires Below(us, |v|)
    ensures |r| == |us|
    ensures forall i :: 0 <= i < |us| ==> r[i] == v[us[i]]
  {
    seq(|us|, i requires 0 <= i < |us| => v[us[i]])
  }

  lemma PickWithout(v: seq<Rect>, us: seq<nat>, k: nat)
    requires k < |us| && Below(us, |v|) && Below(Without(us, k), |v|)
    ensures multiset(Pick(v, us)) == multiset(Pick(v, Without(us, k))) + multiset{v[us[k]]}
  {
    var p := Pick(v, us);
    assert p == p[..k] + [p[k]] + p[k + 1..];
    assert Pick(v, Without(us, k)) == p[..k] + p[k + 1..];
  }

  /** n distinct slots below n are the first n slots in some order. */
  lemma {:induction false} PickIsPermutation(v: seq<Rect>, us: seq<nat>, n: nat)
    requires Distinct(us) && Below(us, n) && |us| == n <= |v|
    ensures multiset(Pick(v, us)) == multiset(v[..n])
    decreases n
  {
    if n == 0 {
      assert Pick(v, us) == [] == v[..0];
    } else {
      var k := LastIsThere(us, n);
      WithoutDistinct(us, k, n);
      PickIsPermutation(v, Without(us, k), n - 1);
      PickWithout(v, us, k);
      assert v[..n] == v[..n - 1] + [v[n - 1]];
    }
  }

  /** The first n slots hold the leaves in some order. */
  lemma LeavesFillUnits(v: seq<Rect>, ls: seq<(nat, Rect)>, us: seq<nat>, n: nat)
    requires LeavesAt(v, ls) && Labelled(ls, us) && Distinct(us) && Below(us, n) && |us| == n <= |v|
    ensures multiset(v[..n]) == multiset(Rects(ls))
  {
    PickIsPermutation(v, us, n);
    assert Pick(v, us) == Rects(ls) by {
      forall i | 0 <= i < |us| ensures Pick(v, us)[i] == Rects(ls)[i] {
        assert LeafAt(v, ls[i]);
      }
    }
  }

  // ---------- the units in use tile the root box ----------

  /** A layout that covers a box point by point and in area is a tiling of it. */
  lemma LayoutTiles(l: Layout, box: Rect, strict: bool)
    requires forall px, py :: Covered(l, px, py) == Indicator(box, px, py)
    requires Occupied(l) == AreaOf(box) && SoundLayout(l, strict)
    ensures Tiles(Rects(l.leaves) + l.dead, box)
  {
    var rs := Rects(l.leaves) + l.dead;
    forall px, py
      ensures Cover(rs, px, py) == Indicator(box, px, py)
    {
      CoverConcat(Rects(l.leaves), l.dead, px, py);
      assert Covered(l, px, py) == Indicator(box, px, py);
    }
    CoverConcat(Rects(l.leaves), l.dead, 0.0, 0.0);
    SoundIsNonNegative(l, strict);
  }

  lemma ArrangeTiles(t: Tree, pos: nat, box: Rect, compact: bool, ratio: real)
    requires pos < |t.curve.x| && Summed(t) && PositiveLeaves(t) && Roomy(t, pos, box)
    ensures var l := Arrange(t, pos, box, compact, ratio); Tiles(Rects(l.leaves) + l.dead, box)
  {
    var l := Arrange(t, pos, box, compact, ratio);
    forall px, py
      ensures Covered(l, px, py) == Indicator(box, px, py)
    {
      ArrangeFills(t, pos, box, compact, ratio, px, py);
    }
    assert Occupied(l) == AreaOf(box) by { ArrangeFills(t, pos, box, compact, ratio, 0.0, 0.0); }
    ArrangeSound(t, pos, box, compact, ratio);
    LayoutTiles(l, box, compact && ratio >= 0.0);
  }

  /** Leaves from a up to b and dead blocks from c up to d. */
  ghost predicate IsStretch(l: Layout, a: nat, b: nat, c: nat, d: nat, rs: seq<Rect>) {
    a <= b <= |l.leaves| && c <= d <= |l.dead| && rs == Rects(l.leaves[a..b]) + l.dead[c..d]
  }

  ghost predicate InStretch(l: Layout, rs: seq<Rect>) {
    exists a, b, c, d :: IsStretch(l, a, b, c, d, rs)
  }

  /** Some leaves and dead blocks that follow each other in the layout tile r. */
  ghost predicate PartOf(l: Layout, r: Rect) {
    exists rs :: InStretch(l, rs) && Tiles(rs, r)
  }

  lemma WholePart(t: Tree, pos: nat, box: Rect, compact: bool, ratio: real)
    requires pos < |t.curve.x| && Summed(t) && PositiveLeaves(t) && Roomy(t, pos, box)
    ensures PartOf(Arrange(t, pos, box, compact, ratio), box)
  {
    ArrangeTiles(t, pos, box, compact, ratio);
    var l := Arrange(t, pos, box, compact, ratio);
    assert l.leaves[0..|l.leaves|] == l.leaves && l.dead[0..|l.dead|] == l.dead;
    assert IsStretch(l, 0, |l.leaves|, 0, |l.dead|, Rects(l.leaves) + l.dead);
  }

  lemma StretchOfLeft(left: Layout, right: Layout, gap: seq<Rect>, rs: seq<Rect>)
    requires InStretch(left, rs)
    ensures InStretch(Joined(left, right, gap), rs)
  {
    var a: nat, b: nat, c: nat, d: nat :| IsStretch(left, a, b, c, d, rs);
    var all, j := Joined(left, right, gap), |gap|;
    assert all.leaves[a..b] == left.leaves[a..b] && all.dead[j + c..j + d] == left.dead[c..d];
    assert IsStretch(all, a, b, j + c, j + d, rs);
  }

  lemma StretchOfRight(left: Layout, right: Layout, gap: seq<Rect>, rs: seq<Rect>)
    requires InStretch(right, rs)
    ensures InStretch(Joined(left, right, gap), rs)
  {
    var a: nat, b: nat, c: nat, d: nat :| IsStretch(right, a, b, c, d, rs);
    var all, i, j := Joined(left, right, gap), |left.leaves|, |gap| + |left.dead|;
    assert all.leaves[i + a..i + b] == right.leaves[a..b] && all.dead[j + c..j + d] == right.dead[c..d];
    assert IsStretch(all, i + a, i + b, j + c, j + d, rs);
  }

  lemma PartOfJoined(left: Layout, right: Layout, gap: seq<Rect>, r: Rect)
    requires PartOf(left, r) || PartOf(right, r)
    ensures PartOf(Joined(left, right, gap), r)
  {
    if PartOf(left, r) {
      var rs :| InStretch(left, rs) && Tiles(rs, r);
      StretchOfLeft(left, right, gap, rs);
    } else {
      var rs :| InStretch(right, rs) && Tiles(rs, r);
      StretchOfRight(left, right, gap, rs);
    }
  }

  ghost predicate AllPartsOf(l: Layout, gs: seq<Gap>) {
    forall i :: 0 <= i < |gs| ==> PartOf(l, gs[i].under)
  }

  lemma AllPartsJoined(left: Layout, right: Layout, ps: Parts, cut: int, gl: seq<Gap>, gr: seq<Gap>)
    requires AllPartsOf(left, gl) && AllPartsOf(right, gr) && PartOf(left, ps.left) && PartOf(right, ps.right)
    ensures AllPartsOf(Joined(left, right, ps.gap), GapsAt(cut, ps) + gl + gr)
  {
    var gs := GapsAt(cut, ps) + gl + gr;
    forall i | 0 <= i < |gs|
      ensures PartOf(Joined(left, right, ps.gap), gs[i].under)
    {
      PartOfJoined(left, right, ps.gap, gs[i].under);
    }
  }

  /** The part that a dead block lies on is itself tiled by leaves and dead blocks of the layout. */
  lemma {:induction false} UndersAreTiled(t: Tree, pos: nat, box: Rect, compact: bool, ratio: real)
    requires pos < |t.curve.x| && Summed(t) && PositiveLeaves(t) && Roomy(t, pos, box)
    ensures AllPartsOf(Arrange(t, pos, box, compact, ratio), Gaps(t, pos, box, compact, ratio))
    decreases t
  {
    match t
    case Leaf(_, _) =>
    case Node(cut, l, r, curve) =>
      NodeRoomy(t, pos, box, compact, ratio);
      var ps := PartsAt(t, pos, box, compact, ratio);
      var p, q := curve.leftPos[pos], curve.rightPos[pos];
      UndersAreTiled(l, p, ps.left, compact, ratio);
      UndersAreTiled(r, q, ps.right, compact, ratio);
      var left, right := Arrange(l, p, ps.left, compact, ratio), Arrange(r, q, ps.right, compact, ratio);
      WholePart(l, p, ps.left, compact, ratio);
      WholePart(r, q, ps.right, compact, ratio);
      AllPartsJoined(left, right, ps, cut, Gaps(l, p, ps.left, compact, ratio),
                     Gaps(r, q, ps.right, compact, ratio));
  }

  lemma SoundIsNonNegative(l: Layout, strict: bool)
    requires SoundLayout(l, strict)
    ensures forall i :: 0 <= i < |l.leaves| + |l.dead| ==> NonNegative((Rects(l.leaves) + l.dead)[i])
  {
    var rs := Rects(l.leaves) + l.dead;
    forall i | 0 <= i < |rs|
      ensures NonNegative(rs[i])
    {
      if i < |l.leaves| {
        assert SoundRect(l.leaves[i].1, true);
      } else {
        assert SoundRect(l.dead[i - |l.leaves|], strict);
      }
    }
  }

  /** Slots 0 to n - 1 hold the leaves and the next ones the dead blocks: together a tiling. */
  lemma SlotsTile(v: seq<Rect>, l: Layout, us: seq<nat>, n: nat, box: Rect)
    requires LeavesAt(v, l.leaves) && DeadAt(v, n, l.dead)
    requires Labelled(l.leaves, us) && Distinct(us) && Below(us, n) && |us| == n
    requires Tiles(Rects(l.leaves) + l.dead, box)
    ensures Tiles(v[..n + |l.dead|], box)
  {
    LeavesFillUnits(v, l.leaves, us, n);
    assert v[..n + |l.dead|] == v[..n] + l.dead;
    TilesPermutation(Rects(l.leaves) + l.dead, v[..n + |l.dead|], box);
  }

  lemma SizedTiles(u: seq<Rect>, v: seq<Rect>, t: Tree, pos: nat, box: Rect, compact: bool, ratio: real, n: nat,
                   l: Layout)
    requires pos < |t.curve.x| && Summed(t) && PositiveLeaves(t) && Roomy(t, pos, box)
    requires Distinct(Labels(t)) && Below(Labels(t), n) && |Labels(t)| == n
    requires l == Arrange(t, pos, box, compact, ratio) && Sized(u, v, t, pos, box, compact, ratio, n)
    ensures n + |l.dead| <= |v| && |l.dead| <= Inner(t)
    ensures Holding(v[..n + |l.dead|], l, n)
    ensures Tiles(v[..n + |l.dead|], box)
  {
    ArrangeLeaves(t, pos, box, compact, ratio);
    ArrangeTiles(t, pos, box, compact, ratio);
    SlotsTile(v, l, Labels(t), n, box);
    HoldingPrefix(v, l, Labels(t), n);
  }

  lemma {:induction false} LabelCount(t: Tree)
    ensures |Labels(t)| == Inner(t) + 1
  {
    match t
    case Leaf(_, _) =>
    case Node(_, l, r, _) =>
      LabelCount(l);
      LabelCount(r);
  }

  lemma StretchToOwnSize(t: Tree, pos: nat)
    requires pos < |t.curve.x|
    ensures Stretch(t, pos, t.curve.x[pos], t.curve.y[pos]) == t
  {
    assert t.curve.x[pos := t.curve.x[pos]] == t.curve.x;
    assert t.curve.y[pos := t.curve.y[pos]] == t.curve.y;
  }

  /** pos is a least-area entry of t's curve. */
  ghost predicate LeastArea(t: Tree, pos: nat) {
    pos < |t.curve.x| && forall i :: 0 <= i < |t.curve.x| ==> Area(t.curve, pos) <= Area(t.curve, i)
  }

  /** ... and the first such. */
  ghost predicate FirstLeastArea(t: Tree, pos: nat) {
    LeastArea(t, pos) && forall i :: 0 <= i < pos ==> Area(t.curve, pos) < Area(t.curve, i)
  }

  /** v holds the leaves of a layout in their slots and behind them its dead blocks. */
  ghost predicate Holding(v: seq<Rect>, l: Layout, n: nat) {
    |v| == n + |l.dead| && LeavesAt(v, l.leaves) && v[n..] == l.dead
  }

  /** A layout over all n units leaves no slot open. */
  lemma HoldingUnique(v: seq<Rect>, w: seq<Rect>, l: Layout, us: seq<nat>, n: nat)
    requires Holding(v, l, n) && Holding(w, l, n)
    requires Labelled(l.leaves, us) && Distinct(us) && Below(us, n) && |us| == n
    ensures v == w
  {
    forall k | 0 <= k < n
      ensures v[k] == w[k]
    {
      var i := SlotOf(us, n, k);
      assert LeafAt(v, l.leaves[i]) && LeafAt(w, l.leaves[i]);
    }
    assert v == v[..n] + l.dead && w == w[..n] + l.dead;
  }

  lemma HoldingPositive(v: seq<Rect>, l: Layout, us: seq<nat>, n: nat)
    requires Holding(v, l, n) && SoundLayout(l, true)
    requires Labelled(l.leaves, us) && Distinct(us) && Below(us, n) && |us| == n
    ensures forall k :: 0 <= k < |v| ==> SoundRect(v[k], true)
  {
    forall k | 0 <= k < |v|
      ensures SoundRect(v[k], true)
    {
      if k < n {
        var i := SlotOf(us, n, k);
        assert LeafAt(v, l.leaves[i]);
      } else {
        assert v[k] == v[n..][k - n] == l.dead[k - n];
      }
    }
  }

  lemma HoldingPrefix(v: seq<Rect>, l: Layout, us: seq<nat>, n: nat)
    requires LeavesAt(v, l.leaves) && DeadAt(v, n, l.dead) && Labelled(l.leaves, us) && Below(us, n)
    ensures Holding(v[..n + |l.dead|], l, n)
  {
    forall i | 0 <= i < |l.leaves|
      ensures LeafAt(v[..n + |l.dead|], l.leaves[i])
    {
      assert LeafAt(v, l.leaves[i]) && l.leaves[i].0 == us[i] < n;
    }
  }

  /** The dead blocks in their slots lie on parts, and there is one for each cut exactly when
      compaction is off or has nothing to do. */
  lemma PlacedGaps(v: seq<Rect>, t: Tree, pos: nat, box: Rect, compact: bool, ratio: real, n: nat)
    requires pos < |t.curve.x| && Summed(t) && PositiveLeaves(t) && Roomy(t, pos, box)
    requires Holding(v, Arrange(t, pos, box, compact, ratio), n)
    ensures AllSit(Gaps(t, pos, box, compact, ratio), v[n..], compact, ratio)
    ensures |v| == n + Inner(t) <==> !compact || AllDeep(Gaps(t, pos, box, false, ratio), ratio)
  {
    GapsSit(t, pos, box, compact, ratio);
    CountIdle(t, pos, box, ratio);
  }

  function RootBox(t: Tree, pos: nat): Rect
    requires pos < |t.curve.x|
  {
    Rect(0.0, 0.0, t.curve.x[pos], t.curve.y[pos])
  }

  /** Fills the floorplan from the tree at its least-area entry. Afterwards the slots in use
      are the n units and the surviving dead blocks, and they tile the root's box. Returns
      how many of the n - 1 possible dead blocks were compacted away. */
  method PlaceTree(root: Tree, flp: Floorplan, compact: bool, ratio: real, ghost n: nat)
    returns (compacted: nat, pos: nat)
    requires Summed(root) && PositiveLeaves(root) && Distinct(Labels(root)) && Below(Labels(root), n)
    requires |Labels(root)| == n
    requires flp.nUnits == 2 * n - 1 <= flp.units.Length
    modifies flp, flp.units
    ensures FirstLeastArea(root, pos)
    ensures flp.nUnits + compacted == 2 * n - 1 && n <= flp.nUnits
    ensures Tiles(flp.units[..flp.nUnits], RootBox(root, pos))
    ensures Holding(flp.units[..flp.nUnits], Arrange(root, pos, RootBox(root, pos), compact, ratio), n)
    ensures AllSit(Gaps(root, pos, RootBox(root, pos), compact, ratio), flp.units[n..flp.nUnits], compact, ratio)
    ensures compacted == 0 <==> !compact || AllDeep(Gaps(root, pos, RootBox(root, pos), false, ratio), ratio)
    ensures SameElsewhere(old(flp.units[..]), flp.units[..], Labels(root), n, 2 * n - 1)
  {
    pos := ShapeAdd.MinAreaPos(root.curve);
    ghost var box := RootBox(root, pos);
    ghost var l := Arrange(root, pos, box, compact, ratio);
    ghost var u := flp.units[..];
    LabelCount(root);
    StretchToOwnSize(root, pos);
    var deadCount := RecursiveSizing(root, pos, 0.0, 0.0, 0, compact, ratio, flp, root, box, n);
    ghost var v := flp.units[..];
    SizedTiles(u, v, root, pos, box, compact, ratio, n, l);
    compacted := (flp.nUnits - 1) / 2 - deadCount;
    flp.nUnits := flp.nUnits - compacted;
    assert flp.units[..flp.nUnits] == v[..n + |l.dead|];
    PlacedGaps(flp.units[..flp.nUnits], root, pos, box, compact, ratio, n);
    assert flp.units[n..flp.nUnits] == flp.units[..flp.nUnits][n..];
  }
}
