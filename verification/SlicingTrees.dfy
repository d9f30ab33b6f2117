/** Slicing trees: what a Polish expression means. Every node carries the curve of the
    boxes its blocks can be packed into. */
module SlicingTrees {
  import opened PolishExpressions
  import opened Shapes
  import opened Slicings

  /** A curve with at least one entry. */
  type Shape = c: Curve | 0 < |c.x| == |c.y| witness Curve([0.0], [0.0], [], [], [])

  datatype Tree =
    | Leaf(unit: nat, curve: Shape)
    | Node(cut: int, left: Tree, right: Tree, curve: Shape)

  function Added(c1: Shape, c2: Shape, cut: int): (s: Shape) {
    PairsNonEmpty(c1, c2, cut);
    Sum(c1, c2, cut)
  }

  function Join(cut: int, l: Tree, r: Tree): Tree {
    Node(cut, l, r, Added(l.curve, r.curve, cut))
  }

  /** Every inner curve holds only joins of the curves below it. */
  ghost predicate Summed(t: Tree) {
    t.Node? ==> && Summed(t.left) && Summed(t.right) && IsCut(t.cut)
                && OnlyJoins(t.curve, t.left.curve, t.right.curve, t.cut)
  }

  /** ... and no join of them is better than every entry. */
  ghost predicate Complete(t: Tree) {
    t.Node? ==> && Complete(t.left) && Complete(t.right)
                && AllJoinsCovered(t.curve, t.left.curve, t.right.curve, t.cut)
  }

  /** All leaf boxes have positive sides. */
  ghost predicate PositiveLeaves(t: Tree) {
    match t
    case Leaf(_, c) => Positive(c)
    case Node(_, l, r, _) => PositiveLeaves(l) && PositiveLeaves(r)
  }

  lemma {:induction false} PositiveCurve(t: Tree)
    requires Summed(t) && PositiveLeaves(t)
    ensures Positive(t.curve)
  {
    match t
    case Leaf(_, _) =>
    case Node(cut, l, r, _) =>
      PositiveCurve(l);
      PositiveCurve(r);
      JoinsArePositive(t.curve, l.curve, r.curve, cut);
  }

  /** The tree of a slicing: unit curves at the leaves, summed upwards. */
  function Decorated(sl: Slicing, shapes: seq<Shape>): Tree
    requires OverUnits(sl, |shapes|)
  {
    match sl
    case Block(u) => Leaf(u, shapes[u])
    case Slice(cut, l, r) => Join(cut, Decorated(l, shapes), Decorated(r, shapes))
  }

  lemma {:induction false} DecoratedIsSummed(sl: Slicing, shapes: seq<Shape>)
    requires OverUnits(sl, |shapes|)
    ensures Summed(Decorated(sl, shapes))
  {
    match sl
    case Block(_) =>
    case Slice(cut, l, r) =>
      DecoratedIsSummed(l, shapes);
      DecoratedIsSummed(r, shapes);
      SumIsSound(Decorated(l, shapes).curve, Decorated(r, shapes).curve, cut);
  }

  lemma {:induction false} DecoratedIsPositive(sl: Slicing, shapes: seq<Shape>)
    requires OverUnits(sl, |shapes|) && forall c :: c in shapes ==> Positive(c)
    ensures PositiveLeaves(Decorated(sl, shapes))
  {
    match sl
    case Block(_) =>
    case Slice(_, l, r) =>
      DecoratedIsPositive(l, shapes);
      DecoratedIsPositive(r, shapes);
  }

  lemma {:induction false} DecoratedIsComplete(sl: Slicing, shapes: seq<Shape>)
    requires OverUnits(sl, |shapes|) && forall c :: c in shapes ==> Staircase(c)
    ensures Complete(Decorated(sl, shapes))
    ensures Staircase(Decorated(sl, shapes).curve)
  {
    match sl
    case Block(_) =>
    case Slice(cut, l, r) =>
      DecoratedIsComplete(l, shapes);
      DecoratedIsComplete(r, shapes);
      SumIsComplete(Decorated(l, shapes).curve, Decorated(r, shapes).curve, cut);
      SumIsStaircase(Decorated(l, shapes).curve, Decorated(r, shapes).curve, cut);
  }

  // ---------- sizing is optimal ----------

  /** One orientation for every leaf. */
  datatype Choice = Pick(pos: nat) | Both(left: Choice, right: Choice)

  /** c picks an existing orientation for each leaf of t. */
  predicate Fits(t: Tree, c: Choice) {
    match t
    case Leaf(_, curve) => c.Pick? && c.pos < |curve.x|
    case Node(_, l, r, _) => c.Both? && Fits(l, c.left) && Fits(r, c.right)
  }

  /** Bounding box of t when its leaves are oriented as c says. */
  function Width(t: Tree, c: Choice): real
    requires Fits(t, c)
  {
    match t
    case Leaf(_, curve) => curve.x[c.pos]
    case Node(cut, l, r, _) => JoinedWidth(Width(l, c.left), Width(r, c.right), cut)
  }

  function Height(t: Tree, c: Choice): real
    requires Fits(t, c)
  {
    match t
    case Leaf(_, curve) => curve.y[c.pos]
    case Node(cut, l, r, _) => JoinedHeight(Height(l, c.left), Height(r, c.right), cut)
  }

  /** The orientations behind entry k, read off the position links. */
  function ChosenBy(t: Tree, k: nat): Choice
    requires k < |t.curve.x| && Summed(t)
  {
    match t
    case Leaf(_, _) => Pick(k)
    case Node(cut, l, r, curve) =>
      assert EntryJoins(curve, k, l.curve, r.curve, cut);
      Both(ChosenBy(l, curve.leftPos[k]), ChosenBy(r, curve.rightPos[k]))
  }

  /** Every entry of a curve is realised by the leaf orientations its links lead to. */
  lemma {:induction false} EntryRealised(t: Tree, k: nat)
    requires k < |t.curve.x| && Summed(t)
    ensures Fits(t, ChosenBy(t, k))
    ensures Width(t, ChosenBy(t, k)) == t.curve.x[k]
    ensures Height(t, ChosenBy(t, k)) == t.curve.y[k]
  {
    match t
    case Leaf(_, _) =>
    case Node(cut, l, r, curve) =>
      assert EntryJoins(curve, k, l.curve, r.curve, cut);
      EntryRealised(l, curve.leftPos[k]);
      EntryRealised(r, curve.rightPos[k]);
  }

  lemma JoinedMonotone(w1: real, w2: real, v1: real, v2: real, cut: int)
    requires w1 <= v1 && w2 <= v2
    ensures JoinedWidth(w1, w2, cut) <= JoinedWidth(v1, v2, cut)
    ensures JoinedHeight(w1, w2, cut) <= JoinedHeight(v1, v2, cut)
  {
  }

  /** No choice of orientations beats the curve: some entry is no wider and no taller. */
  lemma {:induction false} ChoiceDominated(t: Tree, c: Choice) returns (k: nat)
    requires Complete(t) && Fits(t, c)
    ensures k < |t.curve.x|
    ensures t.curve.x[k] <= Width(t, c) && t.curve.y[k] <= Height(t, c)
  {
    match t
    case Leaf(_, _) =>
      k := c.pos;
    case Node(cut, l, r, _) =>
      var p := ChoiceDominated(l, c.left);
      var q := ChoiceDominated(r, c.right);
      assert JoinCovered(t.curve, l.curve, r.curve, cut, p, q);
      k :| 0 <= k < |t.curve.x| && t.curve.x[k] <= JoinedWidth(l.curve.x[p], r.curve.x[q], cut)
           && t.curve.y[k] <= JoinedHeight(l.curve.y[p], r.curve.y[q], cut);
      JoinedMonotone(l.curve.x[p], r.curve.x[q], Width(l, c.left), Width(r, c.right), cut);
      JoinedMonotone(l.curve.y[p], r.curve.y[q], Height(l, c.left), Height(r, c.right), cut);
  }

  /** A box admits some packing exactly when it admits an entry of the root curve. */
  lemma FeasibleIff(t: Tree, w: real, h: real)
    requires Summed(t) && Complete(t)
    ensures (exists c: Choice :: Fits(t, c) && Width(t, c) <= w && Height(t, c) <= h)
            <==> (exists k :: 0 <= k < |t.curve.x| && t.curve.x[k] <= w && t.curve.y[k] <= h)
  {
    if c: Choice :| Fits(t, c) && Width(t, c) <= w && Height(t, c) <= h {
      var k := ChoiceDominated(t, c);
      assert 0 <= k < |t.curve.x| && t.curve.x[k] <= w && t.curve.y[k] <= h;
    }
    if k :| 0 <= k < |t.curve.x| && t.curve.x[k] <= w && t.curve.y[k] <= h {
      EntryRealised(t, k);
      assert Fits(t, ChosenBy(t, k));
    }
  }

  lemma ProductMonotone(a: real, b: real, c: real, d: real)
    requires 0.0 <= a <= c && 0.0 <= b <= d
    ensures a * b <= c * d
  {
    assert a * b <= c * b <= c * d;
  }

  lemma EntryArea(c: Curve, k: nat, w: real, h: real)
    requires k < |c.x| == |c.y| && Positive(c)
    requires c.x[k] <= w && c.y[k] <= h
    ensures Area(c, k) <= w * h
  {
    ProductMonotone(c.x[k], c.y[k], w, h);
  }

  lemma TreeEntryArea(t: Tree, k: nat, w: real, h: real)
    requires Summed(t) && PositiveLeaves(t) && k < |t.curve.x|
    requires t.curve.x[k] <= w && t.curve.y[k] <= h
    ensures Area(t.curve, k) <= w * h
  {
    PositiveCurve(t);
    EntryArea(t.curve, k, w, h);
  }

  lemma ChoiceArea(t: Tree, c: Choice, w: real, h: real) returns (k: nat)
    requires Summed(t) && Complete(t) && PositiveLeaves(t)
    requires Fits(t, c) && Width(t, c) <= w && Height(t, c) <= h
    ensures k < |t.curve.x| && Area(t.curve, k) <= w * h
  {
    k := ChoiceDominated(t, c);
    TreeEntryArea(t, k, w, h);
  }

  /** Whatever rectangle some combination of orientations fits into, its area is at least
      that of the least entry of the root curve. */
  lemma LeastAreaIsOptimal(t: Tree, pos: nat, c: Choice, w: real, h: real)
    requires Summed(t) && Complete(t) && PositiveLeaves(t)
    requires Fits(t, c) && Width(t, c) <= w && Height(t, c) <= h
    requires pos < |t.curve.x|
    requires forall i :: 0 <= i < |t.curve.x| ==> Area(t.curve, pos) <= Area(t.curve, i)
    ensures Area(t.curve, pos) <= w * h
  {
    var k := ChoiceArea(t, c, w, h);
  }
}
