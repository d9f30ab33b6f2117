/** The matrix b of a chip in terms of its geometry and materials: minus an entry is the conductance
    of the way between the centres of two nodes. */
module ChipLaws {
  import opened Tilings
  import opened Extents
  import opened Adjacency
  import opened Vectors
  import opened Networks
  import opened ChipConductances
  import opened ConductanceLaws
  import opened BlockNetwork
  import opened BlockMatrix
  import opened BlockModel

  // ---------- what is stated ----------

  /** From centre to centre of two blocks of a layer that share an edge; no other two are linked. */
  ghost predicate LateralObeys(c: Chip, layer: nat, i: nat, j: nat, x: real)
    requires layer < NL && i < |c.units| && j < |c.units|
  {
    var m, u, v, len := Stack(c)[layer], c.units[i], c.units[j], SharedLength(c.units, i, j);
    if layer == 0 && c.config.omitLateral then x == 0.0
    else if HorizontallyAdjacent(c.units, i, j) then
      x * (u.width / 2.0 + v.width / 2.0) == m.k * m.thickness * len
    else if VerticallyAdjacent(c.units, i, j) then
      x * (u.height / 2.0 + v.height / 2.0) == m.k * m.thickness * len
    else x == 0.0
  }

  /** Down through a layer. */
  ghost predicate VerticalObeys(c: Chip, layer: nat, i: nat, x: real)
    requires layer < NL && i < |c.units|
  {
    x * Stack(c)[layer].thickness == Stack(c)[layer].k * AreaOf(c.units[i])
  }

  ghost predicate BlocksObey(c: Chip, l1: nat, i: nat, l2: nat, j: nat, x: real)
    requires l1 < NL && l2 < NL && i < |c.units| && j < |c.units|
  {
    if l1 == l2 then LateralObeys(c, l1, i, j, x)
    else if i == j && l2 == l1 + 1 then VerticalObeys(c, l1, i, x)
    else if i == j && l1 == l2 + 1 then VerticalObeys(c, l2, i, x)
    else x == 0.0
  }

  /** The blocks that reach a side share its ring in proportion to their own conductance. */
  ghost predicate IsShare(reaches: bool, own: real, ring: real, sum: real, x: real) {
    if reaches then x * (1.0 + ring * sum) == own else x == 0.0
  }

  ghost predicate RimObeys(c: Chip, layer: nat, side: nat, i: nat, x: real)
    requires Sane(c) && (layer == HSP || layer == HSINK) && i < |c.units|
  {
    IsShare(Reaches(c, side, c.units[i]), GTo(c, layer, side, i), InnerRing(c, Stack(c)[layer], side),
            BorderSum(c, layer, side, |c.units|), x)
  }

  ghost predicate PackageObeys(c: Chip, layer: nat, i: nat, k: nat, x: real)
    requires Sane(c) && layer < NL && i < |c.units|
  {
    if layer == HSP && k < 4 then RimObeys(c, HSP, k, i, x)
    else if layer == HSINK && 4 <= k < 8 then RimObeys(c, HSINK, k - 4, i, x)
    else x == 0.0
  }

  /** Down through the spreader's sides, and out through middle and outer ring one after the other. */
  ghost predicate SidesObey(c: Chip, k: nat, x: real)
    requires Sane(c)
  {
    if k < 4 then x * c.config.spreader.thickness == c.config.spreader.k * InnerArea(c, k)
    else if k < 8 then x * (MiddleRing(c, k - 4) + OuterRing(c)) == 1.0
    else x == 0.0
  }

  ghost predicate EntryObeys(c: Chip, a: Node, b: Node, x: real)
    requires Sane(c) && IsNode(|c.units|, a) && IsNode(|c.units|, b)
  {
    if a.Block? && b.Block? then BlocksObey(c, a.layer, a.unit, b.layer, b.unit, x)
    else if a.Block? then PackageObeys(c, a.layer, a.unit, b.k, x)
    else if b.Block? then PackageObeys(c, b.layer, b.unit, a.k, x)
    else if b.k == a.k + 4 then SidesObey(c, a.k, x)
    else if a.k == b.k + 4 then SidesObey(c, b.k, x)
    else x == 0.0
  }

  /** Minus the entry between two nodes. */
  ghost function Entry(b: seq<Vec>, n: nat, a: Node, a': Node): real
    requires Square(b, Nodes(n)) && IsNode(n, a) && IsNode(n, a')
  {
    NodesAndIndices(n, a, 0);
    NodesAndIndices(n, a', 0);
    -b[IndexOf(n, a)][IndexOf(n, a')]
  }

  ghost predicate IsChipMatrix(c: Chip, b: seq<Vec>)
    requires Sane(c)
  {
    && Square(b, Nodes(|c.units|))
    && forall a, a' :: IsNode(|c.units|, a) && IsNode(|c.units|, a') && a != a' ==>
                         EntryObeys(c, a, a', Entry(b, |c.units|, a, a'))
  }

  // ---------- two halves in series ----------

  lemma SeriesOfHalves(p: real, q: real, d: real, e: real, x: real)
    requires p >= 0.0 && q >= 0.0 && d > 0.0 && e > 0.0 && x > 0.0 && p * d == x && q * e == x
    ensures Series(p, q) * (d + e) == x
  {
    assert p > 0.0 && q > 0.0;
    var u, v := 1.0 / p, 1.0 / q;
    assert d == x * u by { assert p * u == 1.0; }
    assert e == x * v by { assert q * v == 1.0; }
    var s := Series(p, q);
    assert s == 1.0 / (u + v);
    assert s * (u + v) == 1.0;
    assert s * (x * u + x * v) == x * (s * (u + v));
  }

  /** The two halves over an edge make the way from centre to centre. */
  ghost predicate IsWay(c: Chip, layer: nat, i: nat, j: nat, contact: Contact, len: real, x: real)
    requires layer < NL && i < |c.units| && j < |c.units|
  {
    if (layer == 0 && c.config.omitLateral) || contact == Apart then x == 0.0
    else x * (HalfOf(c.units[i], contact) + HalfOf(c.units[j], contact))
         == Stack(c)[layer].k * Stack(c)[layer].thickness * len
  }

  lemma PositiveTriple(x: real, y: real, z: real)
    requires x > 0.0 && y > 0.0 && z > 0.0
    ensures x * y * z > 0.0
  {
    ProductPositive(x, y);
    ProductPositive(x * y, z);
  }

  lemma HalvesMeet(c: Chip, layer: nat, i: nat, j: nat, contact: Contact, len: real, p: real, q: real)
    requires Sane(c) && layer < NL && i < |c.units| && j < |c.units| && p >= 0.0 && q >= 0.0
    requires IsHalfWay(c, layer, i, contact, len, p) && IsHalfWay(c, layer, j, contact, len, q)
    requires contact != Apart ==> len > 0.0
    ensures IsWay(c, layer, i, j, contact, len, Series(p, q))
  {
    if !((layer == 0 && c.config.omitLateral) || contact == Apart) {
      var m := Stack(c)[layer];
      assert PositiveRect(c.units[i]) && PositiveRect(c.units[j]);
      PositiveTriple(m.k, m.thickness, len);
      SeriesOfHalves(p, q, HalfOf(c.units[i], contact), HalfOf(c.units[j], contact), m.k * m.thickness * len);
    }
  }

  lemma WayObeys(c: Chip, layer: nat, i: nat, j: nat, x: real)
    requires layer < NL && i < |c.units| && j < |c.units|
    requires IsWay(c, layer, i, j, ContactOf(c.units, i, j), SharedLength(c.units, i, j), x)
    ensures LateralObeys(c, layer, i, j, x)
  {
  }

  lemma ContactIsSymmetric(us: seq<Rect>, i: nat, j: nat)
    requires i < |us| && j < |us| && PositiveRect(us[i]) && PositiveRect(us[j])
    ensures ContactOf(us, i, j) == ContactOf(us, j, i) && SharedLength(us, i, j) == SharedLength(us, j, i)
    ensures SharedLength(us, i, j) >= 0.0 && (ContactOf(us, i, j) != Apart ==> SharedLength(us, i, j) > 0.0)
  {
    AdjacencyIsSymmetric(us, i, j);
    SharedLengthPositive(us, i, j);
  }

  lemma LateralIsHalfWay(c: Chip, layer: nat, i: nat, j: nat, g: real)
    requires Sane(c) && layer < NL && i < |c.units| && j < |c.units| && g == Lateral(c, layer, i, j)
    ensures IsHalfWay(c, layer, i, ContactOf(c.units, i, j), SharedLength(c.units, i, j), g)
  {
    assert PositiveRect(c.units[i]) && PositiveRect(c.units[j]);
    SharedLengthPositive(c.units, i, j);
    HalfWay(c, layer, i, ContactOf(c.units, i, j), SharedLength(c.units, i, j));
  }

  lemma LateralSeries(c: Chip, layer: nat, i: nat, j: nat, p: real, q: real)
    requires Sane(c) && layer < NL && i < |c.units| && j < |c.units| && p >= 0.0 && q >= 0.0
    requires IsHalfWay(c, layer, i, ContactOf(c.units, i, j), SharedLength(c.units, i, j), p)
    requires IsHalfWay(c, layer, j, ContactOf(c.units, j, i), SharedLength(c.units, j, i), q)
    ensures LateralObeys(c, layer, i, j, Series(p, q))
  {
    assert PositiveRect(c.units[i]) && PositiveRect(c.units[j]);
    ContactIsSymmetric(c.units, i, j);
    HalvesMeet(c, layer, i, j, ContactOf(c.units, i, j), SharedLength(c.units, i, j), p, q);
    WayObeys(c, layer, i, j, Series(p, q));
  }

  lemma TwiceInSeries(g: real, d: real, x: real)
    requires g > 0.0 && d > 0.0 && x > 0.0 && g * (d / 2.0) == x
    ensures Series(g, g) * d == x
  {
    SeriesOfHalves(g, g, d / 2.0, d / 2.0, x);
  }

  lemma VerticalSeries(c: Chip, layer: nat, i: nat)
    requires Sane(c) && layer < HSINK && i < |c.units|
    ensures VerticalObeys(c, layer, i, Series(Vertical(c, layer, i), Vertical(c, layer, i)))
  {
    var m := Stack(c)[layer];
    VerticalLaw(c, layer, i);
    ProductPositive(m.k, BlockArea(c, i));
    TwiceInSeries(Vertical(c, layer, i), m.thickness, m.k * AreaOf(c.units[i]));
  }

  lemma DownSeries(c: Chip, side: nat)
    requires Sane(c) && side < 4
    ensures SidesObey(c, side, Series(SpreaderToSink(c, side), SpreaderToSink(c, side)))
  {
    var m := c.config.spreader;
    DownLaw(c, side);
    ProductPositive(m.k, InnerArea(c, side));
    TwiceInSeries(SpreaderToSink(c, side), m.thickness, m.k * InnerArea(c, side));
  }

  lemma TwoOver(r: real)
    requires r > 0.0
    ensures 2.0 / r > 0.0 && Series(2.0 / r, 2.0 / r) * r == 1.0
  {
    var g := 2.0 / r;
    assert g * r == 2.0;
    assert g > 0.0;
    TwiceInSeries(g, r, 1.0);
  }

  lemma OutSeries(c: Chip, side: nat)
    requires Sane(c) && side < 4
    ensures SidesObey(c, 4 + side, Series(SinkToOuter(c, side), SinkToOuter(c, side)))
  {
    TwoOver(OuterRing(c) + MiddleRing(c, side));
  }

  lemma ShortedShare(own: real, ring: real, sum: real, x: real, d: real)
    requires own > 0.0 && d == 1.0 / own + ring * sum / own && x * d == 1.0
    ensures x * (1.0 + ring * sum) == own
  {
    var u, y := 1.0 / own, ring * sum;
    assert u * own == 1.0;
    assert y / own == y * u;
    assert d * own == 1.0 + y;
    assert x * (d * own) == (x * d) * own;
  }

  lemma ShortedSeries(own: real, ring: real, sum: real, reaches: bool, p: real)
    requires own > 0.0 && ring > 0.0 && sum >= 0.0 && p == if reaches then Shorted(own, ring, sum) else 0.0
    ensures IsShare(reaches, own, ring, sum, Series(p, p))
  {
    if reaches {
      var d := 1.0 / own + ring * sum / own;
      ShortedPositive(own, ring, sum);
      TwoOver(d);
      ShortedShare(own, ring, sum, Series(p, p), d);
    }
  }

  lemma RimSeries(c: Chip, layer: nat, side: nat, i: nat, p: real)
    requires Sane(c) && (layer == HSP || layer == HSINK) && side < 4 && i < |c.units|
    requires p == ToPackage(c, layer, side, i)
    ensures RimObeys(c, layer, side, i, Series(p, p))
  {
    ShortedSeries(GTo(c, layer, side, i), InnerRing(c, Stack(c)[layer], side), BorderSum(c, layer, side, |c.units|),
                  Reaches(c, side, c.units[i]), p);
  }

  // ---------- the entries of the matrix ----------

  ghost function Between(c: Chip, a: Node, b: Node): real
    requires Sane(c)
  {
    Conductance(LinksOf(c), a, b)
  }

  lemma EntryIsSeries(c: Chip, g: seq<Vec>, b: seq<Vec>, a: Node, a': Node, n: nat)
    requires Sane(c) && n == |c.units| && IsG(g, LinksOf(c), n) && IsB(b, g, AmbientVector(LinksOf(c), n), Nodes(n))
    requires IsNode(n, a) && IsNode(n, a') && a != a'
    ensures Between(c, a, a') >= 0.0 && Between(c, a', a) >= 0.0
    ensures Entry(b, n, a, a') == Series(Between(c, a, a'), Between(c, a', a))
  {
    ChipConducts(c);
    ConductanceNonNegative(LinksOf(c), n, a, a');
    ConductanceNonNegative(LinksOf(c), n, a', a);
    NodesAndIndices(n, a, 0);
    NodesAndIndices(n, a', 0);
    var r, s := IndexOf(n, a), IndexOf(n, a');
    assert g[r][s] == Between(c, a, a') && g[s][r] == Between(c, a', a);
    assert b[r][s] == Link(g, Nodes(n), r, s);
  }

  lemma SeriesObeys(c: Chip, a: Node, b: Node, p: real, q: real)
    requires Sane(c) && IsNode(|c.units|, a) && IsNode(|c.units|, b) && a != b
    requires p == Between(c, a, b) && q == Between(c, b, a) && p >= 0.0 && q >= 0.0
    ensures EntryObeys(c, a, b, Series(p, q))
  {
    if a.Block? && b.Block? {
      BlockSeriesObeys(c, a, b, p, q);
    } else if a.Block? {
      PackageSeriesObeys(c, a, b, p, q);
    } else if b.Block? {
      PackageSeriesObeys(c, b, a, q, p);
    } else {
      SideSeriesObeys(c, a, b, p, q);
    }
  }

  lemma BlockSeriesObeys(c: Chip, a: Node, b: Node, p: real, q: real)
    requires Sane(c) && IsNode(|c.units|, a) && IsNode(|c.units|, b) && a != b && a.Block? && b.Block?
    requires p == Between(c, a, b) && q == Between(c, b, a) && p >= 0.0 && q >= 0.0
    ensures BlocksObey(c, a.layer, a.unit, b.layer, b.unit, Series(p, q))
  {
    if a.layer == b.layer {
      LateralIsHalfWay(c, a.layer, a.unit, b.unit, p);
      LateralIsHalfWay(c, a.layer, b.unit, a.unit, q);
      LateralSeries(c, a.layer, a.unit, b.unit, p, q);
    } else if a.unit == b.unit && b.layer == a.layer + 1 {
      VerticalSeries(c, a.layer, a.unit);
    } else if a.unit == b.unit && a.layer == b.layer + 1 {
      VerticalSeries(c, b.layer, a.unit);
    }
  }

  lemma PackageSeriesObeys(c: Chip, a: Node, b: Node, p: real, q: real)
    requires Sane(c) && IsNode(|c.units|, a) && IsNode(|c.units|, b) && a.Block? && b.Extra?
    requires p == Between(c, a, b) && q == Between(c, b, a) && p >= 0.0 && q >= 0.0
    ensures PackageObeys(c, a.layer, a.unit, b.k, Series(p, q))
  {
    if a.layer == HSP && b.k < 4 {
      RimSeries(c, HSP, b.k, a.unit, p);
    } else if a.layer == HSINK && 4 <= b.k < 8 {
      RimSeries(c, HSINK, b.k - 4, a.unit, p);
    }
  }

  lemma SideSeriesObeys(c: Chip, a: Node, b: Node, p: real, q: real)
    requires Sane(c) && IsNode(|c.units|, a) && IsNode(|c.units|, b) && a.Extra? && b.Extra? && a != b
    requires p == Between(c, a, b) && q == Between(c, b, a) && p >= 0.0 && q >= 0.0
    ensures EntryObeys(c, a, b, Series(p, q))
  {
    if b.k == a.k + 4 {
      OneSideObeys(c, a.k);
    } else if a.k == b.k + 4 {
      OneSideObeys(c, b.k);
    }
  }

  lemma OneSideObeys(c: Chip, k: nat)
    requires Sane(c) && k < 8
    ensures var p := Between(c, Extra(k), Extra(k + 4)); p >= 0.0 && SidesObey(c, k, Series(p, p))
  {
    if k < 4 {
      DownSeries(c, k);
    } else {
      OutSeries(c, k - 4);
    }
  }

  /** The matrix that is filled in for a chip is that of its geometry and materials. */
  lemma FilledIsChipMatrix(c: Chip, g: seq<Vec>, b: seq<Vec>, n: nat)
    requires Sane(c) && n == |c.units| && IsG(g, LinksOf(c), n) && IsB(b, g, AmbientVector(LinksOf(c), n), Nodes(n))
    ensures IsChipMatrix(c, b)
  {
    forall a, a' | IsNode(n, a) && IsNode(n, a') && a != a'
      ensures EntryObeys(c, a, a', Entry(b, n, a, a'))
    {
      EntryIsSeries(c, g, b, a, a', n);
      SeriesObeys(c, a, a', Between(c, a, a'), Between(c, a', a));
    }
  }

  // ---------- from centre to centre ----------

  function CentreX(u: Rect): real {
    u.leftx + u.width / 2.0
  }

  function CentreY(u: Rect): real {
    u.bottomy + u.height / 2.0
  }

  lemma EntryBetweenBlocks(c: Chip, b: seq<Vec>, layer: nat, i: nat, j: nat)
    requires Sane(c) && IsChipMatrix(c, b) && layer < NL && i < |c.units| && j < |c.units| && i != j
    ensures LateralObeys(c, layer, i, j, Entry(b, |c.units|, Block(layer, i), Block(layer, j)))
  {
    var a, a', n := Block(layer, i), Block(layer, j), |c.units|;
    assert IsNode(n, a) && IsNode(n, a');
    assert EntryObeys(c, a, a', Entry(b, n, a, a'));
  }

  /** Between blocks that touch side by side heat flows over the shared edge from centre to centre. */
  lemma SideBySide(c: Chip, b: seq<Vec>, layer: nat, i: nat, j: nat)
    requires Sane(c) && IsChipMatrix(c, b) && layer < NL && i < |c.units| && j < |c.units|
    requires !(layer == 0 && c.config.omitLateral)
    requires HorizontallyAdjacent(c.units, i, j) && Right(c.units[i]) == c.units[j].leftx
    ensures Entry(b, |c.units|, Block(layer, i), Block(layer, j)) * (CentreX(c.units[j]) - CentreX(c.units[i]))
            == Stack(c)[layer].k * Stack(c)[layer].thickness * SharedLength(c.units, i, j)
  {
    EntryBetweenBlocks(c, b, layer, i, j);
    assert CentreX(c.units[j]) - CentreX(c.units[i]) == c.units[i].width / 2.0 + c.units[j].width / 2.0;
  }

  /** ... and one above the other. */
  lemma OneAboveOther(c: Chip, b: seq<Vec>, layer: nat, i: nat, j: nat)
    requires Sane(c) && IsChipMatrix(c, b) && layer < NL && i < |c.units| && j < |c.units|
    requires !(layer == 0 && c.config.omitLateral)
    requires VerticallyAdjacent(c.units, i, j) && Top(c.units[i]) == c.units[j].bottomy
    ensures Entry(b, |c.units|, Block(layer, i), Block(layer, j)) * (CentreY(c.units[j]) - CentreY(c.units[i]))
            == Stack(c)[layer].k * Stack(c)[layer].thickness * SharedLength(c.units, i, j)
  {
    EntryBetweenBlocks(c, b, layer, i, j);
    AdjacencyIsExclusive(c.units, i, j);
    assert CentreY(c.units[j]) - CentreY(c.units[i]) == c.units[i].height / 2.0 + c.units[j].height / 2.0;
  }

  // ---------- a side of the package ----------

  /** The package node of a side, seen from the spreader or the sink. */
  function SideNode(layer: nat, side: nat): Node {
    Extra(if layer == HSP then side else 4 + side)
  }

  /** Conductances from the blocks of a layer to a side. */
  ghost function ToSide(b: seq<Vec>, n: nat, layer: nat, side: nat): (xs: seq<real>)
    requires Square(b, Nodes(n)) && layer < NL && side < 4
    ensures |xs| == n && forall i :: 0 <= i < n ==> xs[i] == Entry(b, n, Block(layer, i), SideNode(layer, side))
  {
    seq(n, i requires 0 <= i < n => Entry(b, n, Block(layer, i), SideNode(layer, side)))
  }

  /** Conductances of the blocks that reach a side, from their middle to that side, and 0 for others. */
  ghost function ToEdge(c: Chip, layer: nat, side: nat): (xs: seq<real>)
    requires Sane(c) && 0 < layer < NL
    ensures |xs| == |c.units|
    ensures forall i :: 0 <= i < |xs| ==>
              xs[i] == if Reaches(c, side, c.units[i]) then GTo(c, layer, side, i) else 0.0
  {
    seq(|c.units|, i requires 0 <= i < |c.units| =>
      if Reaches(c, side, c.units[i]) then GTo(c, layer, side, i) else 0.0)
  }

  lemma {:induction false} BorderSumIsTotal(c: Chip, layer: nat, side: nat, xs: seq<real>, m: nat)
    requires Sane(c) && 0 < layer < NL && side < 4 && m <= |c.units| && xs == ToEdge(c, layer, side)
    ensures BorderSum(c, layer, side, m) == Total(xs[..m])
    decreases m
  {
    if m > 0 {
      BorderSumIsTotal(c, layer, side, xs, m - 1);
      TotalNext(xs, m - 1);
    }
  }

  lemma EntryToSide(c: Chip, b: seq<Vec>, layer: nat, side: nat, i: nat)
    requires Sane(c) && IsChipMatrix(c, b) && (layer == HSP || layer == HSINK) && side < 4 && i < |c.units|
    ensures RimObeys(c, layer, side, i, Entry(b, |c.units|, Block(layer, i), SideNode(layer, side)))
  {
    var a, a', n := Block(layer, i), SideNode(layer, side), |c.units|;
    assert IsNode(n, a) && IsNode(n, a');
    assert EntryObeys(c, a, a', Entry(b, n, a, a'));
  }

  ghost predicate IsPart(x: real, own: real, ring: real, sum: real) {
    x * (1.0 + ring * sum) == own
  }

  ghost predicate AllParts(xs: seq<real>, owns: seq<real>, ring: real, sum: real) {
    |xs| == |owns| && forall i :: 0 <= i < |xs| ==> IsPart(xs[i], owns[i], ring, sum)
  }

  lemma ShareIsPart(reaches: bool, own: real, ring: real, sum: real, x: real, y: real)
    requires IsShare(reaches, own, ring, sum, x) && y == if reaches then own else 0.0
    ensures IsPart(x, y, ring, sum)
  {
  }

  lemma BlockIsPart(c: Chip, b: seq<Vec>, layer: nat, side: nat, i: nat, x: real, y: real)
    requires Sane(c) && IsChipMatrix(c, b) && (layer == HSP || layer == HSINK) && side < 4 && i < |c.units|
    requires x == Entry(b, |c.units|, Block(layer, i), SideNode(layer, side))
    requires y == if Reaches(c, side, c.units[i]) then GTo(c, layer, side, i) else 0.0
    ensures IsPart(x, y, InnerRing(c, Stack(c)[layer], side), BorderSum(c, layer, side, |c.units|))
  {
    EntryToSide(c, b, layer, side, i);
    ShareIsPart(Reaches(c, side, c.units[i]), GTo(c, layer, side, i), InnerRing(c, Stack(c)[layer], side),
                BorderSum(c, layer, side, |c.units|), x, y);
  }

  lemma SideParts(c: Chip, b: seq<Vec>, layer: nat, side: nat)
    requires Sane(c) && IsChipMatrix(c, b) && (layer == HSP || layer == HSINK) && side < 4
    ensures AllParts(ToSide(b, |c.units|, layer, side), ToEdge(c, layer, side), InnerRing(c, Stack(c)[layer], side),
                     BorderSum(c, layer, side, |c.units|))
  {
    var xs, owns := ToSide(b, |c.units|, layer, side), ToEdge(c, layer, side);
    forall i | 0 <= i < |xs|
      ensures IsPart(xs[i], owns[i], InnerRing(c, Stack(c)[layer], side), BorderSum(c, layer, side, |c.units|))
    {
      BlockIsPart(c, b, layer, side, i, xs[i], owns[i]);
    }
  }

  lemma {:induction false} PartsAddUp(xs: seq<real>, owns: seq<real>, ring: real, sum: real, m: nat)
    requires AllParts(xs, owns, ring, sum) && m <= |xs|
    ensures Total(xs[..m]) * (1.0 + ring * sum) == Total(owns[..m])
    decreases m
  {
    if m > 0 {
      PartsAddUp(xs, owns, ring, sum, m - 1);
      TotalNext(xs, m - 1);
      TotalNext(owns, m - 1);
      assert IsPart(xs[m - 1], owns[m - 1], ring, sum);
      SumTimes(Total(xs[..m - 1]), xs[m - 1], 1.0 + ring * sum);
    }
  }

  lemma ParallelThenRing(total: real, ring: real, sum: real)
    requires sum > 0.0 && total * (1.0 + ring * sum) == sum
    ensures total * (1.0 / sum + ring) == 1.0
  {
    var u := 1.0 / sum;
    assert u * sum == 1.0;
    assert (u + ring) * sum == 1.0 + ring * sum;
    assert (total * (u + ring) - 1.0) * sum == 0.0;
  }

  /** The conductance of a conductance and a resistance one after the other. */
  ghost predicate InSeries(total: real, g: real, r: real) {
    g > 0.0 && total * (1.0 / g + r) == 1.0
  }

  lemma PartsInParallel(xs: seq<real>, owns: seq<real>, ring: real)
    requires AllParts(xs, owns, ring, Total(owns)) && Total(owns) > 0.0
    ensures InSeries(Total(xs), Total(owns), ring)
  {
    PartsAddUp(xs, owns, ring, Total(owns), |xs|);
    assert xs[..|xs|] == xs && owns[..|xs|] == owns;
    ParallelThenRing(Total(xs), ring, Total(owns));
  }

  /** The ring between chip and spreader on a side, and what its blocks conduct towards it. */
  lemma RingAndParts(c: Chip, b: seq<Vec>, layer: nat, side: nat) returns (ring: real)
    requires Sane(c) && IsChipMatrix(c, b) && (layer == HSP || layer == HSINK) && side < 4
    ensures IsTrapezoid(ring, Stack(c)[layer], Edge(c, side), (Edge(c, side) + c.config.sSpreader) / 2.0,
                        Margin(c, side) / 2.0)
    ensures AllParts(ToSide(b, |c.units|, layer, side), ToEdge(c, layer, side), ring, Total(ToEdge(c, layer, side)))
  {
    ring := InnerRing(c, Stack(c)[layer], side);
    InnerRingLaw(c, Stack(c)[layer], side);
    var xs := ToEdge(c, layer, side);
    BorderSumIsTotal(c, layer, side, xs, |c.units|);
    assert xs[..|c.units|] == xs;
    SideParts(c, b, layer, side);
  }

  /** All blocks that reach a side are in parallel, and they in series with the ring of that side. */
  lemma SideInSeries(c: Chip, b: seq<Vec>, layer: nat, side: nat) returns (ring: real)
    requires Sane(c) && IsChipMatrix(c, b) && (layer == HSP || layer == HSINK) && side < 4
    requires Total(ToEdge(c, layer, side)) > 0.0
    ensures IsTrapezoid(ring, Stack(c)[layer], Edge(c, side), (Edge(c, side) + c.config.sSpreader) / 2.0,
                        Margin(c, side) / 2.0)
    ensures InSeries(Total(ToSide(b, |c.units|, layer, side)), Total(ToEdge(c, layer, side)), ring)
  {
    ring := RingAndParts(c, b, layer, side);
    PartsInParallel(ToSide(b, |c.units|, layer, side), ToEdge(c, layer, side), ring);
  }

  // ---------- the sink as a whole ----------

  /** The area of the sink that each node stands for. */
  ghost function SinkWeights(c: Chip): (v: Vec)
    requires Sane(c)
    ensures |v| == Nodes(|c.units|)
  {
    var n, xs := |c.units|, SinkAreas(c);
    seq(Nodes(n), r requires 0 <= r < Nodes(n) =>
      if r < HSINK * n then 0.0 else if r < NL * n then xs[r - HSINK * n]
      else if r < NL * n + 4 then 0.0 else xs[r - HSINK * n - 4])
  }

  ghost predicate Proportional(x: real, area: real, d: real, k: real) {
    x * d == k * area
  }

  lemma WeightOfBlock(c: Chip, i: nat)
    requires Sane(c) && i < |c.units|
    ensures var r := HSINK * |c.units| + i;
            Proportional(AmbientVector(LinksOf(c), |c.units|)[r], SinkWeights(c)[r], Depth(c), c.config.sink.k)
  {
    BlockAmbientLaw(c, i);
  }

  lemma WeightOfSide(c: Chip, k: nat)
    requires Sane(c) && k < 8
    ensures var r := NL * |c.units| + 4 + k;
            Proportional(AmbientVector(LinksOf(c), |c.units|)[r], SinkWeights(c)[r], Depth(c), c.config.sink.k)
  {
    if k < 4 {
      InnerAmbientLaw(c, k);
      assert SinkAreas(c)[|c.units| + k] == InnerArea(c, k);
    } else {
      OuterAmbientLaw(c);
    }
  }

  lemma NoWeight(c: Chip, r: nat)
    requires Sane(c) && (r < HSINK * |c.units| || NL * |c.units| <= r < NL * |c.units| + 4)
    ensures Proportional(AmbientVector(LinksOf(c), |c.units|)[r], SinkWeights(c)[r], Depth(c), c.config.sink.k)
  {
    assert AmbientVector(LinksOf(c), |c.units|)[r] == 0.0 && SinkWeights(c)[r] == 0.0;
  }

  /** Every node conducts to ambient in proportion to its area of the sink. */
  ghost predicate InProportion(amb: Vec, areas: Vec, d: real, k: real) {
    |amb| == |areas| && forall r :: 0 <= r < |amb| ==> Proportional(amb[r], areas[r], d, k)
  }

  lemma WeightAt(c: Chip, r: nat)
    requires Sane(c) && r < Nodes(|c.units|)
    ensures Proportional(AmbientVector(LinksOf(c), |c.units|)[r], SinkWeights(c)[r], Depth(c), c.config.sink.k)
  {
    var n := |c.units|;
    if HSINK * n <= r < NL * n {
      WeightOfBlock(c, r - HSINK * n);
    } else if r >= NL * n + 4 {
      WeightOfSide(c, r - NL * n - 4);
    } else {
      NoWeight(c, r);
    }
  }

  lemma WeightsFit(c: Chip)
    requires Sane(c)
    ensures InProportion(AmbientVector(LinksOf(c), |c.units|), SinkWeights(c), Depth(c), c.config.sink.k)
  {
    forall r | 0 <= r < Nodes(|c.units|)
      ensures Proportional(AmbientVector(LinksOf(c), |c.units|)[r], SinkWeights(c)[r], Depth(c), c.config.sink.k)
    {
      WeightAt(c, r);
    }
  }

  lemma {:induction false} ProportionalSum(amb: Vec, areas: Vec, d: real, k: real, m: nat)
    requires InProportion(amb, areas, d, k) && m <= |amb|
    ensures Sum(amb, m) * d == k * Sum(areas, m)
  {
    if m > 0 {
      ProportionalSum(amb, areas, d, k, m - 1);
      assert Proportional(amb[m - 1], areas[m - 1], d, k);
      SumTimes(Sum(amb, m - 1), amb[m - 1], d);
    }
  }

  lemma {:induction false} SumOfZeros(v: Vec, lo: nat, m: nat)
    requires lo <= m <= |v| && forall r :: lo <= r < m ==> v[r] == 0.0
    ensures Sum(v, m) == Sum(v, lo)
    decreases m
  {
    if m > lo {
      SumOfZeros(v, lo, m - 1);
    }
  }

  /** A run of v that agrees with a run of xs, shifted by the given distance. */
  lemma {:induction false} SumOfRun(v: Vec, xs: seq<real>, lo: nat, shift: nat, m: nat)
    requires shift <= lo <= m <= |v| && m - shift <= |xs| && forall r :: lo <= r < m ==> v[r] == xs[r - shift]
    ensures Sum(v, m) == Sum(v, lo) + (Total(xs[..m - shift]) - Total(xs[..lo - shift]))
    decreases m
  {
    if m > lo {
      SumOfRun(v, xs, lo, shift, m - 1);
      TotalNext(xs, m - 1 - shift);
      assert v[m - 1] == xs[m - 1 - shift];
    }
  }

  lemma SumOfWeights(c: Chip)
    requires Sane(c)
    ensures Sum(SinkWeights(c), Nodes(|c.units|)) == Total(SinkAreas(c))
  {
    var v, xs, n := SinkWeights(c), SinkAreas(c), |c.units|;
    SumOfZeros(v, 0, HSINK * n);
    SumOfRun(v, xs, HSINK * n, HSINK * n, NL * n);
    SumOfZeros(v, NL * n, NL * n + 4);
    SumOfRun(v, xs, NL * n + 4, HSINK * n + 4, Nodes(n));
    assert xs[..n + 8] == xs;
  }

  lemma PlateAndConvection(total: real, d: real, k: real, q: real, r: real, plate: real, t: real)
    requires k > 0.0 && q > 0.0 && plate * (k * q) == t && d == t + k * (r * q) && total * d == k * q
    ensures total * (plate + r) == 1.0
  {
    ProductPositive(k, q);
    var y := k * q;
    assert k * (r * q) == r * y;
    assert d == (plate + r) * y;
    assert (total * (plate + r) - 1.0) * y == 0.0;
  }

  ghost predicate ConductsOver(g: real, r: real) {
    g * r == 1.0
  }

  ghost predicate IsPlate(d: real, k: real, q: real, r: real, plate: real, t: real) {
    k > 0.0 && q > 0.0 && plate * (k * q) == t && d == t + k * (r * q)
  }

  lemma SinkIsPlate(c: Chip, q: real)
    requires Sane(c) && q == c.config.sSink * c.config.sSink && q > 0.0
    ensures IsPlate(Depth(c), c.config.sink.k, q, c.config.rConvec,
                    Resistance(c.config.sink.k, c.config.sink.thickness, q), c.config.sink.thickness)
  {
    PlateResists(c.config.sink.k, c.config.sink.thickness, q);
  }

  lemma WeightsFill(c: Chip, box: Rect)
    requires Sane(c) && Tiles(c.units, box) && box.width == c.width && box.height == c.height
    ensures Sum(SinkWeights(c), Nodes(|c.units|)) == c.config.sSink * c.config.sSink
  {
    SumOfWeights(c);
    SinkAreasFill(c, box);
  }

  lemma WholePlate(amb: Vec, areas: Vec, d: real, k: real, q: real, r: real, plate: real, t: real, m: nat)
    requires InProportion(amb, areas, d, k) && m == |amb| && Sum(areas, m) == q && IsPlate(d, k, q, r, plate, t)
    ensures ConductsOver(Sum(amb, m), plate + r)
  {
    ProportionalSum(amb, areas, d, k, m);
    PlateAndConvection(Sum(amb, m), d, k, q, r, plate, t);
  }

  /** All ways to ambient in parallel: the whole sink as one plate, in series with convection. */
  lemma SinkInParallel(c: Chip, box: Rect)
    requires Sane(c) && Tiles(c.units, box) && box.width == c.width && box.height == c.height
    ensures c.config.sSink * c.config.sSink > 0.0
    ensures ConductsOver(Sum(AmbientVector(LinksOf(c), |c.units|), Nodes(|c.units|)),
                         Resistance(c.config.sink.k, c.config.sink.thickness, c.config.sSink * c.config.sSink)
                         + c.config.rConvec)
  {
    var q, m := c.config.sSink * c.config.sSink, c.config.sink;
    ProductPositive(c.config.sSink, c.config.sSink);
    WeightsFit(c);
    WeightsFill(c, box);
    SinkIsPlate(c, q);
    WholePlate(AmbientVector(LinksOf(c), |c.units|), SinkWeights(c), Depth(c), m.k, q, c.config.rConvec,
               Resistance(m.k, m.thickness, q), m.thickness, Nodes(|c.units|));
  }

  lemma {:induction false} ProportionalDot(amb: Vec, areas: Vec, e: Vec, d: real, k: real, m: nat)
    requires InProportion(amb, areas, d, k) && m <= |amb| == |e|
    ensures Dot(amb, e, m) * d == k * Dot(areas, e, m)
    decreases m
  {
    if m > 0 {
      ProportionalDot(amb, areas, e, d, k, m - 1);
      assert Proportional(amb[m - 1], areas[m - 1], d, k);
      AddProduct(Dot(amb, e, m - 1), amb[m - 1], e[m - 1], Dot(areas, e, m - 1), areas[m - 1], d, k);
    }
  }

  lemma AddProduct(s: real, x: real, y: real, t: real, a: real, d: real, k: real)
    requires s * d == k * t && x * d == k * a
    ensures (s + x * y) * d == k * (t + a * y)
  {
    assert (x * y) * d == (x * d) * y;
    assert (k * a) * y == k * (a * y);
  }

  /** Excess summed over an area: its mean is the power times the resistance. */
  ghost predicate IsRise(sum: real, area: real, power: real, r: real) {
    sum == area * (power * r)
  }

  lemma RiseOfPlate(total: real, w: real, d: real, k: real, q: real, r: real, plate: real, t: real)
    requires IsPlate(d, k, q, r, plate, t) && total * d == k * w
    ensures IsRise(w, q, total, plate + r)
  {
    var y := total * (plate + r);
    assert k * (r * q) == r * (k * q);
    assert d == (plate + r) * (k * q);
    assert total * d == k * (q * y);
    assert k * (w - q * y) == 0.0;
  }

  /** However the heat spreads, the sink's mean excess over its area is the total power that leaves
      times the resistance of the sink as one plate and of convection. */
  lemma MeanRise(c: Chip, box: Rect, total: real, e: Vec)
    requires Sane(c) && Tiles(c.units, box) && box.width == c.width && box.height == c.height
    requires |e| == Nodes(|c.units|)
    requires total == Dot(AmbientVector(LinksOf(c), |c.units|), e, Nodes(|c.units|))
    ensures c.config.sSink * c.config.sSink > 0.0
    ensures Sum(SinkWeights(c), Nodes(|c.units|)) == c.config.sSink * c.config.sSink
    ensures IsRise(Dot(SinkWeights(c), e, Nodes(|c.units|)), c.config.sSink * c.config.sSink, total,
                   Resistance(c.config.sink.k, c.config.sink.thickness, c.config.sSink * c.config.sSink)
                   + c.config.rConvec)
  {
    var q, m := c.config.sSink * c.config.sSink, c.config.sink;
    ProductPositive(c.config.sSink, c.config.sSink);
    WeightsFit(c);
    WeightsFill(c, box);
    SinkIsPlate(c, q);
    ProportionalDot(AmbientVector(LinksOf(c), |c.units|), SinkWeights(c), e, Depth(c), m.k, Nodes(|c.units|));
    RiseOfPlate(total, Dot(SinkWeights(c), e, Nodes(|c.units|)), Depth(c), m.k, q, c.config.rConvec,
                Resistance(m.k, m.thickness, q), m.thickness);
  }
}
