/** What the conductances of a chip mean: each is that of a plate of the right material, length and
    cross-section, and the plates of spreader and sink fill their squares. */
module ConductanceLaws {
  import opened Tilings
  import opened Extents
  import opened Adjacency
  import opened ChipConductances

  /** The materials from the silicon down. */
  function Stack(c: Chip): seq<Material> {
    [c.config.chip, c.config.iface, c.config.spreader, c.config.sink]
  }

  // ---------- plates ----------

  /** A conductance times the length of the plate is the conductivity times its cross-section. */
  lemma PlateConducts(k: real, length: real, area: real)
    requires k > 0.0 && length > 0.0 && area > 0.0
    ensures Inverse(Resistance(k, length, area)) * length == k * area
  {
    ProductPositive(k, area);
    var q, r := k * area, Resistance(k, length, area);
    var g := Inverse(r);
    assert r * q == length && g * r == 1.0;
    ProductOfThree(g, r, q);
  }

  lemma ProductOfThree(x: real, y: real, z: real)
    ensures x * (y * z) == (x * y) * z
  {
  }

  /** From the centre of a block to its edge on the left or right. */
  lemma GxLaw(c: Chip, layer: nat, i: nat)
    requires Sane(c) && layer < NL && i < |c.units| && !(layer == 0 && c.config.omitLateral)
    ensures var m, u := Stack(c)[layer], c.units[i];
            Gx(c, layer, i) * (u.width / 2.0) == m.k * (u.height * m.thickness)
  {
    var m, u := Stack(c)[layer], c.units[i];
    assert PositiveRect(u);
    ProductPositive(u.height, m.thickness);
    PlateConducts(m.k, u.width / 2.0, u.height * m.thickness);
  }

  /** ... and below or above. */
  lemma GyLaw(c: Chip, layer: nat, i: nat)
    requires Sane(c) && layer < NL && i < |c.units| && !(layer == 0 && c.config.omitLateral)
    ensures var m, u := Stack(c)[layer], c.units[i];
            Gy(c, layer, i) * (u.height / 2.0) == m.k * (u.width * m.thickness)
  {
    var m, u := Stack(c)[layer], c.units[i];
    assert PositiveRect(u);
    ProductPositive(u.width, m.thickness);
    PlateConducts(m.k, u.height / 2.0, u.width * m.thickness);
  }

  lemma PerLength(g: real, half: real, side: real, k: real, t: real, q: real)
    requires side > 0.0 && g * half == k * (side * t) && q == g / side
    ensures q * half == k * t
  {
    assert q * side == g;
    assert (q * half - k * t) * side == 0.0;
  }

  lemma Scaled(g: real, q: real, half: real, x: real, len: real)
    requires q * half == x && g == q * len
    ensures g * half == x * len
  {
    assert q * len * half == q * half * len;
  }

  /** Conductance from a block's centre to its edge on the left or right, for each unit of length. */
  lemma GxPerLength(c: Chip, layer: nat, i: nat) returns (q: real)
    requires Sane(c) && layer < NL && i < |c.units| && !(layer == 0 && c.config.omitLateral)
    ensures c.units[i].height > 0.0 && q == Gx(c, layer, i) / c.units[i].height
    ensures q * (c.units[i].width / 2.0) == Stack(c)[layer].k * Stack(c)[layer].thickness
  {
    var m, u := Stack(c)[layer], c.units[i];
    assert PositiveRect(u);
    GxLaw(c, layer, i);
    q := Gx(c, layer, i) / u.height;
    PerLength(Gx(c, layer, i), u.width / 2.0, u.height, m.k, m.thickness, q);
  }

  lemma GyPerLength(c: Chip, layer: nat, i: nat) returns (q: real)
    requires Sane(c) && layer < NL && i < |c.units| && !(layer == 0 && c.config.omitLateral)
    ensures c.units[i].width > 0.0 && q == Gy(c, layer, i) / c.units[i].width
    ensures q * (c.units[i].height / 2.0) == Stack(c)[layer].k * Stack(c)[layer].thickness
  {
    var m, u := Stack(c)[layer], c.units[i];
    assert PositiveRect(u);
    GyLaw(c, layer, i);
    q := Gy(c, layer, i) / u.width;
    PerLength(Gy(c, layer, i), u.height / 2.0, u.width, m.k, m.thickness, q);
  }

  /** Half of a block, in the direction of a neighbour. */
  function HalfOf(u: Rect, contact: Contact): real {
    if contact == Beside then u.width / 2.0 else u.height / 2.0
  }

  /** Half of the way from block i over an edge is a plate as wide as the edge and as long as half of
      the block. */
  ghost predicate IsHalfWay(c: Chip, layer: nat, i: nat, contact: Contact, len: real, g: real)
    requires layer < NL && i < |c.units|
  {
    if (layer == 0 && c.config.omitLateral) || contact == Apart then g == 0.0
    else g * HalfOf(c.units[i], contact) == Stack(c)[layer].k * Stack(c)[layer].thickness * len
  }

  lemma GxOver(c: Chip, layer: nat, i: nat, len: real, g: real, half: real, x: real)
    requires Sane(c) && layer < NL && i < |c.units| && !(layer == 0 && c.config.omitLateral)
    requires x == Stack(c)[layer].k * Stack(c)[layer].thickness && half == c.units[i].width / 2.0
    requires c.units[i].height > 0.0 && g == Gx(c, layer, i) / c.units[i].height * len
    ensures g * half == x * len
  {
    var q := GxPerLength(c, layer, i);
    Scaled(g, q, half, x, len);
  }

  lemma GyOver(c: Chip, layer: nat, i: nat, len: real, g: real, half: real, x: real)
    requires Sane(c) && layer < NL && i < |c.units| && !(layer == 0 && c.config.omitLateral)
    requires x == Stack(c)[layer].k * Stack(c)[layer].thickness && half == c.units[i].height / 2.0
    requires c.units[i].width > 0.0 && g == Gy(c, layer, i) / c.units[i].width * len
    ensures g * half == x * len
  {
    var q := GyPerLength(c, layer, i);
    Scaled(g, q, half, x, len);
  }

  lemma HalfWayBeside(c: Chip, layer: nat, i: nat, len: real, g: real)
    requires Sane(c) && layer < NL && i < |c.units| && len >= 0.0 && !(layer == 0 && c.config.omitLateral)
    requires g == OverEdge(c, layer, i, Beside, len)
    ensures IsHalfWay(c, layer, i, Beside, len, g)
  {
    assert PositiveRect(c.units[i]);
    GxOver(c, layer, i, len, g, c.units[i].width / 2.0, Stack(c)[layer].k * Stack(c)[layer].thickness);
  }

  lemma HalfWayAbove(c: Chip, layer: nat, i: nat, len: real, g: real)
    requires Sane(c) && layer < NL && i < |c.units| && len >= 0.0 && !(layer == 0 && c.config.omitLateral)
    requires g == OverEdge(c, layer, i, Above, len)
    ensures IsHalfWay(c, layer, i, Above, len, g)
  {
    assert PositiveRect(c.units[i]);
    GyOver(c, layer, i, len, g, c.units[i].height / 2.0, Stack(c)[layer].k * Stack(c)[layer].thickness);
  }

  lemma HalfWay(c: Chip, layer: nat, i: nat, contact: Contact, len: real)
    requires Sane(c) && layer < NL && i < |c.units| && len >= 0.0
    ensures IsHalfWay(c, layer, i, contact, len, OverEdge(c, layer, i, contact, len))
  {
    if layer == 0 && c.config.omitLateral {
      assert Gx(c, layer, i) == 0.0 && Gy(c, layer, i) == 0.0;
    } else if contact == Beside {
      HalfWayBeside(c, layer, i, len, OverEdge(c, layer, i, contact, len));
    } else if contact == Above {
      HalfWayAbove(c, layer, i, len, OverEdge(c, layer, i, contact, len));
    }
  }

  lemma DoubledPlate(k: real, length: real, area: real)
    requires k > 0.0 && length > 0.0 && area > 0.0
    ensures 2.0 / Resistance(k, length, area) * (length / 2.0) == k * area
  {
    PlateConducts(k, length, area);
    var r := Resistance(k, length, area);
    assert 2.0 / r == 2.0 * (1.0 / r);
  }

  /** Half of the way down through a layer. */
  lemma VerticalLaw(c: Chip, layer: nat, i: nat)
    requires Sane(c) && layer < HSINK && i < |c.units|
    ensures var m := Stack(c)[layer]; Vertical(c, layer, i) * (m.thickness / 2.0) == m.k * AreaOf(c.units[i])
  {
    var m := Stack(c)[layer];
    DoubledPlate(m.k, m.thickness, BlockArea(c, i));
  }

  // ---------- the plates around the chip ----------

  /** Length of the chip's edge on a side. */
  function Edge(c: Chip, side: nat): real {
    if side == WEST || side == EAST then c.height else c.width
  }

  /** From that edge to the spreader's, with the chip in the middle. */
  function Margin(c: Chip, side: nat): real {
    (c.config.sSpreader - if side == WEST || side == EAST then c.width else c.height) / 2.0
  }

  /** Resistance of a trapezoid from one parallel edge to the other. */
  ghost predicate IsTrapezoid(r: real, m: Material, near: real, far: real, depth: real) {
    r * (m.k * ((near + far) / 2.0 * m.thickness)) == depth
  }

  lemma PlateResists(k: real, length: real, area: real)
    requires k > 0.0 && length > 0.0 && area > 0.0
    ensures Resistance(k, length, area) * (k * area) == length
  {
    ProductPositive(k, area);
  }

  /** Halfway from the chip's edge to the spreader's, the rest of the way, and halfway from there to
      the edge of the sink. */
  lemma RingLaw(c: Chip, m: Material, side: nat)
    requires Sane(c) && Solid(m) && side < 4
    ensures var e, s, z := Edge(c, side), c.config.sSpreader, c.config.sSink;
            && IsTrapezoid(InnerRing(c, m, side), m, e, (e + s) / 2.0, Margin(c, side) / 2.0)
            && IsTrapezoid(MiddleRing(c, side), c.config.sink, (e + s) / 2.0, s, Margin(c, side) / 2.0)
            && IsTrapezoid(OuterRing(c), c.config.sink, s, (s + z) / 2.0, (z - s) / 2.0 / 2.0)
  {
    InnerRingLaw(c, m, side);
    MiddleRingLaw(c, side);
    OuterRingLaw(c);
  }

  lemma Trapezoid(m: Material, depth: real, width: real, near: real, far: real)
    requires Solid(m) && depth > 0.0 && width > 0.0 && width == (near + far) / 2.0
    ensures width * m.thickness > 0.0
    ensures IsTrapezoid(Resistance(m.k, depth, width * m.thickness), m, near, far, depth)
  {
    ProductPositive(width, m.thickness);
    PlateResists(m.k, depth, width * m.thickness);
  }

  lemma InnerRingLaw(c: Chip, m: Material, side: nat)
    requires Sane(c) && Solid(m) && side < 4
    ensures var e, s := Edge(c, side), c.config.sSpreader;
            IsTrapezoid(InnerRing(c, m, side), m, e, (e + s) / 2.0, Margin(c, side) / 2.0)
  {
    var e, s := Edge(c, side), c.config.sSpreader;
    Trapezoid(m, Margin(c, side) / 2.0, (s + 3.0 * e) / 4.0, e, (e + s) / 2.0);
  }

  lemma MiddleRingLaw(c: Chip, side: nat)
    requires Sane(c) && side < 4
    ensures var e, s := Edge(c, side), c.config.sSpreader;
            IsTrapezoid(MiddleRing(c, side), c.config.sink, (e + s) / 2.0, s, Margin(c, side) / 2.0)
  {
    var e, s := Edge(c, side), c.config.sSpreader;
    Trapezoid(c.config.sink, Margin(c, side) / 2.0, (3.0 * s + e) / 4.0, (e + s) / 2.0, s);
  }

  lemma OuterRingLaw(c: Chip)
    requires Sane(c)
    ensures var s, z := c.config.sSpreader, c.config.sSink;
            IsTrapezoid(OuterRing(c), c.config.sink, s, (s + z) / 2.0, (z - s) / 2.0 / 2.0)
  {
    var s, z := c.config.sSpreader, c.config.sSink;
    Trapezoid(c.config.sink, (z - s) / 4.0, (z + 3.0 * s) / 4.0, s, (s + z) / 2.0);
  }

  /** The area of a side is that of the trapezoid between the two edges. */
  lemma AreaLaw(c: Chip, side: nat)
    requires Sane(c) && side < 4
    ensures InnerArea(c, side) == Margin(c, side) * ((Edge(c, side) + c.config.sSpreader) / 2.0)
    ensures OuterArea(c) == (c.config.sSink - c.config.sSpreader) / 2.0 * ((c.config.sSpreader + c.config.sSink) / 2.0)
  {
    var s, z := c.config.sSpreader, c.config.sSink;
    assert (z - s) * (z + s) == z * z - s * s;
  }

  function InnerAreas(c: Chip): real {
    InnerArea(c, WEST) + InnerArea(c, EAST) + InnerArea(c, NORTH) + InnerArea(c, SOUTH)
  }

  lemma SquareSplit(s: real, w: real, h: real)
    ensures 2.0 * ((s + h) * (s - w) / 4.0) + 2.0 * ((s + w) * (s - h) / 4.0) == s * s - w * h
  {
  }

  /** Chip and periphery fill the spreader, and with the outer parts the sink. */
  lemma PlatesFill(c: Chip, box: Rect)
    requires Sane(c) && Tiles(c.units, box) && box.width == c.width && box.height == c.height
    ensures TotalArea(c.units) + InnerAreas(c) == c.config.sSpreader * c.config.sSpreader
    ensures TotalArea(c.units) + InnerAreas(c) + 4.0 * OuterArea(c) == c.config.sSink * c.config.sSink
  {
    SquareSplit(c.config.sSpreader, c.width, c.height);
  }

  lemma DownLaw(c: Chip, side: nat)
    requires Sane(c) && side < 4
    ensures SpreaderToSink(c, side) * (c.config.spreader.thickness / 2.0) == c.config.spreader.k * InnerArea(c, side)
  {
    DoubledPlate(c.config.spreader.k, c.config.spreader.thickness, InnerArea(c, side));
  }

  // ---------- to ambient ----------

  /** What one unit of area of the sink conducts, times this, is the sink's conductivity. */
  function Depth(c: Chip): real {
    c.config.sink.thickness + c.config.sink.k * (c.config.rConvec * (c.config.sSink * c.config.sSink))
  }

  /** The convection conductance of an area is its share of that of the whole sink. */
  lemma ConvectionShare(c: Chip, area: real, x: real)
    requires Sane(c) && area > 0.0 && x == c.config.rConvec * (c.config.sSink * c.config.sSink)
    ensures Inverse(Convection(c, area)) * x == area
  {
    ProductPositive(c.config.sSink, c.config.sSink);
    ProductPositive(c.config.rConvec, c.config.sSink * c.config.sSink);
    var r := Convection(c, area);
    assert r * area == x && Inverse(r) * r == 1.0;
    ProductOfThree(Inverse(r), r, area);
  }

  lemma SeriesOverArea(k: real, t: real, x: real, area: real, plate: real, convection: real)
    requires k > 0.0 && t > 0.0 && area > 0.0 && plate > 0.0 && convection > 0.0
    requires plate * (k * area) == t && convection * area == x
    ensures 1.0 / (plate + convection) * (t + k * x) == k * area
  {
    var g := 1.0 / (plate + convection);
    assert g * (plate + convection) == 1.0;
    assert (plate + convection) * (k * area) == t + k * x;
    ProductOfThree(g, plate + convection, k * area);
  }

  lemma SinkArea(c: Chip, area: real)
    requires Sane(c) && area > 0.0
    ensures Inverse(Resistance(c.config.sink.k, c.config.sink.thickness, area) + Convection(c, area)) * Depth(c)
            == c.config.sink.k * area
  {
    var m, x := c.config.sink, c.config.rConvec * (c.config.sSink * c.config.sSink);
    PlateResists(m.k, m.thickness, area);
    SeriesOverArea(m.k, m.thickness, x, area, Resistance(m.k, m.thickness, area), Convection(c, area));
  }

  /** Through sink and convection, every area of the sink conducts in proportion. */
  lemma BlockAmbientLaw(c: Chip, i: nat)
    requires Sane(c) && i < |c.units|
    ensures BlockToAmbient(c, i) * Depth(c) == c.config.sink.k * AreaOf(c.units[i])
  {
    SinkArea(c, BlockArea(c, i));
  }

  lemma InnerAmbientLaw(c: Chip, side: nat)
    requires Sane(c) && side < 4
    ensures InnerToAmbient(c, side) * Depth(c) == c.config.sink.k * InnerArea(c, side)
  {
    SinkArea(c, InnerArea(c, side));
  }

  lemma OuterAmbientLaw(c: Chip)
    requires Sane(c)
    ensures OuterToAmbient(c) * Depth(c) == c.config.sink.k * OuterArea(c)
  {
    SinkArea(c, OuterArea(c));
  }

  // ---------- all areas of the sink ----------

  ghost predicate Positives(xs: seq<real>) {
    forall i :: 0 <= i < |xs| ==> xs[i] > 0.0
  }

  function Total(xs: seq<real>): real {
    if xs == [] then 0.0 else Total(xs[..|xs| - 1]) + xs[|xs| - 1]
  }

  /** The areas below the blocks, of the inner sides and of the outer sides. */
  function SinkAreas(c: Chip): (xs: seq<real>)
    requires Sane(c)
    ensures |xs| == |c.units| + 8
    ensures forall i :: 0 <= i < |c.units| ==> xs[i] == AreaOf(c.units[i])
    ensures forall k :: 0 <= k < 4 ==> xs[|c.units| + k] == InnerArea(c, k)
    ensures forall i :: |c.units| + 4 <= i < |c.units| + 8 ==> xs[i] == OuterArea(c)
  {
    seq(|c.units|, i requires 0 <= i < |c.units| => AreaOf(c.units[i]))
    + [InnerArea(c, WEST), InnerArea(c, EAST), InnerArea(c, NORTH), InnerArea(c, SOUTH)]
    + [OuterArea(c), OuterArea(c), OuterArea(c), OuterArea(c)]
  }

  lemma SinkAreasPositive(c: Chip)
    requires Sane(c)
    ensures Positives(SinkAreas(c))
  {
    var xs := SinkAreas(c);
    forall i | 0 <= i < |xs|
      ensures xs[i] > 0.0
    {
      if i < |c.units| {
        assert xs[i] == BlockArea(c, i);
      } else if i < |c.units| + 4 {
        assert xs[i] == InnerArea(c, i - |c.units|);
      } else {
        assert xs[i] == OuterArea(c);
      }
    }
  }

  lemma {:induction false} TotalOfBlocks(c: Chip, xs: seq<real>, k: nat)
    requires k <= |c.units| <= |xs| && forall i :: 0 <= i < |c.units| ==> xs[i] == AreaOf(c.units[i])
    ensures Total(xs[..k]) == TotalArea(c.units[..k])
    decreases k
  {
    if k > 0 {
      TotalOfBlocks(c, xs, k - 1);
      assert xs[..k][..k - 1] == xs[..k - 1] && c.units[..k][..k - 1] == c.units[..k - 1];
    }
  }

  lemma TotalNext(xs: seq<real>, k: nat)
    requires k < |xs|
    ensures Total(xs[..k + 1]) == Total(xs[..k]) + xs[k]
  {
    assert xs[..k + 1][..k] == xs[..k];
  }

  lemma LastEight(xs: seq<real>, n: nat, a: real, w: real, e: real, t: real, b: real, o: real)
    requires |xs| == n + 8 && Total(xs[..n]) == a && xs[n] == w && xs[n + 1] == e && xs[n + 2] == t && xs[n + 3] == b
    requires xs[n + 4] == xs[n + 5] == xs[n + 6] == xs[n + 7] == o
    ensures Total(xs) == a + (w + e + t + b) + 4.0 * o
  {
    TotalNext(xs, n);
    TotalNext(xs, n + 1);
    TotalNext(xs, n + 2);
    TotalNext(xs, n + 3);
    TotalNext(xs, n + 4);
    TotalNext(xs, n + 5);
    TotalNext(xs, n + 6);
    TotalNext(xs, n + 7);
    assert xs[..n + 8] == xs;
  }

  /** The areas of a tiling chip's sink make up the whole of it. */
  lemma SinkAreasFill(c: Chip, box: Rect)
    requires Sane(c) && Tiles(c.units, box) && box.width == c.width && box.height == c.height
    ensures Total(SinkAreas(c)) == c.config.sSink * c.config.sSink
  {
    var xs, n := SinkAreas(c), |c.units|;
    TotalOfBlocks(c, xs, n);
    assert c.units[..n] == c.units;
    assert xs[n + WEST] == InnerArea(c, WEST) && xs[n + EAST] == InnerArea(c, EAST);
    LastEight(xs, n, TotalArea(c.units), InnerArea(c, WEST), InnerArea(c, EAST), InnerArea(c, NORTH),
              InnerArea(c, SOUTH), OuterArea(c));
    PlatesFill(c, box);
  }

  /** Convection from several areas side by side. */
  ghost function InParallel(c: Chip, xs: seq<real>): real
    requires Sane(c) && Positives(xs)
  {
    if xs == [] then 0.0 else InParallel(c, xs[..|xs| - 1]) + Inverse(Convection(c, xs[|xs| - 1]))
  }

  lemma SumTimes(a: real, b: real, x: real)
    ensures (a + b) * x == a * x + b * x
  {
  }

  lemma {:induction false} InParallelIs(c: Chip, xs: seq<real>, x: real)
    requires Sane(c) && Positives(xs) && x == c.config.rConvec * (c.config.sSink * c.config.sSink)
    ensures InParallel(c, xs) * x == Total(xs)
    decreases |xs|
  {
    if xs != [] {
      var last := |xs| - 1;
      InParallelIs(c, xs[..last], x);
      ConvectionShare(c, xs[last], x);
      SumTimes(InParallel(c, xs[..last]), Inverse(Convection(c, xs[last])), x);
    }
  }

  lemma WholeSink(total: real, r: real, q: real, x: real)
    requires r > 0.0 && q > 0.0 && x == r * q && total * x == q
    ensures total == 1.0 / r
  {
    assert (total * r - 1.0) * q == 0.0;
  }

  /** All convection resistances in parallel make the one given for the sink. */
  lemma ConvectionInParallel(c: Chip, box: Rect)
    requires Sane(c) && Tiles(c.units, box) && box.width == c.width && box.height == c.height
    ensures Positives(SinkAreas(c)) && InParallel(c, SinkAreas(c)) == 1.0 / c.config.rConvec
  {
    SinkAreasPositive(c);
    SinkAreasFill(c, box);
    AllInParallel(c, SinkAreas(c));
  }

  lemma AllInParallel(c: Chip, xs: seq<real>)
    requires Sane(c) && Positives(xs) && Total(xs) == c.config.sSink * c.config.sSink
    ensures InParallel(c, xs) == 1.0 / c.config.rConvec
  {
    var x := c.config.rConvec * (c.config.sSink * c.config.sSink);
    InParallelIs(c, xs, x);
    ProductPositive(c.config.sSink, c.config.sSink);
    WholeSink(InParallel(c, xs), c.config.rConvec, c.config.sSink * c.config.sSink, x);
  }

  // ---------- to the package ----------

  /** A block reaches the given side of the chip. */
  ghost predicate Reaches(c: Chip, side: nat, u: Rect) {
    if side == WEST then -DELTA < u.leftx < DELTA
    else if side == EAST then -DELTA < u.leftx + u.width - c.width < DELTA
    else if side == NORTH then -DELTA < u.bottomy + u.height - c.height < DELTA
    else -DELTA < u.bottomy < DELTA
  }

  /** From the middle of a block to its edge on a side. */
  lemma GToLaw(c: Chip, layer: nat, side: nat, i: nat)
    requires Sane(c) && 0 < layer < NL && side < 4 && i < |c.units|
    ensures var m, u, g := Stack(c)[layer], c.units[i], GTo(c, layer, side, i);
            if side == WEST || side == EAST then g * (u.width / 2.0) == m.k * (u.height * m.thickness)
            else g * (u.height / 2.0) == m.k * (u.width * m.thickness)
  {
    GxLaw(c, layer, i);
    GyLaw(c, layer, i);
  }
}
