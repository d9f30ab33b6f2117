/** Thermal conductances of a chip with interface, heat spreader and heat sink, from its
    geometry and materials. */
module ChipConductances {
  import opened Tilings
  import opened Extents
  import opened Adjacency

  // layers of blocks: silicon, interface, spreader, sink
  const NL: nat := 4
  const IFACE: nat := 1
  const HSP: nat := 2
  const HSINK: nat := 3

  // nodes around the blocks: spreader, inner sink and outer sink, each west, east, north, south
  const EXTRA: nat := 12
  const SP: nat := 0
  const SINK_C: nat := 4
  const SINK: nat := 8
  const WEST: nat := 0
  const EAST: nat := 1
  const NORTH: nat := 2
  const SOUTH: nat := 3

  datatype Material = Material(k: real, thickness: real)

  datatype Config = Config(chip: Material, iface: Material, spreader: Material, sink: Material,
                           sSpreader: real, sSink: real, rConvec: real, ambient: real, omitLateral: bool)

  /** The blocks with total width and height. */
  datatype Chip = Chip(units: seq<Rect>, config: Config, width: real, height: real)

  predicate Solid(m: Material) {
    m.k > 0.0 && m.thickness > 0.0
  }

  /** Positive materials and blocks, and chip < spreader < sink. */
  ghost predicate Sane(c: Chip) {
    && Solid(c.config.chip) && Solid(c.config.iface) && Solid(c.config.spreader) && Solid(c.config.sink)
    && c.config.rConvec > 0.0 && 0.0 < c.width < c.config.sSpreader && 0.0 < c.height < c.config.sSpreader
    && c.config.sSpreader < c.config.sSink
    && AllPositive(c.units)
  }

  function LayerMaterial(c: Chip, layer: nat): Material
    requires layer < NL
  {
    if layer == 0 then c.config.chip else if layer == IFACE then c.config.iface
    else if layer == HSP then c.config.spreader else c.config.sink
  }

  // ---------- elementary facts about positive reals ----------

  lemma ProductPositive(x: real, y: real)
    requires x > 0.0 && y > 0.0
    ensures x * y > 0.0
  {
  }

  lemma QuotientPositive(x: real, y: real)
    requires y > 0.0
    ensures x > 0.0 ==> x / y > 0.0
    ensures x >= 0.0 ==> x / y >= 0.0
  {
  }

  /** Thermal resistance. */
  function Resistance(k: real, thickness: real, area: real): (r: real)
    requires k > 0.0 && thickness > 0.0 && area > 0.0
    ensures r > 0.0
  {
    ProductPositive(k, area);
    QuotientPositive(thickness, k * area);
    thickness / (k * area)
  }

  function Inverse(x: real): (y: real)
    requires x > 0.0
    ensures y > 0.0
  {
    1.0 / x
  }

  // ---------- inside a layer ----------

  /** Lumped conductance from a block's centre towards its left and right edge. */
  function Gx(c: Chip, layer: nat, i: nat): (g: real)
    requires Sane(c) && layer < NL && i < |c.units|
    ensures g >= 0.0 && (layer > 0 ==> g > 0.0)
  {
    var u, m := c.units[i], LayerMaterial(c, layer);
    ProductPositive(u.height, m.thickness);
    if layer == 0 && c.config.omitLateral then 0.0
    else Inverse(Resistance(m.k, u.width / 2.0, u.height * m.thickness))
  }

  function Gy(c: Chip, layer: nat, i: nat): (g: real)
    requires Sane(c) && layer < NL && i < |c.units|
    ensures g >= 0.0 && (layer > 0 ==> g > 0.0)
  {
    var u, m := c.units[i], LayerMaterial(c, layer);
    ProductPositive(u.width, m.thickness);
    if layer == 0 && c.config.omitLateral then 0.0
    else Inverse(Resistance(m.k, u.height / 2.0, u.width * m.thickness))
  }

  lemma ShareNonNegative(g: real, side: real, len: real)
    requires g >= 0.0 && side > 0.0 && len >= 0.0
    ensures (g / side) * len >= 0.0
  {
    QuotientPositive(g, side);
  }

  /** How two blocks touch. */
  datatype Contact = Beside | Above | Apart

  function ContactOf(us: seq<Rect>, i: nat, j: nat): Contact
    requires i < |us| && j < |us|
  {
    if HorizontallyAdjacent(us, i, j) then Beside else if VerticallyAdjacent(us, i, j) then Above else Apart
  }

  /** Block i's part of the conductance over an edge of the given length. */
  function OverEdge(c: Chip, layer: nat, i: nat, contact: Contact, len: real): (g: real)
    requires Sane(c) && layer < NL && i < |c.units| && len >= 0.0
    ensures g >= 0.0
  {
    var u := c.units[i];
    assert PositiveRect(u);
    ShareNonNegative(Gx(c, layer, i), u.height, len);
    ShareNonNegative(Gy(c, layer, i), u.width, len);
    match contact
    case Beside => Gx(c, layer, i) / u.height * len
    case Above => Gy(c, layer, i) / u.width * len
    case Apart => 0.0
  }

  /** Block i's part of the conductance to block j in the same layer. */
  function Lateral(c: Chip, layer: nat, i: nat, j: nat): (g: real)
    requires Sane(c) && layer < NL && i < |c.units| && j < |c.units|
    ensures g >= 0.0
  {
    SharedLengthPositive(c.units, i, j);
    OverEdge(c, layer, i, ContactOf(c.units, i, j), SharedLength(c.units, i, j))
  }

  // ---------- between layers and to ambient ----------

  function BlockArea(c: Chip, i: nat): (area: real)
    requires Sane(c) && i < |c.units|
    ensures area > 0.0
  {
    ProductPositive(c.units[i].height, c.units[i].width);
    c.units[i].height * c.units[i].width
  }

  /** From a block to the one below it in the next layer, doubled because two such halves are
      combined in series later. */
  function Vertical(c: Chip, layer: nat, i: nat): (g: real)
    requires Sane(c) && layer < HSINK && i < |c.units|
    ensures g > 0.0
  {
    var m := LayerMaterial(c, layer);
    var r := Resistance(m.k, m.thickness, BlockArea(c, i));
    QuotientPositive(2.0, r);
    2.0 / r
  }

  /** Convection resistance in proportion to an area of the sink. */
  function Convection(c: Chip, area: real): (r: real)
    requires Sane(c) && area > 0.0
    ensures r > 0.0
  {
    ProductPositive(c.config.sSink, c.config.sSink);
    ProductPositive(c.config.rConvec, c.config.sSink * c.config.sSink);
    QuotientPositive(c.config.rConvec * (c.config.sSink * c.config.sSink), area);
    c.config.rConvec * (c.config.sSink * c.config.sSink) / area
  }

  function BlockToAmbient(c: Chip, i: nat): (g: real)
    requires Sane(c) && i < |c.units|
    ensures g > 0.0
  {
    var m, area := c.config.sink, BlockArea(c, i);
    Inverse(Resistance(m.k, m.thickness, area) + Convection(c, area))
  }

  // ---------- package ----------

  predicate AlongX(side: nat) {
    side == WEST || side == EAST
  }

  /** Chip extent across and along the direction towards a side. */
  function Towards(c: Chip, side: nat): real {
    if AlongX(side) then c.width else c.height
  }

  function Abreast(c: Chip, side: nat): real {
    if AlongX(side) then c.height else c.width
  }

  /** Lateral resistance of the part of a plate between chip and spreader edge. */
  function InnerRing(c: Chip, m: Material, side: nat): (r: real)
    requires Sane(c) && Solid(m)
    ensures r > 0.0
  {
    ProductPositive((c.config.sSpreader + 3.0 * Abreast(c, side)) / 4.0, m.thickness);
    Resistance(m.k, (c.config.sSpreader - Towards(c, side)) / 4.0,
               (c.config.sSpreader + 3.0 * Abreast(c, side)) / 4.0 * m.thickness)
  }

  function MiddleRing(c: Chip, side: nat): (r: real)
    requires Sane(c)
    ensures r > 0.0
  {
    var m := c.config.sink;
    ProductPositive((3.0 * c.config.sSpreader + Abreast(c, side)) / 4.0, m.thickness);
    Resistance(m.k, (c.config.sSpreader - Towards(c, side)) / 4.0,
               (3.0 * c.config.sSpreader + Abreast(c, side)) / 4.0 * m.thickness)
  }

  function OuterRing(c: Chip): (r: real)
    requires Sane(c)
    ensures r > 0.0
  {
    var m := c.config.sink;
    ProductPositive((c.config.sSink + 3.0 * c.config.sSpreader) / 4.0, m.thickness);
    Resistance(m.k, (c.config.sSink - c.config.sSpreader) / 4.0,
               (c.config.sSink + 3.0 * c.config.sSpreader) / 4.0 * m.thickness)
  }

  /** Area of the trapezoid between chip and spreader edge, which three resistances of that side are
      divided by. */
  function InnerArea(c: Chip, side: nat): (area: real)
    ensures Sane(c) ==> area > 0.0
  {
    InnerAreaSign(c.config.sSpreader + Abreast(c, side), c.config.sSpreader - Towards(c, side));
    (c.config.sSpreader + Abreast(c, side)) * (c.config.sSpreader - Towards(c, side)) / 4.0
  }

  lemma InnerAreaSign(x: real, y: real)
    ensures x > 0.0 && y > 0.0 ==> x * y / 4.0 > 0.0
    ensures x > 0.0 ==> (x * y / 4.0 == 0.0 <==> y == 0.0)
  {
    if x > 0.0 && y > 0.0 {
      ProductPositive(x, y);
    } else if x > 0.0 && y < 0.0 {
      ProductPositive(x, -y);
      assert x * -y == -(x * y);
    }
  }

  /** A side is left without area exactly when the chip reaches the spreader's edge across it. */
  lemma NoAreaIff(c: Chip, side: nat)
    requires 0.0 < c.width && 0.0 < c.height && 0.0 < c.config.sSpreader
    ensures InnerArea(c, side) == 0.0 <==> Towards(c, side) == c.config.sSpreader
  {
    InnerAreaSign(c.config.sSpreader + Abreast(c, side), c.config.sSpreader - Towards(c, side));
  }

  lemma SquaresOrdered(a: real, b: real)
    requires 0.0 < a < b
    ensures b * b - a * a > 0.0
  {
    ProductPositive(b - a, b + a);
    assert (b - a) * (b + a) == b * b - a * a;
  }

  function OuterArea(c: Chip): (area: real)
    requires Sane(c)
    ensures area > 0.0
  {
    SquaresOrdered(c.config.sSpreader, c.config.sSink);
    (c.config.sSink * c.config.sSink - c.config.sSpreader * c.config.sSpreader) / 4.0
  }

  function SpreaderToSink(c: Chip, side: nat): (g: real)
    requires Sane(c)
    ensures g > 0.0
  {
    var m := c.config.spreader;
    var r := Resistance(m.k, m.thickness, InnerArea(c, side));
    QuotientPositive(2.0, r);
    2.0 / r
  }

  function SinkToOuter(c: Chip, side: nat): (g: real)
    requires Sane(c)
    ensures g > 0.0
  {
    var r := OuterRing(c) + MiddleRing(c, side);
    QuotientPositive(2.0, r);
    2.0 / r
  }

  function InnerToAmbient(c: Chip, side: nat): (g: real)
    requires Sane(c)
    ensures g > 0.0
  {
    var m, area := c.config.sink, InnerArea(c, side);
    Inverse(Resistance(m.k, m.thickness, area) + Convection(c, area))
  }

  function OuterToAmbient(c: Chip): (g: real)
    requires Sane(c)
    ensures g > 0.0
  {
    var m, area := c.config.sink, OuterArea(c);
    Inverse(Resistance(m.k, m.thickness, area) + Convection(c, area))
  }

  // ---------- from border blocks to the package ----------

  predicate OnBorder(c: Chip, side: nat, i: nat)
    requires i < |c.units|
  {
    var u := c.units[i];
    if side == WEST then Eq(u.leftx, 0.0) else if side == EAST then Eq(Right(u), c.width)
    else if side == NORTH then Eq(Top(u), c.height) else Eq(u.bottomy, 0.0)
  }

  /** Conductance of a block towards a side. */
  function GTo(c: Chip, layer: nat, side: nat, i: nat): (g: real)
    requires Sane(c) && 0 < layer < NL && i < |c.units|
    ensures g > 0.0
  {
    if AlongX(side) then Gx(c, layer, i) else Gy(c, layer, i)
  }

  /** Sum over the first k blocks on a border. */
  function BorderSum(c: Chip, layer: nat, side: nat, k: nat): (g: real)
    requires Sane(c) && 0 < layer < NL && k <= |c.units|
    ensures g >= 0.0
  {
    if k == 0 then 0.0
    else BorderSum(c, layer, side, k - 1) + if OnBorder(c, side, k - 1) then GTo(c, layer, side, k - 1) else 0.0
  }

  lemma ShortedPositive(own: real, ring: real, sum: real)
    requires own > 0.0 && ring > 0.0 && sum >= 0.0
    ensures 1.0 / own + ring * sum / own > 0.0
  {
    QuotientPositive(1.0, own);
    QuotientPositive(ring * sum, own);
  }

  /** A block's share of a ring that it reaches together with others, doubled like the vertical
      conductances. */
  function Shorted(own: real, ring: real, sum: real): (g: real)
    requires own > 0.0 && ring > 0.0 && sum >= 0.0
    ensures g > 0.0
  {
    ShortedPositive(own, ring, sum);
    QuotientPositive(2.0, 1.0 / own + ring * sum / own);
    2.0 / (1.0 / own + ring * sum / own)
  }

  /** From a block in the spreader or sink layer to the package node on a side. */
  function ToPackage(c: Chip, layer: nat, side: nat, i: nat): (g: real)
    requires Sane(c) && (layer == HSP || layer == HSINK) && i < |c.units|
    ensures g >= 0.0
  {
    if OnBorder(c, side, i) then
      Shorted(GTo(c, layer, side, i), InnerRing(c, LayerMaterial(c, layer), side),
              BorderSum(c, layer, side, |c.units|))
    else 0.0
  }
}
