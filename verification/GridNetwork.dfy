/** The grid thermal model on its primary heat path, as a network: layers of cells, the last
    two of which are spreader and sink, with package nodes on their four sides. */
module GridNetwork {

  // package nodes: spreader, inner sink and outer sink, each west, east, north, south
  const EXTRA: nat := 12
  const SP: nat := 0
  const SINK_C: nat := 4
  const SINK: nat := 8
  const WEST: nat := 0
  const EAST: nat := 1
  const NORTH: nat := 2
  const SOUTH: nat := 3

  /** Resistances towards the neighbouring cell and down, and the capacity of a cell. */
  datatype Layer = Layer(rx: real, ry: real, rz: real, c: real)

  /** Package resistances and capacities along one axis. */
  datatype PackAxis = PackAxis(rSp1: real, rHs1: real, rHs2: real, rSpPer: real, rInnerAmb: real, cSp: real,
                               cInner: real)

  datatype Pack = Pack(x: PackAxis, y: PackAxis, rHs: real, rOuterAmb: real, cOuter: real)

  datatype Grid = Grid(layers: seq<Layer>, rows: nat, cols: nat, pack: Pack, ambient: real)

  predicate SoundLayer(l: Layer) {
    l.rx > 0.0 && l.ry > 0.0 && l.rz > 0.0 && l.c > 0.0
  }

  predicate SoundAxis(a: PackAxis) {
    a.rSp1 > 0.0 && a.rHs1 > 0.0 && a.rHs2 > 0.0 && a.rSpPer > 0.0 && a.rInnerAmb > 0.0 && a.cSp > 0.0 && a.cInner > 0.0
  }

  ghost predicate Sound(g: Grid) {
    && |g.layers| >= 2 && g.rows >= 1 && g.cols >= 1
    && (forall n :: 0 <= n < |g.layers| ==> SoundLayer(g.layers[n]))
    && SoundAxis(g.pack.x) && SoundAxis(g.pack.y) && g.pack.rHs > 0.0 && g.pack.rOuterAmb > 0.0 && g.pack.cOuter > 0.0
  }

  datatype Node = Cell(n: nat, i: nat, j: nat) | Extra(k: nat)

  predicate IsNode(g: Grid, a: Node) {
    if a.Cell? then a.n < |g.layers| && a.i < g.rows && a.j < g.cols else a.k < EXTRA
  }

  /** Where a link leads. */
  datatype Source = From(node: Node) | Ambient

  /** A link with its conductance. */
  datatype Link = Link(src: Source, c: real)

  // ---------- the links of a node ----------

  /** The conductance of a resistance. */
  function Per(r: real): (c: real)
    ensures r > 0.0 ==> c > 0.0
  {
    if r == 0.0 then 0.0 else 1.0 / r
  }

  function When(c: bool, l: Link): seq<Link> {
    if c then [l] else []
  }

  function NorthLink(g: Grid, n: nat, i: nat, j: nat): seq<Link>
    requires n < |g.layers|
  {
    if i > 0 then [Link(From(Cell(n, i - 1, j)), Per(g.layers[n].ry))] else []
  }

  function SouthLink(g: Grid, n: nat, i: nat, j: nat): seq<Link>
    requires n < |g.layers|
  {
    if i < g.rows - 1 then [Link(From(Cell(n, i + 1, j)), Per(g.layers[n].ry))] else []
  }

  function EastLink(g: Grid, n: nat, i: nat, j: nat): seq<Link>
    requires n < |g.layers|
  {
    if j < g.cols - 1 then [Link(From(Cell(n, i, j + 1)), Per(g.layers[n].rx))] else []
  }

  function WestLink(g: Grid, n: nat, i: nat, j: nat): seq<Link>
    requires n < |g.layers|
  {
    if j > 0 then [Link(From(Cell(n, i, j - 1)), Per(g.layers[n].rx))] else []
  }

  function LinkAbove(g: Grid, n: nat, i: nat, j: nat): seq<Link>
    requires n < |g.layers|
  {
    if n > 0 then [Link(From(Cell(n - 1, i, j)), Per(g.layers[n - 1].rz))] else []
  }

  function LinkBelow(g: Grid, n: nat, i: nat, j: nat): seq<Link>
    requires n < |g.layers|
  {
    if n < |g.layers| - 1 then [Link(From(Cell(n + 1, i, j)), Per(g.layers[n].rz))] else []
  }

  /** To the cells north, south, east, west, above and below. */
  function CellLinks(g: Grid, n: nat, i: nat, j: nat): seq<Link>
    requires n < |g.layers|
  {
    NorthLink(g, n, i, j) + SouthLink(g, n, i, j) + EastLink(g, n, i, j) + WestLink(g, n, i, j)
    + LinkAbove(g, n, i, j) + LinkBelow(g, n, i, j)
  }

  /** Resistance from a border cell of the spreader or sink layer to the package node beside it:
      an edge cell has half the lateral resistance, and the package's is divided among all. */
  function BorderR(g: Grid, sink: bool, side: nat): (r: real)
    requires Sound(g)
    ensures r > 0.0
  {
    var l := g.layers[|g.layers| - if sink then 1 else 2];
    if side == WEST || side == EAST
    then Halved(l.rx, g.rows, if sink then g.pack.x.rHs1 else g.pack.x.rSp1)
    else Halved(l.ry, g.cols, if sink then g.pack.y.rHs1 else g.pack.y.rSp1)
  }

  function BorderC(g: Grid, sink: bool, side: nat): (c: real)
    requires Sound(g)
    ensures c > 0.0
  {
    Per(BorderR(g, sink, side))
  }

  function Halved(r: real, count: nat, r1: real): (s: real)
    requires r > 0.0 && count >= 1 && r1 > 0.0
    ensures s > 0.0
  {
    r / 2.0 + count as real * r1
  }

  /** To the package nodes k + side beside a border cell, with the given conductances. */
  function SideNodes(rows: nat, cols: nat, k: nat, cn: real, cs: real, ce: real, cw: real, i: nat, j: nat): seq<Link> {
    When(i == 0, Link(From(Extra(k + NORTH)), cn)) + When(i == rows - 1, Link(From(Extra(k + SOUTH)), cs))
    + When(j == cols - 1, Link(From(Extra(k + EAST)), ce)) + When(j == 0, Link(From(Extra(k + WEST)), cw))
  }

  function BorderLinks(g: Grid, sink: bool, i: nat, j: nat): seq<Link>
    requires Sound(g)
  {
    SideNodes(g.rows, g.cols, if sink then SINK_C else SP, BorderC(g, sink, NORTH), BorderC(g, sink, SOUTH),
              BorderC(g, sink, EAST), BorderC(g, sink, WEST), i, j)
  }

  /** All links of a cell: spreader cells lead to its sides, sink cells also to ambient. */
  function LinksOfCell(g: Grid, n: nat, i: nat, j: nat): seq<Link>
    requires Sound(g) && IsNode(g, Cell(n, i, j))
  {
    CellLinks(g, n, i, j) + MoreLinks(g, n, i, j)
  }

  function MoreLinks(g: Grid, n: nat, i: nat, j: nat): seq<Link>
    requires Sound(g) && n < |g.layers|
  {
    if n == |g.layers| - 2 then BorderLinks(g, false, i, j)
    else if n == |g.layers| - 1 then [Link(Ambient, Per(g.layers[n].rz))] + BorderLinks(g, true, i, j)
    else []
  }

  /** The m-th cell along a side of a layer. */
  function BorderCell(g: Grid, n: nat, side: nat, m: nat): Node
    requires g.rows >= 1 && g.cols >= 1
  {
    if side == NORTH then Cell(n, 0, m) else if side == SOUTH then Cell(n, g.rows - 1, m)
    else if side == WEST then Cell(n, m, 0) else Cell(n, m, g.cols - 1)
  }

  function SideLength(g: Grid, side: nat): nat {
    if side == NORTH || side == SOUTH then g.cols else g.rows
  }

  /** To the first m cells along a side of layer n, each with conductance c. */
  function SideLinks(g: Grid, n: nat, side: nat, c: real, m: nat): seq<Link>
    requires g.rows >= 1 && g.cols >= 1
  {
    if m == 0 then [] else SideLinks(g, n, side, c, m - 1) + [Link(From(BorderCell(g, n, side, m - 1)), c)]
  }

  function AllAlong(g: Grid, sink: bool, side: nat): seq<Link>
    requires Sound(g)
  {
    SideLinks(g, |g.layers| - (if sink then 1 else 2), side, BorderC(g, sink, side), SideLength(g, side))
  }

  function AxisOf(g: Grid, side: nat): PackAxis {
    if side == WEST || side == EAST then g.pack.x else g.pack.y
  }

  function SinkLink(g: Grid, side: nat): real {
    AxisOf(g, side).rHs2 + g.pack.rHs
  }

  function LinksOfExtra(g: Grid, k: nat): seq<Link>
    requires Sound(g) && k < EXTRA
  {
    if k < SINK_C then
      AllAlong(g, false, k) + [Link(From(Extra(k + 4)), Per(AxisOf(g, k).rSpPer))]
    else if k < SINK then
      var side := k - SINK_C;
      AllAlong(g, true, side)
      + [Link(Ambient, Per(AxisOf(g, side).rInnerAmb)), Link(From(Extra(k - 4)), Per(AxisOf(g, side).rSpPer)),
         Link(From(Extra(k + 4)), Per(SinkLink(g, side)))]
    else
      var side := k - SINK;
      [Link(Ambient, Per(g.pack.rOuterAmb)), Link(From(Extra(k - 4)), Per(SinkLink(g, side)))]
  }

  function LinksOf(g: Grid, a: Node): seq<Link>
    requires Sound(g) && IsNode(g, a)
  {
    if a.Cell? then LinksOfCell(g, a.n, a.i, a.j) else LinksOfExtra(g, a.k)
  }

  // ---------- sums over links ----------

  predicate SoundLink(g: Grid, l: Link) {
    l.c > 0.0 && (l.src.From? ==> IsNode(g, l.src.node))
  }

  ghost predicate SoundLinks(g: Grid, ls: seq<Link>) {
    forall i :: 0 <= i < |ls| ==> SoundLink(g, ls[i])
  }

  lemma {:induction false} SideLinksSound(g: Grid, n: nat, side: nat, c: real, m: nat)
    requires Sound(g) && n < |g.layers| && c > 0.0 && m <= SideLength(g, side)
    ensures SoundLinks(g, SideLinks(g, n, side, c, m))
    decreases m
  {
    if m > 0 {
      SideLinksSound(g, n, side, c, m - 1);
    }
  }

  lemma BorderLinksSound(g: Grid, sink: bool, i: nat, j: nat)
    requires Sound(g)
    ensures SoundLinks(g, BorderLinks(g, sink, i, j))
  {
    SideNodesSound(g, if sink then SINK_C else SP, BorderC(g, sink, NORTH), BorderC(g, sink, SOUTH),
                   BorderC(g, sink, EAST), BorderC(g, sink, WEST), i, j);
  }

  lemma SideNodesSound(g: Grid, k: nat, cn: real, cs: real, ce: real, cw: real, i: nat, j: nat)
    requires k <= SINK_C && cn > 0.0 && cs > 0.0 && ce > 0.0 && cw > 0.0
    ensures SoundLinks(g, SideNodes(g.rows, g.cols, k, cn, cs, ce, cw, i, j))
  {
  }

  lemma BothSound(g: Grid, a: seq<Link>, b: seq<Link>)
    requires SoundLinks(g, a) && SoundLinks(g, b)
    ensures SoundLinks(g, a + b)
  {
  }

  lemma CellLinksSound(g: Grid, n: nat, i: nat, j: nat)
    requires Sound(g) && IsNode(g, Cell(n, i, j))
    ensures SoundLinks(g, CellLinks(g, n, i, j))
  {
    var a, b, c, d := NorthLink(g, n, i, j), SouthLink(g, n, i, j), EastLink(g, n, i, j), WestLink(g, n, i, j);
    assert SoundLayer(g.layers[n]) && (n > 0 ==> SoundLayer(g.layers[n - 1]));
    BothSound(g, a, b);
    BothSound(g, a + b, c);
    BothSound(g, a + b + c, d);
    BothSound(g, a + b + c + d, LinkAbove(g, n, i, j));
    BothSound(g, a + b + c + d + LinkAbove(g, n, i, j), LinkBelow(g, n, i, j));
  }

  /** Every link leads to a node of the grid or to ambient, over a positive resistance, and
      every node has one. */
  lemma LinksSound(g: Grid, a: Node)
    requires Sound(g) && IsNode(g, a)
    ensures SoundLinks(g, LinksOf(g, a)) && |LinksOf(g, a)| > 0
  {
    if a.Cell? {
      LinksOfCellSound(g, a.n, a.i, a.j);
    } else {
      ExtraLinksSound(g, a.k);
    }
  }

  lemma LinksOfCellSound(g: Grid, n: nat, i: nat, j: nat)
    requires Sound(g) && IsNode(g, Cell(n, i, j))
    ensures SoundLinks(g, LinksOfCell(g, n, i, j)) && |LinksOfCell(g, n, i, j)| > 0
  {
    CellLinksSound(g, n, i, j);
    CellLinksSome(g, n, i, j);
    var more := MoreLinks(g, n, i, j);
    BorderLinksSound(g, n == |g.layers| - 1, i, j);
    assert SoundLayer(g.layers[n]);
    BothSound(g, [Link(Ambient, Per(g.layers[n].rz))], BorderLinks(g, n == |g.layers| - 1, i, j));
    BothSound(g, CellLinks(g, n, i, j), more);
  }

  lemma CellLinksSome(g: Grid, n: nat, i: nat, j: nat)
    requires Sound(g) && IsNode(g, Cell(n, i, j))
    ensures |CellLinks(g, n, i, j)| > 0
  {
    if n > 0 {
      assert |LinkAbove(g, n, i, j)| == 1;
    } else {
      assert |LinkBelow(g, n, i, j)| == 1;
    }
  }

  lemma ExtraLinksSound(g: Grid, k: nat)
    requires Sound(g) && k < EXTRA
    ensures SoundLinks(g, LinksOfExtra(g, k)) && |LinksOfExtra(g, k)| > 0
  {
    if k < SINK_C {
      SideLinksSound(g, |g.layers| - 2, k, BorderC(g, false, k), SideLength(g, k));
    } else if k < SINK {
      SideLinksSound(g, |g.layers| - 1, k - SINK_C, BorderC(g, true, k - SINK_C), SideLength(g, k - SINK_C));
    }
  }

  type Field = Node -> real

  function Temp(g: Grid, t: Field, s: Source): real {
    if s.Ambient? then g.ambient else t(s.node)
  }

  /** Sum of the conductances. */
  function SumG(ls: seq<Link>): real {
    if ls == [] then 0.0 else SumG(ls[..|ls| - 1]) + ls[|ls| - 1].c
  }

  /** Sum of the temperatures weighted by the conductances. */
  function SumW(g: Grid, t: Field, ls: seq<Link>): real {
    if ls == [] then 0.0 else SumW(g, t, ls[..|ls| - 1]) + ls[|ls| - 1].c * Temp(g, t, ls[|ls| - 1].src)
  }

  /** Sum of the heat flows into a node at temperature x. */
  function SumP(g: Grid, t: Field, ls: seq<Link>, x: real): real {
    if ls == [] then 0.0 else SumP(g, t, ls[..|ls| - 1], x) + ls[|ls| - 1].c * (Temp(g, t, ls[|ls| - 1].src) - x)
  }

  lemma SumsLast(g: Grid, t: Field, ls: seq<Link>, l: Link, x: real)
    ensures SumG(ls + [l]) == SumG(ls) + l.c
    ensures SumW(g, t, ls + [l]) == SumW(g, t, ls) + l.c * Temp(g, t, l.src)
    ensures SumP(g, t, ls + [l], x) == SumP(g, t, ls, x) + l.c * (Temp(g, t, l.src) - x)
  {
    assert (ls + [l])[..|ls|] == ls;
  }

  lemma {:induction false} SumsConcat(g: Grid, t: Field, a: seq<Link>, b: seq<Link>, x: real)
    ensures SumG(a + b) == SumG(a) + SumG(b)
    ensures SumW(g, t, a + b) == SumW(g, t, a) + SumW(g, t, b)
    ensures SumP(g, t, a + b, x) == SumP(g, t, a, x) + SumP(g, t, b, x)
    decreases |b|
  {
    if b == [] {
      assert a + b == a;
    } else {
      var c, l := b[..|b| - 1], b[|b| - 1];
      SumsConcat(g, t, a, c, x);
      assert a + b == (a + c) + [l] && b == c + [l];
      SumsLast(g, t, a + c, l, x);
      SumsLast(g, t, c, l, x);
    }
  }

  // ---------- what the sums say about a node ----------

  lemma FlowStep(c: real, y: real, x: real, s: real)
    ensures c * (y - x) == c * y - x * c && x * (s + c) == x * s + x * c
  {
  }

  /** The flows in are the weighted temperatures less the node's own share. */
  lemma {:induction false} FlowsSplit(g: Grid, t: Field, ls: seq<Link>, x: real)
    ensures SumP(g, t, ls, x) == SumW(g, t, ls) - x * SumG(ls)
    decreases |ls|
  {
    if ls != [] {
      var rest, l := ls[..|ls| - 1], ls[|ls| - 1];
      FlowsSplit(g, t, rest, x);
      FlowStep(l.c, Temp(g, t, l.src), x, SumG(rest));
    }
  }

  lemma {:induction false} ConductancePositive(g: Grid, ls: seq<Link>)
    requires SoundLinks(g, ls)
    ensures SumG(ls) >= 0.0 && (|ls| > 0 ==> SumG(ls) > 0.0)
    decreases |ls|
  {
    if ls != [] {
      ConductancePositive(g, ls[..|ls| - 1]);
      assert SoundLink(g, ls[|ls| - 1]);
    }
  }

  /** x balances power and links: conductances times x are power and weighted temperatures. */
  ghost predicate Balances(g: Grid, t: Field, ls: seq<Link>, power: real, x: real) {
    SumG(ls) > 0.0 && x * SumG(ls) == power + SumW(g, t, ls)
  }

  lemma FactorIs(x: real, y: real, s: real, w: real)
    requires s > 0.0 && x * s == w
    ensures x == y <==> w - y * s == 0.0
  {
    assert (x - y) * s == x * s - y * s;
  }

  /** Setting y to what balances the links leaves it as it is exactly when power and flows
      cancel. */
  lemma StillIffBalanced(g: Grid, t: Field, ls: seq<Link>, power: real, x: real, y: real)
    requires Balances(g, t, ls, power, x)
    ensures x == y <==> power + SumP(g, t, ls, y) == 0.0
  {
    FlowsSplit(g, t, ls, y);
    FactorIs(x, y, SumG(ls), power + SumW(g, t, ls));
  }

  // ---------- nothing is set below ambient ----------

  ghost predicate AboveAmbient(g: Grid, t: Field) {
    forall a :: IsNode(g, a) ==> t(a) >= g.ambient
  }

  lemma ProductNonNegative(x: real, y: real)
    requires x >= 0.0 && y >= 0.0
    ensures x * y >= 0.0
  {
  }

  lemma {:induction false} FlowsFromAbove(g: Grid, t: Field, ls: seq<Link>)
    requires SoundLinks(g, ls) && AboveAmbient(g, t)
    ensures SumP(g, t, ls, g.ambient) >= 0.0
    decreases |ls|
  {
    if ls != [] {
      var l := ls[|ls| - 1];
      FlowsFromAbove(g, t, ls[..|ls| - 1]);
      assert SoundLink(g, l);
      ProductNonNegative(l.c, Temp(g, t, l.src) - g.ambient);
    }
  }

  lemma FactorAtLeast(x: real, y: real, s: real, w: real)
    requires s > 0.0 && x * s == w && w - y * s >= 0.0
    ensures x >= y
  {
    assert (x - y) * s == x * s - y * s;
  }

  lemma StaysAboveAmbient(g: Grid, t: Field, ls: seq<Link>, power: real, x: real)
    requires SoundLinks(g, ls) && AboveAmbient(g, t) && power >= 0.0 && Balances(g, t, ls, power, x)
    ensures x >= g.ambient
  {
    FlowsFromAbove(g, t, ls);
    FlowsSplit(g, t, ls, g.ambient);
    FactorAtLeast(x, g.ambient, SumG(ls), power + SumW(g, t, ls));
  }

  // ---------- the grid's links, by name ----------

  type Net = Node -> seq<Link>

  ghost predicate SoundNet(g: Grid, net: Net) {
    forall a :: IsNode(g, a) ==> SoundLinks(g, net(a)) && |net(a)| > 0
  }

  ghost function NetOf(g: Grid): Net
    requires Sound(g)
  {
    a => if IsNode(g, a) then LinksOf(g, a) else []
  }

  lemma NetOfSound(g: Grid)
    requires Sound(g)
    ensures SoundNet(g, NetOf(g))
  {
    forall a | IsNode(g, a)
      ensures SoundLinks(g, NetOf(g)(a)) && |NetOf(g)(a)| > 0
    {
      LinksSound(g, a);
    }
  }

  /** x is what a sweep sets a node to. */
  ghost predicate Relaxed(g: Grid, net: Net, t: Field, power: Field, a: Node, x: real) {
    Balances(g, t, net(a), power(a), x)
  }

  /** The power into a node and the flows over its links cancel. */
  ghost predicate Balanced(g: Grid, net: Net, t: Field, power: Field, a: Node) {
    power(a) + SumP(g, t, net(a), t(a)) == 0.0
  }
}
