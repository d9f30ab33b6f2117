/** One Gauss-Seidel sweep over all nodes of the grid, in place. */
module GridSweep {
  import opened GridNetwork

  /** Temperatures or powers: one value per cell and per package node. */
  class Values {
    const cuboid: array3<real>
    const extra: array<real>

    constructor (layers: nat, rows: nat, cols: nat)
      ensures cuboid.Length0 == layers && cuboid.Length1 == rows && cuboid.Length2 == cols && extra.Length == EXTRA
      ensures fresh(cuboid) && fresh(extra)
    {
      cuboid := new real[layers, rows, cols];
      extra := new real[EXTRA];
    }
  }

  ghost predicate Fits(v: Values, g: Grid) {
    && v.cuboid.Length0 == |g.layers| && v.cuboid.Length1 == g.rows && v.cuboid.Length2 == g.cols
    && v.extra.Length == EXTRA
  }

  /** v holds the field t. */
  ghost predicate Shows(v: Values, g: Grid, t: Field)
    reads v.cuboid, v.extra
  {
    && Fits(v, g)
    && (forall n, i, j :: 0 <= n < |g.layers| && 0 <= i < g.rows && 0 <= j < g.cols ==>
        v.cuboid[n, i, j] == t(Cell(n, i, j)))
    && (forall k :: 0 <= k < EXTRA ==> v.extra[k] == t(Extra(k)))
  }

  ghost function Set(t: Field, a: Node, x: real): Field {
    b => if b == a then x else t(b)
  }

  // ---------- sums, link by link ----------

  /** piece is a single link to a neighbour at temperature x over resistance r, or nothing. */
  ghost predicate IsPiece(g: Grid, t: Field, piece: seq<Link>, present: bool, x: real, r: real) {
    if present then r > 0.0 && exists s :: piece == [Link(s, Per(r))] && Temp(g, t, s) == x else piece == []
  }

  /** Conductances and weighted temperatures of a list of links. */
  ghost predicate Sum(g: Grid, t: Field, ls: seq<Link>, csum: real, wsum: real) {
    csum == SumG(ls) && wsum == SumW(g, t, ls)
  }

  lemma OverIsTimes(x: real, r: real)
    requires r > 0.0
    ensures x / r == Per(r) * x
  {
  }

  method Add(csum: real, wsum: real, present: bool, x: real, r: real,
             ghost g: Grid, ghost t: Field, ghost ls: seq<Link>, ghost piece: seq<Link>)
    returns (csum': real, wsum': real)
    requires Sum(g, t, ls, csum, wsum) && IsPiece(g, t, piece, present, x, r)
    ensures Sum(g, t, ls + piece, csum', wsum')
  {
    csum', wsum' := csum, wsum;
    if present {
      csum', wsum' := csum + 1.0 / r, wsum + x / r;
      ghost var s :| piece == [Link(s, Per(r))] && Temp(g, t, s) == x;
      SumsLast(g, t, ls, Link(s, Per(r)), 0.0);
      OverIsTimes(x, r);
    } else {
      assert ls + piece == ls;
    }
  }

  /** The neighbours of a cell in its own layer. */
  method AddLateral(g: Grid, v: Values, n: nat, i: nat, j: nat, ghost t: Field) returns (c: real, w: real)
    requires Sound(g) && Shows(v, g, t) && IsNode(g, Cell(n, i, j))
    ensures Sum(g, t, NorthLink(g, n, i, j) + SouthLink(g, n, i, j) + EastLink(g, n, i, j) + WestLink(g, n, i, j), c, w)
  {
    var l := g.layers[n];
    assert SoundLayer(l);
    ghost var a, b, d, e := NorthLink(g, n, i, j), SouthLink(g, n, i, j), EastLink(g, n, i, j), WestLink(g, n, i, j);
    assert [] + a == a;
    c, w := Add(0.0, 0.0, i > 0, if i > 0 then v.cuboid[n, i - 1, j] else 0.0, l.ry, g, t, [], a);
    c, w := Add(c, w, i < g.rows - 1, if i < g.rows - 1 then v.cuboid[n, i + 1, j] else 0.0, l.ry, g, t, a, b);
    c, w := Add(c, w, j < g.cols - 1, if j < g.cols - 1 then v.cuboid[n, i, j + 1] else 0.0, l.rx, g, t, a + b, d);
    c, w := Add(c, w, j > 0, if j > 0 then v.cuboid[n, i, j - 1] else 0.0, l.rx, g, t, a + b + d, e);
  }

  method AddNeighbours(g: Grid, v: Values, n: nat, i: nat, j: nat, ghost t: Field) returns (c: real, w: real)
    requires Sound(g) && Shows(v, g, t) && IsNode(g, Cell(n, i, j))
    ensures Sum(g, t, CellLinks(g, n, i, j), c, w)
  {
    assert SoundLayer(g.layers[n]) && (n > 0 ==> SoundLayer(g.layers[n - 1]));
    c, w := AddLateral(g, v, n, i, j, t);
    ghost var ls := NorthLink(g, n, i, j) + SouthLink(g, n, i, j) + EastLink(g, n, i, j) + WestLink(g, n, i, j);
    c, w := Add(c, w, n > 0, if n > 0 then v.cuboid[n - 1, i, j] else 0.0, if n > 0 then g.layers[n - 1].rz else 1.0,
                g, t, ls, LinkAbove(g, n, i, j));
    c, w := Add(c, w, n < |g.layers| - 1, if n < |g.layers| - 1 then v.cuboid[n + 1, i, j] else 0.0, g.layers[n].rz,
                g, t, ls + LinkAbove(g, n, i, j), LinkBelow(g, n, i, j));
  }

  /** The package nodes beside a border cell, k being the one to the west. */
  method AddSides(g: Grid, v: Values, k: nat, rn: real, rs: real, re: real, rw: real, i: nat, j: nat, ghost t: Field)
    returns (c: real, w: real)
    requires Shows(v, g, t) && k <= SINK_C && rn > 0.0 && rs > 0.0 && re > 0.0 && rw > 0.0
    ensures Sum(g, t, SideNodes(g.rows, g.cols, k, Per(rn), Per(rs), Per(re), Per(rw), i, j), c, w)
  {
    ghost var a, b := When(i == 0, Link(From(Extra(k + NORTH)), Per(rn))),
                      When(i == g.rows - 1, Link(From(Extra(k + SOUTH)), Per(rs)));
    ghost var d, e := When(j == g.cols - 1, Link(From(Extra(k + EAST)), Per(re))),
                      When(j == 0, Link(From(Extra(k + WEST)), Per(rw)));
    assert [] + a == a;
    c, w := Add(0.0, 0.0, i == 0, v.extra[k + NORTH], rn, g, t, [], a);
    c, w := Add(c, w, i == g.rows - 1, v.extra[k + SOUTH], rs, g, t, a, b);
    c, w := Add(c, w, j == g.cols - 1, v.extra[k + EAST], re, g, t, a + b, d);
    c, w := Add(c, w, j == 0, v.extra[k + WEST], rw, g, t, a + b + d, e);
  }

  method AddBorder(g: Grid, v: Values, sink: bool, i: nat, j: nat, ghost t: Field) returns (c: real, w: real)
    requires Sound(g) && Shows(v, g, t)
    ensures Sum(g, t, BorderLinks(g, sink, i, j), c, w)
  {
    var l := g.layers[|g.layers| - if sink then 1 else 2];
    var rx := l.rx / 2.0 + g.rows as real * (if sink then g.pack.x.rHs1 else g.pack.x.rSp1);
    var ry := l.ry / 2.0 + g.cols as real * (if sink then g.pack.y.rHs1 else g.pack.y.rSp1);
    assert rx == BorderR(g, sink, EAST) == BorderR(g, sink, WEST);
    assert ry == BorderR(g, sink, NORTH) == BorderR(g, sink, SOUTH);
    c, w := AddSides(g, v, if sink then SINK_C else SP, ry, ry, rx, rx, i, j, t);
  }

  lemma SumBoth(g: Grid, t: Field, a: seq<Link>, b: seq<Link>, c: real, w: real, c': real, w': real)
    requires Sum(g, t, a, c, w) && Sum(g, t, b, c', w')
    ensures Sum(g, t, a + b, c + c', w + w')
  {
    SumsConcat(g, t, a, b, 0.0);
  }

  method AddAmbient(g: Grid, r: real, ghost t: Field) returns (c: real, w: real)
    requires r > 0.0
    ensures Sum(g, t, [Link(Ambient, Per(r))], c, w)
  {
    c, w := Add(0.0, 0.0, true, g.ambient, r, g, t, [], [Link(Ambient, Per(r))]);
    assert [] + [Link(Ambient, Per(r))] == [Link(Ambient, Per(r))];
  }

  /** A sink cell leads to ambient and to the package. */
  method AddSinkBorder(g: Grid, v: Values, i: nat, j: nat, ghost t: Field) returns (c: real, w: real)
    requires Sound(g) && Shows(v, g, t)
    ensures Sum(g, t, [Link(Ambient, Per(g.layers[|g.layers| - 1].rz))] + BorderLinks(g, true, i, j), c, w)
  {
    var r := g.layers[|g.layers| - 1].rz;
    assert SoundLayer(g.layers[|g.layers| - 1]);
    c, w := AddAmbient(g, r, t);
    var c', w' := AddBorder(g, v, true, i, j, t);
    SumBoth(g, t, [Link(Ambient, Per(r))], BorderLinks(g, true, i, j), c, w, c', w');
    c, w := c + c', w + w';
  }

  /** Spreader and sink cells have more links. */
  method AddMore(g: Grid, v: Values, n: nat, i: nat, j: nat, ghost t: Field) returns (c: real, w: real)
    requires Sound(g) && Shows(v, g, t) && n < |g.layers|
    ensures Sum(g, t, MoreLinks(g, n, i, j), c, w)
  {
    c, w := 0.0, 0.0;
    if n == |g.layers| - 2 {
      c, w := AddBorder(g, v, false, i, j, t);
    } else if n == |g.layers| - 1 {
      c, w := AddSinkBorder(g, v, i, j, t);
    }
  }

  /** All links of a cell. */
  method AddCell(g: Grid, v: Values, n: nat, i: nat, j: nat, ghost t: Field) returns (c: real, w: real)
    requires Sound(g) && Shows(v, g, t) && IsNode(g, Cell(n, i, j))
    ensures Sum(g, t, LinksOfCell(g, n, i, j), c, w)
  {
    c, w := AddNeighbours(g, v, n, i, j, t);
    var c', w' := AddMore(g, v, n, i, j, t);
    SumBoth(g, t, CellLinks(g, n, i, j), MoreLinks(g, n, i, j), c, w, c', w');
    c, w := c + c', w + w';
  }

  // ---------- package nodes ----------

  /** Temperatures of the first m cells along a side, added up. */
  ghost function Along(g: Grid, t: Field, n: nat, side: nat, m: nat): real
    requires g.rows >= 1 && g.cols >= 1
  {
    if m == 0 then 0.0 else Along(g, t, n, side, m - 1) + t(BorderCell(g, n, side, m - 1))
  }

  lemma CountStep(c: real, m: nat)
    requires m > 0
    ensures c * m as real == c * (m - 1) as real + c
  {
  }

  lemma SideStep(c: real, s: real, y: real)
    ensures c * (s + y) == c * s + c * y
  {
  }

  lemma {:induction false} SideCount(g: Grid, n: nat, side: nat, c: real, m: nat)
    requires g.rows >= 1 && g.cols >= 1
    ensures SumG(SideLinks(g, n, side, c, m)) == c * m as real
  {
    if m > 0 {
      SideCount(g, n, side, c, m - 1);
      CountStep(c, m);
    }
  }

  lemma {:induction false} SideWeights(g: Grid, t: Field, n: nat, side: nat, c: real, m: nat)
    requires g.rows >= 1 && g.cols >= 1
    ensures SumW(g, t, SideLinks(g, n, side, c, m)) == c * Along(g, t, n, side, m)
  {
    if m > 0 {
      var rest, a := SideLinks(g, n, side, c, m - 1), BorderCell(g, n, side, m - 1);
      SideWeights(g, t, n, side, c, m - 1);
      SumsLast(g, t, rest, Link(From(a), c), 0.0);
      SideStep(c, Along(g, t, n, side, m - 1), t(a));
    }
  }

  lemma SideSumOver(g: Grid, t: Field, n: nat, side: nat, r: real, m: nat)
    requires g.rows >= 1 && g.cols >= 1 && r > 0.0
    ensures Sum(g, t, SideLinks(g, n, side, Per(r), m), m as real / r, Along(g, t, n, side, m) / r)
  {
    SideCount(g, n, side, Per(r), m);
    SideWeights(g, t, n, side, Per(r), m);
    OverIsTimes(m as real, r);
    OverIsTimes(Along(g, t, n, side, m), r);
  }

  /** Cells along a side, each over resistance r. */
  method AddCells(g: Grid, v: Values, n: nat, side: nat, r: real, ghost t: Field) returns (c: real, w: real)
    requires g.rows >= 1 && g.cols >= 1 && n < |g.layers| && Shows(v, g, t) && side < 4 && r > 0.0
    ensures Sum(g, t, SideLinks(g, n, side, Per(r), SideLength(g, side)), c, w)
  {
    c := SideLength(g, side) as real / r;
    w := 0.0;
    for m := 0 to SideLength(g, side)
      invariant w == Along(g, t, n, side, m)
    {
      var a := BorderCell(g, n, side, m);
      w := w + v.cuboid[a.n, a.i, a.j];
    }
    w := w / r;
    SideSumOver(g, t, n, side, r, SideLength(g, side));
  }

  /** From a cell on a side to the package node beside it. */
  method RimResistance(g: Grid, sink: bool, side: nat) returns (r: real)
    requires Sound(g) && side < 4
    ensures r == BorderR(g, sink, side)
  {
    var l := g.layers[|g.layers| - if sink then 1 else 2];
    if side == NORTH || side == SOUTH {
      r := l.ry / 2.0 + g.cols as real * (if sink then g.pack.y.rHs1 else g.pack.y.rSp1);
    } else {
      r := l.rx / 2.0 + g.rows as real * (if sink then g.pack.x.rHs1 else g.pack.x.rSp1);
    }
  }

  /** The cells along a side of the spreader or the sink. */
  method AddAlong(g: Grid, v: Values, sink: bool, side: nat, ghost t: Field) returns (c: real, w: real)
    requires Sound(g) && Shows(v, g, t) && side < 4
    ensures Sum(g, t, AllAlong(g, sink, side), c, w)
  {
    var r := RimResistance(g, sink, side);
    c, w := AddCells(g, v, |g.layers| - (if sink then 1 else 2), side, r, t);
  }

  /** All links of a package node. */
  method AddExtra(g: Grid, v: Values, k: nat, ghost t: Field) returns (c: real, w: real)
    requires Sound(g) && Shows(v, g, t) && k < EXTRA
    ensures Sum(g, t, LinksOfExtra(g, k), c, w)
  {
    if k < SINK_C {
      c, w := AddAlong(g, v, false, k, t);
      var r := if k == NORTH || k == SOUTH then g.pack.y.rSpPer else g.pack.x.rSpPer;
      c, w := Add(c, w, true, v.extra[k + 4], r, g, t, AllAlong(g, false, k), [Link(From(Extra(k + 4)), Per(r))]);
    } else if k < SINK {
      c, w := AddInnerSink(g, v, k - SINK_C, t);
    } else {
      var r := g.pack.rOuterAmb;
      c, w := AddAmbient(g, r, t);
      var s := (if k - SINK == NORTH || k - SINK == SOUTH then g.pack.y.rHs2 else g.pack.x.rHs2) + g.pack.rHs;
      c, w := Add(c, w, true, v.extra[k - 4], s, g, t, [Link(Ambient, Per(r))], [Link(From(Extra(k - 4)), Per(s))]);
      assert [Link(Ambient, Per(r))] + [Link(From(Extra(k - 4)), Per(s))] == LinksOfExtra(g, k);
    }
  }

  method AddInnerSink(g: Grid, v: Values, side: nat, ghost t: Field) returns (c: real, w: real)
    requires Sound(g) && Shows(v, g, t) && side < 4
    ensures Sum(g, t, LinksOfExtra(g, SINK_C + side), c, w)
  {
    var x := if side == NORTH || side == SOUTH then g.pack.y else g.pack.x;
    var s := x.rHs2 + g.pack.rHs;
    assert x == AxisOf(g, side) && s == SinkLink(g, side);
    c, w := AddAlong(g, v, true, side, t);
    ghost var ls := AllAlong(g, true, side);
    ghost var a, b, d := Link(Ambient, Per(x.rInnerAmb)), Link(From(Extra(SP + side)), Per(x.rSpPer)),
                         Link(From(Extra(SINK + side)), Per(s));
    c, w := Add(c, w, true, g.ambient, x.rInnerAmb, g, t, ls, [a]);
    c, w := Add(c, w, true, v.extra[SP + side], x.rSpPer, g, t, ls + [a], [b]);
    c, w := Add(c, w, true, v.extra[SINK + side], s, g, t, ls + [a] + [b], [d]);
    assert ls + [a] + [b] + [d] == ls + [a, b, d];
  }
}
