/** The slope of the transient equation at every node: power and flows in, over the capacity. */
module GridSlope {
  import opened GridNetwork
  import opened GridSweep
  import opened SweepRuns

  method AddFlow(psum: real, present: bool, y: real, r: real, x: real,
                 ghost g: Grid, ghost t: Field, ghost ls: seq<Link>, ghost piece: seq<Link>)
    returns (psum': real)
    requires psum == SumP(g, t, ls, x) && IsPiece(g, t, piece, present, y, r)
    ensures psum' == SumP(g, t, ls + piece, x)
  {
    psum' := psum;
    if present {
      psum' := psum + (y - x) / r;
      ghost var s :| piece == [Link(s, Per(r))] && Temp(g, t, s) == y;
      SumsLast(g, t, ls, Link(s, Per(r)), x);
      OverIsTimes(y - x, r);
    } else {
      assert ls + piece == ls;
    }
  }

  /** From the neighbours in the cell's own layer. */
  method LateralFlow(g: Grid, v: Values, n: nat, i: nat, j: nat, x: real, ghost t: Field) returns (p: real)
    requires Sound(g) && Shows(v, g, t) && IsNode(g, Cell(n, i, j))
    ensures p == SumP(g, t, NorthLink(g, n, i, j) + SouthLink(g, n, i, j) + EastLink(g, n, i, j)
                      + WestLink(g, n, i, j), x)
  {
    var l := g.layers[n];
    assert SoundLayer(l);
    ghost var a, b, d, e := NorthLink(g, n, i, j), SouthLink(g, n, i, j), EastLink(g, n, i, j), WestLink(g, n, i, j);
    assert [] + a == a;
    p := AddFlow(0.0, i > 0, if i > 0 then v.cuboid[n, i - 1, j] else 0.0, l.ry, x, g, t, [], a);
    p := AddFlow(p, i < g.rows - 1, if i < g.rows - 1 then v.cuboid[n, i + 1, j] else 0.0, l.ry, x, g, t, a, b);
    p := AddFlow(p, j < g.cols - 1, if j < g.cols - 1 then v.cuboid[n, i, j + 1] else 0.0, l.rx, x, g, t, a + b, d);
    p := AddFlow(p, j > 0, if j > 0 then v.cuboid[n, i, j - 1] else 0.0, l.rx, x, g, t, a + b + d, e);
  }

  method NeighbourFlow(g: Grid, v: Values, n: nat, i: nat, j: nat, x: real, ghost t: Field) returns (p: real)
    requires Sound(g) && Shows(v, g, t) && IsNode(g, Cell(n, i, j))
    ensures p == SumP(g, t, CellLinks(g, n, i, j), x)
  {
    assert SoundLayer(g.layers[n]) && (n > 0 ==> SoundLayer(g.layers[n - 1]));
    p := LateralFlow(g, v, n, i, j, x, t);
    ghost var ls := NorthLink(g, n, i, j) + SouthLink(g, n, i, j) + EastLink(g, n, i, j) + WestLink(g, n, i, j);
    p := AddFlow(p, n > 0, if n > 0 then v.cuboid[n - 1, i, j] else 0.0, if n > 0 then g.layers[n - 1].rz else 1.0, x,
                 g, t, ls, LinkAbove(g, n, i, j));
    p := AddFlow(p, n < |g.layers| - 1, if n < |g.layers| - 1 then v.cuboid[n + 1, i, j] else 0.0, g.layers[n].rz, x,
                 g, t, ls + LinkAbove(g, n, i, j), LinkBelow(g, n, i, j));
  }

  /** From the package nodes beside a border cell, k being the one to the west. */
  method SideFlow(g: Grid, v: Values, k: nat, rn: real, rs: real, re: real, rw: real, i: nat, j: nat, x: real,
                  ghost t: Field)
    returns (p: real)
    requires Shows(v, g, t) && k <= SINK_C && rn > 0.0 && rs > 0.0 && re > 0.0 && rw > 0.0
    ensures p == SumP(g, t, SideNodes(g.rows, g.cols, k, Per(rn), Per(rs), Per(re), Per(rw), i, j), x)
  {
    ghost var a, b := When(i == 0, Link(From(Extra(k + NORTH)), Per(rn))),
                      When(i == g.rows - 1, Link(From(Extra(k + SOUTH)), Per(rs)));
    ghost var d, e := When(j == g.cols - 1, Link(From(Extra(k + EAST)), Per(re))),
                      When(j == 0, Link(From(Extra(k + WEST)), Per(rw)));
    assert [] + a == a;
    p := AddFlow(0.0, i == 0, v.extra[k + NORTH], rn, x, g, t, [], a);
    p := AddFlow(p, i == g.rows - 1, v.extra[k + SOUTH], rs, x, g, t, a, b);
    p := AddFlow(p, j == g.cols - 1, v.extra[k + EAST], re, x, g, t, a + b, d);
    p := AddFlow(p, j == 0, v.extra[k + WEST], rw, x, g, t, a + b + d, e);
  }

  method BorderFlow(g: Grid, v: Values, sink: bool, i: nat, j: nat, x: real, ghost t: Field) returns (p: real)
    requires Sound(g) && Shows(v, g, t)
    ensures p == SumP(g, t, BorderLinks(g, sink, i, j), x)
  {
    var l := g.layers[|g.layers| - if sink then 1 else 2];
    var rx := l.rx / 2.0 + g.rows as real * (if sink then g.pack.x.rHs1 else g.pack.x.rSp1);
    var ry := l.ry / 2.0 + g.cols as real * (if sink then g.pack.y.rHs1 else g.pack.y.rSp1);
    assert rx == BorderR(g, sink, EAST) == BorderR(g, sink, WEST);
    assert ry == BorderR(g, sink, NORTH) == BorderR(g, sink, SOUTH);
    p := SideFlow(g, v, if sink then SINK_C else SP, ry, ry, rx, rx, i, j, x, t);
  }

  method MoreFlow(g: Grid, v: Values, n: nat, i: nat, j: nat, x: real, ghost t: Field) returns (p: real)
    requires Sound(g) && Shows(v, g, t) && n < |g.layers|
    ensures p == SumP(g, t, MoreLinks(g, n, i, j), x)
  {
    p := 0.0;
    if n == |g.layers| - 2 {
      p := BorderFlow(g, v, false, i, j, x, t);
    } else if n == |g.layers| - 1 {
      assert SoundLayer(g.layers[n]);
      ghost var l := Link(Ambient, Per(g.layers[n].rz));
      assert [] + [l] == [l];
      p := AddFlow(0.0, true, g.ambient, g.layers[n].rz, x, g, t, [], [l]);
      var q := BorderFlow(g, v, true, i, j, x, t);
      SumsConcat(g, t, [l], BorderLinks(g, true, i, j), x);
      p := p + q;
    }
  }

  /** All flows into a cell at temperature x. */
  method CellFlow(g: Grid, v: Values, n: nat, i: nat, j: nat, x: real, ghost t: Field) returns (p: real)
    requires Sound(g) && Shows(v, g, t) && IsNode(g, Cell(n, i, j))
    ensures p == SumP(g, t, LinksOfCell(g, n, i, j), x)
  {
    p := NeighbourFlow(g, v, n, i, j, x, t);
    var q := MoreFlow(g, v, n, i, j, x, t);
    SumsConcat(g, t, CellLinks(g, n, i, j), MoreLinks(g, n, i, j), x);
    p := p + q;
  }

  // ---------- package nodes ----------

  /** Differences to x of the first m cells along a side, added up. */
  ghost function AlongAbove(g: Grid, t: Field, n: nat, side: nat, m: nat, x: real): real
    requires g.rows >= 1 && g.cols >= 1
  {
    if m == 0 then 0.0 else AlongAbove(g, t, n, side, m - 1, x) + (t(BorderCell(g, n, side, m - 1)) - x)
  }

  lemma {:induction false} SideFlows(g: Grid, t: Field, n: nat, side: nat, c: real, m: nat, x: real)
    requires g.rows >= 1 && g.cols >= 1
    ensures SumP(g, t, SideLinks(g, n, side, c, m), x) == c * AlongAbove(g, t, n, side, m, x)
  {
    if m > 0 {
      SideFlows(g, t, n, side, c, m - 1, x);
      SumsLast(g, t, SideLinks(g, n, side, c, m - 1), Link(From(BorderCell(g, n, side, m - 1)), c), x);
      SideStep(c, AlongAbove(g, t, n, side, m - 1, x), t(BorderCell(g, n, side, m - 1)) - x);
    }
  }

  method CellsFlow(g: Grid, v: Values, n: nat, side: nat, r: real, x: real, ghost t: Field) returns (p: real)
    requires g.rows >= 1 && g.cols >= 1 && n < |g.layers| && Shows(v, g, t) && side < 4 && r > 0.0
    ensures p == SumP(g, t, SideLinks(g, n, side, Per(r), SideLength(g, side)), x)
  {
    p := 0.0;
    for m := 0 to SideLength(g, side)
      invariant p == AlongAbove(g, t, n, side, m, x)
    {
      var a := BorderCell(g, n, side, m);
      p := p + (v.cuboid[a.n, a.i, a.j] - x);
    }
    OverIsTimes(p, r);
    p := p / r;
    SideFlows(g, t, n, side, Per(r), SideLength(g, side), x);
  }

  /** From a cell on a side to the package node beside it. */
  method RimResistance(g: Grid, sink: bool, side: nat) returns (r: real)
    requires Sound(g) && side < 4
    ensures r == BorderR(g, sink, side)
  {
    var l := g.layers[|g.layers| - if sink then 1 else 2];
    if side == NORTH || side == SOUTH {
      r := l.ry / 2.0 + g.cols as real * (if sink then g.pack.y.rHs1 else g.pack.y.rSp1);
    } else {
      r := l.rx / 2.0 + g.rows as real * (if sink then g.pack.x.rHs1 else g.pack.x.rSp1);
    }
  }

  method AlongFlow(g: Grid, v: Values, sink: bool, side: nat, x: real, ghost t: Field) returns (p: real)
    requires Sound(g) && Shows(v, g, t) && side < 4
    ensures p == SumP(g, t, AllAlong(g, sink, side), x)
  {
    var r := RimResistance(g, sink, side);
    p := CellsFlow(g, v, |g.layers| - (if sink then 1 else 2), side, r, x, t);
  }

  method ExtraFlow(g: Grid, v: Values, k: nat, x: real, ghost t: Field) returns (p: real)
    requires Sound(g) && Shows(v, g, t) && k < EXTRA
    ensures p == SumP(g, t, LinksOfExtra(g, k), x)
  {
    if k < SINK_C {
      p := AlongFlow(g, v, false, k, x, t);
      var r := if k == NORTH || k == SOUTH then g.pack.y.rSpPer else g.pack.x.rSpPer;
      p := AddFlow(p, true, v.extra[k + 4], r, x, g, t, AllAlong(g, false, k), [Link(From(Extra(k + 4)), Per(r))]);
    } else if k < SINK {
      p := InnerSinkFlow(g, v, k - SINK_C, x, t);
    } else {
      var r := g.pack.rOuterAmb;
      var s := (if k - SINK == NORTH || k - SINK == SOUTH then g.pack.y.rHs2 else g.pack.x.rHs2) + g.pack.rHs;
      ghost var a, b := Link(Ambient, Per(r)), Link(From(Extra(k - 4)), Per(s));
      assert [] + [a] == [a] && [a] + [b] == [a, b];
      p := AddFlow(0.0, true, g.ambient, r, x, g, t, [], [a]);
      p := AddFlow(p, true, v.extra[k - 4], s, x, g, t, [a], [b]);
    }
  }

  method InnerSinkFlow(g: Grid, v: Values, side: nat, x: real, ghost t: Field) returns (p: real)
    requires Sound(g) && Shows(v, g, t) && side < 4
    ensures p == SumP(g, t, LinksOfExtra(g, SINK_C + side), x)
  {
    var z := if side == NORTH || side == SOUTH then g.pack.y else g.pack.x;
    var s := z.rHs2 + g.pack.rHs;
    assert z == AxisOf(g, side) && s == SinkLink(g, side);
    p := AlongFlow(g, v, true, side, x, t);
    ghost var ls := AllAlong(g, true, side);
    ghost var a, b, d := Link(Ambient, Per(z.rInnerAmb)), Link(From(Extra(SP + side)), Per(z.rSpPer)),
                         Link(From(Extra(SINK + side)), Per(s));
    p := AddFlow(p, true, g.ambient, z.rInnerAmb, x, g, t, ls, [a]);
    p := AddFlow(p, true, v.extra[SP + side], z.rSpPer, x, g, t, ls + [a], [b]);
    p := AddFlow(p, true, v.extra[SINK + side], s, x, g, t, ls + [a] + [b], [d]);
    assert ls + [a] + [b] + [d] == ls + [a, b, d];
  }

  // ---------- the slope ----------

  function Capacity(g: Grid, a: Node): (c: real)
    requires Sound(g) && IsNode(g, a)
    ensures c > 0.0
  {
    assert a.Cell? ==> SoundLayer(g.layers[a.n]);
    if a.Cell? then g.layers[a.n].c
    else if a.k < SINK_C then AxisOf(g, a.k).cSp
    else if a.k < SINK then AxisOf(g, a.k - SINK_C).cInner
    else g.pack.cOuter
  }

  /** d is the slope at node a: what comes in, over the capacity. */
  ghost predicate IsSlope(g: Grid, t: Field, power: Field, a: Node, d: real) {
    && Sound(g) && IsNode(g, a)
    && d == (power(a) + SumP(g, t, LinksOf(g, a), t(a))) / Capacity(g, a)
  }

  // ---------- at all nodes ----------

  /** The slope at a node, by name only. */
  type Rule = (Node, real) -> bool

  ghost predicate Follows(g: Grid, t: Field, power: Field, rule: Rule) {
    forall a, d {:trigger IsSlope(g, t, power, a, d)} :: IsSlope(g, t, power, a, d) ==> rule(a, d)
  }

  method CellSlope(g: Grid, v: Values, p: Values, n: nat, i: nat, j: nat, ghost t: Field, ghost power: Field,
                   ghost rule: Rule)
    returns (d: real)
    requires Sound(g) && Shows(v, g, t) && Shows(p, g, power) && IsNode(g, Cell(n, i, j)) && Follows(g, t, power, rule)
    ensures rule(Cell(n, i, j), d)
  {
    var q := CellFlow(g, v, n, i, j, v.cuboid[n, i, j], t);
    assert Capacity(g, Cell(n, i, j)) > 0.0;
    d := (p.cuboid[n, i, j] + q) / g.layers[n].c;
    assert IsSlope(g, t, power, Cell(n, i, j), d);
  }

  method ExtraSlope(g: Grid, v: Values, k: nat, ghost t: Field, ghost power: Field, ghost rule: Rule) returns (d: real)
    requires Sound(g) && Shows(v, g, t) && k < EXTRA && PackagePassive(power) && Follows(g, t, power, rule)
    ensures rule(Extra(k), d)
  {
    var q := ExtraFlow(g, v, k, v.extra[k], t);
    assert Capacity(g, Extra(k)) > 0.0;
    if k >= SINK {
      d := q / g.pack.cOuter;
    } else if k >= SINK_C {
      d := q / if k == SINK_C + NORTH || k == SINK_C + SOUTH then g.pack.y.cInner else g.pack.x.cInner;
    } else {
      d := q / if k == NORTH || k == SOUTH then g.pack.y.cSp else g.pack.x.cSp;
    }
    assert IsSlope(g, t, power, Extra(k), d);
  }

  ghost predicate CellsFollow(dv: Values, g: Grid, rule: Rule, n: nat, i: nat, j: nat)
    requires Fits(dv, g)
    reads dv.cuboid
  {
    forall x, y, z :: 0 <= x < |g.layers| && 0 <= y < g.rows && 0 <= z < g.cols && CellsBefore(n, i, j)(Cell(x, y, z))
                      ==> rule(Cell(x, y, z), dv.cuboid[x, y, z])
  }

  ghost predicate Apart(dv: Values, v: Values, p: Values) {
    dv.cuboid != v.cuboid && dv.cuboid != p.cuboid && dv.extra != v.extra && dv.extra != p.extra
  }

  method SlopeRow(g: Grid, v: Values, p: Values, dv: Values, n: nat, i: nat, ghost t: Field, ghost power: Field,
                  ghost rule: Rule)
    requires Sound(g) && Shows(v, g, t) && Shows(p, g, power) && Fits(dv, g) && Apart(dv, v, p)
    requires n < |g.layers| && i < g.rows && Follows(g, t, power, rule) && CellsFollow(dv, g, rule, n, i, 0)
    modifies dv.cuboid
    ensures CellsFollow(dv, g, rule, n, i + 1, 0)
  {
    for j := 0 to g.cols
      invariant Shows(v, g, t) && Shows(p, g, power) && CellsFollow(dv, g, rule, n, i, j)
    {
      var d := CellSlope(g, v, p, n, i, j, t, power, rule);
      dv.cuboid[n, i, j] := d;
    }
  }

  ghost predicate ExtrasFollow(dv: Values, g: Grid, rule: Rule, m: nat)
    requires Fits(dv, g) && m <= EXTRA
    reads dv.extra
  {
    forall k :: 0 <= k < m ==> rule(Extra(k), dv.extra[k])
  }

  method SlopeCells(g: Grid, v: Values, p: Values, dv: Values, ghost t: Field, ghost power: Field, ghost rule: Rule)
    requires Sound(g) && Shows(v, g, t) && Shows(p, g, power) && Fits(dv, g) && Apart(dv, v, p)
    requires Follows(g, t, power, rule)
    modifies dv.cuboid
    ensures CellsFollow(dv, g, rule, |g.layers|, 0, 0)
  {
    for n := 0 to |g.layers|
      invariant Shows(v, g, t) && Shows(p, g, power) && CellsFollow(dv, g, rule, n, 0, 0)
    {
      for i := 0 to g.rows
        invariant Shows(v, g, t) && Shows(p, g, power) && CellsFollow(dv, g, rule, n, i, 0)
      {
        SlopeRow(g, v, p, dv, n, i, t, power, rule);
      }
    }
  }

  method SlopeExtras(g: Grid, v: Values, dv: Values, ghost t: Field, ghost power: Field, ghost rule: Rule)
    requires Sound(g) && Shows(v, g, t) && Fits(dv, g) && dv.extra != v.extra
    requires PackagePassive(power) && Follows(g, t, power, rule)
    modifies dv.extra
    ensures ExtrasFollow(dv, g, rule, EXTRA)
  {
    for k := 0 to EXTRA
      invariant Shows(v, g, t) && ExtrasFollow(dv, g, rule, k)
    {
      var d := ExtraSlope(g, v, k, t, power, rule);
      dv.extra[k] := d;
    }
  }

  /** The slope at every node. */
  method Slopes(g: Grid, v: Values, p: Values, dv: Values, ghost t: Field, ghost power: Field, ghost rule: Rule)
    requires Sound(g) && Shows(v, g, t) && Shows(p, g, power) && Fits(dv, g) && Apart(dv, v, p)
    requires PackagePassive(power) && Follows(g, t, power, rule)
    modifies dv.cuboid, dv.extra
    ensures CellsFollow(dv, g, rule, |g.layers|, 0, 0) && ExtrasFollow(dv, g, rule, EXTRA)
  {
    SlopeCells(g, v, p, dv, t, power, rule);
    SlopeExtras(g, v, dv, t, power, rule);
  }

  lemma ZeroQuotient(y: real, d: real)
    requires d > 0.0
    ensures y / d == 0.0 <==> y == 0.0
  {
    assert (y / d) * d == y;
  }

  /** The slope vanishes exactly at the balanced nodes. */
  lemma ZeroSlopeIffBalanced(g: Grid, t: Field, power: Field, a: Node, d: real)
    requires IsSlope(g, t, power, a, d)
    ensures d == 0.0 <==> Balanced(g, NetOf(g), t, power, a)
  {
    ZeroQuotient(power(a) + SumP(g, t, LinksOf(g, a), t(a)), Capacity(g, a));
  }
}
