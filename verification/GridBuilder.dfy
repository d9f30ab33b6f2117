/** Building the matrix: nine cases for the position of a cell, then the package nodes. */
module GridBuilder {
  import opened GridNetwork
  import opened GridMatrix

  // ---------- entry by entry ----------

  /** Entries and diagonal of node a after the links ls. */
  ghost predicate SoFar(a: Node, ls: seq<Link>, es: seq<Entry>, dia: real) {
    es == OffDiagonal(a, ls) && dia == SumG(ls)
  }

  lemma SoFarGrows(a: Node, ls: seq<Link>, l: Link, es: seq<Entry>, dia: real)
    requires SoFar(a, ls, es, dia)
    ensures SoFar(a, ls + [l], es + OffEntry(a, l), dia + l.c)
  {
    assert (ls + [l])[..|ls|] == ls;
  }

  /** One off-diagonal entry, if there is a neighbour. */
  method Emit(es: seq<Entry>, dia: real, a: Node, present: bool, b: Node, r: real, ghost ls: seq<Link>,
              ghost piece: seq<Link>)
    returns (es': seq<Entry>, dia': real)
    requires SoFar(a, ls, es, dia)
    requires if present then r > 0.0 && piece == [Link(From(b), Per(r))] else piece == []
    ensures SoFar(a, ls + piece, es', dia')
  {
    es', dia' := es, dia;
    if present {
      es', dia' := es + [Entry(a, b, -(1.0 / r))], dia + 1.0 / r;
      SoFarGrows(a, ls, Link(From(b), Per(r)), es, dia);
    } else {
      assert ls + piece == ls;
    }
  }

  /** A link to ambient shows in the diagonal only. */
  method EmitAmbient(es: seq<Entry>, dia: real, ghost a: Node, r: real, ghost ls: seq<Link>)
    returns (es': seq<Entry>, dia': real)
    requires SoFar(a, ls, es, dia) && r > 0.0
    ensures SoFar(a, ls + [Link(Ambient, Per(r))], es', dia')
  {
    es', dia' := es, dia + 1.0 / r;
    SoFarGrows(a, ls, Link(Ambient, Per(r)), es, dia);
    assert es + [] == es;
  }

  method EmitNorth(g: Grid, n: nat, i: nat, j: nat, es: seq<Entry>, dia: real, ghost ls: seq<Link>)
    returns (es': seq<Entry>, dia': real)
    requires Sound(g) && IsNode(g, Cell(n, i, j)) && SoFar(Cell(n, i, j), ls, es, dia)
    ensures SoFar(Cell(n, i, j), ls + NorthLink(g, n, i, j), es', dia')
  {
    assert SoundLayer(g.layers[n]);
    es', dia' := Emit(es, dia, Cell(n, i, j), i > 0, if i > 0 then Cell(n, i - 1, j) else Cell(n, i, j), g.layers[n].ry,
                      ls, NorthLink(g, n, i, j));
  }

  method EmitSouth(g: Grid, n: nat, i: nat, j: nat, es: seq<Entry>, dia: real, ghost ls: seq<Link>)
    returns (es': seq<Entry>, dia': real)
    requires Sound(g) && IsNode(g, Cell(n, i, j)) && SoFar(Cell(n, i, j), ls, es, dia)
    ensures SoFar(Cell(n, i, j), ls + SouthLink(g, n, i, j), es', dia')
  {
    assert SoundLayer(g.layers[n]);
    es', dia' := Emit(es, dia, Cell(n, i, j), i < g.rows - 1, Cell(n, i + 1, j), g.layers[n].ry, ls,
                      SouthLink(g, n, i, j));
  }

  method EmitEast(g: Grid, n: nat, i: nat, j: nat, es: seq<Entry>, dia: real, ghost ls: seq<Link>)
    returns (es': seq<Entry>, dia': real)
    requires Sound(g) && IsNode(g, Cell(n, i, j)) && SoFar(Cell(n, i, j), ls, es, dia)
    ensures SoFar(Cell(n, i, j), ls + EastLink(g, n, i, j), es', dia')
  {
    assert SoundLayer(g.layers[n]);
    es', dia' := Emit(es, dia, Cell(n, i, j), j < g.cols - 1, Cell(n, i, j + 1), g.layers[n].rx, ls,
                      EastLink(g, n, i, j));
  }

  method EmitWest(g: Grid, n: nat, i: nat, j: nat, es: seq<Entry>, dia: real, ghost ls: seq<Link>)
    returns (es': seq<Entry>, dia': real)
    requires Sound(g) && IsNode(g, Cell(n, i, j)) && SoFar(Cell(n, i, j), ls, es, dia)
    ensures SoFar(Cell(n, i, j), ls + WestLink(g, n, i, j), es', dia')
  {
    assert SoundLayer(g.layers[n]);
    es', dia' := Emit(es, dia, Cell(n, i, j), j > 0, if j > 0 then Cell(n, i, j - 1) else Cell(n, i, j), g.layers[n].rx,
                      ls, WestLink(g, n, i, j));
  }

  // ---------- the nine cases ----------

  /** Where the position i * cols + j of a cell puts it. */
  lemma Position(rows: nat, cols: nat, i: nat, j: nat, idx: nat)
    requires rows >= 2 && cols >= 2 && i < rows && j < cols && idx == i * cols + j
    ensures idx == 0 <==> i == 0 && j == 0
    ensures idx == cols - 1 <==> i == 0 && j == cols - 1
    ensures idx == rows * cols - cols <==> i == rows - 1 && j == 0
    ensures idx == rows * cols - 1 <==> i == rows - 1 && j == cols - 1
    ensures 0 < idx < cols - 1 <==> i == 0 && 0 < j < cols - 1
    ensures rows * cols - cols < idx < rows * cols - 1 <==> i == rows - 1 && 0 < j < cols - 1
    ensures idx % cols == j
    ensures (idx + 1) % cols == 0 <==> j == cols - 1
  {
    RowStarts(rows, cols, i);
    Remainder(i, cols, j, idx);
    if j == cols - 1 {
      Remainder(i + 1, cols, 0, idx + 1);
    } else {
      Remainder(i, cols, j + 1, idx + 1);
    }
  }

  lemma TimesAtLeast(k: nat, c: nat)
    ensures k >= 1 ==> k * c >= c
  {
    if k >= 1 {
      Times(k - 1, 1, c);
    }
  }

  lemma Times(a: nat, b: nat, c: nat)
    ensures (a + b) * c == a * c + b * c
  {
  }

  lemma RowStarts(rows: nat, cols: nat, i: nat)
    requires i < rows
    ensures i == 0 ==> i * cols == 0
    ensures i > 0 ==> i * cols >= cols
    ensures i == rows - 1 ==> i * cols == rows * cols - cols
    ensures i < rows - 1 ==> i * cols + cols <= rows * cols - cols
  {
    TimesAtLeast(i, cols);
    Times(i, rows - i, cols);
    TimesAtLeast(rows - i - 1, cols);
    Times(rows - i - 1, 1, cols);
  }

  lemma Remainder(i: nat, cols: nat, j: nat, idx: nat)
    requires j < cols && idx == i * cols + j
    ensures idx % cols == j
  {
    var q, r := idx / cols, idx % cols;
    assert idx == q * cols + r;
    if q < i {
      Times(q, i - q, cols);
      TimesAtLeast(i - q, cols);
    } else {
      Times(i, q - i, cols);
      TimesAtLeast(q - i, cols);
    }
  }

  method EmitLateral(g: Grid, n: nat, i: nat, j: nat) returns (es: seq<Entry>, dia: real)
    requires Sound(g) && IsNode(g, Cell(n, i, j)) && g.rows >= 2 && g.cols >= 2
    ensures SoFar(Cell(n, i, j), LateralOrder(g, n, i, j), es, dia)
  {
    var idx := i * g.cols + j;
    Position(g.rows, g.cols, i, j, idx);
    ghost var north, south, east, west :=
        NorthLink(g, n, i, j), SouthLink(g, n, i, j), EastLink(g, n, i, j), WestLink(g, n, i, j);
    assert [] + east == east && [] + west == west && [] + north == north;
    es, dia := [], 0.0;
    if idx == 0 {
      es, dia := EmitEast(g, n, i, j, es, dia, []);
      es, dia := EmitSouth(g, n, i, j, es, dia, east);
    } else if idx == g.cols - 1 {
      es, dia := EmitWest(g, n, i, j, es, dia, []);
      es, dia := EmitSouth(g, n, i, j, es, dia, west);
    } else if idx == g.rows * g.cols - g.cols {
      es, dia := EmitEast(g, n, i, j, es, dia, []);
      es, dia := EmitNorth(g, n, i, j, es, dia, east);
    } else if idx == g.rows * g.cols - 1 {
      es, dia := EmitWest(g, n, i, j, es, dia, []);
      es, dia := EmitNorth(g, n, i, j, es, dia, west);
    } else {
      es, dia := EmitEdgeOrInner(g, n, i, j, idx);
    }
  }

  /** The cells that are no corners. */
  method EmitEdgeOrInner(g: Grid, n: nat, i: nat, j: nat, idx: nat) returns (es: seq<Entry>, dia: real)
    requires Sound(g) && IsNode(g, Cell(n, i, j)) && g.rows >= 2 && g.cols >= 2 && idx == i * g.cols + j
    requires !((i == 0 || i == g.rows - 1) && (j == 0 || j == g.cols - 1))
    ensures SoFar(Cell(n, i, j), LateralOrder(g, n, i, j), es, dia)
  {
    Position(g.rows, g.cols, i, j, idx);
    ghost var north, south, east, west :=
        NorthLink(g, n, i, j), SouthLink(g, n, i, j), EastLink(g, n, i, j), WestLink(g, n, i, j);
    assert [] + west == west && [] + north == north;
    es, dia := [], 0.0;
    if 0 < idx < g.cols - 1 {
      es, dia := EmitWest(g, n, i, j, es, dia, []);
      es, dia := EmitEast(g, n, i, j, es, dia, west);
      es, dia := EmitSouth(g, n, i, j, es, dia, west + east);
    } else if g.rows * g.cols - g.cols < idx < g.rows * g.cols - 1 {
      es, dia := EmitWest(g, n, i, j, es, dia, []);
      es, dia := EmitEast(g, n, i, j, es, dia, west);
      es, dia := EmitNorth(g, n, i, j, es, dia, west + east);
    } else {
      es, dia := EmitNorth(g, n, i, j, es, dia, []);
      es, dia := EmitSouth(g, n, i, j, es, dia, north);
      if idx % g.cols == 0 {
        es, dia := EmitEast(g, n, i, j, es, dia, north + south);
      } else if (idx + 1) % g.cols == 0 {
        es, dia := EmitWest(g, n, i, j, es, dia, north + south);
      } else {
        es, dia := EmitWest(g, n, i, j, es, dia, north + south);
        es, dia := EmitEast(g, n, i, j, es, dia, north + south + west);
      }
    }
  }

  // ---------- rows ----------

  /** The package nodes beside a border cell. */
  method EmitSides(g: Grid, n: nat, i: nat, j: nat, k: nat, rn: real, rs: real, re: real, rw: real,
                   es: seq<Entry>, dia: real, ghost ls: seq<Link>)
    returns (es': seq<Entry>, dia': real)
    requires SoFar(Cell(n, i, j), ls, es, dia) && rn > 0.0 && rs > 0.0 && re > 0.0 && rw > 0.0
    ensures SoFar(Cell(n, i, j), ls + SideOrder(g.rows, g.cols, k, Per(rn), Per(rs), Per(re), Per(rw), i, j), es', dia')
  {
    var a := Cell(n, i, j);
    ghost var first, second := RowSide(g.rows, k, Per(rn), Per(rs), i), ColSide(g.cols, k, Per(re), Per(rw), j);
    var north, west := i == 0, j == 0;
    es', dia' := Emit(es, dia, a, north || i == g.rows - 1, Extra(k + if north then NORTH else SOUTH),
                      if north then rn else rs, ls, first);
    es', dia' := Emit(es', dia', a, west || j == g.cols - 1, Extra(k + if west then WEST else EAST),
                      if west then rw else re, ls + first, second);
    Associate(ls, first, second);
  }

  lemma Associate<T>(a: seq<T>, b: seq<T>, c: seq<T>)
    ensures (a + b) + c == a + (b + c)
  {
  }

  method EmitBorder(g: Grid, n: nat, i: nat, j: nat, sink: bool, es: seq<Entry>, dia: real, ghost ls: seq<Link>)
    returns (es': seq<Entry>, dia': real)
    requires Sound(g) && SoFar(Cell(n, i, j), ls, es, dia)
    ensures SoFar(Cell(n, i, j), ls + BorderOrder(g, sink, i, j), es', dia')
  {
    var l := g.layers[|g.layers| - if sink then 1 else 2];
    var rx := l.rx / 2.0 + g.rows as real * (if sink then g.pack.x.rHs1 else g.pack.x.rSp1);
    var ry := l.ry / 2.0 + g.cols as real * (if sink then g.pack.y.rHs1 else g.pack.y.rSp1);
    assert rx == BorderR(g, sink, EAST) == BorderR(g, sink, WEST);
    assert ry == BorderR(g, sink, NORTH) == BorderR(g, sink, SOUTH);
    es', dia' := EmitSides(g, n, i, j, if sink then SINK_C else SP, ry, ry, rx, rx, es, dia, ls);
  }

  method EmitMore(g: Grid, n: nat, i: nat, j: nat, es: seq<Entry>, dia: real, ghost ls: seq<Link>)
    returns (es': seq<Entry>, dia': real)
    requires Sound(g) && n < |g.layers| && SoFar(Cell(n, i, j), ls, es, dia)
    ensures SoFar(Cell(n, i, j), ls + MoreOrder(g, n, i, j), es', dia')
  {
    if n == |g.layers| - 2 {
      es', dia' := EmitBorder(g, n, i, j, false, es, dia, ls);
    } else if n == |g.layers| - 1 {
      assert SoundLayer(g.layers[n]);
      es', dia' := EmitBorder(g, n, i, j, true, es, dia, ls);
      ghost var border := BorderOrder(g, true, i, j);
      es', dia' := EmitAmbient(es', dia', Cell(n, i, j), g.layers[n].rz, ls + border);
      assert (ls + border) + [Link(Ambient, Per(g.layers[n].rz))] ==
             ls + (border + [Link(Ambient, Per(g.layers[n].rz))]);
    } else {
      es', dia' := es, dia;
      assert ls + [] == ls;
    }
  }

  method EmitVertical(g: Grid, n: nat, i: nat, j: nat, es: seq<Entry>, dia: real, ghost ls: seq<Link>)
    returns (es': seq<Entry>, dia': real)
    requires Sound(g) && IsNode(g, Cell(n, i, j)) && SoFar(Cell(n, i, j), ls, es, dia)
    ensures SoFar(Cell(n, i, j), ls + LinkBelow(g, n, i, j) + LinkAbove(g, n, i, j), es', dia')
  {
    assert SoundLayer(g.layers[n]) && (n > 0 ==> SoundLayer(g.layers[n - 1]));
    es', dia' := Emit(es, dia, Cell(n, i, j), n < |g.layers| - 1, Cell(n + 1, i, j), g.layers[n].rz, ls,
                      LinkBelow(g, n, i, j));
    es', dia' := Emit(es', dia', Cell(n, i, j), n > 0, if n > 0 then Cell(n - 1, i, j) else Cell(n, i, j),
                      if n > 0 then g.layers[n - 1].rz else 1.0, ls + LinkBelow(g, n, i, j), LinkAbove(g, n, i, j));
  }

  /** es is the row of node a. */
  ghost predicate IsRow(g: Grid, a: Node, es: seq<Entry>) {
    Sound(g) && IsNode(g, a) && g.rows >= 2 && g.cols >= 2 && es == Row(a, OrderOf(g, a))
  }

  method CellRow(g: Grid, n: nat, i: nat, j: nat) returns (es: seq<Entry>)
    requires Sound(g) && IsNode(g, Cell(n, i, j)) && g.rows >= 2 && g.cols >= 2
    ensures IsRow(g, Cell(n, i, j), es)
  {
    var dia;
    es, dia := EmitLateral(g, n, i, j);
    ghost var ls := LateralOrder(g, n, i, j);
    es, dia := EmitVertical(g, n, i, j, es, dia, ls);
    es, dia := EmitMore(g, n, i, j, es, dia, ls + LinkBelow(g, n, i, j) + LinkAbove(g, n, i, j));
    es := es + [Entry(Cell(n, i, j), Cell(n, i, j), dia)];
  }

  // ---------- package rows ----------

  /** Entries for the cells along a side. */
  method EmitAlong(g: Grid, k: nat, n: nat, side: nat, r: real) returns (es: seq<Entry>, dia: real)
    requires g.rows >= 1 && g.cols >= 1 && r > 0.0
    ensures SoFar(Extra(k), SideLinks(g, n, side, Per(r), SideLength(g, side)), es, dia)
  {
    es, dia := [], 0.0;
    for m := 0 to SideLength(g, side)
      invariant SoFar(Extra(k), SideLinks(g, n, side, Per(r), m), es, dia)
    {
      var b := BorderCell(g, n, side, m);
      es, dia := Emit(es, dia, Extra(k), true, b, r, SideLinks(g, n, side, Per(r), m), [Link(From(b), Per(r))]);
    }
  }

  /** From a cell on a side to the package node beside it. */
  method RimResistance(g: Grid, sink: bool, side: nat) returns (r: real)
    requires Sound(g) && side < 4
    ensures r == BorderR(g, sink, side)
  {
    var l := g.layers[|g.layers| - if sink then 1 else 2];
    if side == NORTH || side == SOUTH {
      r := l.ry / 2.0 + g.cols as real * (if sink then g.pack.y.rHs1 else g.pack.y.rSp1);
    } else {
      r := l.rx / 2.0 + g.rows as real * (if sink then g.pack.x.rHs1 else g.pack.x.rSp1);
    }
  }

  method EmitAllAlong(g: Grid, k: nat, sink: bool, side: nat) returns (es: seq<Entry>, dia: real)
    requires Sound(g) && side < 4
    ensures SoFar(Extra(k), AllAlong(g, sink, side), es, dia)
  {
    var r := RimResistance(g, sink, side);
    es, dia := EmitAlong(g, k, |g.layers| - (if sink then 1 else 2), side, r);
  }

  method EmitExtra(g: Grid, k: nat) returns (es: seq<Entry>, dia: real)
    requires Sound(g) && k < EXTRA
    ensures SoFar(Extra(k), ExtraOrder(g, k), es, dia)
  {
    if k < SINK_C {
      es, dia := EmitAllAlong(g, k, false, k);
      var r := if k == NORTH || k == SOUTH then g.pack.y.rSpPer else g.pack.x.rSpPer;
      es, dia := Emit(es, dia, Extra(k), true, Extra(k + 4), r, AllAlong(g, false, k),
                      [Link(From(Extra(k + 4)), Per(r))]);
    } else if k < SINK {
      es, dia := EmitInnerSink(g, k - SINK_C);
    } else {
      var r := g.pack.rOuterAmb;
      var s := (if k - SINK == NORTH || k - SINK == SOUTH then g.pack.y.rHs2 else g.pack.x.rHs2) + g.pack.rHs;
      ghost var a, b := Link(From(Extra(k - 4)), Per(s)), Link(Ambient, Per(r));
      assert [] + [a] == [a] && [a] + [b] == [a, b];
      es, dia := Emit([], 0.0, Extra(k), true, Extra(k - 4), s, [], [a]);
      es, dia := EmitAmbient(es, dia, Extra(k), r, [a]);
    }
  }

  method EmitInnerSink(g: Grid, side: nat) returns (es: seq<Entry>, dia: real)
    requires Sound(g) && side < 4
    ensures SoFar(Extra(SINK_C + side), ExtraOrder(g, SINK_C + side), es, dia)
  {
    var x := if side == NORTH || side == SOUTH then g.pack.y else g.pack.x;
    es, dia := EmitInnerSinkOver(g, side, x, x.rHs2 + g.pack.rHs);
  }

  method EmitInnerSinkOver(g: Grid, side: nat, x: PackAxis, s: real) returns (es: seq<Entry>, dia: real)
    requires Sound(g) && side < 4 && x == AxisOf(g, side) && s == SinkLink(g, side)
    ensures SoFar(Extra(SINK_C + side), ExtraOrder(g, SINK_C + side), es, dia)
  {
    var k := SINK_C + side;
    ghost var ls := AllAlong(g, true, side);
    ghost var a, b, d := Link(From(Extra(k - 4)), Per(x.rSpPer)), Link(From(Extra(k + 4)), Per(s)),
                         Link(Ambient, Per(x.rInnerAmb));
    es, dia := EmitAllAlong(g, k, true, side);
    es, dia := Emit(es, dia, Extra(k), true, Extra(k - 4), x.rSpPer, ls, [a]);
    es, dia := Emit(es, dia, Extra(k), true, Extra(k + 4), s, ls + [a], [b]);
    es, dia := EmitAmbient(es, dia, Extra(k), x.rInnerAmb, ls + [a] + [b]);
    assert ls + [a] + [b] + [d] == ls + [a, b, d];
  }

  method ExtraRow(g: Grid, k: nat) returns (es: seq<Entry>)
    requires Sound(g) && k < EXTRA && g.rows >= 2 && g.cols >= 2
    ensures IsRow(g, Extra(k), es)
  {
    var dia;
    es, dia := EmitExtra(g, k);
    es := es + [Entry(Extra(k), Extra(k), dia)];
  }
}
