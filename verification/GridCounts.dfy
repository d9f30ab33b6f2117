/** How many entries each row of the matrix has, that their columns do not repeat, and how many
    entries there are in all. */
module GridCounts {
  import opened GridNetwork
  import opened GridMatrix
  import opened GridBuilder
  import opened GridSystem

  // ---------- where the links of a node lead ----------

  /** No node twice, and never back to a. */
  ghost predicate Leads(a: Node, ls: seq<Link>) {
    && (forall i, j :: 0 <= i < j < |ls| && ls[i].src.From? ==> ls[i].src != ls[j].src)
    && (forall i :: 0 <= i < |ls| ==> ls[i].src != From(a))
  }

  function Size(ls: seq<Link>): nat {
    if ls == [] then 0 else Size(ls[..|ls| - 1]) + if ls[|ls| - 1].src.From? then 1 else 0
  }

  lemma {:induction false} SizeConcat(a: seq<Link>, b: seq<Link>)
    ensures Size(a + b) == Size(a) + Size(b)
    decreases |b|
  {
    if b == [] {
      assert a + b == a;
    } else {
      SizeConcat(a, b[..|b| - 1]);
      assert (a + b)[..|a + b| - 1] == a + b[..|b| - 1];
    }
  }

  /** Every entry stands for a link. */
  lemma {:induction false} OffDiagonalFrom(a: Node, ls: seq<Link>)
    ensures |OffDiagonal(a, ls)| == Size(ls)
    ensures forall i :: 0 <= i < |OffDiagonal(a, ls)| ==> exists j ::
              0 <= j < |ls| && ls[j].src == From(OffDiagonal(a, ls)[i].col)
    decreases |ls|
  {
    if ls != [] {
      OffDiagonalFrom(a, ls[..|ls| - 1]);
    }
  }

  lemma {:induction false} ColumnsDistinct(a: Node, ls: seq<Link>)
    requires Leads(a, ls)
    ensures DistinctColumns(OffDiagonal(a, ls))
    decreases |ls|
  {
    if ls != [] {
      ColumnsDistinct(a, ls[..|ls| - 1]);
      OffDiagonalFrom(a, ls[..|ls| - 1]);
    }
  }

  lemma GoodRowFrom(a: Node, ls: seq<Link>, len: nat)
    requires Leads(a, ls) && len == Size(ls) + 1
    ensures GoodRow(a, Row(a, ls), len)
  {
    ColumnsDistinct(a, ls);
    OffDiagonalFrom(a, ls);
    OffDiagonalInRow(a, ls);
  }

  // ---------- cells ----------

  predicate OnEdge(i: nat, m: nat) {
    i == 0 || i == m - 1
  }

  function One(b: bool): nat {
    if b then 1 else 0
  }

  lemma LateralLeads(g: Grid, n: nat, i: nat, j: nat)
    requires n < |g.layers| && i < g.rows && j < g.cols && g.rows >= 2 && g.cols >= 2
    ensures Leads(Cell(n, i, j), LateralOrder(g, n, i, j))
  {
  }

  lemma {:induction false} AllFrom(ls: seq<Link>)
    ensures (forall l :: l in ls ==> l.src.From?) ==> Size(ls) == |ls|
    decreases |ls|
  {
    if ls != [] {
      AllFrom(ls[..|ls| - 1]);
    }
  }

  ghost predicate InLayer(n: nat, ls: seq<Link>) {
    forall l :: l in ls ==> l.src.From? && l.src.node.Cell? && l.src.node.n == n
  }

  ghost predicate OutOfCells(ls: seq<Link>) {
    forall l :: l in ls ==> l.src.Ambient? || l.src.node.Extra?
  }

  lemma LateralSize(g: Grid, n: nat, i: nat, j: nat)
    requires n < |g.layers| && i < g.rows && j < g.cols && g.rows >= 2 && g.cols >= 2
    ensures InLayer(n, LateralOrder(g, n, i, j))
    ensures |LateralOrder(g, n, i, j)| == 4 - One(OnEdge(i, g.rows)) - One(OnEdge(j, g.cols))
  {
  }

  lemma LeadsConcat(a: Node, p: seq<Link>, q: seq<Link>)
    requires Leads(a, p) && Leads(a, q) && forall l, m :: l in p && m in q && l.src.From? ==> l.src != m.src
    ensures Leads(a, p + q)
  {
  }

  /** Below, above and in a cell's own layer, and then out of the cells. */
  lemma PartsLead(n: nat, i: nat, j: nat, own: seq<Link>, below: seq<Link>, above: seq<Link>, more: seq<Link>)
    requires Leads(Cell(n, i, j), own) && InLayer(n, own) && Leads(Cell(n, i, j), more) && OutOfCells(more)
    requires |below| <= 1 && InLayer(n + 1, below) && |above| <= 1 && (above != [] ==> n > 0 && InLayer(n - 1, above))
    ensures Leads(Cell(n, i, j), own + below + above + more)
    ensures Size(own + below + above + more) == |own| + |below| + |above| + Size(more)
  {
    AllFrom(own);
    AllFrom(below);
    AllFrom(above);
    SizeConcat(own, below);
    SizeConcat(own + below, above);
    SizeConcat(own + below + above, more);
    LeadsConcat(Cell(n, i, j), own, below);
    LeadsConcat(Cell(n, i, j), own + below, above);
    LeadsConcat(Cell(n, i, j), own + below + above, more);
  }

  /** At most one link, to a package node of its own. */
  lemma OneSideLeads(a: Node, p: seq<Link>, q: seq<Link>)
    requires a.Cell? && |p| <= 1 && |q| <= 1 && OutOfCells(p) && OutOfCells(q)
    requires (forall l :: l in p + q ==> l.src.From?) && (p != [] && q != [] ==> p[0].src != q[0].src)
    ensures Leads(a, p + q) && OutOfCells(p + q) && Size(p + q) == |p| + |q|
  {
    AllFrom(p + q);
  }

  lemma SideLeads(rows: nat, cols: nat, k: nat, cn: real, cs: real, ce: real, cw: real, n: nat, i: nat, j: nat)
    requires rows >= 2 && cols >= 2
    ensures var ls := SideOrder(rows, cols, k, cn, cs, ce, cw, i, j);
            Leads(Cell(n, i, j), ls) && OutOfCells(ls) && Size(ls) == One(OnEdge(i, rows)) + One(OnEdge(j, cols))
  {
    var p, q := RowSide(rows, k, cn, cs, i), ColSide(cols, k, ce, cw, j);
    assert |p| == One(OnEdge(i, rows)) && |q| == One(OnEdge(j, cols));
    OneSideLeads(Cell(n, i, j), p, q);
  }

  lemma AmbientLast(a: Node, ls: seq<Link>, c: real)
    requires Leads(a, ls) && OutOfCells(ls)
    ensures Leads(a, ls + [Link(Ambient, c)]) && OutOfCells(ls + [Link(Ambient, c)])
    ensures Size(ls + [Link(Ambient, c)]) == Size(ls)
  {
    assert (ls + [Link(Ambient, c)])[..|ls|] == ls;
  }

  lemma BorderLeads(g: Grid, sink: bool, n: nat, i: nat, j: nat)
    requires Sound(g) && g.rows >= 2 && g.cols >= 2
    ensures var ls := BorderOrder(g, sink, i, j);
            Leads(Cell(n, i, j), ls) && OutOfCells(ls) && Size(ls) == One(OnEdge(i, g.rows)) + One(OnEdge(j, g.cols))
  {
    SideLeads(g.rows, g.cols, if sink then SINK_C else SP, BorderC(g, sink, NORTH), BorderC(g, sink, SOUTH),
              BorderC(g, sink, EAST), BorderC(g, sink, WEST), n, i, j);
  }

  lemma MoreLeads(g: Grid, n: nat, i: nat, j: nat)
    requires Sound(g) && n < |g.layers| && g.rows >= 2 && g.cols >= 2
    ensures Leads(Cell(n, i, j), MoreOrder(g, n, i, j)) && OutOfCells(MoreOrder(g, n, i, j))
    ensures Size(MoreOrder(g, n, i, j)) == if n >= |g.layers| - 2 then One(OnEdge(i, g.rows)) + One(OnEdge(j, g.cols))
            else 0
  {
    if n == |g.layers| - 2 {
      BorderLeads(g, false, n, i, j);
    } else if n == |g.layers| - 1 {
      BorderLeads(g, true, n, i, j);
      AmbientLast(Cell(n, i, j), BorderOrder(g, true, i, j), Per(g.layers[n].rz));
    }
  }

  /** Entries in the row of a cell. */
  function CellLength(layers: nat, rows: nat, cols: nat, n: nat, i: nat, j: nat): nat {
    1 + One(n > 0) + One(n + 1 < layers) + if n + 2 >= layers then 4
      else 4 - One(OnEdge(i, rows)) - One(OnEdge(j, cols))
  }

  lemma CellOrderLeads(g: Grid, n: nat, i: nat, j: nat)
    requires Sound(g) && IsNode(g, Cell(n, i, j)) && g.rows >= 2 && g.cols >= 2
    ensures Leads(Cell(n, i, j), CellOrder(g, n, i, j))
    ensures Size(CellOrder(g, n, i, j)) + 1 == CellLength(|g.layers|, g.rows, g.cols, n, i, j)
  {
    LateralLeads(g, n, i, j);
    LateralSize(g, n, i, j);
    MoreLeads(g, n, i, j);
    PartsLead(n, i, j, LateralOrder(g, n, i, j), LinkBelow(g, n, i, j), LinkAbove(g, n, i, j), MoreOrder(g, n, i, j));
  }

  // ---------- package nodes ----------

  lemma {:induction false} SideLinksAt(g: Grid, n: nat, side: nat, c: real, m: nat)
    requires g.rows >= 1 && g.cols >= 1
    ensures |SideLinks(g, n, side, c, m)| == m
    ensures forall p :: 0 <= p < m ==> SideLinks(g, n, side, c, m)[p] == Link(From(BorderCell(g, n, side, p)), c)
  {
    if m > 0 {
      SideLinksAt(g, n, side, c, m - 1);
    }
  }

  /** Different cells of one layer. */
  ghost predicate Cells(n: nat, ls: seq<Link>) {
    && (forall p :: 0 <= p < |ls| ==> ls[p].src.From? && ls[p].src.node.Cell? && ls[p].src.node.n == n)
    && (forall p, q :: 0 <= p < q < |ls| ==> ls[p].src.node != ls[q].src.node)
  }

  lemma SideLinksDiffer(g: Grid, n: nat, side: nat, c: real, m: nat)
    requires g.rows >= 1 && g.cols >= 1
    ensures Cells(n, SideLinks(g, n, side, c, m))
  {
    SideLinksAt(g, n, side, c, m);
  }

  lemma CellsLead(k: nat, n: nat, ls: seq<Link>)
    requires Cells(n, ls)
    ensures Leads(Extra(k), ls) && Size(ls) == |ls| && InLayer(n, ls)
  {
    AllFrom(ls);
  }

  lemma AlongLeads(g: Grid, k: nat, n: nat, side: nat, c: real, m: nat)
    requires g.rows >= 1 && g.cols >= 1
    ensures var ls := SideLinks(g, n, side, c, m); Leads(Extra(k), ls) && Size(ls) == m && InLayer(n, ls)
  {
    SideLinksAt(g, n, side, c, m);
    SideLinksDiffer(g, n, side, c, m);
    CellsLead(k, n, SideLinks(g, n, side, c, m));
  }

  function ExtraLength(g: Grid, k: nat): nat {
    if k < SINK_C then SideLength(g, k) + 2 else if k < SINK then SideLength(g, k - SINK_C) + 3 else 2
  }

  lemma NodeLast(k: nat, ls: seq<Link>, n: nat, b: nat, c: real)
    requires Leads(Extra(k), ls) && InLayer(n, ls) && b != k
    ensures Leads(Extra(k), ls + [Link(From(Extra(b)), c)]) && Size(ls + [Link(From(Extra(b)), c)]) == Size(ls) + 1
  {
    assert (ls + [Link(From(Extra(b)), c)])[..|ls|] == ls;
  }

  lemma ThreeLast(k: nat, ls: seq<Link>, n: nat, c: real, d: real, e: real)
    requires k >= 4 && Leads(Extra(k), ls) && InLayer(n, ls)
    ensures var all := ls + [Link(From(Extra(k - 4)), c), Link(From(Extra(k + 4)), d), Link(Ambient, e)];
            Leads(Extra(k), all) && Size(all) == Size(ls) + 2
  {
    var three := [Link(From(Extra(k - 4)), c), Link(From(Extra(k + 4)), d), Link(Ambient, e)];
    SizeConcat(ls, three);
    assert Size(three) == 2 by {
      AllFrom(three[..2]);
    }
    LeadsConcat(Extra(k), ls, three);
  }

  lemma TwoLead(k: nat, c: real, d: real)
    requires k >= 4
    ensures var all := [Link(From(Extra(k - 4)), c), Link(Ambient, d)]; Leads(Extra(k), all) && Size(all) == 1
  {
    var all := [Link(From(Extra(k - 4)), c), Link(Ambient, d)];
    assert all[..1] == [Link(From(Extra(k - 4)), c)];
    assert Size(all[..1]) == 1 by {
      AllFrom(all[..1]);
    }
  }

  lemma SpreaderLeads(g: Grid, k: nat)
    requires Sound(g) && k < SINK_C
    ensures Leads(Extra(k), ExtraOrder(g, k)) && Size(ExtraOrder(g, k)) + 1 == ExtraLength(g, k)
  {
    AlongLeads(g, k, |g.layers| - 2, k, BorderC(g, false, k), SideLength(g, k));
    NodeLast(k, AllAlong(g, false, k), |g.layers| - 2, k + 4, Per(AxisOf(g, k).rSpPer));
  }

  lemma InnerSinkLeads(g: Grid, k: nat)
    requires Sound(g) && SINK_C <= k < SINK
    ensures Leads(Extra(k), ExtraOrder(g, k)) && Size(ExtraOrder(g, k)) + 1 == ExtraLength(g, k)
  {
    var side := k - SINK_C;
    AlongLeads(g, k, |g.layers| - 1, side, BorderC(g, true, side), SideLength(g, side));
    ThreeLast(k, AllAlong(g, true, side), |g.layers| - 1, Per(AxisOf(g, side).rSpPer), Per(SinkLink(g, side)),
              Per(AxisOf(g, side).rInnerAmb));
  }

  lemma ExtraOrderLeads(g: Grid, k: nat)
    requires Sound(g) && k < EXTRA
    ensures Leads(Extra(k), ExtraOrder(g, k)) && Size(ExtraOrder(g, k)) + 1 == ExtraLength(g, k)
  {
    if k < SINK_C {
      SpreaderLeads(g, k);
    } else if k < SINK {
      InnerSinkLeads(g, k);
    } else {
      TwoLead(k, Per(SinkLink(g, k - SINK)), Per(g.pack.rOuterAmb));
    }
  }

  // ---------- the rows of the matrix ----------

  ghost function LengthOf(g: Grid): Node -> nat {
    (a: Node) => if a.Cell? then CellLength(|g.layers|, g.rows, g.cols, a.n, a.i, a.j) else ExtraLength(g, a.k)
  }

  ghost function RowsOf(g: Grid): Rows {
    (a: Node, es: seq<Entry>) => IsRow(g, a, es)
  }

  lemma RowsOfGrid(g: Grid)
    ensures Rowed(g, RowsOf(g), LengthOf(g))
  {
    forall a, es | IsRow(g, a, es)
      ensures GoodRow(a, es, LengthOf(g)(a))
    {
      if a.Cell? {
        CellOrderLeads(g, a.n, a.i, a.j);
      } else {
        ExtraOrderLeads(g, a.k);
      }
      GoodRowFrom(a, OrderOf(g, a), LengthOf(g)(a));
    }
  }
}
