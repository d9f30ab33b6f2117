/** The sparse matrix of the steady state as a list of entries, row by row. */
module GridMatrix {
  import opened GridNetwork

  datatype Entry = Entry(row: Node, col: Node, val: real)

  // ---------- a row from a list of links ----------

  /** Off-diagonal entries: minus the conductance for every link to a node. */
  function OffDiagonal(a: Node, ls: seq<Link>): seq<Entry> {
    if ls == [] then []
    else OffDiagonal(a, ls[..|ls| - 1]) + OffEntry(a, ls[|ls| - 1])
  }

  function OffEntry(a: Node, l: Link): seq<Entry> {
    if l.src.From? then [Entry(a, l.src.node, -l.c)] else []
  }

  /** The row of node a when its links are taken in the given order. */
  function Row(a: Node, ls: seq<Link>): seq<Entry> {
    OffDiagonal(a, ls) + [Entry(a, a, SumG(ls))]
  }

  /** Row times field. */
  function Dot(es: seq<Entry>, t: Field): real {
    if es == [] then 0.0 else Dot(es[..|es| - 1], t) + es[|es| - 1].val * t(es[|es| - 1].col)
  }

  lemma DotLast(es: seq<Entry>, e: Entry, t: Field)
    ensures Dot(es + [e], t) == Dot(es, t) + e.val * t(e.col)
  {
    assert (es + [e])[..|es|] == es;
  }

  /** What ambient contributes over the links to it. */
  function SumAmbient(g: Grid, ls: seq<Link>): real {
    if ls == [] then 0.0
    else SumAmbient(g, ls[..|ls| - 1]) + if ls[|ls| - 1].src.Ambient? then ls[|ls| - 1].c * g.ambient else 0.0
  }

  // ---------- sums over links, by any measure ----------

  type Measure = Link -> real

  function Total(f: Measure, ls: seq<Link>): real {
    if ls == [] then 0.0 else Total(f, ls[..|ls| - 1]) + f(ls[|ls| - 1])
  }

  lemma {:induction false} FlowTotal(g: Grid, t: Field, ls: seq<Link>, x: real, f: Measure)
    requires forall l :: f(l) == l.c * (Temp(g, t, l.src) - x)
    ensures SumP(g, t, ls, x) == Total(f, ls)
    decreases |ls|
  {
    if ls != [] {
      FlowTotal(g, t, ls[..|ls| - 1], x, f);
    }
  }

  lemma {:induction false} AmbientTotal(g: Grid, ls: seq<Link>, f: Measure)
    requires forall l: Link :: f(l) == if l.src.Ambient? then l.c * g.ambient else 0.0
    ensures SumAmbient(g, ls) == Total(f, ls)
    decreases |ls|
  {
    if ls != [] {
      AmbientTotal(g, ls[..|ls| - 1], f);
    }
  }

  lemma Distribute(x: real, s: real, c: real)
    ensures x * (s + c) == x * s + x * c
  {
  }

  lemma {:induction false} OwnTotal(ls: seq<Link>, x: real, f: Measure)
    requires forall l :: f(l) == x * l.c
    ensures x * SumG(ls) == Total(f, ls)
    decreases |ls|
  {
    if ls != [] {
      OwnTotal(ls[..|ls| - 1], x, f);
      Distribute(x, SumG(ls[..|ls| - 1]), ls[|ls| - 1].c);
    }
  }

  lemma {:induction false} OffTotal(a: Node, t: Field, ls: seq<Link>, f: Measure)
    requires forall l: Link :: f(l) == if l.src.From? then -l.c * t(l.src.node) else 0.0
    ensures Dot(OffDiagonal(a, ls), t) == Total(f, ls)
    decreases |ls|
  {
    if ls != [] {
      var rest, l := ls[..|ls| - 1], ls[|ls| - 1];
      OffTotal(a, t, rest, f);
      if l.src.From? {
        DotLast(OffDiagonal(a, rest), Entry(a, l.src.node, -l.c), t);
      } else {
        assert OffDiagonal(a, rest) + [] == OffDiagonal(a, rest);
      }
    }
  }

  ghost predicate AddUp(off: Measure, own: Measure, flow: Measure, amb: Measure) {
    forall l :: off(l) + own(l) + flow(l) == amb(l)
  }

  lemma {:induction false} TotalsAddUp(off: Measure, own: Measure, flow: Measure, amb: Measure, ls: seq<Link>)
    requires AddUp(off, own, flow, amb)
    ensures Total(off, ls) + Total(own, ls) + Total(flow, ls) == Total(amb, ls)
    decreases |ls|
  {
    if ls != [] {
      TotalsAddUp(off, own, flow, amb, ls[..|ls| - 1]);
    }
  }

  lemma LinkAddsUp(c: real, x: real, y: real)
    ensures -c * y + x * c + c * (y - x) == 0.0 && x * c + c * (y - x) == c * y
  {
  }

  lemma MeasuresAddUp(g: Grid, t: Field, x: real, off: Measure, own: Measure, flow: Measure, amb: Measure)
    requires forall l: Link :: off(l) == if l.src.From? then -l.c * t(l.src.node) else 0.0
    requires forall l :: own(l) == x * l.c
    requires forall l :: flow(l) == l.c * (Temp(g, t, l.src) - x)
    requires forall l: Link :: amb(l) == if l.src.Ambient? then l.c * g.ambient else 0.0
    ensures AddUp(off, own, flow, amb)
  {
    forall l
      ensures off(l) + own(l) + flow(l) == amb(l)
    {
      LinkAddsUp(l.c, x, Temp(g, t, l.src));
    }
  }

  lemma TotalsBalance(off: Measure, own: Measure, flow: Measure, amb: Measure, ls: seq<Link>, dot: real, power: real)
    requires AddUp(off, own, flow, amb) && dot == Total(off, ls) + Total(own, ls)
    ensures dot == power + Total(amb, ls) <==> power + Total(flow, ls) == 0.0
  {
    TotalsAddUp(off, own, flow, amb, ls);
  }

  lemma RowDot(a: Node, t: Field, ls: seq<Link>, x: real, off: Measure, own: Measure)
    requires x == t(a) && Dot(OffDiagonal(a, ls), t) == Total(off, ls) && x * SumG(ls) == Total(own, ls)
    ensures Dot(Row(a, ls), t) == Total(off, ls) + Total(own, ls)
  {
    DotLast(OffDiagonal(a, ls), Entry(a, a, SumG(ls)), t);
  }

  /** The row of a node gives the right-hand side exactly when the node is balanced. */
  lemma RowBalanced(g: Grid, a: Node, t: Field, ls: seq<Link>, power: real, x: real)
    requires x == t(a)
    ensures Dot(Row(a, ls), t) == power + SumAmbient(g, ls) <==> power + SumP(g, t, ls, x) == 0.0
  {
    var off: Measure := (l: Link) => if l.src.From? then -l.c * t(l.src.node) else 0.0;
    var own: Measure := (l: Link) => x * l.c;
    var flow: Measure := (l: Link) => l.c * (Temp(g, t, l.src) - x);
    var amb: Measure := (l: Link) => if l.src.Ambient? then l.c * g.ambient else 0.0;
    OffTotal(a, t, ls, off);
    OwnTotal(ls, x, own);
    RowDot(a, t, ls, x, off, own);
    FlowTotal(g, t, ls, x, flow);
    AmbientTotal(g, ls, amb);
    MeasuresAddUp(g, t, x, off, own, flow, amb);
    TotalsBalance(off, own, flow, amb, ls, Dot(Row(a, ls), t), power);
  }

  // ---------- the order of the links does not matter ----------

  lemma {:induction false} TotalConcat(f: Measure, a: seq<Link>, b: seq<Link>)
    ensures Total(f, a + b) == Total(f, a) + Total(f, b)
    decreases |b|
  {
    if b == [] {
      assert a + b == a;
    } else {
      TotalConcat(f, a, b[..|b| - 1]);
      assert (a + b)[..|a + b| - 1] == a + b[..|b| - 1];
    }
  }

  lemma TotalMoved(f: Measure, ls: seq<Link>, k: nat)
    requires k < |ls|
    ensures Total(f, ls) == Total(f, ls[..k] + ls[k + 1..]) + f(ls[k])
  {
    var a, b := ls[..k], ls[k + 1..];
    assert ls == ls[..k + 1] + b && ls[..k + 1][..k] == a;
    TotalConcat(f, ls[..k + 1], b);
    TotalConcat(f, a, b);
  }

  lemma RemoveOne<T>(s: seq<T>, k: nat)
    requires k < |s|
    ensures multiset(s[..k] + s[k + 1..]) == multiset(s) - multiset{s[k]}
  {
    assert s == s[..k] + [s[k]] + s[k + 1..];
  }

  /** The last element of a, found in b; without it both still hold the same elements. */
  lemma Matching<T>(a: seq<T>, b: seq<T>) returns (k: nat)
    requires multiset(a) == multiset(b) && a != []
    ensures k < |b| && b[k] == a[|a| - 1] && multiset(a[..|a| - 1]) == multiset(b[..k] + b[k + 1..])
  {
    var n := |a| - 1;
    assert a[n] in multiset(a);
    assert a[n] in b;
    k :| 0 <= k < |b| && b[k] == a[n];
    RemoveOne(a, n);
    RemoveOne(b, k);
    assert a[..n] + a[n + 1..] == a[..n];
  }

  lemma {:induction false} TotalPermuted(f: Measure, a: seq<Link>, b: seq<Link>)
    requires multiset(a) == multiset(b)
    ensures Total(f, a) == Total(f, b)
    decreases |a|
  {
    if a == [] {
      assert |multiset(b)| == 0;
      assert b == [];
    } else {
      var k := Matching(a, b);
      TotalPermuted(f, a[..|a| - 1], b[..k] + b[k + 1..]);
      TotalMoved(f, b, k);
    }
  }

  /** Two lists of the same links balance a node alike. */
  lemma FlowsPermuted(g: Grid, t: Field, a: seq<Link>, b: seq<Link>, x: real)
    requires multiset(a) == multiset(b)
    ensures SumP(g, t, a, x) == SumP(g, t, b, x)
  {
    var flow: Measure := (l: Link) => l.c * (Temp(g, t, l.src) - x);
    FlowTotal(g, t, a, x, flow);
    FlowTotal(g, t, b, x, flow);
    TotalPermuted(flow, a, b);
  }

  // ---------- the order in which the builder takes the links ----------

  /** Corners, edges and inner cells each have their own order. */
  function LateralOrder(g: Grid, n: nat, i: nat, j: nat): seq<Link>
    requires n < |g.layers|
  {
    var north, south, east, west :=
      NorthLink(g, n, i, j), SouthLink(g, n, i, j), EastLink(g, n, i, j), WestLink(g, n, i, j);
    if i == 0 && j == 0 then east + south
    else if i == 0 && j == g.cols - 1 then west + south
    else if i == g.rows - 1 && j == 0 then east + north
    else if i == g.rows - 1 && j == g.cols - 1 then west + north
    else if i == 0 then west + east + south
    else if i == g.rows - 1 then west + east + north
    else if j == 0 then north + south + east
    else if j == g.cols - 1 then north + south + west
    else north + south + west + east
  }

  lemma LateralOrderSame(g: Grid, n: nat, i: nat, j: nat)
    requires n < |g.layers| && i < g.rows && j < g.cols && g.rows >= 2 && g.cols >= 2
    ensures multiset(LateralOrder(g, n, i, j))
            == multiset(NorthLink(g, n, i, j) + SouthLink(g, n, i, j) + EastLink(g, n, i, j) + WestLink(g, n, i, j))
  {
  }

  function RowSide(rows: nat, k: nat, cn: real, cs: real, i: nat): seq<Link> {
    if i == 0 then [Link(From(Extra(k + NORTH)), cn)] else if i == rows - 1 then [Link(From(Extra(k + SOUTH)), cs)]
      else []
  }

  function ColSide(cols: nat, k: nat, ce: real, cw: real, j: nat): seq<Link> {
    if j == 0 then [Link(From(Extra(k + WEST)), cw)] else if j == cols - 1 then [Link(From(Extra(k + EAST)), ce)]
      else []
  }

  /** North or south before west or east. */
  function SideOrder(rows: nat, cols: nat, k: nat, cn: real, cs: real, ce: real, cw: real, i: nat, j: nat): seq<Link> {
    RowSide(rows, k, cn, cs, i) + ColSide(cols, k, ce, cw, j)
  }

  lemma SideOrderSame(rows: nat, cols: nat, k: nat, cn: real, cs: real, ce: real, cw: real, i: nat, j: nat)
    requires rows >= 2 && cols >= 2 && i < rows && j < cols
    ensures multiset(SideOrder(rows, cols, k, cn, cs, ce, cw, i, j)) ==
            multiset(SideNodes(rows, cols, k, cn, cs, ce, cw, i, j))
  {
  }

  function BorderOrder(g: Grid, sink: bool, i: nat, j: nat): seq<Link>
    requires Sound(g)
  {
    SideOrder(g.rows, g.cols, if sink then SINK_C else SP, BorderC(g, sink, NORTH), BorderC(g, sink, SOUTH),
              BorderC(g, sink, EAST), BorderC(g, sink, WEST), i, j)
  }

  function MoreOrder(g: Grid, n: nat, i: nat, j: nat): seq<Link>
    requires Sound(g) && n < |g.layers|
  {
    if n == |g.layers| - 2 then BorderOrder(g, false, i, j)
    else if n == |g.layers| - 1 then BorderOrder(g, true, i, j) + [Link(Ambient, Per(g.layers[n].rz))]
    else []
  }

  function CellOrder(g: Grid, n: nat, i: nat, j: nat): seq<Link>
    requires Sound(g) && n < |g.layers|
  {
    LateralOrder(g, n, i, j) + LinkBelow(g, n, i, j) + LinkAbove(g, n, i, j) + MoreOrder(g, n, i, j)
  }

  lemma MoreOrderSame(g: Grid, n: nat, i: nat, j: nat)
    requires Sound(g) && IsNode(g, Cell(n, i, j)) && g.rows >= 2 && g.cols >= 2
    ensures multiset(MoreOrder(g, n, i, j)) == multiset(MoreLinks(g, n, i, j))
  {
    var sink := n == |g.layers| - 1;
    SideOrderSame(g.rows, g.cols, if sink then SINK_C else SP, BorderC(g, sink, NORTH), BorderC(g, sink, SOUTH),
                  BorderC(g, sink, EAST), BorderC(g, sink, WEST), i, j);
  }

  lemma CellOrderSame(g: Grid, n: nat, i: nat, j: nat)
    requires Sound(g) && IsNode(g, Cell(n, i, j)) && g.rows >= 2 && g.cols >= 2
    ensures multiset(CellOrder(g, n, i, j)) == multiset(LinksOfCell(g, n, i, j))
  {
    LateralOrderSame(g, n, i, j);
    MoreOrderSame(g, n, i, j);
  }

  function ExtraOrder(g: Grid, k: nat): seq<Link>
    requires Sound(g) && k < EXTRA
  {
    if k < SINK_C then AllAlong(g, false, k) + [Link(From(Extra(k + 4)), Per(AxisOf(g, k).rSpPer))]
    else if k < SINK then
      var side := k - SINK_C;
      AllAlong(g, true, side)
      + [Link(From(Extra(k - 4)), Per(AxisOf(g, side).rSpPer)), Link(From(Extra(k + 4)), Per(SinkLink(g, side))),
         Link(Ambient, Per(AxisOf(g, side).rInnerAmb))]
    else [Link(From(Extra(k - 4)), Per(SinkLink(g, k - SINK))), Link(Ambient, Per(g.pack.rOuterAmb))]
  }

  lemma Exchanged(a: Link, b: Link)
    ensures multiset([a, b]) == multiset([b, a])
  {
  }

  lemma Rotated(ls: seq<Link>, a: Link, b: Link, c: Link, xs: seq<Link>, ys: seq<Link>)
    requires xs == ls + [b, c, a] && ys == ls + [a, b, c]
    ensures multiset(xs) == multiset(ys)
  {
  }

  lemma InnerOrderSame(g: Grid, k: nat)
    requires Sound(g) && SINK_C <= k < SINK
    ensures multiset(ExtraOrder(g, k)) == multiset(LinksOfExtra(g, k))
  {
    var side := k - SINK_C;
    var ambient := Link(Ambient, Per(AxisOf(g, side).rInnerAmb));
    var below := Link(From(Extra(k - 4)), Per(AxisOf(g, side).rSpPer));
    var outer := Link(From(Extra(k + 4)), Per(SinkLink(g, side)));
    Rotated(AllAlong(g, true, side), ambient, below, outer, ExtraOrder(g, k), LinksOfExtra(g, k));
  }

  lemma ExtraOrderSame(g: Grid, k: nat)
    requires Sound(g) && k < EXTRA
    ensures multiset(ExtraOrder(g, k)) == multiset(LinksOfExtra(g, k))
  {
    if SINK_C <= k < SINK {
      InnerOrderSame(g, k);
    } else if SINK <= k {
      Exchanged(Link(From(Extra(k - 4)), Per(SinkLink(g, k - SINK))), Link(Ambient, Per(g.pack.rOuterAmb)));
    }
  }

  function OrderOf(g: Grid, a: Node): seq<Link>
    requires Sound(g) && IsNode(g, a)
  {
    if a.Cell? then CellOrder(g, a.n, a.i, a.j) else ExtraOrder(g, a.k)
  }

  /** Both sides of a node's equation: its row applied to the field, and power with what
      ambient contributes. They agree exactly when the node is balanced. */
  lemma MatrixRowBalanced(g: Grid, t: Field, power: Field, a: Node)
    requires Sound(g) && IsNode(g, a) && g.rows >= 2 && g.cols >= 2
    ensures Dot(Row(a, OrderOf(g, a)), t) == power(a) + SumAmbient(g, OrderOf(g, a)) <==>
              Balanced(g, NetOf(g), t, power, a)
  {
    if a.Cell? {
      CellOrderSame(g, a.n, a.i, a.j);
    } else {
      ExtraOrderSame(g, a.k);
    }
    FlowsPermuted(g, t, OrderOf(g, a), LinksOf(g, a), t(a));
    RowBalanced(g, a, t, OrderOf(g, a), power(a), t(a));
  }
}
