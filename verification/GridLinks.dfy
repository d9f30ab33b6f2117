/** What the links of the grid are: one conductance between each two nodes, the same from both ends,
    and the cells along a side in parallel behind the package. */
module GridLinks {
  import opened GridNetwork
  import opened GridSweep

  // ---------- the conductance between two nodes ----------

  predicate OnSide(g: Grid, side: nat, i: nat, j: nat) {
    if side == NORTH then i == 0 else if side == SOUTH then i == g.rows - 1
    else if side == EAST then j == g.cols - 1 else j == 0
  }

  predicate NextTo(i: nat, k: nat) {
    k == i + 1 || i == k + 1
  }

  function CellToCell(g: Grid, a: Node, b: Node): real
    requires a.Cell? && b.Cell? && IsNode(g, a) && IsNode(g, b)
  {
    if a.n == b.n && a.j == b.j && NextTo(a.i, b.i) then Per(g.layers[a.n].ry)
    else if a.n == b.n && a.i == b.i && NextTo(a.j, b.j) then Per(g.layers[a.n].rx)
    else if a.i == b.i && a.j == b.j && b.n == a.n + 1 then Per(g.layers[a.n].rz)
    else if a.i == b.i && a.j == b.j && a.n == b.n + 1 then Per(g.layers[b.n].rz)
    else 0.0
  }

  /** Spreader cells on a side to its spreader node, sink cells to its inner sink node. */
  function CellToExtra(g: Grid, a: Node, k: nat): real
    requires Sound(g) && a.Cell?
  {
    if k < SINK_C && a.n == |g.layers| - 2 && OnSide(g, k, a.i, a.j) then BorderC(g, false, k)
    else if SINK_C <= k < SINK && a.n == |g.layers| - 1 && OnSide(g, k - SINK_C, a.i, a.j) then
      BorderC(g, true, k - SINK_C)
    else 0.0
  }

  /** Package node k to the next one further out. */
  function ExtraToNext(g: Grid, k: nat): real {
    if k < SINK_C then Per(AxisOf(g, k).rSpPer) else if k < SINK then Per(SinkLink(g, k - SINK_C)) else 0.0
  }

  function Between(g: Grid, a: Node, b: Node): real
    requires Sound(g) && IsNode(g, a) && IsNode(g, b)
  {
    if a.Cell? && b.Cell? then CellToCell(g, a, b)
    else if a.Cell? then CellToExtra(g, a, b.k)
    else if b.Cell? then CellToExtra(g, b, a.k)
    else if b.k == a.k + 4 then ExtraToNext(g, a.k)
    else if a.k == b.k + 4 then ExtraToNext(g, b.k)
    else 0.0
  }

  lemma BetweenIsSymmetric(g: Grid, a: Node, b: Node)
    requires Sound(g) && IsNode(g, a) && IsNode(g, b)
    ensures Between(g, a, b) == Between(g, b, a)
  {
  }

  // ---------- what leads from a node to another ----------

  /** Sum of the conductances of the links to b. */
  function SumTo(ls: seq<Link>, b: Node): real {
    if ls == [] then 0.0
    else SumTo(ls[..|ls| - 1], b) + if ls[|ls| - 1].src == From(b) then ls[|ls| - 1].c else 0.0
  }

  lemma SumToLast(ls: seq<Link>, l: Link, b: Node)
    ensures SumTo(ls + [l], b) == SumTo(ls, b) + if l.src == From(b) then l.c else 0.0
  {
    assert (ls + [l])[..|ls|] == ls;
  }

  lemma {:induction false} SumToConcat(p: seq<Link>, q: seq<Link>, b: Node)
    ensures SumTo(p + q, b) == SumTo(p, b) + SumTo(q, b)
    decreases |q|
  {
    if q == [] {
      assert p + q == p;
    } else {
      var r, l := q[..|q| - 1], q[|q| - 1];
      SumToConcat(p, r, b);
      assert p + q == (p + r) + [l] && q == r + [l];
      SumToLast(p + r, l, b);
      SumToLast(r, l, b);
    }
  }

  lemma SumToOne(l: Link, b: Node)
    ensures SumTo([l], b) == if l.src == From(b) then l.c else 0.0
  {
    SumToLast([], l, b);
    assert [] + [l] == [l];
  }

  /** Exactly one link of ls leads to b, with conductance c, or none does and c is 0. */
  ghost predicate LeadsWith(ls: seq<Link>, b: Node, c: real) {
    && SumTo(ls, b) == c && c >= 0.0
    && forall d :: Link(From(b), d) in ls <==> d == c && c > 0.0
  }

  lemma NoneLeads(b: Node)
    ensures LeadsWith([], b, 0.0)
  {
  }

  lemma OneLeads(l: Link, b: Node)
    requires l.c > 0.0
    ensures LeadsWith([l], b, if l.src == From(b) then l.c else 0.0)
  {
    SumToOne(l, b);
  }

  lemma BothLead(p: seq<Link>, q: seq<Link>, b: Node, c: real, d: real)
    requires LeadsWith(p, b, c) && LeadsWith(q, b, d) && (c == 0.0 || d == 0.0)
    ensures LeadsWith(p + q, b, c + d)
  {
    SumToConcat(p, q, b);
  }

  lemma WhenLeads(present: bool, l: Link, b: Node)
    requires l.c > 0.0
    ensures LeadsWith(When(present, l), b, if present && l.src == From(b) then l.c else 0.0)
  {
    if present {
      OneLeads(l, b);
    } else {
      NoneLeads(b);
    }
  }

  lemma FourLead(p: seq<Link>, q: seq<Link>, r: seq<Link>, s: seq<Link>, b: Node, c: real, d: real, e: real, f: real)
    requires LeadsWith(p, b, c) && LeadsWith(q, b, d) && LeadsWith(r, b, e) && LeadsWith(s, b, f)
    requires (c == 0.0 || d == 0.0) && (c + d == 0.0 || e == 0.0) && (c + d + e == 0.0 || f == 0.0)
    ensures LeadsWith(p + q + r + s, b, c + d + e + f)
  {
    BothLead(p, q, b, c, d);
    BothLead(p + q, r, b, c + d, e);
    BothLead(p + q + r, s, b, c + d + e, f);
  }

  // ---------- from a cell ----------

  /** The link to a neighbour, which is missing at the edge. */
  lemma NeighbourLeads(ls: seq<Link>, present: bool, l: Link, b: Node)
    requires l.c > 0.0 && ls == When(present, l)
    ensures LeadsWith(ls, b, if present && l.src == From(b) then l.c else 0.0)
  {
    WhenLeads(present, l, b);
  }

  /** The conductance of a link if it is there and leads to b. */
  function IfTo(present: bool, l: Link, b: Node): real {
    if present && l.src == From(b) then l.c else 0.0
  }

  /** Four possible links that lead to different nodes. */
  lemma FourPossible(p: bool, k: Link, q: bool, l: Link, r: bool, m: Link, s: bool, n: Link, b: Node, c: real)
    requires k.c > 0.0 && l.c > 0.0 && m.c > 0.0 && n.c > 0.0
    requires (p && q ==> k.src != l.src) && (p && r ==> k.src != m.src) && (p && s ==> k.src != n.src)
    requires (q && r ==> l.src != m.src) && (q && s ==> l.src != n.src) && (r && s ==> m.src != n.src)
    requires c == IfTo(p, k, b) + IfTo(q, l, b) + IfTo(r, m, b) + IfTo(s, n, b)
    ensures LeadsWith(When(p, k) + When(q, l) + When(r, m) + When(s, n), b, c)
  {
    WhenLeads(p, k, b);
    WhenLeads(q, l, b);
    WhenLeads(r, m, b);
    WhenLeads(s, n, b);
    FourLead(When(p, k), When(q, l), When(r, m), When(s, n), b, IfTo(p, k, b), IfTo(q, l, b), IfTo(r, m, b),
             IfTo(s, n, b));
  }

  lemma LateralLinksLead(g: Grid, n: nat, i: nat, j: nat, b: Node)
    requires Sound(g) && IsNode(g, Cell(n, i, j)) && IsNode(g, b)
    ensures LeadsWith(NorthLink(g, n, i, j) + SouthLink(g, n, i, j) + EastLink(g, n, i, j) + WestLink(g, n, i, j), b,
                      if b.Cell? && b.n == n then CellToCell(g, Cell(n, i, j), b) else 0.0)
  {
    var l := g.layers[n];
    assert SoundLayer(l);
    var north := if i > 0 then Cell(n, i - 1, j) else Cell(n, i, j);
    var west := if j > 0 then Cell(n, i, j - 1) else Cell(n, i, j);
    FourPossible(i > 0, Link(From(north), Per(l.ry)), i < g.rows - 1, Link(From(Cell(n, i + 1, j)), Per(l.ry)),
                 j < g.cols - 1, Link(From(Cell(n, i, j + 1)), Per(l.rx)), j > 0, Link(From(west), Per(l.rx)), b,
                 if b.Cell? && b.n == n then CellToCell(g, Cell(n, i, j), b) else 0.0);
  }

  lemma VerticalLinksLead(g: Grid, n: nat, i: nat, j: nat, b: Node)
    requires Sound(g) && IsNode(g, Cell(n, i, j)) && IsNode(g, b)
    ensures LeadsWith(LinkAbove(g, n, i, j) + LinkBelow(g, n, i, j), b,
                      if b.Cell? && b.n != n then CellToCell(g, Cell(n, i, j), b) else 0.0)
  {
    assert SoundLayer(g.layers[n]) && (n > 0 ==> SoundLayer(g.layers[n - 1]));
    var above, rz := if n > 0 then Cell(n - 1, i, j) else Cell(n, i, j), if n > 0 then g.layers[n - 1].rz else 1.0;
    NeighbourLeads(LinkAbove(g, n, i, j), n > 0, Link(From(above), Per(rz)), b);
    NeighbourLeads(LinkBelow(g, n, i, j), n < |g.layers| - 1, Link(From(Cell(n + 1, i, j)), Per(g.layers[n].rz)), b);
    BothLead(LinkAbove(g, n, i, j), LinkBelow(g, n, i, j), b, if n > 0 && above == b then Per(rz) else 0.0,
             if n < |g.layers| - 1 && Cell(n + 1, i, j) == b then Per(g.layers[n].rz) else 0.0);
  }

  lemma CellLinksLead(g: Grid, n: nat, i: nat, j: nat, b: Node)
    requires Sound(g) && IsNode(g, Cell(n, i, j)) && IsNode(g, b)
    ensures LeadsWith(CellLinks(g, n, i, j), b, if b.Cell? then CellToCell(g, Cell(n, i, j), b) else 0.0)
  {
    var p := NorthLink(g, n, i, j) + SouthLink(g, n, i, j) + EastLink(g, n, i, j) + WestLink(g, n, i, j);
    var q := LinkAbove(g, n, i, j) + LinkBelow(g, n, i, j);
    LateralLinksLead(g, n, i, j, b);
    VerticalLinksLead(g, n, i, j, b);
    BothLead(p, q, b, if b.Cell? && b.n == n then CellToCell(g, Cell(n, i, j), b) else 0.0,
             if b.Cell? && b.n != n then CellToCell(g, Cell(n, i, j), b) else 0.0);
    assert CellLinks(g, n, i, j) == p + q;
  }

  /** The conductance from a cell to b, if b is one of the four nodes k + side beside it. */
  function SideC(g: Grid, k: nat, cn: real, cs: real, ce: real, cw: real, i: nat, j: nat, b: Node): real {
    if b.Cell? || b.k < k || b.k >= k + 4 || !OnSide(g, b.k - k, i, j) then 0.0
    else if b.k - k == NORTH then cn else if b.k - k == SOUTH then cs else if b.k - k == EAST then ce else cw
  }

  lemma SideCIs(g: Grid, k: nat, cn: real, cs: real, ce: real, cw: real, i: nat, j: nat, b: Node)
    ensures SideC(g, k, cn, cs, ce, cw, i, j, b)
            == IfTo(i == 0, Link(From(Extra(k + NORTH)), cn), b)
               + IfTo(i == g.rows - 1, Link(From(Extra(k + SOUTH)), cs), b)
               + IfTo(j == g.cols - 1, Link(From(Extra(k + EAST)), ce), b)
               + IfTo(j == 0, Link(From(Extra(k + WEST)), cw), b)
  {
  }

  lemma SideNodesLead(g: Grid, k: nat, cn: real, cs: real, ce: real, cw: real, i: nat, j: nat, b: Node)
    requires cn > 0.0 && cs > 0.0 && ce > 0.0 && cw > 0.0
    ensures LeadsWith(SideNodes(g.rows, g.cols, k, cn, cs, ce, cw, i, j), b, SideC(g, k, cn, cs, ce, cw, i, j, b))
  {
    SideCIs(g, k, cn, cs, ce, cw, i, j, b);
    FourPossible(i == 0, Link(From(Extra(k + NORTH)), cn), i == g.rows - 1, Link(From(Extra(k + SOUTH)), cs),
                 j == g.cols - 1, Link(From(Extra(k + EAST)), ce), j == 0, Link(From(Extra(k + WEST)), cw), b,
                 SideC(g, k, cn, cs, ce, cw, i, j, b));
  }

  lemma BorderLinksLead(g: Grid, sink: bool, i: nat, j: nat, b: Node)
    requires Sound(g)
    ensures var k := if sink then SINK_C else SP;
            LeadsWith(BorderLinks(g, sink, i, j), b,
                      if b.Extra? && k <= b.k < k + 4 && OnSide(g, b.k - k, i, j) then BorderC(g, sink, b.k - k)
                      else 0.0)
  {
    SideNodesLead(g, if sink then SINK_C else SP, BorderC(g, sink, NORTH), BorderC(g, sink, SOUTH),
                  BorderC(g, sink, EAST), BorderC(g, sink, WEST), i, j, b);
  }

  lemma MoreLinksLead(g: Grid, n: nat, i: nat, j: nat, b: Node)
    requires Sound(g) && IsNode(g, Cell(n, i, j)) && IsNode(g, b)
    ensures LeadsWith(MoreLinks(g, n, i, j), b, if b.Extra? then CellToExtra(g, Cell(n, i, j), b.k) else 0.0)
  {
    if n == |g.layers| - 2 {
      BorderLinksLead(g, false, i, j, b);
    } else if n == |g.layers| - 1 {
      assert SoundLayer(g.layers[n]);
      BorderLinksLead(g, true, i, j, b);
      OneLeads(Link(Ambient, Per(g.layers[n].rz)), b);
      BothLead([Link(Ambient, Per(g.layers[n].rz))], BorderLinks(g, true, i, j), b, 0.0,
               if b.Extra? then CellToExtra(g, Cell(n, i, j), b.k) else 0.0);
    } else {
      NoneLeads(b);
    }
  }

  lemma LinksOfCellLead(g: Grid, n: nat, i: nat, j: nat, b: Node)
    requires Sound(g) && IsNode(g, Cell(n, i, j)) && IsNode(g, b)
    ensures LeadsWith(LinksOfCell(g, n, i, j), b, Between(g, Cell(n, i, j), b))
  {
    CellLinksLead(g, n, i, j, b);
    MoreLinksLead(g, n, i, j, b);
    BothLead(CellLinks(g, n, i, j), MoreLinks(g, n, i, j), b,
             if b.Cell? then CellToCell(g, Cell(n, i, j), b) else 0.0,
             if b.Extra? then CellToExtra(g, Cell(n, i, j), b.k) else 0.0);
  }

  // ---------- from a package node ----------

  /** Where along a side a cell lies. */
  function PlaceAlong(side: nat, b: Node): nat
    requires b.Cell?
  {
    if side == NORTH || side == SOUTH then b.j else b.i
  }

  lemma {:induction false} SideLinksLead(g: Grid, n: nat, side: nat, c: real, m: nat, b: Node)
    requires g.rows >= 1 && g.cols >= 1 && side < 4 && c > 0.0
    ensures LeadsWith(SideLinks(g, n, side, c, m), b,
                      if b.Cell? && b.n == n && OnSide(g, side, b.i, b.j) && PlaceAlong(side, b) < m then c else 0.0)
    decreases m
  {
    if m == 0 {
      NoneLeads(b);
    } else {
      SideLinksLead(g, n, side, c, m - 1, b);
      var l := Link(From(BorderCell(g, n, side, m - 1)), c);
      OneLeads(l, b);
      BothLead(SideLinks(g, n, side, c, m - 1), [l], b,
               if b.Cell? && b.n == n && OnSide(g, side, b.i, b.j) && PlaceAlong(side, b) < m - 1 then c else 0.0,
               if l.src == From(b) then c else 0.0);
    }
  }

  lemma AllAlongLeads(g: Grid, sink: bool, side: nat, b: Node)
    requires Sound(g) && side < 4 && IsNode(g, b)
    ensures LeadsWith(AllAlong(g, sink, side), b,
                      if b.Cell? then CellToExtra(g, b, if sink then SINK_C + side else side) else 0.0)
  {
    SideLinksLead(g, |g.layers| - (if sink then 1 else 2), side, BorderC(g, sink, side), SideLength(g, side), b);
  }

  lemma TwoNodesLead(p: seq<Link>, l: Link, b: Node, c: real)
    requires l.c > 0.0 && LeadsWith(p, b, c) && (c == 0.0 || l.src != From(b))
    ensures LeadsWith(p + [l], b, c + if l.src == From(b) then l.c else 0.0)
  {
    OneLeads(l, b);
    BothLead(p, [l], b, c, if l.src == From(b) then l.c else 0.0);
  }

  lemma LinksOfExtraLead(g: Grid, k: nat, b: Node)
    requires Sound(g) && k < EXTRA && IsNode(g, b)
    ensures LeadsWith(LinksOfExtra(g, k), b, Between(g, Extra(k), b))
  {
    if k < SINK_C {
      SpreaderLeads(g, k, b);
    } else if k < SINK {
      InnerSinkLeads(g, k, b);
    } else {
      OuterSinkLeads(g, k, b);
    }
  }

  lemma SpreaderLeads(g: Grid, k: nat, b: Node)
    requires Sound(g) && k < SINK_C && IsNode(g, b)
    ensures LeadsWith(LinksOfExtra(g, k), b, Between(g, Extra(k), b))
  {
    AllAlongLeads(g, false, k, b);
    TwoNodesLead(AllAlong(g, false, k), Link(From(Extra(k + 4)), Per(AxisOf(g, k).rSpPer)), b,
                 if b.Cell? then CellToExtra(g, b, k) else 0.0);
  }

  lemma OuterSinkLeads(g: Grid, k: nat, b: Node)
    requires Sound(g) && SINK <= k < EXTRA && IsNode(g, b)
    ensures LeadsWith(LinksOfExtra(g, k), b, Between(g, Extra(k), b))
  {
    var a, o := Link(Ambient, Per(g.pack.rOuterAmb)), Link(From(Extra(k - 4)), Per(SinkLink(g, k - SINK)));
    OneLeads(a, b);
    TwoNodesLead([a], o, b, 0.0);
    assert [a] + [o] == LinksOfExtra(g, k);
  }

  lemma InnerSinkLeads(g: Grid, k: nat, b: Node)
    requires Sound(g) && SINK_C <= k < SINK && IsNode(g, b)
    ensures LeadsWith(LinksOfExtra(g, k), b, Between(g, Extra(k), b))
  {
    var side, ls := k - SINK_C, AllAlong(g, true, k - SINK_C);
    AllAlongLeads(g, true, side, b);
    var a := Link(Ambient, Per(AxisOf(g, side).rInnerAmb));
    var i, o := Link(From(Extra(k - 4)), Per(AxisOf(g, side).rSpPer)), Link(From(Extra(k + 4)), Per(SinkLink(g, side)));
    var c := if b.Cell? then CellToExtra(g, b, k) else 0.0;
    var d := if b == Extra(k - 4) then i.c else 0.0;
    TwoNodesLead(ls, a, b, c);
    TwoNodesLead(ls + [a], i, b, c);
    TwoNodesLead(ls + [a] + [i], o, b, c + d);
    assert ls + [a] + [i] + [o] == LinksOfExtra(g, k);
  }

  // ---------- both ends ----------

  /** From each node to each other at most one link leads, with the conductance between them. */
  lemma LinksLead(g: Grid, a: Node, b: Node)
    requires Sound(g) && IsNode(g, a) && IsNode(g, b)
    ensures LeadsWith(LinksOf(g, a), b, Between(g, a, b))
  {
    if a.Cell? {
      LinksOfCellLead(g, a.n, a.i, a.j, b);
    } else {
      LinksOfExtraLead(g, a.k, b);
    }
  }

  /** Links are mutual: what leads from a to b leads back with the same conductance. */
  lemma MutualLinks(g: Grid, a: Node, b: Node, c: real)
    requires Sound(g) && IsNode(g, a) && IsNode(g, b)
    ensures Link(From(b), c) in LinksOf(g, a) <==> Link(From(a), c) in LinksOf(g, b)
  {
    LinksLead(g, a, b);
    LinksLead(g, b, a);
    BetweenIsSymmetric(g, a, b);
  }

  // ---------- the cells along a side ----------

  /** count equal ways side by side, each of a half cell and its share of the package: together
      they conduct like all the halves in parallel, and behind them the whole of the package. */
  ghost predicate InParallel(total: real, half: real, count: nat, r1: real) {
    count > 0 && total * (half / count as real + r1) == 1.0
  }

  lemma CountInParallel(half: real, count: nat, r1: real, c: real, total: real)
    requires half > 0.0 && count >= 1 && r1 > 0.0
    requires c * (half + count as real * r1) == 1.0 && total == c * count as real
    ensures InParallel(total, half, count, r1)
  {
    var m := count as real;
    assert m * (half / m + r1) == half + m * r1;
    assert c * m * (half / m + r1) == c * (m * (half / m + r1));
  }

  /** The conductance of one way from a side's cells to its package node. */
  lemma BorderConducts(g: Grid, sink: bool, side: nat)
    requires Sound(g) && side < 4
    ensures BorderC(g, sink, side) * BorderR(g, sink, side) == 1.0
  {
  }

  lemma AlongTotal(g: Grid, sink: bool, side: nat)
    requires Sound(g) && side < 4
    ensures SumG(AllAlong(g, sink, side)) == BorderC(g, sink, side) * SideLength(g, side) as real
  {
    SideCount(g, |g.layers| - (if sink then 1 else 2), side, BorderC(g, sink, side), SideLength(g, side));
  }

  /** The way from a side's cells to its package node, for the spreader and for the sink. */
  lemma SideInParallel(g: Grid, sink: bool, side: nat)
    requires Sound(g) && side < 4
    ensures var l, total := g.layers[|g.layers| - (if sink then 1 else 2)], SumG(AllAlong(g, sink, side));
            if side == WEST || side == EAST
            then InParallel(total, l.rx / 2.0, g.rows, if sink then g.pack.x.rHs1 else g.pack.x.rSp1)
            else InParallel(total, l.ry / 2.0, g.cols, if sink then g.pack.y.rHs1 else g.pack.y.rSp1)
  {
    if side == WEST || side == EAST {
      EastWestInParallel(g, sink, side);
    } else {
      NorthSouthInParallel(g, sink, side);
    }
  }

  lemma EastWestInParallel(g: Grid, sink: bool, side: nat)
    requires Sound(g) && (side == WEST || side == EAST)
    ensures InParallel(SumG(AllAlong(g, sink, side)), g.layers[|g.layers| - (if sink then 1 else 2)].rx / 2.0, g.rows,
                       if sink then g.pack.x.rHs1 else g.pack.x.rSp1)
  {
    var l := g.layers[|g.layers| - (if sink then 1 else 2)];
    assert SoundLayer(l);
    AlongTotal(g, sink, side);
    BorderConducts(g, sink, side);
    OneSide(BorderC(g, sink, side), BorderR(g, sink, side), SumG(AllAlong(g, sink, side)), g.rows, l.rx,
            if sink then g.pack.x.rHs1 else g.pack.x.rSp1);
  }

  lemma NorthSouthInParallel(g: Grid, sink: bool, side: nat)
    requires Sound(g) && (side == NORTH || side == SOUTH)
    ensures InParallel(SumG(AllAlong(g, sink, side)), g.layers[|g.layers| - (if sink then 1 else 2)].ry / 2.0, g.cols,
                       if sink then g.pack.y.rHs1 else g.pack.y.rSp1)
  {
    var l := g.layers[|g.layers| - (if sink then 1 else 2)];
    assert SoundLayer(l);
    AlongTotal(g, sink, side);
    BorderConducts(g, sink, side);
    OneSide(BorderC(g, sink, side), BorderR(g, sink, side), SumG(AllAlong(g, sink, side)), g.cols, l.ry,
            if sink then g.pack.y.rHs1 else g.pack.y.rSp1);
  }

  lemma OneSide(c: real, r: real, total: real, count: nat, across: real, r1: real)
    requires across > 0.0 && r1 > 0.0 && count >= 1 && r == across / 2.0 + count as real * r1
    requires c * r == 1.0 && total == c * count as real
    ensures InParallel(total, across / 2.0, count, r1)
  {
    CountInParallel(across / 2.0, count, r1, c, total);
  }

  /** A layer's links to the east and to the south conduct over rx and ry. */
  lemma LateralResistance(g: Grid, n: nat, i: nat, j: nat)
    requires Sound(g) && IsNode(g, Cell(n, i, j))
    ensures j < g.cols - 1 ==> |EastLink(g, n, i, j)| == 1 && EastLink(g, n, i, j)[0].c * g.layers[n].rx == 1.0
    ensures i < g.rows - 1 ==> |SouthLink(g, n, i, j)| == 1 && SouthLink(g, n, i, j)[0].c * g.layers[n].ry == 1.0
  {
    assert SoundLayer(g.layers[n]);
  }
}
