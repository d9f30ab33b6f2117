/** The grid of a tiling floorplan: when its cells tile the units, and that they keep the power. */
module GridTilings {
  import opened Tilings
  import opened Extents
  import opened Adjacency
  import opened SortedLines
  import opened GridLines
  import opened GridPositions
  import opened GridFloorplan

  // ---------- blocks of cells ----------

  function CellsOf(xs: seq<real>, ys: seq<real>, ps: seq<Pos>): (r: seq<Rect>)
    requires forall i :: 0 <= i < |ps| ==> ps[i].a + 1 < |xs| && ps[i].b + 1 < |ys|
    ensures |r| == |ps| && forall i :: 0 <= i < |ps| ==> r[i] == CellAt(xs, ys, ps[i])
  {
    seq(|ps|, i requires 0 <= i < |ps| => CellAt(xs, ys, ps[i]))
  }

  /** The rectangle between lines. */
  function Between(xs: seq<real>, ys: seq<real>, x0: nat, x1: nat, y0: nat, y1: nat): Rect
    requires x0 < |xs| && x1 < |xs| && y0 < |ys| && y1 < |ys|
  {
    Rect(xs[x0], ys[y0], xs[x1] - xs[x0], ys[y1] - ys[y0])
  }

  lemma AboveTiles(rs: seq<Rect>, r: Rect, top: Rect)
    requires Tiles(rs, r) && NonNegative(r) && NonNegative(top)
    requires top.leftx == r.leftx && top.width == r.width && top.bottomy == r.bottomy + r.height
    ensures Tiles(rs + [top], Rect(r.leftx, r.bottomy, r.width, r.height + top.height))
  {
    var all, box := rs + [top], Rect(r.leftx, r.bottomy, r.width, r.height + top.height);
    forall px, py
      ensures Cover(all, px, py) == Indicator(box, px, py)
    {
      CoverLast(rs, top, px, py);
      assert Cover(rs, px, py) == Indicator(r, px, py);
    }
    CoverLast(rs, top, 0.0, 0.0);
  }

  lemma BesideTiles(a: seq<Rect>, r: Rect, b: seq<Rect>, q: Rect)
    requires Tiles(a, r) && Tiles(b, q) && NonNegative(r) && NonNegative(q)
    requires q.bottomy == r.bottomy && q.height == r.height && q.leftx == r.leftx + r.width
    ensures Tiles(a + b, Rect(r.leftx, r.bottomy, r.width + q.width, r.height))
  {
    var box := Rect(r.leftx, r.bottomy, r.width + q.width, r.height);
    forall px, py
      ensures Cover(a + b, px, py) == Indicator(box, px, py)
    {
      CoverConcat(a, b, px, py);
      assert Cover(a, px, py) == Indicator(r, px, py) && Cover(b, px, py) == Indicator(q, px, py);
    }
    CoverConcat(a, b, 0.0, 0.0);
    SumOfAreas(r, q);
  }

  lemma SumOfAreas(r: Rect, q: Rect)
    requires q.height == r.height
    ensures AreaOf(Rect(r.leftx, r.bottomy, r.width + q.width, r.height)) == AreaOf(r) + AreaOf(q)
  {
  }

  lemma EmptyTiles(r: Rect)
    requires r.width == 0.0 || r.height == 0.0
    ensures Tiles([], r)
  {
  }

  lemma CellsOfConcat(xs: seq<real>, ys: seq<real>, ps: seq<Pos>, qs: seq<Pos>)
    requires forall i :: 0 <= i < |ps| ==> ps[i].a + 1 < |xs| && ps[i].b + 1 < |ys|
    requires forall i :: 0 <= i < |qs| ==> qs[i].a + 1 < |xs| && qs[i].b + 1 < |ys|
    ensures CellsOf(xs, ys, ps + qs) == CellsOf(xs, ys, ps) + CellsOf(xs, ys, qs)
  {
  }

  lemma ColumnGrows(xs: seq<real>, ys: seq<real>, a: nat, y0: nat, y: nat, below: seq<Rect>, cells: seq<Rect>)
    requires a + 1 < |xs| && y0 <= y && y + 1 < |ys|
    requires below == CellsOf(xs, ys, Column(a, y0, y)) && cells == CellsOf(xs, ys, Column(a, y0, y + 1))
    ensures cells == below + [CellAt(xs, ys, Pos(a, y))]
  {
    assert Column(a, y0, y + 1) == Column(a, y0, y) + [Pos(a, y)];
    CellsOfConcat(xs, ys, Column(a, y0, y), [Pos(a, y)]);
    OneCell(xs, ys, Pos(a, y));
  }

  lemma OneCell(xs: seq<real>, ys: seq<real>, p: Pos)
    requires p.a + 1 < |xs| && p.b + 1 < |ys|
    ensures CellsOf(xs, ys, [p]) == [CellAt(xs, ys, p)]
  {
  }

  /** Lines ascend. */
  lemma Ascends(s: seq<real>, i: nat, j: nat)
    requires Spaced(s) && i <= j < |s|
    ensures s[i] <= s[j]
  {
  }

  lemma StackBetween(rs: seq<Rect>, xs: seq<real>, ys: seq<real>, a: nat, y0: nat, y: nat)
    requires Spaced(xs) && Spaced(ys) && a + 1 < |xs| && y0 <= y && y + 1 < |ys|
    requires Tiles(rs, Between(xs, ys, a, a + 1, y0, y))
    ensures Tiles(rs + [CellAt(xs, ys, Pos(a, y))], Between(xs, ys, a, a + 1, y0, y + 1))
  {
    Ascends(ys, y0, y);
    Ascends(ys, y, y + 1);
    Ascends(xs, a, a + 1);
    AboveTiles(rs, Between(xs, ys, a, a + 1, y0, y), CellAt(xs, ys, Pos(a, y)));
  }

  lemma {:induction false} ColumnTiles(xs: seq<real>, ys: seq<real>, a: nat, y0: nat, y1: nat, cells: seq<Rect>)
    requires Spaced(xs) && Spaced(ys) && a + 1 < |xs| && y0 <= y1 < |ys| && cells == CellsOf(xs, ys, Column(a, y0, y1))
    ensures Tiles(cells, Between(xs, ys, a, a + 1, y0, y1))
    decreases y1
  {
    if y0 == y1 {
      EmptyTiles(Between(xs, ys, a, a + 1, y0, y1));
    } else {
      var y := y1 - 1;
      var below := CellsOf(xs, ys, Column(a, y0, y));
      ColumnGrows(xs, ys, a, y0, y, below, cells);
      ColumnTiles(xs, ys, a, y0, y, below);
      StackBetween(below, xs, ys, a, y0, y);
    }
  }

  lemma WidenBetween(l: seq<Rect>, r: seq<Rect>, xs: seq<real>, ys: seq<real>, x0: nat, x: nat, y0: nat, y1: nat)
    requires Spaced(xs) && Spaced(ys) && x0 <= x && x + 1 < |xs| && y0 <= y1 < |ys|
    requires Tiles(l, Between(xs, ys, x0, x, y0, y1)) && Tiles(r, Between(xs, ys, x, x + 1, y0, y1))
    ensures Tiles(l + r, Between(xs, ys, x0, x + 1, y0, y1))
  {
    Ascends(xs, x0, x);
    Ascends(xs, x, x + 1);
    Ascends(ys, y0, y1);
    BesideTiles(l, Between(xs, ys, x0, x, y0, y1), r, Between(xs, ys, x, x + 1, y0, y1));
  }

  /** The cells of a block tile what lies between its lines. */
  lemma {:induction false} BlockTiles(xs: seq<real>, ys: seq<real>, x0: nat, x1: nat, y0: nat, y1: nat,
                                      cells: seq<Rect>)
    requires Spaced(xs) && Spaced(ys) && x0 <= x1 < |xs| && y0 <= y1 < |ys|
    requires cells == CellsOf(xs, ys, Block(x0, x1, y0, y1))
    ensures Tiles(cells, Between(xs, ys, x0, x1, y0, y1))
    decreases x1
  {
    if x0 == x1 {
      EmptyTiles(Between(xs, ys, x0, x1, y0, y1));
    } else {
      var x := x1 - 1;
      var l, r := CellsOf(xs, ys, Block(x0, x, y0, y1)), CellsOf(xs, ys, Column(x, y0, y1));
      BlockTiles(xs, ys, x0, x, y0, y1, l);
      ColumnTiles(xs, ys, x, y0, y1, r);
      WidenBetween(l, r, xs, ys, x0, x, y0, y1);
      CellsOfConcat(xs, ys, Block(x0, x, y0, y1), Column(x, y0, y1));
    }
  }

  // ---------- units whose edges are clearly apart ----------

  /** Any two edges are equal or at least the tolerance apart. */
  ghost predicate Resolved(us: seq<Rect>, upright: bool) {
    forall v, w {:trigger IsEdge(us, upright, v), IsEdge(us, upright, w)} ::
      IsEdge(us, upright, v) && IsEdge(us, upright, w) && Eq(v, w) ==> v == w
  }

  ghost predicate AllResolved(us: seq<Rect>) {
    Resolved(us, false) && Resolved(us, true)
  }

  /** The lines found for a unit are its edges. */
  ghost predicate Exact(xs: seq<real>, ys: seq<real>, r: Rect, s: Span) {
    && s.x0 < |xs| && s.x1 < |xs| && s.y0 < |ys| && s.y1 < |ys|
    && xs[s.x0] == r.leftx && xs[s.x1] == Right(r) && ys[s.y0] == r.bottomy && ys[s.y1] == Top(r)
  }

  lemma EdgesOfUnit(us: seq<Rect>, i: nat, upright: bool)
    requires i < |us|
    ensures IsEdge(us, upright, Lo(us[i], upright)) && IsEdge(us, upright, Hi(us[i], upright))
  {
    assert EdgeOf(us[i], upright, Lo(us[i], upright)) && EdgeOf(us[i], upright, Hi(us[i], upright));
  }

  lemma LineIsEdge(s: seq<real>, us: seq<Rect>, upright: bool, k: nat, e: real)
    requires OnEdges(s, us, upright) && Resolved(us, upright) && k < |s| && IsEdge(us, upright, e) && Eq(s[k], e)
    ensures s[k] == e
  {
    assert IsEdge(us, upright, s[k]);
  }

  lemma ResolvedIsExact(us: seq<Rect>, xs: seq<real>, ys: seq<real>, i: nat, s: Span)
    requires OnEdges(xs, us, false) && OnEdges(ys, us, true) && AllResolved(us) && i < |us| && SpanOf(xs, ys, us[i], s)
    ensures Exact(xs, ys, us[i], s)
  {
    EdgesOfUnit(us, i, false);
    EdgesOfUnit(us, i, true);
    LineIsEdge(xs, us, false, s.x0, us[i].leftx);
    LineIsEdge(xs, us, false, s.x1, Right(us[i]));
    LineIsEdge(ys, us, true, s.y0, us[i].bottomy);
    LineIsEdge(ys, us, true, s.y1, Top(us[i]));
  }

  lemma LineOrder(s: seq<real>, i: nat, j: nat)
    requires Spaced(s) && i < |s| && j < |s|
    ensures s[i] < s[j] <==> i < j
  {
  }

  /** A position belongs to a unit exactly when its corner lies in the unit. */
  lemma CornerIn(xs: seq<real>, ys: seq<real>, r: Rect, s: Span, p: Pos)
    requires Spaced(xs) && Spaced(ys) && Exact(xs, ys, r, s) && p.a < |xs| && p.b < |ys|
    ensures InSpan(s, p) <==> Holds(r, xs[p.a], ys[p.b])
  {
    LineOrder(xs, p.a, s.x0);
    LineOrder(xs, p.a, s.x1);
    LineOrder(ys, p.b, s.y0);
    LineOrder(ys, p.b, s.y1);
  }

  lemma SpanIsProper(xs: seq<real>, ys: seq<real>, r: Rect, s: Span)
    requires Spaced(xs) && Spaced(ys) && Exact(xs, ys, r, s) && PositiveRect(r)
    ensures s.x0 < s.x1 && s.y0 < s.y1 && Between(xs, ys, s.x0, s.x1, s.y0, s.y1) == r
  {
    LineOrder(xs, s.x0, s.x1);
    LineOrder(ys, s.y0, s.y1);
  }

  // ---------- every position belongs to one unit ----------

  /** What creating the grid has given. */
  ghost predicate IsGrid(us: seq<Rect>, xs: seq<real>, ys: seq<real>, spans: seq<Span>, taken: seq<Pos>,
                         starts: seq<nat>, cells: seq<Rect>)
  {
    && Lines(xs, us, |us|, false) && Lines(ys, us, |us|, true)
    && |spans| == |us| && Spanned(us, xs, ys, spans) && Takes(spans, taken, starts) && Claimed(cells, xs, ys, taken)
  }

  ghost predicate AllExact(us: seq<Rect>, xs: seq<real>, ys: seq<real>, spans: seq<Span>) {
    && Spaced(xs) && Spaced(ys) && OnEdges(xs, us, false) && OnEdges(ys, us, true)
    && |spans| == |us| && forall i :: 0 <= i < |us| ==> Exact(xs, ys, us[i], spans[i])
  }

  lemma ResolvedAllExact(us: seq<Rect>, xs: seq<real>, ys: seq<real>, spans: seq<Span>)
    requires Lines(xs, us, |us|, false) && Lines(ys, us, |us|, true) && |spans| == |us| && Spanned(us, xs, ys, spans)
    requires AllResolved(us)
    ensures AllExact(us, xs, ys, spans)
  {
    forall i | 0 <= i < |us|
      ensures Exact(xs, ys, us[i], spans[i])
    {
      ResolvedIsExact(us, xs, ys, i, spans[i]);
    }
  }

  /** Units that tile share no position. */
  lemma NoneShared(us: seq<Rect>, box: Rect, xs: seq<real>, ys: seq<real>, spans: seq<Span>, i: nat, j: nat, p: Pos)
    requires Tiles(us, box) && AllExact(us, xs, ys, spans) && i < j < |us| && InSpan(spans[i], p)
    ensures !InSpan(spans[j], p)
  {
    if InSpan(spans[j], p) {
      assert Exact(xs, ys, us[i], spans[i]) && Exact(xs, ys, us[j], spans[j]);
      CornerIn(xs, ys, us[i], spans[i], p);
      CornerIn(xs, ys, us[j], spans[j], p);
      TilesMeans(us, box, xs[p.a], ys[p.b]);
    }
  }

  lemma LineInside(us: seq<Rect>, box: Rect, s: seq<real>, upright: bool, k: nat)
    requires Tiles(us, box) && AllPositive(us) && Spaced(s) && OnEdges(s, us, upright) && k + 1 < |s|
    ensures Lo(box, upright) <= s[k] < Hi(box, upright)
  {
    assert IsEdge(us, upright, s[k]) && IsEdge(us, upright, s[k + 1]);
    var i := IsInside(us, box, upright, s[k]);
    var j := IsInside(us, box, upright, s[k + 1]);
    LineOrder(s, k, k + 1);
  }

  /** Every position belongs to a unit. */
  lemma Belonging(us: seq<Rect>, box: Rect, xs: seq<real>, ys: seq<real>, spans: seq<Span>, p: Pos) returns (i: nat)
    requires Tiles(us, box) && AllPositive(us) && AllExact(us, xs, ys, spans) && p.a + 1 < |xs| && p.b + 1 < |ys|
    ensures i < |spans| && InSpan(spans[i], p)
  {
    LineInside(us, box, xs, false, p.a);
    LineInside(us, box, ys, true, p.b);
    i := BoxHeldByTile(us, box, xs[p.a], ys[p.b]);
    assert Exact(xs, ys, us[i], spans[i]);
    CornerIn(xs, ys, us[i], spans[i], p);
  }

  /** There are as many cells as positions between lines. */
  lemma GridIsFull(us: seq<Rect>, box: Rect, xs: seq<real>, ys: seq<real>, spans: seq<Span>)
    requires Tiles(us, box) && AllPositive(us) && us != [] && AllExact(us, xs, ys, spans)
    ensures |All(spans, |spans|)| == (|xs| - 1) * (|ys| - 1)
  {
    assert Exact(xs, ys, us[0], spans[0]);
    var m, k := |xs| - 1, |ys| - 1;
    forall i | 0 <= i < |spans|
      ensures spans[i].x1 <= m && spans[i].y1 <= k
    {
      assert Exact(xs, ys, us[i], spans[i]);
    }
    forall p: Pos | p.a < m && p.b < k
      ensures exists i :: 0 <= i < |spans| && InSpan(spans[i], p)
    {
      var i := Belonging(us, box, xs, ys, spans, p);
    }
    FullIff(spans, m, k);
  }

  // ---------- the cells of each unit ----------

  lemma {:induction false} AllIsPrefix(spans: seq<Span>, i: nat, n: nat)
    requires i <= n <= |spans|
    ensures All(spans, i) <= All(spans, n)
    decreases n
  {
    if i < n {
      AllIsPrefix(spans, i, n - 1);
      CollectGrows(All(spans, n - 1), BlockOf(spans[n - 1]));
    }
  }

  /** The part of a list from one start to the next. */
  function Part<T>(s: seq<T>, starts: seq<nat>, i: nat): seq<T>
    requires i + 1 < |starts| && starts[i] <= starts[i + 1] <= |s|
  {
    s[starts[i]..starts[i + 1]]
  }

  lemma PartsOrdered(spans: seq<Span>, taken: seq<Pos>, starts: seq<nat>, i: nat)
    requires Takes(spans, taken, starts) && i < |spans|
    ensures starts[i] <= starts[i + 1] <= |taken|
    ensures taken[..starts[i]] == All(spans, i) && taken[..starts[i + 1]] == All(spans, i + 1)
  {
    assert StartsAt(spans, i, starts[i]) && StartsAt(spans, i + 1, starts[i + 1]);
    AllIsPrefix(spans, i, i + 1);
    AllIsPrefix(spans, i, |spans|);
    AllIsPrefix(spans, i + 1, |spans|);
  }

  lemma TakenPart(us: seq<Rect>, box: Rect, xs: seq<real>, ys: seq<real>, spans: seq<Span>, taken: seq<Pos>,
                  starts: seq<nat>, i: nat)
    requires Tiles(us, box) && AllExact(us, xs, ys, spans) && Takes(spans, taken, starts) && i < |us|
    ensures starts[i] <= starts[i + 1] <= |taken| && Part(taken, starts, i) == BlockOf(spans[i])
  {
    PartsOrdered(spans, taken, starts, i);
    forall p: Pos, j | 0 <= j < i && InSpan(spans[j], p)
      ensures !InSpan(spans[i], p)
    {
      NoneShared(us, box, xs, ys, spans, j, i, p);
    }
    AllFree(spans, i);
    var a, b := starts[i], starts[i + 1];
    assert taken[a..b] == taken[..b][a..];
  }

  lemma CellsPart(cells: seq<Rect>, xs: seq<real>, ys: seq<real>, taken: seq<Pos>, a: nat, b: nat)
    requires Claimed(cells, xs, ys, taken) && a <= b <= |taken|
    ensures cells[a..b] == CellsOf(xs, ys, taken[a..b])
  {
  }

  /** The cells of a unit tile it. */
  lemma UnitTiled(us: seq<Rect>, box: Rect, xs: seq<real>, ys: seq<real>, spans: seq<Span>, taken: seq<Pos>,
                  starts: seq<nat>, cells: seq<Rect>, i: nat)
    requires Tiles(us, box) && AllPositive(us) && IsGrid(us, xs, ys, spans, taken, starts, cells)
    requires AllExact(us, xs, ys, spans) && i < |us|
    ensures starts[i] <= starts[i + 1] <= |cells| && Tiles(Part(cells, starts, i), us[i])
  {
    var s := spans[i];
    TakenPart(us, box, xs, ys, spans, taken, starts, i);
    CellsPart(cells, xs, ys, taken, starts[i], starts[i + 1]);
    assert Exact(xs, ys, us[i], s) && PositiveRect(us[i]);
    SpanIsProper(xs, ys, us[i], s);
    BlockTiles(xs, ys, s.x0, s.x1, s.y0, s.y1, Part(cells, starts, i));
  }

  // ---------- the bound on the number of lines is attained ----------

  /** n unit squares side by side. */
  function Squares(n: nat): (r: seq<Rect>)
    ensures |r| == n && forall k :: 0 <= k < n ==> r[k] == Rect(k as real, 0.0, 1.0, 1.0)
  {
    seq(n, k requires 0 <= k => Rect(k as real, 0.0, 1.0, 1.0))
  }

  lemma Single(r: Rect)
    requires NonNegative(r)
    ensures Tiles([r], r)
  {
    forall px, py
      ensures Cover([r], px, py) == Indicator(r, px, py)
    {
      CoverLast([], r, px, py);
      assert [] + [r] == [r];
    }
    CoverLast([], r, 0.0, 0.0);
    assert [] + [r] == [r];
  }

  lemma {:induction false} SquaresTile(n: nat)
    ensures Tiles(Squares(n), Rect(0.0, 0.0, n as real, 1.0))
  {
    if n == 0 {
      EmptyTiles(Rect(0.0, 0.0, 0.0, 1.0));
    } else {
      var last := Rect((n - 1) as real, 0.0, 1.0, 1.0);
      SquaresTile(n - 1);
      Single(last);
      BesideTiles(Squares(n - 1), Rect(0.0, 0.0, (n - 1) as real, 1.0), [last], last);
      assert Squares(n) == Squares(n - 1) + [last];
    }
  }

  ghost predicate NearNumber(s: seq<real>, i: int) {
    NearBy(s, i as real)
  }

  /** Whole numbers, each with a line near it, have a line each. */
  lemma {:induction false} LinePerNumber(s: seq<real>, n: nat) returns (k: nat)
    requires Spaced(s) && forall i :: 0 <= i <= n ==> NearNumber(s, i)
    ensures n <= k < |s| && Eq(s[k], n as real)
    decreases n
  {
    assert NearNumber(s, n);
    k :| 0 <= k < |s| && Eq(s[k], n as real);
    if n > 0 {
      var l := LinePerNumber(s, n - 1);
      LineOrder(s, l, k);
    }
  }

  /** For every n there is a tiling by n units for whose lines n places are not enough. */
  lemma OneShort(n: nat, l: seq<seq<real>>)
    requires n >= 1 && LinedBy(Squares(n), false, l)
    ensures Tiles(Squares(n), Rect(0.0, 0.0, n as real, 1.0)) && AllPositive(Squares(n))
    ensures |l[n]| == n + 1
  {
    SquaresTile(n);
    var us, s := Squares(n), l[n];
    forall i | 0 <= i <= n
      ensures NearNumber(s, i)
    {
      assert Lined(s, us[if i < n then i else n - 1], false);
    }
    var k := LinePerNumber(s, n);
    TilingFits(us, Rect(0.0, 0.0, n as real, 1.0), false, l);
  }
}
