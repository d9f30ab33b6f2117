/** The grid of a tiling is complete: whether or not edges are clearly apart, every position between
    lines is taken by some unit, because the search for lines never goes down as edges go up. */
module GridCoverage {
  import opened Tilings
  import opened Extents
  import opened SortedLines
  import opened GridLines
  import opened GridPositions
  import opened GridFloorplan
  import opened GridTilings

  /** An edge that the search puts at line a or before. */
  ghost predicate UpTo(find: Finder, s: seq<real>, us: seq<Rect>, upright: bool, a: nat, e: real) {
    IsEdge(us, upright, e) && find(s, e).1 <= a
  }

  /** Of two values that may be the last so far, the one that is. */
  function Later(find: Finder, s: seq<real>, a: nat, best: real, v: real): real {
    if find(s, v).1 <= a && best < v then v else best
  }

  /** The last edge that the search puts at line a or before. */
  lemma {:induction false} LastEdge(find: Finder, s: seq<real>, us: seq<Rect>, upright: bool, a: nat)
    returns (e: real)
    requires Halves(find) && Spaced(s) && OnEdges(s, us, upright) && a < |s|
    ensures UpTo(find, s, us, upright, a, e)
    ensures forall v :: UpTo(find, s, us, upright, a, v) ==> v <= e
  {
    e := s[a];
    assert IsEdge(us, upright, s[a]);
    FindsItself(find, s, a);
    var i := 0;
    while i < |us|
      invariant i <= |us| && UpTo(find, s, us, upright, a, e)
      invariant forall j, v :: 0 <= j < i && EdgeOf(us[j], upright, v) && find(s, v).1 <= a ==> v <= e
    {
      EdgesOfUnit(us, i, upright);
      e := Later(find, s, a, Later(find, s, a, e, Lo(us[i], upright)), Hi(us[i], upright));
      i := i + 1;
    }
  }

  /** It lies in the box, before the next line. */
  lemma LastEdgeInside(find: Finder, s: seq<real>, us: seq<Rect>, box: Rect, upright: bool, a: nat) returns (e: real)
    requires Halves(find) && Spaced(s) && OnEdges(s, us, upright) && a + 1 < |s| && Tiles(us, box) && AllPositive(us)
    ensures UpTo(find, s, us, upright, a, e) && Lo(box, upright) <= e < Hi(box, upright)
    ensures forall v :: UpTo(find, s, us, upright, a, v) ==> v <= e
  {
    e := LastEdge(find, s, us, upright, a);
    assert IsEdge(us, upright, s[a + 1]);
    FindsItself(find, s, a + 1);
    if e >= s[a + 1] {
      FinderMonotone(find, s, s[a + 1], e);
    }
    var i := IsInside(us, box, upright, e);
    var j := IsInside(us, box, upright, s[a + 1]);
  }

  /** A unit around that edge takes the lines on both sides. */
  lemma Around(find: Finder, s: seq<real>, us: seq<Rect>, upright: bool, a: nat, e: real, i: nat)
    requires Halves(find) && i < |us| && UpTo(find, s, us, upright, a, e)
    requires forall v :: UpTo(find, s, us, upright, a, v) ==> v <= e
    requires Lo(us[i], upright) <= e < Hi(us[i], upright)
    ensures find(s, Lo(us[i], upright)).1 <= a < find(s, Hi(us[i], upright)).1
  {
    FinderMonotone(find, s, Lo(us[i], upright), e);
    EdgesOfUnit(us, i, upright);
    assert find(s, Hi(us[i], upright)).1 <= a <==> UpTo(find, s, us, upright, a, Hi(us[i], upright));
  }

  /** Every position is taken by the unit that holds the last edges at its lines. */
  lemma Taken(find: Finder, us: seq<Rect>, box: Rect, xs: seq<real>, ys: seq<real>, spans: seq<Span>, p: Pos)
    returns (i: nat)
    requires Tiles(us, box) && AllPositive(us) && Spaced(xs) && Spaced(ys)
    requires OnEdges(xs, us, false) && OnEdges(ys, us, true) && Searched(find, us, xs, ys, spans) && |spans| == |us|
    requires p.a + 1 < |xs| && p.b + 1 < |ys|
    ensures i < |spans| && InSpan(spans[i], p)
  {
    var e := LastEdgeInside(find, xs, us, box, false, p.a);
    var f := LastEdgeInside(find, ys, us, box, true, p.b);
    i := BoxHeldByTile(us, box, e, f);
    Around(find, xs, us, false, p.a, e, i);
    Around(find, ys, us, true, p.b, f, i);
    assert spans[i] == SpanBy(find, xs, ys, us[i]);
  }

  lemma SpansFit(us: seq<Rect>, xs: seq<real>, ys: seq<real>, spans: seq<Span>) returns (m: nat, k: nat)
    requires us != [] && |spans| == |us| && Spanned(us, xs, ys, spans)
    ensures m == |xs| - 1 && k == |ys| - 1 && Fitting(spans, m, k)
  {
    assert SpanOf(xs, ys, us[0], spans[0]);
    m, k := |xs| - 1, |ys| - 1;
    forall i | 0 <= i < |spans|
      ensures spans[i].x1 <= m && spans[i].y1 <= k
    {
      assert SpanOf(xs, ys, us[i], spans[i]);
    }
  }

  /** There are as many cells as positions between lines. */
  lemma TilingIsFull(find: Finder, us: seq<Rect>, box: Rect, xs: seq<real>, ys: seq<real>, spans: seq<Span>)
    requires Tiles(us, box) && AllPositive(us) && us != []
    requires Lines(xs, us, |us|, false) && Lines(ys, us, |us|, true)
    requires |spans| == |us| && Spanned(us, xs, ys, spans) && Searched(find, us, xs, ys, spans)
    ensures |All(spans, |spans|)| == (|xs| - 1) * (|ys| - 1)
  {
    var m, k := SpansFit(us, xs, ys, spans);
    forall p: Pos | p.a < m && p.b < k
      ensures exists i :: 0 <= i < |spans| && InSpan(spans[i], p)
    {
      var i := Taken(find, us, box, xs, ys, spans, p);
    }
    FullIff(spans, m, k);
  }

  /** For units that tile a rectangle and arrays with one place more than there are units, the grid is
      always created. */
  method GridOfTiling(units: array<Rect>, x: array<real>, y: array<real>, ghost box: Rect)
    returns (outcome: Outcome, cells: array<Rect>, count: nat, blocks: seq<seq<nat>>)
    requires x != y && units.Length > 0 && Tiles(units[..], box) && AllPositive(units[..])
    requires units.Length + 1 <= x.Length && units.Length + 1 <= y.Length
    modifies x, y
    ensures outcome == Created
  {
    ghost var lx, ly, spans, taken, starts, find;
    outcome, cells, count, blocks, lx, ly, spans, taken, starts, find := CreateGrid(units, x, y);
    TilingFits(units[..], box, false, lx);
    TilingFits(units[..], box, true, ly);
    TilingIsFull(find, units[..], box, lx[units.Length], ly[units.Length], spans);
  }
}
