/** Exactly when the cells of a grid tile the units, and what becomes of the units' power. */
module GridPower {
  import opened Tilings
  import opened Extents
  import opened Adjacency
  import opened SortedLines
  import opened GridLines
  import opened GridPositions
  import opened GridFloorplan
  import opened GridTilings

  // ---------- tiled exactly when resolved ----------

  lemma CellsPositive(cells: seq<Rect>, xs: seq<real>, ys: seq<real>, taken: seq<Pos>)
    requires Claimed(cells, xs, ys, taken) && Spaced(xs) && Spaced(ys)
    ensures AllPositive(cells)
  {
    forall k | 0 <= k < |cells|
      ensures PositiveRect(cells[k])
    {
      LineOrder(xs, taken[k].a, taken[k].a + 1);
      LineOrder(ys, taken[k].b, taken[k].b + 1);
    }
  }

  ghost predicate IsLine(s: seq<real>, v: real) {
    exists k :: 0 <= k < |s| && s[k] == v
  }

  lemma CellEdges(cells: seq<Rect>, xs: seq<real>, ys: seq<real>, taken: seq<Pos>, k: nat)
    requires Claimed(cells, xs, ys, taken) && k < |cells|
    ensures SidesOnLines(xs, ys, cells[k])
  {
    var p := taken[k];
    assert xs[p.a] == cells[k].leftx && xs[p.a + 1] == Right(cells[k]);
    assert ys[p.b] == cells[k].bottomy && ys[p.b + 1] == Top(cells[k]);
  }

  /** Tiles that touch each side of what they tile. */
  lemma Outermost(part: seq<Rect>, r: Rect) returns (i: nat, j: nat, k: nat, l: nat)
    requires AllPositive(part) && PositiveRect(r) && Tiles(part, r)
    ensures i < |part| && part[i].leftx == r.leftx && j < |part| && Right(part[j]) == Right(r)
    ensures k < |part| && part[k].bottomy == r.bottomy && l < |part| && Top(part[l]) == Top(r)
  {
    TilingExtents(part, r);
    i, j, k, l := ExtentsAttained(part);
  }

  ghost predicate SidesOnLines(xs: seq<real>, ys: seq<real>, r: Rect) {
    IsLine(xs, r.leftx) && IsLine(xs, Right(r)) && IsLine(ys, r.bottomy) && IsLine(ys, Top(r))
  }

  /** A unit that is tiled by cells has its edges on lines. */
  lemma TiledOnLines(part: seq<Rect>, xs: seq<real>, ys: seq<real>, r: Rect)
    requires AllPositive(part) && PositiveRect(r) && Tiles(part, r)
    requires forall k {:trigger SidesOnLines(xs, ys, part[k])} :: 0 <= k < |part| ==> SidesOnLines(xs, ys, part[k])
    ensures SidesOnLines(xs, ys, r)
  {
    var i, j, k, l := Outermost(part, r);
    assert SidesOnLines(xs, ys, part[i]);
    assert SidesOnLines(xs, ys, part[j]);
    assert SidesOnLines(xs, ys, part[k]);
    assert SidesOnLines(xs, ys, part[l]);
  }

  ghost predicate EdgesAreLines(us: seq<Rect>, s: seq<real>, upright: bool) {
    forall i :: 0 <= i < |us| ==> IsLine(s, Lo(us[i], upright)) && IsLine(s, Hi(us[i], upright))
  }

  lemma LineOfEdge(us: seq<Rect>, s: seq<real>, upright: bool, v: real) returns (k: nat)
    requires EdgesAreLines(us, s, upright) && IsEdge(us, upright, v)
    ensures k < |s| && s[k] == v
  {
    var i :| 0 <= i < |us| && EdgeOf(us[i], upright, v);
    k :| 0 <= k < |s| && s[k] == v;
  }

  lemma LinesResolve(us: seq<Rect>, s: seq<real>, upright: bool)
    requires Spaced(s) && EdgesAreLines(us, s, upright)
    ensures Resolved(us, upright)
  {
    forall v, w | IsEdge(us, upright, v) && IsEdge(us, upright, w) && Eq(v, w)
      ensures v == w
    {
      var k := LineOfEdge(us, s, upright, v);
      var l := LineOfEdge(us, s, upright, w);
    }
  }

  lemma PartOnLines(cells: seq<Rect>, xs: seq<real>, ys: seq<real>, taken: seq<Pos>, a: nat, b: nat, r: Rect)
    requires Claimed(cells, xs, ys, taken) && Spaced(xs) && Spaced(ys) && a <= b <= |cells|
    requires PositiveRect(r) && Tiles(cells[a..b], r)
    ensures SidesOnLines(xs, ys, r)
  {
    CellsPositive(cells, xs, ys, taken);
    var part := cells[a..b];
    forall k | 0 <= k < |part|
      ensures SidesOnLines(xs, ys, part[k])
    {
      CellEdges(cells, xs, ys, taken, a + k);
    }
    TiledOnLines(part, xs, ys, r);
  }

  /** Each unit is tiled by its cells. */
  ghost predicate AllTiled(us: seq<Rect>, starts: seq<nat>, cells: seq<Rect>) {
    |starts| == |us| + 1 && forall i :: 0 <= i < |us| ==> IsTiled(us, starts, cells, i)
  }

  ghost predicate IsTiled(us: seq<Rect>, starts: seq<nat>, cells: seq<Rect>, i: nat) {
    && i < |us| && i + 1 < |starts| && starts[i] <= starts[i + 1] <= |cells|
    && Tiles(Part(cells, starts, i), us[i])
  }

  lemma TiledIsResolved(us: seq<Rect>, xs: seq<real>, ys: seq<real>, taken: seq<Pos>, starts: seq<nat>,
                        cells: seq<Rect>)
    requires AllPositive(us) && Spaced(xs) && Spaced(ys) && Claimed(cells, xs, ys, taken) && AllTiled(us, starts, cells)
    ensures AllResolved(us)
  {
    forall i | 0 <= i < |us|
      ensures SidesOnLines(xs, ys, us[i])
    {
      assert IsTiled(us, starts, cells, i);
      PartOnLines(cells, xs, ys, taken, starts[i], starts[i + 1], us[i]);
    }
    assert EdgesAreLines(us, xs, false) && EdgesAreLines(us, ys, true);
    LinesResolve(us, xs, false);
    LinesResolve(us, ys, true);
  }

  /** On a tiling floorplan every unit is tiled by its cells exactly when any two edges are equal
      or at least the tolerance apart; and then there is a cell at every position between lines. */
  lemma TiledIff(us: seq<Rect>, box: Rect, xs: seq<real>, ys: seq<real>, spans: seq<Span>, taken: seq<Pos>,
                 starts: seq<nat>, cells: seq<Rect>)
    requires us != [] && Tiles(us, box) && AllPositive(us) && IsGrid(us, xs, ys, spans, taken, starts, cells)
    ensures AllTiled(us, starts, cells) <==> AllResolved(us)
    ensures AllResolved(us) ==> |cells| == (|xs| - 1) * (|ys| - 1)
  {
    if AllResolved(us) {
      ResolvedAllExact(us, xs, ys, spans);
      GridIsFull(us, box, xs, ys, spans);
      forall i | 0 <= i < |us|
        ensures IsTiled(us, starts, cells, i)
      {
        UnitTiled(us, box, xs, ys, spans, taken, starts, cells, i);
      }
    }
    if AllTiled(us, starts, cells) {
      TiledIsResolved(us, xs, ys, taken, starts, cells);
    }
  }

  /** Each cell is mapped to by exactly one unit. */
  lemma {:induction false} OwnerOf(blocks: seq<seq<nat>>, starts: seq<nat>, n: nat, c: nat) returns (i: nat)
    requires Mapped(blocks, starts) && n <= |blocks| && starts[0] <= c < starts[n]
    ensures i < n && c in blocks[i] && forall j :: 0 <= j < n && c in blocks[j] ==> j == i
    decreases n
  {
    if c < starts[n - 1] {
      i := OwnerOf(blocks, starts, n - 1, c);
      assert c !in blocks[n - 1];
    } else {
      i := n - 1;
      assert blocks[i][c - starts[i]] == c;
      forall j | 0 <= j < n - 1 && c in blocks[j]
        ensures false
      {
        StartsAscend(blocks, starts, j + 1, n - 1);
      }
    }
  }

  lemma {:induction false} StartsAscend(blocks: seq<seq<nat>>, starts: seq<nat>, i: nat, j: nat)
    requires Mapped(blocks, starts) && i <= j <= |blocks|
    ensures starts[i] <= starts[j]
    decreases j
  {
    if i < j {
      StartsAscend(blocks, starts, i, j - 1);
    }
  }
}
