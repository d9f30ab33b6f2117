/** A floorplan cut up along all edges of its units: which cells there are and which unit each
    belongs to. */
module GridFloorplan {
  import opened Tilings
  import opened Extents
  import opened Adjacency
  import opened SortedLines
  import opened GridLines
  import opened GridPositions

  /** The cell at a position between lines. */
  function CellAt(xs: seq<real>, ys: seq<real>, p: Pos): Rect
    requires p.a + 1 < |xs| && p.b + 1 < |ys|
  {
    Rect(xs[p.a], ys[p.b], xs[p.a + 1] - xs[p.a], ys[p.b + 1] - ys[p.b])
  }

  /** The cells stand at the taken positions, each at its own. */
  ghost predicate Claimed(cells: seq<Rect>, xs: seq<real>, ys: seq<real>, taken: seq<Pos>) {
    && |cells| == |taken| && Apart(taken)
    && forall k :: 0 <= k < |taken| ==>
         taken[k].a + 1 < |xs| && taken[k].b + 1 < |ys| && cells[k] == CellAt(xs, ys, taken[k])
  }

  /** The lines found for a unit's edges. */
  ghost predicate SpanOf(xs: seq<real>, ys: seq<real>, r: Rect, s: Span) {
    && s.x0 < |xs| && s.x1 < |xs| && s.y0 < |ys| && s.y1 < |ys|
    && Eq(xs[s.x0], r.leftx) && Eq(xs[s.x1], Right(r)) && Eq(ys[s.y0], r.bottomy) && Eq(ys[s.y1], Top(r))
  }

  /** Whether a cell with this corner is there already. */
  method FindCell(cells: array<Rect>, count: nat, x: real, y: real) returns (found: bool)
    requires count <= cells.Length
    ensures found <==> exists k :: 0 <= k < count && cells[k].leftx == x && cells[k].bottomy == y
  {
    found := false;
    for n := 0 to count
      invariant !found && forall k :: 0 <= k < n ==> !(cells[k].leftx == x && cells[k].bottomy == y)
    {
      if cells[n].leftx == x && cells[n].bottomy == y {
        return true;
      }
    }
  }

  /** Positions have different corners. */
  lemma CornerIsPosition(xs: seq<real>, ys: seq<real>, cells: seq<Rect>, taken: seq<Pos>, p: Pos)
    requires Spaced(xs) && Spaced(ys) && Claimed(cells, xs, ys, taken) && p.a + 1 < |xs| && p.b + 1 < |ys|
    ensures p in taken <==> exists k :: 0 <= k < |cells| && cells[k].leftx == xs[p.a] && cells[k].bottomy == ys[p.b]
  {
    if p in taken {
      var k := IndexOf(taken, p);
      assert cells[k].leftx == xs[p.a];
    }
    if k :| 0 <= k < |cells| && cells[k].leftx == xs[p.a] && cells[k].bottomy == ys[p.b] {
      assert taken[k] == p by {
        SameLine(xs, taken[k].a, p.a);
        SameLine(ys, taken[k].b, p.b);
      }
    }
  }

  lemma SameLine(s: seq<real>, i: nat, j: nat)
    requires Spaced(s) && i < |s| && j < |s| && s[i] == s[j]
    ensures i == j
  {
  }

  lemma TakenWithin(cells: seq<Rect>, xs: seq<real>, ys: seq<real>, taken: seq<Pos>, p: Pos)
    requires Claimed(cells, xs, ys, taken) && p !in taken && p.a + 1 < |xs| && p.b + 1 < |ys|
    ensures |taken| < (|xs| - 1) * (|ys| - 1)
  {
    var more := taken + [p];
    assert Apart(more);
    AtMost(more, |xs| - 1, |ys| - 1);
  }

  /** Room for a cell between any two lines. */
  ghost predicate Room(cells: array<Rect>, xs: seq<real>, ys: seq<real>) {
    Spaced(xs) && Spaced(ys) && cells.Length == (|xs| - 1) * (|ys| - 1)
  }

  /** The cells claimed so far. */
  ghost predicate Claiming(cells: array<Rect>, count: nat, xs: seq<real>, ys: seq<real>, taken: seq<Pos>)
    reads cells
  {
    count <= cells.Length && Claimed(cells[..count], xs, ys, taken)
  }

  /** Adds the cell at (a, b) unless it is there. The room for the cells is never exceeded. */
  method AddCell(cells: array<Rect>, count: nat, xs: seq<real>, ys: seq<real>, a: nat, b: nat, ghost taken: seq<Pos>)
    returns (count': nat, ghost taken': seq<Pos>)
    requires Room(cells, xs, ys) && Claiming(cells, count, xs, ys, taken) && a + 1 < |xs| && b + 1 < |ys|
    modifies cells
    ensures count <= count' && Claiming(cells, count', xs, ys, taken') && taken' == Collect(taken, [Pos(a, b)])
  {
    ghost var p := Pos(a, b);
    CornerIsPosition(xs, ys, cells[..count], taken, p);
    var found := FindCell(cells, count, xs[a], ys[b]);
    assert Collect(taken, [p]) == if p in taken then taken else taken + [p];
    count', taken' := count, taken;
    if !found {
      TakenWithin(cells[..count], xs, ys, taken, p);
      cells[count] := Rect(xs[a], ys[b], xs[a + 1] - xs[a], ys[b + 1] - ys[b]);
      count', taken' := count + 1, taken + [p];
    }
  }

  /** What is taken at each step of a walk, by name only. */
  type Stage = (nat, seq<Pos>) -> bool

  ghost predicate WalksUp(stage: Stage, a: nat, y0: nat) {
    forall b, t {:trigger stage(b, t), Collect(t, [Pos(a, b)])} ::
      y0 <= b && stage(b, t) ==> stage(b + 1, Collect(t, [Pos(a, b)]))
  }

  ghost predicate WalksAcross(stage: Stage, s: Span) {
    forall a, t {:trigger stage(a, t), Collect(t, Column(a, s.y0, s.y1))} ::
      s.x0 <= a && stage(a, t) ==> stage(a + 1, Collect(t, Column(a, s.y0, s.y1)))
  }

  function Later(a: nat, b: nat): nat {
    if a < b then b else a
  }

  method WalkColumn(cells: array<Rect>, count: nat, xs: seq<real>, ys: seq<real>, a: nat, y0: nat, y1: nat,
                    ghost taken: seq<Pos>, ghost stage: Stage)
    returns (count': nat, ghost taken': seq<Pos>)
    requires Room(cells, xs, ys) && Claiming(cells, count, xs, ys, taken) && a + 1 < |xs| && y1 < |ys|
    requires WalksUp(stage, a, y0) && stage(y0, taken)
    modifies cells
    ensures count <= count' && Claiming(cells, count', xs, ys, taken') && stage(Later(y0, y1), taken')
  {
    count', taken' := count, taken;
    for b := y0 to Later(y0, y1)
      invariant count <= count' && Claiming(cells, count', xs, ys, taken') && stage(b, taken')
    {
      count', taken' := AddCell(cells, count', xs, ys, a, b, taken');
    }
  }

  /** The cells of one column of a unit. */
  method AddColumn(cells: array<Rect>, count: nat, xs: seq<real>, ys: seq<real>, a: nat, y0: nat, y1: nat,
                   ghost taken: seq<Pos>)
    returns (count': nat, ghost taken': seq<Pos>)
    requires Room(cells, xs, ys) && Claiming(cells, count, xs, ys, taken) && a + 1 < |xs| && y1 < |ys|
    modifies cells
    ensures count <= count' && Claiming(cells, count', xs, ys, taken') && taken' == Collect(taken, Column(a, y0, y1))
  {
    ghost var stage: Stage := (b: nat, t: seq<Pos>) => t == Collect(taken, Column(a, y0, b));
    forall b, t | y0 <= b && stage(b, t)
      ensures stage(b + 1, Collect(t, [Pos(a, b)]))
    {
      CollectConcat(taken, Column(a, y0, b), [Pos(a, b)]);
    }
    count', taken' := WalkColumn(cells, count, xs, ys, a, y0, y1, taken, stage);
  }

  method WalkUnit(cells: array<Rect>, count: nat, xs: seq<real>, ys: seq<real>, s: Span, ghost taken: seq<Pos>,
                  ghost stage: Stage)
    returns (count': nat, ghost taken': seq<Pos>)
    requires Room(cells, xs, ys) && Claiming(cells, count, xs, ys, taken) && s.x1 < |xs| && s.y1 < |ys|
    requires WalksAcross(stage, s) && stage(s.x0, taken)
    modifies cells
    ensures count <= count' && Claiming(cells, count', xs, ys, taken') && stage(Later(s.x0, s.x1), taken')
  {
    count', taken' := count, taken;
    for a := s.x0 to Later(s.x0, s.x1)
      invariant count <= count' && Claiming(cells, count', xs, ys, taken') && stage(a, taken')
    {
      count', taken' := AddColumn(cells, count', xs, ys, a, s.y0, s.y1, taken');
    }
  }

  /** The cells of a unit. */
  method AddUnitCells(cells: array<Rect>, count: nat, xs: seq<real>, ys: seq<real>, s: Span, ghost taken: seq<Pos>)
    returns (count': nat, ghost taken': seq<Pos>)
    requires Room(cells, xs, ys) && Claiming(cells, count, xs, ys, taken) && s.x1 < |xs| && s.y1 < |ys|
    modifies cells
    ensures count <= count' && Claiming(cells, count', xs, ys, taken') && taken' == Collect(taken, BlockOf(s))
  {
    ghost var stage: Stage := (a: nat, t: seq<Pos>) => t == Collect(taken, Block(s.x0, a, s.y0, s.y1));
    forall a, t | s.x0 <= a && stage(a, t)
      ensures stage(a + 1, Collect(t, Column(a, s.y0, s.y1)))
    {
      CollectConcat(taken, Block(s.x0, a, s.y0, s.y1), Column(a, s.y0, s.y1));
    }
    count', taken' := WalkUnit(cells, count, xs, ys, s, taken, stage);
  }

  // ---------- the whole floorplan ----------

  /** A line near an edge is always found. */
  method Lookup(arr: array<real>, n: nat, e: real, ghost find: Finder) returns (loc: nat)
    requires n <= arr.Length && Spaced(arr[..n]) && NearBy(arr[..n], e) && Halves(find)
    ensures loc < n && Eq(arr[loc], e) && loc == find(arr[..n], e).1
  {
    ghost var s := arr[..n];
    FinderFinds(find, s, e);
    var found;
    found, loc := Bsearch(arr, 0, n, e, s, find);
  }

  /** Where the search finds the edges of a unit. */
  function SpanBy(find: Finder, xs: seq<real>, ys: seq<real>, r: Rect): Span {
    Span(find(xs, r.leftx).1, find(xs, Right(r)).1, find(ys, r.bottomy).1, find(ys, Top(r)).1)
  }

  method FindSpan(x: array<real>, xsize: nat, y: array<real>, ysize: nat, r: Rect, ghost find: Finder)
    returns (s: Span)
    requires xsize <= x.Length && ysize <= y.Length && Spaced(x[..xsize]) && Spaced(y[..ysize])
    requires Lined(x[..xsize], r, false) && Lined(y[..ysize], r, true) && Halves(find)
    ensures SpanOf(x[..xsize], y[..ysize], r, s) && s == SpanBy(find, x[..xsize], y[..ysize], r)
  {
    var x0 := Lookup(x, xsize, r.leftx, find);
    var x1 := Lookup(x, xsize, r.leftx + r.width, find);
    var y0 := Lookup(y, ysize, r.bottomy, find);
    var y1 := Lookup(y, ysize, r.bottomy + r.height, find);
    s := Span(x0, x1, y0, y1);
  }

  /** The lines along all edges. */
  method FindLines(units: array<Rect>, x: array<real>, y: array<real>, ghost lx: seq<seq<real>>,
                   ghost ly: seq<seq<real>>)
    returns (xsize: nat, ysize: nat, overrun: bool)
    requires x != y && LinedBy(units[..], false, lx) && LinedBy(units[..], true, ly)
    modifies x, y
    ensures overrun <==> |lx[units.Length]| > x.Length || |ly[units.Length]| > y.Length
    ensures !overrun ==> xsize <= x.Length && x[..xsize] == lx[units.Length]
    ensures !overrun ==> ysize <= y.Length && y[..ysize] == ly[units.Length]
  {
    xsize, ysize, overrun := 0, 0, false;
    ghost var us := units[..];
    for i := 0 to units.Length
      invariant !overrun
      invariant xsize <= x.Length && x[..xsize] == lx[i]
      invariant ysize <= y.Length && y[..ysize] == ly[i]
    {
      var r, t := units[i].leftx + units[i].width, units[i].bottomy + units[i].height;
      LiningGrows(us, false, lx, i + 1, |us|);
      LiningGrows(us, true, ly, i + 1, |us|);
      assert AddsUnit(us, false, i, lx[i], lx[i + 1]) && AddsUnit(us, true, i, ly[i], ly[i + 1]);
      xsize, overrun := AddUnit(x, xsize, us, i, false, units[i].leftx, r, lx[i], lx[i + 1]);
      if overrun {
        return;
      }
      ysize, overrun := AddUnit(y, ysize, us, i, true, units[i].bottomy, t, ly[i], ly[i + 1]);
      if overrun {
        return;
      }
    }
  }

  /** The numbers from a up to b. */
  function FromTo(a: nat, b: nat): (r: seq<nat>)
    requires a <= b
    ensures |r| == b - a && forall i :: 0 <= i < |r| ==> r[i] == a + i
  {
    seq(b - a, i requires 0 <= i => a + i)
  }

  /** Each unit is mapped to the cells added for it: those from its start to the next. */
  ghost predicate Mapped(blocks: seq<seq<nat>>, starts: seq<nat>) {
    && |starts| == |blocks| + 1
    && forall i :: 0 <= i < |blocks| ==> starts[i] <= starts[i + 1] && blocks[i] == FromTo(starts[i], starts[i + 1])
  }

  /** The spans are what the search finds. */
  ghost predicate Searched(find: Finder, us: seq<Rect>, xs: seq<real>, ys: seq<real>, spans: seq<Span>) {
    && Halves(find) && |spans| <= |us|
    && forall i :: 0 <= i < |spans| ==> spans[i] == SpanBy(find, xs, ys, us[i])
  }

  ghost predicate Spanned(us: seq<Rect>, xs: seq<real>, ys: seq<real>, spans: seq<Span>) {
    |spans| <= |us| && forall i :: 0 <= i < |spans| ==> SpanOf(xs, ys, us[i], spans[i])
  }

  /** What the spans take in all, and where each starts. */
  ghost predicate Takes(spans: seq<Span>, taken: seq<Pos>, starts: seq<nat>) {
    && taken == All(spans, |spans|) && |starts| == |spans| + 1
    && forall i :: 0 <= i <= |spans| ==> StartsAt(spans, i, starts[i])
  }

  ghost predicate StartsAt(spans: seq<Span>, i: nat, n: nat) {
    i <= |spans| && n == |All(spans, i)|
  }

  lemma {:induction false} AllPrefix(spans: seq<Span>, s: Span, n: nat)
    requires n <= |spans|
    ensures All(spans + [s], n) == All(spans, n)
  {
    if n > 0 {
      AllPrefix(spans, s, n - 1);
      assert (spans + [s])[n - 1] == spans[n - 1];
    }
  }

  lemma TakesMore(spans: seq<Span>, taken: seq<Pos>, starts: seq<nat>, s: Span)
    requires Takes(spans, taken, starts)
    ensures var t := Collect(taken, BlockOf(s)); Takes(spans + [s], t, starts + [|t|])
  {
    var t := Collect(taken, BlockOf(s));
    var more, all := spans + [s], starts + [|t|];
    AllPrefix(spans, s, |spans|);
    assert All(more, |more|) == t;
    forall i | 0 <= i <= |more|
      ensures StartsAt(more, i, all[i])
    {
      if i <= |spans| {
        AllPrefix(spans, s, i);
        assert StartsAt(spans, i, starts[i]);
      }
    }
  }

  /** Takes, by name only. */
  type Taking = (seq<Span>, seq<Pos>, seq<nat>) -> bool

  ghost predicate Continues(so: Taking) {
    forall spans, taken, starts: seq<nat>, s {:trigger so(spans, taken, starts), Collect(taken, BlockOf(s))} ::
      so(spans, taken, starts) ==> so(spans + [s], Collect(taken, BlockOf(s)), starts + [|Collect(taken, BlockOf(s))|])
  }

  lemma TakesContinues(so: Taking)
    requires forall spans, taken, starts: seq<nat> :: so(spans, taken, starts) <==> Takes(spans, taken, starts)
    ensures Continues(so) && so([], [], [0])
  {
    forall spans, taken, starts: seq<nat>, s | so(spans, taken, starts)
      ensures so(spans + [s], Collect(taken, BlockOf(s)), starts + [|Collect(taken, BlockOf(s))|])
    {
      TakesMore(spans, taken, starts, s);
    }
    assert StartsAt([], 0, 0);
    assert Takes([], [], [0]);
  }

  lemma MappedGrows(blocks: seq<seq<nat>>, starts: seq<nat>, from: nat, to: nat)
    requires Mapped(blocks, starts) && from == starts[|blocks|] && from <= to
    ensures Mapped(blocks + [FromTo(from, to)], starts + [to])
  {
  }

  /** Cells for the first units, and the map to them. */
  ghost predicate Gridded(cells: array<Rect>, count: nat, blocks: seq<seq<nat>>, xs: seq<real>, ys: seq<real>,
                          taken: seq<Pos>, starts: seq<nat>)
    reads cells
  {
    Claiming(cells, count, xs, ys, taken) && Mapped(blocks, starts) && starts[|blocks|] == count == |taken|
  }

  /** Cells for one more unit. */
  method GridUnit(cells: array<Rect>, count: nat, blocks: seq<seq<nat>>, xs: seq<real>, ys: seq<real>, s: Span,
                  ghost spans: seq<Span>, ghost taken: seq<Pos>, ghost starts: seq<nat>, ghost so: Taking)
    returns (count': nat, blocks': seq<seq<nat>>, ghost taken': seq<Pos>, ghost starts': seq<nat>)
    requires Room(cells, xs, ys) && s.x1 < |xs| && s.y1 < |ys|
    requires Gridded(cells, count, blocks, xs, ys, taken, starts) && Continues(so) && so(spans, taken, starts)
    modifies cells
    ensures Gridded(cells, count', blocks', xs, ys, taken', starts') && so(spans + [s], taken', starts')
    ensures |blocks'| == |blocks| + 1
  {
    count', taken' := AddUnitCells(cells, count, xs, ys, s, taken);
    blocks' := blocks + [FromTo(count, count')];
    starts' := starts + [count'];
    MappedGrows(blocks, starts, count, count');
  }

  method GridUnits(units: array<Rect>, cells: array<Rect>, x: array<real>, xsize: nat, y: array<real>, ysize: nat,
                   ghost so: Taking, ghost find: Finder)
    returns (count: nat, blocks: seq<seq<nat>>, ghost spans: seq<Span>, ghost taken: seq<Pos>, ghost starts: seq<nat>)
    requires xsize <= x.Length && Lines(x[..xsize], units[..], units.Length, false)
    requires ysize <= y.Length && Lines(y[..ysize], units[..], units.Length, true)
    requires Room(cells, x[..xsize], y[..ysize]) && cells != units && Continues(so) && so([], [], [0])
    requires Halves(find)
    modifies cells
    ensures Gridded(cells, count, blocks, x[..xsize], y[..ysize], taken, starts) && so(spans, taken, starts)
    ensures |spans| == |blocks| == units.Length && Spanned(units[..], x[..xsize], y[..ysize], spans)
    ensures Searched(find, units[..], x[..xsize], y[..ysize], spans)
  {
    var xs, ys := x[..xsize], y[..ysize];
    count, blocks, spans, taken, starts := 0, [], [], [], [0];
    for i := 0 to units.Length
      invariant |spans| == |blocks| == i && Gridded(cells, count, blocks, xs, ys, taken, starts)
      invariant so(spans, taken, starts)
      invariant Spanned(units[..], xs, ys, spans) && Searched(find, units[..], xs, ys, spans)
    {
      assert Lined(xs, units[..][i], false) && Lined(ys, units[..][i], true);
      var s := FindSpan(x, xsize, y, ysize, units[i], find);
      count, blocks, taken, starts := GridUnit(cells, count, blocks, xs, ys, s, spans, taken, starts, so);
      spans := spans + [s];
    }
  }

  method GridAll(units: array<Rect>, cells: array<Rect>, x: array<real>, xsize: nat, y: array<real>, ysize: nat)
    returns (count: nat, blocks: seq<seq<nat>>, ghost spans: seq<Span>, ghost taken: seq<Pos>, ghost starts: seq<nat>,
             ghost find: Finder)
    requires xsize <= x.Length && Lines(x[..xsize], units[..], units.Length, false)
    requires ysize <= y.Length && Lines(y[..ysize], units[..], units.Length, true)
    requires Room(cells, x[..xsize], y[..ysize]) && cells != units
    modifies cells
    ensures Gridded(cells, count, blocks, x[..xsize], y[..ysize], taken, starts) && Takes(spans, taken, starts)
    ensures |spans| == |blocks| == units.Length && Spanned(units[..], x[..xsize], y[..ysize], spans)
    ensures Searched(find, units[..], x[..xsize], y[..ysize], spans)
  {
    ghost var so: Taking := (a: seq<Span>, b: seq<Pos>, c: seq<nat>) => Takes(a, b, c);
    TakesContinues(so);
    find := TheFinder();
    count, blocks, spans, taken, starts := GridUnits(units, cells, x, xsize, y, ysize, so, find);
  }

  /** The lines, and room for a cell at each position between them. */
  method Allocate(units: array<Rect>, x: array<real>, y: array<real>, ghost lx: seq<seq<real>>,
                  ghost ly: seq<seq<real>>)
    returns (xsize: nat, ysize: nat, cells: array<Rect>, overrun: bool)
    requires x != y && LinedBy(units[..], false, lx) && LinedBy(units[..], true, ly)
    modifies x, y
    ensures fresh(cells) && (overrun <==> |lx[units.Length]| > x.Length || |ly[units.Length]| > y.Length)
    ensures !overrun ==> xsize <= x.Length && x[..xsize] == lx[units.Length]
    ensures !overrun ==> ysize <= y.Length && y[..ysize] == ly[units.Length]
    ensures !overrun ==> Room(cells, lx[units.Length], ly[units.Length])
  {
    xsize, ysize, overrun := FindLines(units, x, y, lx, ly);
    if overrun {
      cells := new Rect[0];
      return;
    }
    BothEmpty(units[..], lx[units.Length], ly[units.Length]);
    cells := NewCells(xsize, ysize);
  }

  /** The grid is made, its cells are not as many as positions between lines, or there are more
      lines than places for them. */
  datatype Outcome = Created | Mismatch | Overrun

  /** What is made of the units along the lines xs and ys. */
  ghost predicate Made(units: seq<Rect>, cells: array<Rect>, count: nat, blocks: seq<seq<nat>>, xs: seq<real>,
                       ys: seq<real>, spans: seq<Span>, taken: seq<Pos>, starts: seq<nat>, find: Finder)
    reads cells
  {
    && Lines(xs, units, |units|, false) && Lines(ys, units, |units|, true) && |spans| == |blocks| == |units|
    && Spanned(units, xs, ys, spans) && Searched(find, units, xs, ys, spans) && Takes(spans, taken, starts)
    && Room(cells, xs, ys) && Gridded(cells, count, blocks, xs, ys, taken, starts)
  }

  method CreateLined(units: array<Rect>, x: array<real>, y: array<real>, ghost lx: seq<seq<real>>,
                     ghost ly: seq<seq<real>>)
    returns (outcome: Outcome, cells: array<Rect>, count: nat, blocks: seq<seq<nat>>, ghost spans: seq<Span>,
             ghost taken: seq<Pos>, ghost starts: seq<nat>, ghost find: Finder)
    requires x != y && LinedBy(units[..], false, lx) && LinedBy(units[..], true, ly)
    modifies x, y
    ensures fresh(cells)
    ensures outcome == Overrun <==> |lx[units.Length]| > x.Length || |ly[units.Length]| > y.Length
    ensures outcome != Overrun ==>
              Made(units[..], cells, count, blocks, lx[units.Length], ly[units.Length], spans, taken, starts, find)
    ensures outcome != Overrun ==> (outcome == Created <==> count == cells.Length)
  {
    var xsize, ysize, overrun;
    xsize, ysize, cells, overrun := Allocate(units, x, y, lx, ly);
    if overrun {
      find := TheFinder();
      return Overrun, cells, 0, [], [], [], [], find;
    }
    count, blocks, spans, taken, starts, find := GridAll(units, cells, x, xsize, y, ysize);
    outcome := if count == cells.Length then Created else Mismatch;
  }

  /** The grid of a floorplan: every lookup finds its line, and the cells never exceed their array. */
  method CreateGrid(units: array<Rect>, x: array<real>, y: array<real>)
    returns (outcome: Outcome, cells: array<Rect>, count: nat, blocks: seq<seq<nat>>,
             ghost lx: seq<seq<real>>, ghost ly: seq<seq<real>>, ghost spans: seq<Span>, ghost taken: seq<Pos>,
             ghost starts: seq<nat>, ghost find: Finder)
    requires x != y
    modifies x, y
    ensures fresh(cells) && LinedBy(units[..], false, lx) && LinedBy(units[..], true, ly)
    ensures outcome == Overrun <==> |lx[units.Length]| > x.Length || |ly[units.Length]| > y.Length
    ensures outcome != Overrun ==>
              Made(units[..], cells, count, blocks, lx[units.Length], ly[units.Length], spans, taken, starts, find)
    ensures outcome != Overrun ==> (outcome == Created <==> count == cells.Length)
  {
    lx := LiningOf(units[..], false);
    ly := LiningOf(units[..], true);
    outcome, cells, count, blocks, spans, taken, starts, find := CreateLined(units, x, y, lx, ly);
  }

  /** A floorplan without units fails the count: no cell for the one position that -1 times -1 gives. */
  method EmptyMismatches(x: array<real>, y: array<real>) returns (outcome: Outcome)
    requires x != y
    modifies x, y
    ensures outcome == Mismatch
  {
    var units := new Rect[0];
    var cells, count, blocks;
    ghost var lx, ly, spans, taken, starts, find;
    outcome, cells, count, blocks, lx, ly, spans, taken, starts, find := CreateGrid(units, x, y);
    assert units[..] == [];
  }

  /** There is a line if there is a unit, in either axis. */
  lemma BothEmpty(us: seq<Rect>, xs: seq<real>, ys: seq<real>)
    requires Lines(xs, us, |us|, false) && Lines(ys, us, |us|, true)
    ensures |xs| == 0 <==> |ys| == 0
  {
    if us != [] {
      assert Lined(xs, us[0], false) && Lined(ys, us[0], true);
    }
    if xs != [] {
      assert IsEdge(us, false, xs[0]);
    }
    if ys != [] {
      assert IsEdge(us, true, ys[0]);
    }
  }

  method NewCells(xsize: nat, ysize: nat) returns (cells: array<Rect>)
    requires xsize == 0 <==> ysize == 0
    ensures fresh(cells) && cells.Length == (xsize - 1) * (ysize - 1)
  {
    var n := (xsize - 1) * (ysize - 1);
    assert n >= 0;
    cells := new Rect[n](_ => Rect(0.0, 0.0, 0.0, 0.0));
  }
}
