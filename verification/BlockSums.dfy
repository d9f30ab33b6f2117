/** Blocks and cells cut each other up without loss: a block inside the chip is made up of its parts
    in the cells, and a cell of a tiled chip of its parts in the blocks. */
module BlockSums {
  import opened Shapes
  import opened Tilings
  import opened Extents
  import opened CoverAreas
  import opened CellRanges
  import opened BlockGrid
  import opened BlockLists

  // ---------- a block over all cells ----------

  function OverRow(s: Shares, k: nat, i: nat, m: nat): real {
    if m == 0 then 0.0 else OverRow(s, k, i, m - 1) + s(k, i, m - 1)
  }

  function OverCells(s: Shares, k: nat, cols: nat, m: nat): real {
    if m == 0 then 0.0 else OverCells(s, k, cols, m - 1) + OverRow(s, k, m - 1, cols)
  }

  lemma Distribute(a: real, x: real, y: real)
    ensures a * (x + y) == a * x + a * y && (x + y) * a == x * a + y * a
  {
  }

  /** A block's share is its height in the row times its width in the column. */
  ghost predicate Factors(s: Shares, k: nat, h: nat -> real, w: nat -> real, rows: nat, cols: nat) {
    forall i: nat, j: nat {:trigger s(k, i, j)} :: i < rows && j < cols ==> s(k, i, j) == h(i) * w(j)
  }

  function SumTo(f: nat -> real, m: nat): real {
    if m == 0 then 0.0 else SumTo(f, m - 1) + f(m - 1)
  }

  lemma {:induction false} RowFactors(s: Shares, k: nat, h: nat -> real, w: nat -> real, rows: nat, cols: nat, i: nat,
                                      m: nat)
    requires Factors(s, k, h, w, rows, cols) && i < rows && m <= cols
    ensures OverRow(s, k, i, m) == h(i) * SumTo(w, m)
    decreases m
  {
    if m > 0 {
      RowFactors(s, k, h, w, rows, cols, i, m - 1);
      Distribute(h(i), SumTo(w, m - 1), w(m - 1));
    }
  }

  lemma {:induction false} CellsFactor(s: Shares, k: nat, h: nat -> real, w: nat -> real, rows: nat, cols: nat, m: nat)
    requires Factors(s, k, h, w, rows, cols) && m <= rows
    ensures OverCells(s, k, cols, m) == SumTo(h, m) * SumTo(w, cols)
    decreases m
  {
    if m > 0 {
      CellsFactor(s, k, h, w, rows, cols, m - 1);
      RowFactors(s, k, h, w, rows, cols, m - 1, cols);
      Distribute(SumTo(w, cols), SumTo(h, m - 1), h(m - 1));
    }
  }

  lemma {:induction false} WidthsAre(w: nat -> real, lo: real, hi: real, size: real, m: nat)
    requires forall j :: w(j) == InCell(lo, hi, size, j)
    ensures SumTo(w, m) == InCells(lo, hi, size, m)
    decreases m
  {
    if m > 0 {
      WidthsAre(w, lo, hi, size, m - 1);
    }
  }

  /** From the top it is the same. */
  lemma {:induction false} HeightsAre(h: nat -> real, lo: real, hi: real, size: real, rows: nat, m: nat)
    requires m <= rows && forall i: nat :: i < rows ==> h(i) == InCell(lo, hi, size, rows - 1 - i)
    ensures SumTo(h, m) + InCells(lo, hi, size, rows - m) == InCells(lo, hi, size, rows)
    decreases m
  {
    if m > 0 {
      HeightsAre(h, lo, hi, size, rows, m - 1);
    }
  }

  lemma AxisFunctions(c: Cells, u: Rect) returns (h: nat -> real, w: nat -> real)
    ensures forall j :: w(j) == InCell(u.leftx, Right(u), c.cw, j)
    ensures forall i: nat :: i < c.rows ==> h(i) == InCell(u.bottomy, Top(u), c.ch, c.rows - 1 - i)
  {
    w := (j: nat) => InCell(u.leftx, Right(u), c.cw, j);
    h := (i: nat) => if i < c.rows then InCell(u.bottomy, Top(u), c.ch, c.rows - 1 - i) else 0.0;
  }

  lemma SharesFactor(c: Cells, us: seq<Rect>, s: Shares, k: nat, h: nat -> real, w: nat -> real)
    requires SharesAre(s, c, us) && k < |us|
    requires forall j :: w(j) == InCell(us[k].leftx, Right(us[k]), c.cw, j)
    requires forall i: nat :: i < c.rows ==> h(i) == InCell(us[k].bottomy, Top(us[k]), c.ch, c.rows - 1 - i)
    ensures Factors(s, k, h, w, c.rows, c.cols)
  {
    forall i: nat, j: nat | i < c.rows && j < c.cols
      ensures s(k, i, j) == h(i) * w(j)
    {
      assert s(k, i, j) == SharedArea(c, us[k], i, j);
    }
  }

  /** All parts of a block along each axis. */
  lemma AxesMadeUp(c: Cells, u: Rect) returns (h: nat -> real, w: nat -> real)
    requires Proper(c) && PositiveRect(u) && Inside(u, Outline(c))
    ensures forall j :: w(j) == InCell(u.leftx, Right(u), c.cw, j)
    ensures forall i: nat :: i < c.rows ==> h(i) == InCell(u.bottomy, Top(u), c.ch, c.rows - 1 - i)
    ensures SumTo(w, c.cols) == u.width && SumTo(h, c.rows) == u.height
  {
    h, w := AxisFunctions(c, u);
    WidthsAre(w, u.leftx, Right(u), c.cw, c.cols);
    PartsMakeUp(u.leftx, Right(u), c.cw, c.cols);
    HeightsAre(h, u.bottomy, Top(u), c.ch, c.rows, c.rows);
    PartsMakeUp(u.bottomy, Top(u), c.ch, c.rows);
  }

  lemma FactorsMadeUp(s: Shares, k: nat, h: nat -> real, w: nat -> real, rows: nat, cols: nat, u: Rect)
    requires Factors(s, k, h, w, rows, cols) && SumTo(w, cols) == u.width && SumTo(h, rows) == u.height
    ensures OverCells(s, k, cols, rows) == AreaOf(u)
  {
    CellsFactor(s, k, h, w, rows, cols, rows);
  }

  /** A block inside the chip is made up of its parts in the cells. */
  lemma BlockMadeUp(c: Cells, us: seq<Rect>, s: Shares, k: nat)
    requires Proper(c) && SharesAre(s, c, us) && k < |us| && PositiveRect(us[k]) && Inside(us[k], Outline(c))
    ensures OverCells(s, k, c.cols, c.rows) == AreaOf(us[k])
  {
    var h, w := AxesMadeUp(c, us[k]);
    SharesFactor(c, us, s, k, h, w);
    FactorsMadeUp(s, k, h, w, c.rows, c.cols, us[k]);
  }

  // ---------- all blocks over all cells ----------

  /** What the first n blocks give the cells of a row, and all cells. */
  function RowTotal(s: Shares, f: nat -> real, n: nat, i: nat, m: nat): real {
    if m == 0 then 0.0 else RowTotal(s, f, n, i, m - 1) + WeightedShares(s, f, n, i, m - 1)
  }

  function CellsTotal(s: Shares, f: nat -> real, n: nat, cols: nat, m: nat): real {
    if m == 0 then 0.0 else CellsTotal(s, f, n, cols, m - 1) + RowTotal(s, f, n, m - 1, cols)
  }

  lemma TotalStep(a: real, b: real, x: real, r: real, y: real, v: real)
    requires a == b + x * v
    ensures a + (r + y * v) == (b + r) + (x + y) * v
  {
    Distribute(v, x, y);
  }

  lemma {:induction false} RowTotalLast(s: Shares, f: nat -> real, n: nat, i: nat, m: nat)
    ensures RowTotal(s, f, n + 1, i, m) == RowTotal(s, f, n, i, m) + OverRow(s, n, i, m) * f(n)
    decreases m
  {
    if m > 0 {
      RowTotalLast(s, f, n, i, m - 1);
      TotalStep(RowTotal(s, f, n + 1, i, m - 1), RowTotal(s, f, n, i, m - 1), OverRow(s, n, i, m - 1),
                WeightedShares(s, f, n, i, m - 1), s(n, i, m - 1), f(n));
    }
  }

  /** Definitions, one step. */
  lemma CellsTotalStep(s: Shares, f: nat -> real, n: nat, cols: nat, m: nat) returns (before: real, row: real)
    ensures before == CellsTotal(s, f, n, cols, m) && row == RowTotal(s, f, n, m, cols)
    ensures CellsTotal(s, f, n, cols, m + 1) == before + row
  {
    before, row := CellsTotal(s, f, n, cols, m), RowTotal(s, f, n, m, cols);
  }

  lemma OverCellsStep(s: Shares, k: nat, cols: nat, m: nat) returns (before: real, row: real)
    ensures before == OverCells(s, k, cols, m) && row == OverRow(s, k, m, cols)
    ensures OverCells(s, k, cols, m + 1) == before + row
  {
    before, row := OverCells(s, k, cols, m), OverRow(s, k, m, cols);
  }

  lemma {:induction false} CellsTotalLast(s: Shares, f: nat -> real, n: nat, cols: nat, m: nat)
    ensures CellsTotal(s, f, n + 1, cols, m) == CellsTotal(s, f, n, cols, m) + OverCells(s, n, cols, m) * f(n)
    decreases m
  {
    if m > 0 {
      CellsTotalLast(s, f, n, cols, m - 1);
      RowTotalLast(s, f, n, m - 1, cols);
      var a, ra := CellsTotalStep(s, f, n + 1, cols, m - 1);
      var b, rb := CellsTotalStep(s, f, n, cols, m - 1);
      var x, y := OverCellsStep(s, n, cols, m - 1);
      TotalStep(a, b, x, rb, y, f(n));
    }
  }

  lemma {:induction false} NoRow(s: Shares, f: nat -> real, i: nat, m: nat)
    ensures RowTotal(s, f, 0, i, m) == 0.0
    decreases m
  {
    if m > 0 {
      NoRow(s, f, i, m - 1);
    }
  }

  lemma {:induction false} NoCells(s: Shares, f: nat -> real, cols: nat, m: nat)
    ensures CellsTotal(s, f, 0, cols, m) == 0.0
    decreases m
  {
    if m > 0 {
      NoCells(s, f, cols, m - 1);
      NoRow(s, f, m - 1, cols);
    }
  }

  /** p is density times area: nothing is lost or gained on the way to the cells. */
  lemma {:induction false} TotalKept(c: Cells, us: seq<Rect>, s: Shares, f: nat -> real, p: nat -> real, n: nat)
    requires Proper(c) && SharesAre(s, c, us) && AllPositive(us) && n <= |us| && AllInside(c, us, n)
    requires forall k :: 0 <= k < |us| ==> AreaOf(us[k]) * f(k) == p(k)
    ensures CellsTotal(s, f, n, c.cols, c.rows) == SumTo(p, n)
    decreases n
  {
    if n == 0 {
      NoCells(s, f, c.cols, c.rows);
    } else {
      TotalKept(c, us, s, f, p, n - 1);
      CellsTotalLast(s, f, n - 1, c.cols, c.rows);
      assert PositiveRect(us[n - 1]) && Inside(us[n - 1], Outline(c));
      BlockMadeUp(c, us, s, n - 1);
      assert AreaOf(us[n - 1]) * f(n - 1) == p(n - 1);
    }
  }

  // ---------- a cell over all blocks ----------

  /** The part of a rectangle within another. */
  function Clip(u: Rect, r: Rect): Rect {
    Rect(Max(u.leftx, r.leftx), Max(u.bottomy, r.bottomy),
         Common(u.leftx, Right(u), r.leftx, Right(r)), Common(u.bottomy, Top(u), r.bottomy, Top(r)))
  }

  lemma ClipHolds(u: Rect, r: Rect, px: real, py: real)
    ensures Holds(Clip(u, r), px, py) <==> Holds(u, px, py) && Holds(r, px, py)
  {
  }

  function Clips(us: seq<Rect>, r: Rect): (cs: seq<Rect>)
    ensures |cs| == |us| && forall k :: 0 <= k < |us| ==> cs[k] == Clip(us[k], r)
  {
    seq(|us|, k requires 0 <= k < |us| => Clip(us[k], r))
  }

  lemma {:induction false} ClipsCover(us: seq<Rect>, r: Rect, px: real, py: real)
    ensures Cover(Clips(us, r), px, py) == if Holds(r, px, py) then Cover(us, px, py) else 0
    decreases |us|
  {
    if us != [] {
      var n := |us| - 1;
      ClipsCover(us[..n], r, px, py);
      assert Clips(us, r)[..n] == Clips(us[..n], r);
      ClipHolds(us[n], r, px, py);
    }
  }

  /** Blocks that tile a chip tile each part of it, when cut to it. */
  lemma ClipsTile(us: seq<Rect>, box: Rect, r: Rect)
    requires Tiles(us, box) && PositiveRect(r) && Inside(r, box)
    ensures Tiles(Clips(us, r), r)
  {
    forall px, py
      ensures Cover(Clips(us, r), px, py) == Indicator(r, px, py)
    {
      ClipsCover(us, r, px, py);
      assert Cover(us, px, py) == Indicator(box, px, py);
    }
    CoverArea(Clips(us, r), r);
  }

  lemma {:induction false} SharesAreClips(c: Cells, us: seq<Rect>, s: Shares, i: nat, j: nat, n: nat, one: nat -> real)
    requires IsCell(c, i, j) && n <= |us| && (forall k :: one(k) == 1.0)
    requires forall k :: 0 <= k < |us| ==> s(k, i, j) == AreaOf(Clip(us[k], CellRect(c, i, j)))
    ensures WeightedShares(s, one, n, i, j) == TotalArea(Clips(us, CellRect(c, i, j))[..n])
    decreases n
  {
    if n > 0 {
      var cs := Clips(us, CellRect(c, i, j));
      SharesAreClips(c, us, s, i, j, n - 1, one);
      assert cs[..n][..n - 1] == cs[..n - 1];
      assert s(n - 1, i, j) == AreaOf(cs[n - 1]);
    }
  }

  lemma ShareIsClip(c: Cells, u: Rect, i: nat, j: nat)
    requires IsCell(c, i, j)
    ensures SharedArea(c, u, i, j) == AreaOf(Clip(u, CellRect(c, i, j)))
  {
    var r := CellRect(c, i, j);
    assert Clip(u, r).width == SharedWidth(c, u, j) && Clip(u, r).height == SharedHeight(c, u, i);
  }

  lemma CellInside(c: Cells, i: nat, j: nat)
    requires Proper(c) && IsCell(c, i, j)
    ensures PositiveRect(CellRect(c, i, j)) && Inside(CellRect(c, i, j), Outline(c))
    ensures AreaOf(CellRect(c, i, j)) == CellArea(c)
  {
    LinesAscend(0, j, c.cw);
    LinesAscend(j, c.cols, c.cw);
    LinesAscend(0, c.rows - 1 - i, c.ch);
    LinesAscend(c.rows - 1 - i, c.rows, c.ch);
  }

  /** In a tiled chip the blocks share each cell completely. */
  lemma CellFilled(c: Cells, us: seq<Rect>, s: Shares, i: nat, j: nat, one: nat -> real)
    requires Proper(c) && IsCell(c, i, j) && SharesAre(s, c, us) && Tiles(us, Outline(c)) && forall k :: one(k) == 1.0
    ensures WeightedShares(s, one, |us|, i, j) == CellArea(c)
  {
    var r := CellRect(c, i, j);
    CellInside(c, i, j);
    ClipsTile(us, Outline(c), r);
    forall k | 0 <= k < |us|
      ensures s(k, i, j) == AreaOf(Clip(us[k], r))
    {
      ShareIsClip(c, us[k], i, j);
      assert s(k, i, j) == SharedArea(c, us[k], i, j);
    }
    SharesAreClips(c, us, s, i, j, |us|, one);
    assert Clips(us, r)[..|us|] == Clips(us, r);
  }
}
