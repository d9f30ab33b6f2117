/** The temperature of a block from those of its cells, in the four modes. */
module CellsToBlocks {
  import opened Tilings
  import opened CellRanges
  import opened BlockGrid
  import opened BlockLists
  import opened BlockTranslate

  datatype MapMode = Average | Minimum | Maximum | Center

  /** A range of cells of g. */
  ghost predicate Within(g: array2<real>, r: CellRange) {
    0 <= r.i1 < r.i2 <= g.Length0 && 0 <= r.j1 < r.j2 <= g.Length1
  }

  /** All cells of the range lie between lo and hi. */
  ghost predicate Bounded(g: array2<real>, r: CellRange, lo: real, hi: real)
    requires Within(g, r)
    reads g
  {
    forall i, j :: r.i1 <= i < r.i2 && r.j1 <= j < r.j2 ==> lo <= g[i, j] <= hi
  }

  ghost predicate Attained(g: array2<real>, r: CellRange, t: real)
    requires Within(g, r)
    reads g
  {
    exists i, j :: r.i1 <= i < r.i2 && r.j1 <= j < r.j2 && g[i, j] == t
  }

  // ---------- sums and counts ----------

  ghost function RowPart(g: array2<real>, i: nat, j1: nat, j: nat): real
    requires i < g.Length0 && j1 <= j <= g.Length1
    reads g
    decreases j
  {
    if j == j1 then 0.0 else RowPart(g, i, j1, j - 1) + g[i, j - 1]
  }

  ghost function RangePart(g: array2<real>, r: CellRange, i: int): real
    requires Within(g, r) && r.i1 <= i <= r.i2
    reads g
    decreases i
  {
    if i == r.i1 then 0.0 else RangePart(g, r, i - 1) + RowPart(g, i - 1, r.j1, r.j2)
  }

  lemma {:induction false} RowBetween(g: array2<real>, r: CellRange, i: nat, j: nat, lo: real, hi: real)
    requires Within(g, r) && Bounded(g, r, lo, hi) && r.i1 <= i < r.i2 && r.j1 <= j <= r.j2
    ensures lo * (j - r.j1) as real <= RowPart(g, i, r.j1, j) <= hi * (j - r.j1) as real
    decreases j
  {
    if j > r.j1 {
      RowBetween(g, r, i, j - 1, lo, hi);
      OneMore(lo, j - 1 - r.j1);
      OneMore(hi, j - 1 - r.j1);
    }
  }

  lemma OneMore(x: real, n: nat)
    ensures x * (n + 1) as real == x * n as real + x
  {
    assert (n + 1) as real == n as real + 1.0;
  }

  lemma BetweenStep(lo: real, hi: real, m: nat, w: nat, sum: real, row: real, n: nat)
    requires lo * m as real <= sum <= hi * m as real && lo * w as real <= row <= hi * w as real && n == m + w
    ensures lo * n as real <= sum + row <= hi * n as real
  {
    assert n as real == m as real + w as real;
    Sums(lo, m as real, w as real);
    Sums(hi, m as real, w as real);
  }

  lemma Sums(x: real, m: real, w: real)
    ensures x * (m + w) == x * m + x * w
  {
  }

  lemma {:induction false} RangeBetween(g: array2<real>, r: CellRange, i: int, n: nat, w: nat, lo: real, hi: real)
    requires Within(g, r) && Bounded(g, r, lo, hi) && r.i1 <= i <= r.i2 && w == r.j2 - r.j1 && n == (i - r.i1) * w
    ensures lo * n as real <= RangePart(g, r, i) <= hi * n as real
    decreases i
  {
    if i > r.i1 {
      var m := (i - 1 - r.i1) * w;
      RowOfCells(i - 1 - r.i1, w);
      RangeBetween(g, r, i - 1, m, w, lo, hi);
      RowBetween(g, r, i - 1, r.j2, lo, hi);
      BetweenStep(lo, hi, m, w, RangePart(g, r, i - 1), RowPart(g, i - 1, r.j1, r.j2), n);
    }
  }

  lemma RowOfCells(k: nat, w: nat)
    ensures (k + 1) * w == k * w + w
  {
  }

  lemma AverageBetween(sum: real, n: real, lo: real, hi: real)
    requires n > 0.0 && lo * n <= sum <= hi * n
    ensures lo <= sum / n <= hi
  {
    Quotient(sum, n);
    var q := sum / n;
    if q < lo {
      TimesLess(q, lo, n);
    }
    if hi < q {
      TimesLess(hi, q, n);
    }
  }

  // ---------- the modes ----------

  /** Sum, minimum and maximum so far: rows before i, and in row i the columns before j. */
  ghost predicate SeenIn(g: array2<real>, r: CellRange, i: int, j: int, min: real, max: real)
    requires Within(g, r)
    reads g
  {
    && Attained(g, r, min) && Attained(g, r, max)
    && forall a, b :: r.i1 <= a < r.i2 && r.j1 <= b < r.j2 && (a < i || (a == i && b < j)) ==> min <= g[a, b] <= max
  }

  /** One row of a range. */
  method ScanRow(g: array2<real>, r: CellRange, i: nat, sum0: real, min0: real, max0: real, count0: nat)
    returns (sum: real, min: real, max: real, count: nat)
    requires Within(g, r) && r.i1 <= i < r.i2 && SeenIn(g, r, i, r.j1, min0, max0)
    ensures sum == sum0 + RowPart(g, i, r.j1, r.j2) && count == count0 + (r.j2 - r.j1)
    ensures SeenIn(g, r, i + 1, r.j1, min, max)
  {
    sum, min, max, count := sum0, min0, max0, count0;
    for j := r.j1 to r.j2
      invariant sum == sum0 + RowPart(g, i, r.j1, j) && count == count0 + (j - r.j1) && SeenIn(g, r, i, j, min, max)
    {
      sum := sum + g[i, j];
      if g[i, j] < min {
        min := g[i, j];
      }
      if g[i, j] > max {
        max := g[i, j];
      }
      count := count + 1;
    }
  }

  /** Sum, minimum, maximum and number of the cells of a range. */
  method Scan(g: array2<real>, r: CellRange) returns (sum: real, min: real, max: real, count: nat)
    requires Within(g, r)
    ensures sum == RangePart(g, r, r.i2) && count == (r.i2 - r.i1) * (r.j2 - r.j1)
    ensures Bounded(g, r, min, max) && Attained(g, r, min) && Attained(g, r, max)
  {
    sum, count := 0.0, 0;
    min, max := g[r.i1, r.j1], g[r.i1, r.j1];
    for i := r.i1 to r.i2
      invariant sum == RangePart(g, r, i) && count == (i - r.i1) * (r.j2 - r.j1) && SeenIn(g, r, i, r.j1, min, max)
    {
      RowOfCells(i - r.i1, r.j2 - r.j1);
      sum, min, max, count := ScanRow(g, r, i, sum, min, max, count);
    }
  }

  /** The one or two middle positions from a up to b. */
  function Middle(a: int, b: int): int {
    (a + b) / 2
  }

  function OtherMiddle(a: int, b: int): int {
    Middle(a, b) - if (b - a) % 2 == 0 then 1 else 0
  }

  lemma MiddleInside(a: int, b: int)
    requires a < b
    ensures a <= OtherMiddle(a, b) <= Middle(a, b) < b && OtherMiddle(a, b) - a == b - 1 - Middle(a, b)
    ensures Middle(a, b) - OtherMiddle(a, b) <= 1
  {
  }

  /** Average of the cells around the centre. */
  method CentreOf(g: array2<real>, r: CellRange) returns (t: real)
    requires Within(g, r)
    ensures var a, b, c, d := Middle(r.i1, r.i2), OtherMiddle(r.i1, r.i2), Middle(r.j1, r.j2), OtherMiddle(r.j1, r.j2);
            && r.i1 <= b <= a < r.i2 && r.j1 <= d <= c < r.j2
            && a - b <= 1 && b - r.i1 == r.i2 - 1 - a && c - d <= 1 && d - r.j1 == r.j2 - 1 - c
            && t == (g[a, c] + g[b, c] + g[a, d] + g[b, d]) / 4.0
    ensures forall lo, hi :: Bounded(g, r, lo, hi) ==> lo <= t <= hi
  {
    MiddleInside(r.i1, r.i2);
    MiddleInside(r.j1, r.j2);
    var a, c := (r.i1 + r.i2) / 2, (r.j1 + r.j2) / 2;
    var b := a - if (r.i2 - r.i1) % 2 == 0 then 1 else 0;
    var d := c - if (r.j2 - r.j1) % 2 == 0 then 1 else 0;
    t := (g[a, c] + g[b, c] + g[a, d] + g[b, d]) / 4.0;
  }

  /** What a mode makes of the cells of a block. */
  ghost predicate IsMapped(g: array2<real>, r: CellRange, mode: MapMode, t: real)
    requires Within(g, r)
    reads g
  {
    match mode
    case Average => t * ((r.i2 - r.i1) * (r.j2 - r.j1)) as real == RangePart(g, r, r.i2)
    case Minimum => Attained(g, r, t) && exists max :: Bounded(g, r, t, max)
    case Maximum => Attained(g, r, t) && exists min :: Bounded(g, r, min, t)
    case Center =>
      var a, b, c, d := Middle(r.i1, r.i2), OtherMiddle(r.i1, r.i2), Middle(r.j1, r.j2), OtherMiddle(r.j1, r.j2);
      && r.i1 <= b <= a < r.i2 && r.j1 <= d <= c < r.j2
      && t == (g[a, c] + g[b, c] + g[a, d] + g[b, d]) / 4.0
  }

  lemma CountPositive(n: nat, w: nat)
    requires n >= 1 && w >= 1
    ensures n * w >= 1
  {
    RowOfCells(n - 1, w);
  }

  /** t is what the mode makes of the cells, and lies between the lowest and the highest of them. */
  ghost predicate BlockOk(g: array2<real>, r: CellRange, mode: MapMode, t: real)
    reads g
  {
    && Within(g, r) && IsMapped(g, r, mode, t)
    && forall lo, hi :: Bounded(g, r, lo, hi) ==> lo <= t <= hi
  }

  method BlockTemp(g: array2<real>, r: CellRange, mode: MapMode) returns (t: real)
    requires Within(g, r)
    ensures BlockOk(g, r, mode, t)
  {
    if mode == Center {
      t := CentreOf(g, r);
      return;
    }
    var sum, min, max, count := Scan(g, r);
    match mode {
      case Average =>
        t := MeanOf(g, r, sum, count);
      case Minimum =>
        ExtremeOk(g, r, min, max);
        t := min;
      case Maximum =>
        ExtremeOk(g, r, min, max);
        t := max;
    }
  }

  lemma ExtremeOk(g: array2<real>, r: CellRange, min: real, max: real)
    requires Within(g, r) && Bounded(g, r, min, max) && Attained(g, r, min) && Attained(g, r, max)
    ensures BlockOk(g, r, Minimum, min) && BlockOk(g, r, Maximum, max)
  {
  }

  method MeanOf(ghost g: array2<real>, ghost r: CellRange, sum: real, count: nat) returns (t: real)
    requires Within(g, r) && sum == RangePart(g, r, r.i2) && count == (r.i2 - r.i1) * (r.j2 - r.j1)
    ensures BlockOk(g, r, Average, t)
  {
    CountPositive(r.i2 - r.i1, r.j2 - r.j1);
    t := sum / count as real;
    Quotient(sum, count as real);
    forall lo, hi | Bounded(g, r, lo, hi)
      ensures lo <= t <= hi
    {
      RangeBetween(g, r, r.i2, count, r.j2 - r.j1, lo, hi);
      AverageBetween(sum, count as real, lo, hi);
    }
  }

  lemma UniformBlock(g: array2<real>, r: CellRange, mode: MapMode, x: real, t: real)
    requires BlockOk(g, r, mode, x) && UniformCells(g, t)
    ensures x == t
  {
    assert Bounded(g, r, t, t);
  }

  /** Temperatures of all blocks. Where all cells have the same, so has every block. */
  method TempToBlocks(c: Cells, us: seq<Rect>, ranges: array<CellRange>, g: array2<real>, mode: MapMode, b: array<real>)
    requires Ranged(ranges[..], c, us, |us|) && b.Length == ranges.Length == |us| && g.Length0 == c.rows
    requires g.Length1 == c.cols
    modifies b
    ensures forall k :: 0 <= k < |us| ==> BlockOk(g, ranges[k], mode, b[k])
    ensures forall t :: UniformCells(g, t) ==> Uniform(b[..], t)
  {
    for k := 0 to |us|
      invariant forall m :: 0 <= m < k ==> BlockOk(g, ranges[m], mode, b[m])
    {
      assert IsRangeOf(c, us[k], ranges[..][k]);
      var t := BlockTemp(g, ranges[k], mode);
      b[k] := t;
    }
    forall t, k | UniformCells(g, t) && 0 <= k < |us|
      ensures b[k] == t
    {
      UniformBlock(g, ranges[k], mode, b[k], t);
    }
  }
}
