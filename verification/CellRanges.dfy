/** One axis of a uniform grid: which cells a stretch meets, and how much of each. */
module CellRanges {
  import opened Shapes

  /** The lower end of cell k when all cells have size w. */
  function Line(k: nat, w: real): real {
    if k == 0 then 0.0 else Line(k - 1, w) + w
  }

  lemma {:induction false} LineIs(k: nat, w: real)
    ensures Line(k, w) == k as real * w
  {
    if k > 0 {
      LineIs(k - 1, w);
      assert (k - 1) as real + 1.0 == k as real;
      Distribute((k - 1) as real, 1.0, w);
    }
  }

  lemma Distribute(a: real, b: real, w: real)
    ensures (a + b) * w == a * w + b * w
  {
  }

  lemma {:induction false} LinesAscend(j: nat, k: nat, w: real)
    requires j <= k && w > 0.0
    ensures Line(j, w) <= Line(k, w) && (j < k ==> Line(j, w) + w <= Line(k, w))
    decreases k
  {
    if j < k {
      LinesAscend(j, k - 1, w);
    }
  }

  /** n cells of a n-th each make up the whole. */
  lemma CellsMakeUp(n: nat, whole: real)
    requires n >= 1
    ensures Line(n, whole / n as real) == whole
  {
    LineIs(n, whole / n as real);
    Quotient(whole, n as real);
  }

  lemma Quotient(x: real, d: real)
    requires d > 0.0
    ensures d * (x / d) == x && (x > 0.0 ==> x / d > 0.0) && (x >= 0.0 ==> x / d >= 0.0)
  {
  }

  // ---------- rounding ----------

  /** Rounds down; numbers equal to an integer are that integer. */
  function TolerantFloor(x: real): int {
    var nearest := (x + 0.5).Floor;
    if x == nearest as real then nearest else x.Floor
  }

  function Ceil(x: real): int {
    -(-x).Floor
  }

  function TolerantCeil(x: real): int {
    var nearest := (x + 0.5).Floor;
    if x == nearest as real then nearest else Ceil(x)
  }

  lemma Rounding(x: real)
    ensures TolerantFloor(x) as real <= x < TolerantFloor(x) as real + 1.0
    ensures TolerantCeil(x) as real - 1.0 < x <= TolerantCeil(x) as real
  {
  }

  lemma TimesLess(a: real, b: real, w: real)
    requires w > 0.0
    ensures a < b ==> a * w < b * w
    ensures a <= b ==> a * w <= b * w
  {
    assert (b - a) * w == b * w - a * w;
    if a < b {
      Positive(b - a, w);
    }
  }

  lemma Positive(a: real, w: real)
    requires a > 0.0 && w > 0.0
    ensures a * w > 0.0
  {
  }

  lemma ScaledBelow(a: real, q: real, w: real, x: real)
    requires w > 0.0 && q * w == x
    ensures a <= q ==> a * w <= x
    ensures a < q ==> a * w < x
  {
    TimesLess(a, q, w);
  }

  lemma ScaledAbove(q: real, b: real, w: real, x: real)
    requires w > 0.0 && q * w == x
    ensures q <= b ==> x <= b * w
    ensures q < b ==> x < b * w
  {
    TimesLess(q, b, w);
  }

  lemma OneMore(a: real, b: real, w: real)
    requires b == a + 1.0
    ensures b * w == a * w + w
  {
    Distribute(a, 1.0, w);
  }

  lemma Scaled(a: real, q: real, b: real, w: real, x: real)
    requires w > 0.0 && w * q == x && b == a + 1.0
    ensures a <= q ==> a * w <= x
    ensures a < q ==> a * w < x
    ensures q <= b ==> x <= b * w
    ensures q < b ==> x < b * w
    ensures b * w == a * w + w
  {
    ScaledBelow(a, q, w, x);
    ScaledAbove(q, b, w, x);
    OneMore(a, b, w);
  }

  /** The line at or below x, in cells. */
  lemma FloorLine(x: real, w: real) returns (k: nat)
    requires x >= 0.0 && w > 0.0
    ensures k == TolerantFloor(x / w) && Line(k, w) <= x < Line(k, w) + w
  {
    var q := x / w;
    Quotient(x, w);
    Rounding(q);
    k := TolerantFloor(q);
    LineIs(k, w);
    Scaled(k as real, q, k as real + 1.0, w, x);
  }

  /** The line at or above x. */
  lemma CeilLine(x: real, w: real) returns (k: nat)
    requires x > 0.0 && w > 0.0
    ensures k == TolerantCeil(x / w) && k >= 1 && Line(k, w) - w < x <= Line(k, w)
  {
    var q := x / w;
    Quotient(x, w);
    Rounding(q);
    k := TolerantCeil(q);
    LineIs(k, w);
    Scaled(k as real - 1.0, q, k as real, w, x);
  }

  // ---------- overlap ----------

  /** Length that two stretches share. */
  function Common(lo: real, hi: real, a: real, b: real): (r: real)
    ensures r >= 0.0
  {
    Max(0.0, Min(hi, b) - Max(lo, a))
  }

  /** What of the stretch lies in cell k. */
  function InCell(lo: real, hi: real, w: real, k: nat): (r: real)
    ensures r >= 0.0
  {
    Common(lo, hi, Line(k, w), Line(k, w) + w)
  }

  function InCells(lo: real, hi: real, w: real, m: nat): real {
    if m == 0 then 0.0 else InCells(lo, hi, w, m - 1) + InCell(lo, hi, w, m - 1)
  }

  lemma {:induction false} InCellsIs(lo: real, hi: real, w: real, m: nat)
    requires 0.0 <= lo <= hi && w > 0.0
    ensures InCells(lo, hi, w, m) == Common(lo, hi, 0.0, Line(m, w))
  {
    if m > 0 {
      InCellsIs(lo, hi, w, m - 1);
      LinesAscend(0, m - 1, w);
    }
  }

  /** A stretch within the grid is made up of its parts in the cells. */
  lemma PartsMakeUp(lo: real, hi: real, w: real, n: nat)
    requires 0.0 <= lo <= hi <= Line(n, w) && w > 0.0
    ensures InCells(lo, hi, w, n) == hi - lo
  {
    InCellsIs(lo, hi, w, n);
  }

  /** The cells from a up to b are those the stretch meets. */
  ghost predicate IsRange(lo: real, hi: real, w: real, a: int, b: int) {
    0 <= a < b && Line(a, w) <= lo < Line(a, w) + w && Line(b, w) - w < hi <= Line(b, w)
  }

  lemma RangeOf(lo: real, hi: real, w: real, n: nat)
    requires 0.0 <= lo < hi <= Line(n, w) && w > 0.0
    ensures IsRange(lo, hi, w, TolerantFloor(lo / w), TolerantCeil(hi / w)) && TolerantCeil(hi / w) <= n
  {
    var a := FloorLine(lo, w);
    var b := CeilLine(hi, w);
    if b <= a {
      LinesAscend(b, a, w);
    }
    if n < b {
      LinesAscend(n, b - 1, w);
    }
  }

  /** Within the range the plain difference is the length shared, and is positive; strictly
      inside the range it is the whole cell. Outside nothing is shared. */
  lemma RangeParts(lo: real, hi: real, w: real, a: nat, b: nat, k: nat)
    requires lo < hi && w > 0.0 && IsRange(lo, hi, w, a, b)
    ensures a <= k < b ==> Min(hi, Line(k, w) + w) - Max(lo, Line(k, w)) == InCell(lo, hi, w, k) > 0.0
    ensures a < k < b - 1 ==> InCell(lo, hi, w, k) == w
    ensures !(a <= k < b) ==> InCell(lo, hi, w, k) == 0.0
  {
    if k < a {
      LinesAscend(k, a, w);
    } else if b <= k {
      LinesAscend(b, k, w);
    } else {
      LinesAscend(a, k, w);
      LinesAscend(k, b, w);
      if k < b - 1 {
        LinesAscend(k + 1, b, w);
      }
      assert Line(k + 1, w) == Line(k, w) + w;
    }
  }
}
