/** Between a grid and one with half as many rows and columns: power is added up, temperatures are
    interpolated. */
module Multigrid {
  import opened GridNetwork
  import opened SweepRuns

  // ---------- restricting power ----------

  /** The four cells of the fine grid that make up a cell of the coarse one. */
  function FourOf(t: Field, n: nat, i: nat, j: nat): real {
    t(Cell(n, 2 * i, 2 * j)) + t(Cell(n, 2 * i + 1, 2 * j)) + t(Cell(n, 2 * i, 2 * j + 1))
      + t(Cell(n, 2 * i + 1, 2 * j + 1))
  }

  ghost predicate IsFour(coarse: Field, fine: Field, n: nat, i: nat, j: nat) {
    coarse(Cell(n, i, j)) == FourOf(fine, n, i, j)
  }

  function RowSum(t: Field, n: nat, i: nat, m: nat): real {
    if m == 0 then 0.0 else RowSum(t, n, i, m - 1) + t(Cell(n, i, m - 1))
  }

  function LayerSum(t: Field, n: nat, cols: nat, m: nat): real {
    if m == 0 then 0.0 else LayerSum(t, n, cols, m - 1) + RowSum(t, n, m - 1, cols)
  }

  function CellSum(t: Field, rows: nat, cols: nat, m: nat): real {
    if m == 0 then 0.0 else CellSum(t, rows, cols, m - 1) + LayerSum(t, m - 1, cols, rows)
  }

  /** The coarse field has everywhere the sum of the four, and the same package nodes. */
  ghost predicate Restricted(layers: nat, rows: nat, cols: nat, coarse: Field, fine: Field) {
    && (forall n, i, j :: 0 <= n < layers && 0 <= i < rows && 0 <= j < cols ==> IsFour(coarse, fine, n, i, j))
    && (forall k :: 0 <= k < EXTRA ==> coarse(Extra(k)) == fine(Extra(k)))
  }

  lemma {:induction false} RowRestricts(coarse: Field, fine: Field, n: nat, i: nat, cols: nat, m: nat)
    requires m <= cols && forall j :: 0 <= j < cols ==> IsFour(coarse, fine, n, i, j)
    ensures RowSum(coarse, n, i, m) == RowSum(fine, n, 2 * i, 2 * m) + RowSum(fine, n, 2 * i + 1, 2 * m)
    decreases m
  {
    if m > 0 {
      RowRestricts(coarse, fine, n, i, cols, m - 1);
      assert IsFour(coarse, fine, n, i, m - 1);
      TwoMore(fine, n, 2 * i, m - 1);
      TwoMore(fine, n, 2 * i + 1, m - 1);
    }
  }

  lemma TwoMore(t: Field, n: nat, i: nat, m: nat)
    ensures RowSum(t, n, i, 2 * (m + 1)) == RowSum(t, n, i, 2 * m) + t(Cell(n, i, 2 * m)) + t(Cell(n, i, 2 * m + 1))
  {
    assert RowSum(t, n, i, 2 * m + 1) == RowSum(t, n, i, 2 * m) + t(Cell(n, i, 2 * m));
  }

  lemma TwoRows(t: Field, n: nat, cols: nat, m: nat)
    ensures LayerSum(t, n, cols, 2 * (m + 1)) ==
            LayerSum(t, n, cols, 2 * m) + RowSum(t, n, 2 * m, cols) + RowSum(t, n, 2 * m + 1, cols)
  {
    assert LayerSum(t, n, cols, 2 * m + 1) == LayerSum(t, n, cols, 2 * m) + RowSum(t, n, 2 * m, cols);
  }

  lemma {:induction false} LayerRestricts(layers: nat, rows: nat, cols: nat, coarse: Field, fine: Field, n: nat, m: nat)
    requires Restricted(layers, rows, cols, coarse, fine) && n < layers && m <= rows
    ensures LayerSum(coarse, n, cols, m) == LayerSum(fine, n, 2 * cols, 2 * m)
    decreases m
  {
    if m > 0 {
      LayerRestricts(layers, rows, cols, coarse, fine, n, m - 1);
      RowRestricts(coarse, fine, n, m - 1, cols, cols);
      TwoRows(fine, n, 2 * cols, m - 1);
    }
  }

  /** No power is lost or gained. */
  lemma {:induction false} PowerConserved(layers: nat, rows: nat, cols: nat, coarse: Field, fine: Field, m: nat)
    requires Restricted(layers, rows, cols, coarse, fine) && m <= layers
    ensures CellSum(coarse, rows, cols, m) == CellSum(fine, 2 * rows, 2 * cols, m)
    decreases m
  {
    if m > 0 {
      PowerConserved(layers, rows, cols, coarse, fine, m - 1);
      LayerRestricts(layers, rows, cols, coarse, fine, m - 1, rows);
    }
  }

  ghost predicate Sums(dst: array3<real>, src: array3<real>, n: nat, i: nat, j: nat)
    requires dst.Length0 == src.Length0 && 2 * dst.Length1 <= src.Length1 && 2 * dst.Length2 <= src.Length2
    requires n < dst.Length0 && i < dst.Length1 && j < dst.Length2
    reads dst, src
  {
    dst[n, i, j] == src[n, 2 * i, 2 * j] + src[n, 2 * i + 1, 2 * j] + src[n, 2 * i, 2 * j + 1]
      + src[n, 2 * i + 1, 2 * j + 1]
  }

  ghost predicate SumsBefore(dst: array3<real>, src: array3<real>, n: nat, i: nat, j: nat)
    requires dst.Length0 == src.Length0 && 2 * dst.Length1 <= src.Length1 && 2 * dst.Length2 <= src.Length2
    reads dst, src
  {
    forall x, y, z ::
      0 <= x < dst.Length0 && 0 <= y < dst.Length1 && 0 <= z < dst.Length2 && CellsBefore(n, i, j)(Cell(x, y, z))
      ==> Sums(dst, src, x, y, z)
  }

  /** Adds up the four nearest cells. */
  method RestrictCells(dst: array3<real>, src: array3<real>)
    requires dst.Length0 == src.Length0 && 2 * dst.Length1 <= src.Length1 && 2 * dst.Length2 <= src.Length2
    requires dst != src
    modifies dst
    ensures SumsBefore(dst, src, dst.Length0, 0, 0)
  {
    for n := 0 to dst.Length0
      invariant SumsBefore(dst, src, n, 0, 0)
    {
      for i := 0 to dst.Length1
        invariant SumsBefore(dst, src, n, i, 0)
      {
        for j := 0 to dst.Length2
          invariant SumsBefore(dst, src, n, i, j)
        {
          dst[n, i, j] := src[n, 2 * i, 2 * j] + src[n, 2 * i + 1, 2 * j] + src[n, 2 * i, 2 * j + 1]
            + src[n, 2 * i + 1, 2 * j + 1];
        }
      }
    }
  }

  method CopyExtra(dst: array<real>, src: array<real>)
    requires dst.Length == src.Length && dst != src
    modifies dst
    ensures dst[..] == src[..]
  {
    for k := 0 to dst.Length
      invariant forall i :: 0 <= i < k ==> dst[i] == src[i]
    {
      dst[k] := src[k];
    }
  }

  // ---------- prolonging temperatures ----------

  /** The coarse cell nearest to a fine one, and the next nearest, along one axis. */
  function Near(i: nat): nat {
    i / 2
  }

  function Next(i: nat): nat
    requires i >= 1
  {
    if i % 2 == 1 then i / 2 + 1 else i / 2 - 1
  }

  predicate Inner(i: nat, rows: nat) {
    0 < i < 2 * rows - 1
  }

  /** Weights three to one along each axis; on the boundary the nearest cell alone. */
  function Blend(s: Field, n: nat, rows: nat, cols: nat, i: nat, j: nat): real {
    if Inner(i, rows) && Inner(j, cols)
    then Weigh(s(Cell(n, Near(i), Near(j))), s(Cell(n, Next(i), Near(j))), s(Cell(n, Near(i), Next(j))),
               s(Cell(n, Next(i), Next(j))))
    else s(Cell(n, Near(i), Near(j)))
  }

  function Weigh(a: real, b: real, c: real, d: real): real {
    9.0 / 16.0 * a + 3.0 / 16.0 * b + 3.0 / 16.0 * c + 1.0 / 16.0 * d
  }

  lemma WeighBetween(a: real, b: real, c: real, d: real, lo: real, hi: real)
    requires lo <= a <= hi && lo <= b <= hi && lo <= c <= hi && lo <= d <= hi
    ensures lo <= Weigh(a, b, c, d) <= hi
  {
  }

  /** A fine cell lies between any bounds of the coarse ones: it is a convex combination. */
  lemma BlendBetween(s: Field, n: nat, rows: nat, cols: nat, i: nat, j: nat, lo: real, hi: real)
    requires i < 2 * rows && j < 2 * cols
    requires forall x, y :: 0 <= x < rows && 0 <= y < cols ==> lo <= s(Cell(n, x, y)) <= hi
    ensures lo <= Blend(s, n, rows, cols, i, j) <= hi
  {
    if Inner(i, rows) && Inner(j, cols) {
      assert Near(i) < rows && Near(j) < cols && Next(i) < rows && Next(j) < cols;
      WeighBetween(s(Cell(n, Near(i), Near(j))), s(Cell(n, Next(i), Near(j))), s(Cell(n, Near(i), Next(j))),
                   s(Cell(n, Next(i), Next(j))), lo, hi);
    }
  }

  // ---------- what prolonging is exact for ----------

  /** p + q x + r y + s x y */
  function Bilinear(p: real, q: real, r: real, s: real, x: real, y: real): real {
    p + q * x + r * y + s * (x * y)
  }

  /** The middle of fine cell i, in coarse cells: cell 0 has its middle at 0. */
  function MiddleOf(i: nat): real {
    (2.0 * i as real - 1.0) / 4.0
  }

  /** A fine cell lies three times as far from the next coarse cell as from the nearest. */
  lemma MiddleIs(i: nat)
    requires i >= 1
    ensures 4.0 * MiddleOf(i) == 3.0 * Near(i) as real + Next(i) as real
  {
  }

  lemma FourProducts(a: real, b: real, c: real, d: real, x: real, y: real)
    requires 4.0 * x == 3.0 * a + b && 4.0 * y == 3.0 * c + d
    ensures 16.0 * (x * y) == 9.0 * (a * c) + 3.0 * (b * c) + 3.0 * (a * d) + b * d
  {
    assert 16.0 * (x * y) == (4.0 * x) * (4.0 * y);
    assert (3.0 * a + b) * (3.0 * c + d) == 9.0 * (a * c) + 3.0 * (b * c) + 3.0 * (a * d) + b * d;
  }

  lemma WeighSum(p: real, q: real, r: real, s: real, a: real, b: real, c: real, d: real, x: real, y: real,
                 ac: real, bc: real, ad: real, bd: real, xy: real)
    requires 4.0 * x == 3.0 * a + b && 4.0 * y == 3.0 * c + d
    requires 16.0 * xy == 9.0 * ac + 3.0 * bc + 3.0 * ad + bd
    ensures Weigh(p + q * a + r * c + s * ac, p + q * b + r * c + s * bc, p + q * a + r * d + s * ad,
                  p + q * b + r * d + s * bd) == p + q * x + r * y + s * xy
  {
    Scaled(q, 3.0 * a + b, x);
    Scaled(r, 3.0 * c + d, y);
    Sixteenth(s, ac, bc, ad, bd, xy);
    assert q * (3.0 * a + b) == 3.0 * (q * a) + q * b;
    assert r * (3.0 * c + d) == 3.0 * (r * c) + r * d;
  }

  lemma Scaled(q: real, m: real, x: real)
    requires 4.0 * x == m
    ensures 4.0 * (q * x) == q * m
  {
    assert q * (4.0 * x) == 4.0 * (q * x);
  }

  lemma Sixteenth(s: real, ac: real, bc: real, ad: real, bd: real, xy: real)
    requires 16.0 * xy == 9.0 * ac + 3.0 * bc + 3.0 * ad + bd
    ensures 16.0 * (s * xy) == 9.0 * (s * ac) + 3.0 * (s * bc) + 3.0 * (s * ad) + s * bd
  {
    assert s * (16.0 * xy) == 16.0 * (s * xy);
    assert s * (9.0 * ac + 3.0 * bc + 3.0 * ad + bd) == 9.0 * (s * ac) + 3.0 * (s * bc) + 3.0 * (s * ad) + s * bd;
  }

  lemma WeighBilinear(p: real, q: real, r: real, s: real, a: real, b: real, c: real, d: real, x: real, y: real)
    requires 4.0 * x == 3.0 * a + b && 4.0 * y == 3.0 * c + d
    ensures Weigh(Bilinear(p, q, r, s, a, c), Bilinear(p, q, r, s, b, c), Bilinear(p, q, r, s, a, d),
                  Bilinear(p, q, r, s, b, d)) == Bilinear(p, q, r, s, x, y)
  {
    FourProducts(a, b, c, d, x, y);
    WeighSum(p, q, r, s, a, b, c, d, x, y, a * c, b * c, a * d, b * d, x * y);
  }

  ghost predicate IsBilinear(t: Field, n: nat, rows: nat, cols: nat, p: real, q: real, r: real, s: real) {
    forall x, y :: 0 <= x < rows && 0 <= y < cols ==> t(Cell(n, x, y)) == Bilinear(p, q, r, s, x as real, y as real)
  }

  /** Inner fine cells take a bilinear coarse field's own values at their middles. */
  lemma BlendExact(t: Field, n: nat, rows: nat, cols: nat, i: nat, j: nat, p: real, q: real, r: real, s: real)
    requires IsBilinear(t, n, rows, cols, p, q, r, s) && Inner(i, rows) && Inner(j, cols)
    ensures Blend(t, n, rows, cols, i, j) == Bilinear(p, q, r, s, MiddleOf(i), MiddleOf(j))
  {
    var a, b, c, d := Near(i), Next(i), Near(j), Next(j);
    assert a < rows && b < rows && c < cols && d < cols;
    MiddleIs(i);
    MiddleIs(j);
    WeighBilinear(p, q, r, s, a as real, b as real, c as real, d as real, MiddleOf(i), MiddleOf(j));
  }

  /** Fine cells on the boundary take the value of the coarse cell they are a quarter of. */
  lemma BoundaryIsOwn(t: Field, n: nat, rows: nat, cols: nat, i: nat, j: nat, x: nat, y: nat)
    requires 2 * x <= i < 2 * x + 2 && 2 * y <= j < 2 * y + 2 && !(Inner(i, rows) && Inner(j, cols))
    ensures Blend(t, n, rows, cols, i, j) == t(Cell(n, x, y))
  {
    assert Near(i) == x && Near(j) == y;
  }
}
