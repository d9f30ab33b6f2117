/** Dot products and linear combinations of rows over the reals. */
module Vectors {

  type Vec = seq<real>

  function Dot(u: Vec, x: Vec, n: nat): real
    requires n <= |u| && n <= |x|
  {
    if n == 0 then 0.0 else Dot(u, x, n - 1) + u[n - 1] * x[n - 1]
  }

  /** The j-th entry of l[0] * rows[0] + ... + l[m - 1] * rows[m - 1]. */
  function Comb(l: Vec, rows: seq<Vec>, j: nat, m: nat): real
    requires m <= |l| && m <= |rows| && forall t :: 0 <= t < m ==> j < |rows[t]|
  {
    if m == 0 then 0.0 else Comb(l, rows, j, m - 1) + l[m - 1] * rows[m - 1][j]
  }

  predicate Square(a: seq<Vec>, n: nat) {
    |a| == n && forall i :: 0 <= i < n ==> |a[i]| == n
  }

  function Zeros(n: nat): (z: Vec)
    ensures |z| == n && forall i :: 0 <= i < n ==> z[i] == 0.0
  {
    seq(n, i => 0.0)
  }

  // ---------- dot products ----------

  lemma {:induction false} DotSame(u: Vec, v: Vec, x: Vec, y: Vec, n: nat)
    requires n <= |u| && n <= |v| && n <= |x| && n <= |y|
    requires forall j :: 0 <= j < n ==> u[j] == v[j] && x[j] == y[j]
    ensures Dot(u, x, n) == Dot(v, y, n)
  {
    if n > 0 {
      DotSame(u, v, x, y, n - 1);
    }
  }

  lemma {:induction false} DotZero(u: Vec, x: Vec, n: nat)
    requires n <= |u| && n <= |x| && forall j :: 0 <= j < n ==> u[j] == 0.0 || x[j] == 0.0
    ensures Dot(u, x, n) == 0.0
  {
    if n > 0 {
      DotZero(u, x, n - 1);
      assert u[n - 1] == 0.0 || x[n - 1] == 0.0;
    }
  }

  lemma {:induction false} DotUpdate(u: Vec, x: Vec, i: nat, v: real, n: nat)
    requires n <= |u| && n <= |x| && i < n
    ensures Dot(u, x[i := v], n) == Dot(u, x, n) + u[i] * (v - x[i])
  {
    if i < n - 1 {
      DotUpdate(u, x, i, v, n - 1);
    } else {
      DotSame(u, u, x[i := v], x, n - 1);
      assert u[i] * v == u[i] * x[i] + u[i] * (v - x[i]);
    }
  }

  /** Only entry i counts where all others vanish. */
  lemma DotSingle(u: Vec, x: Vec, i: nat, n: nat)
    requires n <= |u| && n <= |x| && i < n
    requires forall j :: 0 <= j < n && j != i ==> u[j] == 0.0 || x[j] == 0.0
    ensures Dot(u, x, n) == u[i] * x[i]
  {
    var y := x[i := 0.0];
    DotUpdate(u, y, i, x[i], n);
    assert y[i := x[i]] == x;
    DotZero(u, y, n);
  }

  lemma {:induction false} DotAdds(u: Vec, v: Vec, w: Vec, c: real, x: Vec, n: nat)
    requires n <= |u| && n <= |v| && n <= |w| && n <= |x|
    requires forall j :: 0 <= j < n ==> w[j] == u[j] + c * v[j]
    ensures Dot(w, x, n) == Dot(u, x, n) + c * Dot(v, x, n)
  {
    if n > 0 {
      DotAdds(u, v, w, c, x, n - 1);
      AddStep(u[n - 1], v[n - 1], w[n - 1], c, x[n - 1], Dot(v, x, n - 1));
    }
  }

  lemma AddStep(u: real, v: real, w: real, c: real, x: real, d: real)
    requires w == u + c * v
    ensures w * x + c * d == u * x + c * (d + v * x)
  {
    assert w * x == u * x + (c * v) * x;
    assert c * (d + v * x) == c * d + c * (v * x);
  }

  lemma {:induction false} DotScales(u: Vec, x: Vec, y: Vec, c: real, n: nat)
    requires n <= |u| && n <= |x| && n <= |y| && forall j :: 0 <= j < n ==> y[j] == c * x[j]
    ensures Dot(u, y, n) == c * Dot(u, x, n)
  {
    if n > 0 {
      DotScales(u, x, y, c, n - 1);
      var a, b := u[n - 1], x[n - 1];
      assert a * (c * b) == c * (a * b);
    }
  }

  // ---------- a combination of rows, applied to a vector ----------

  /** c combined with l over the rows' own products. */
  function CombDots(l: Vec, rows: seq<Vec>, x: Vec, m: nat, n: nat): real
    requires m <= |l| && m <= |rows| && n <= |x| && forall t :: 0 <= t < m ==> n <= |rows[t]|
  {
    if m == 0 then 0.0 else CombDots(l, rows, x, m - 1, n) + l[m - 1] * Dot(rows[m - 1], x, n)
  }

  function CombRow(l: Vec, rows: seq<Vec>, m: nat, n: nat): (r: Vec)
    requires m <= |l| && m <= |rows| && forall t :: 0 <= t < m ==> n <= |rows[t]|
    ensures |r| == n && forall j :: 0 <= j < n ==> r[j] == Comb(l, rows, j, m)
  {
    seq(n, j requires 0 <= j < n => Comb(l, rows, j, m))
  }

  lemma {:induction false} CombApplied(l: Vec, rows: seq<Vec>, x: Vec, m: nat, n: nat)
    requires m <= |l| && m <= |rows| && n <= |x| && forall t :: 0 <= t < m ==> n <= |rows[t]|
    ensures Dot(CombRow(l, rows, m, n), x, n) == CombDots(l, rows, x, m, n)
  {
    var r := CombRow(l, rows, m, n);
    if m == 0 {
      DotZero(r, x, n);
    } else {
      CombApplied(l, rows, x, m - 1, n);
      DotAdds(CombRow(l, rows, m - 1, n), rows[m - 1], r, l[m - 1], x, n);
    }
  }

  lemma {:induction false} CombSame(l: Vec, l': Vec, rows: seq<Vec>, rows': seq<Vec>, j: nat, m: nat)
    requires m <= |l| && m <= |rows| && m <= |l'| && m <= |rows'|
    requires forall t :: 0 <= t < m ==> j < |rows[t]| && j < |rows'[t]|
    requires forall t :: 0 <= t < m ==> l[t] == l'[t] && rows[t][j] == rows'[t][j]
    ensures Comb(l, rows, j, m) == Comb(l', rows', j, m)
  {
    if m > 0 {
      CombSame(l, l', rows, rows', j, m - 1);
    }
  }

  lemma {:induction false} CombDotsIs(l: Vec, rows: seq<Vec>, x: Vec, y: Vec, m: nat, n: nat)
    requires m <= |l| && m <= |rows| && n <= |x| && m <= |y|
    requires forall t :: 0 <= t < m ==> n <= |rows[t]| && Dot(rows[t], x, n) == y[t]
    ensures CombDots(l, rows, x, m, n) == Dot(l, y, m)
  {
    if m > 0 {
      CombDotsIs(l, rows, x, y, m - 1, n);
    }
  }
}
