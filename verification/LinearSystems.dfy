/** What a decomposition says about the linear system: solutions, kernels and pivots. */
module LinearSystems {
  import opened Vectors
  import opened Permutations
  import opened Elimination

  /** m x = b, row by row. */
  ghost predicate Solves(m: seq<Vec>, x: Vec, b: Vec, n: nat)
    requires Square(m, n) && |x| == n && |b| == n
  {
    forall i :: 0 <= i < n ==> Dot(m[i], x, n) == b[i]
  }

  /** Only the zero vector is mapped to zero. */
  ghost predicate TrivialKernel(m: seq<Vec>, n: nat)
    requires Square(m, n)
  {
    forall x: Vec :: |x| == n && Solves(m, x, Zeros(n), n) ==> x == Zeros(n)
  }

  /** The first n - 1 columns are independent: only the zero vector is mapped to zero among those
      that do not use the last column. */
  ghost predicate LeadingIndependent(m: seq<Vec>, n: nat)
    requires Square(m, n)
  {
    forall x: Vec :: |x| == n > 0 && x[n - 1] == 0.0 && Solves(m, x, Zeros(n), n) ==> x == Zeros(n)
  }

  // ---------- the stage equation, applied to a vector ----------

  lemma StageApplied(a: seq<Vec>, p: seq<nat>, m: seq<Vec>, u: seq<Vec>, n: nat, k: nat, x: Vec, i: nat)
    requires Stage(a, p, m, n, k) && u == Upper(m, n, k) && |x| == n && i < n
    ensures Dot(a[p[i]], x, n) == CombDots(m[i], u, x, Min(i, k), n) + Dot(u[i], x, n)
  {
    var r := CombRow(m[i], u, Min(i, k), n);
    forall j | 0 <= j < n
      ensures a[p[i]][j] == r[j] + 1.0 * u[i][j]
    {
      assert Represents(a, p, m, u, n, k, i, j);
    }
    DotAdds(r, u[i], a[p[i]], 1.0, x, n);
    CombApplied(m[i], u, x, Min(i, k), n);
  }

  lemma {:induction false} CombOfZeros(l: Vec, u: seq<Vec>, x: Vec, m: nat, n: nat)
    requires m <= |l| && m <= |u| && n <= |x|
    requires forall t :: 0 <= t < m ==> n <= |u[t]| && Dot(u[t], x, n) == 0.0
    ensures CombDots(l, u, x, m, n) == 0.0
  {
    if m > 0 {
      CombOfZeros(l, u, x, m - 1, n);
    }
  }

  ghost predicate Annihilated(u: seq<Vec>, x: Vec, n: nat, lo: nat, hi: nat)
    requires Square(u, n) && |x| == n && hi <= n
  {
    forall t :: lo <= t < hi ==> Dot(u[t], x, n) == 0.0
  }

  lemma KernelFromUpper(a: seq<Vec>, p: seq<nat>, m: seq<Vec>, u: seq<Vec>, n: nat, k: nat, x: Vec)
    requires Stage(a, p, m, n, k) && u == Upper(m, n, k) && |x| == n && Annihilated(u, x, n, 0, n)
    ensures Solves(a, x, Zeros(n), n)
  {
    forall r | 0 <= r < n
      ensures Dot(a[r], x, n) == 0.0
    {
      var i := SlotOf(p, n, r);
      StageApplied(a, p, m, u, n, k, x, i);
      CombOfZeros(m[i], u, x, Min(i, k), n);
    }
  }

  // ---------- no pivot left: the matrix is singular ----------

  function Unit(n: nat, k: nat): (e: Vec)
    requires k < n
    ensures |e| == n && forall i :: 0 <= i < n ==> e[i] == if i == k then 1.0 else 0.0
  {
    seq(n, i => if i == k then 1.0 else 0.0)
  }

  /** x is found from the bottom up: entries from s on are final. */
  ghost predicate BackTo(u: seq<Vec>, x: Vec, n: nat, k: nat, s: nat)
    requires Square(u, n) && s <= k < n
  {
    && |x| == n && x[k] == 1.0
    && (forall j :: 0 <= j < n && (j < s || j > k) ==> x[j] == 0.0)
    && Annihilated(u, x, n, s, k)
  }

  /** What a pivot c contributes with v = -d / c makes up for d. */
  lemma PivotCancels(d: real, c: real, v: real)
    requires c != 0.0 && v == -d / c
    ensures d + c * (v - 0.0) == 0.0
  {
    Quotient(-d, c);
    assert v - 0.0 == v;
  }

  lemma ZeroCancels(c: real, v: real)
    requires c == 0.0
    ensures c * v == 0.0
  {
  }

  lemma BackStep(u: seq<Vec>, x: Vec, n: nat, k: nat, s: nat) returns (y: Vec)
    requires Square(u, n) && 0 < s <= k < n && BackTo(u, x, n, k, s) && u[s - 1][s - 1] != 0.0
    requires forall t, j :: 0 <= j < t < k ==> u[t][j] == 0.0
    ensures BackTo(u, y, n, k, s - 1)
  {
    var i := s - 1;
    var d := Dot(u[i], x, n);
    var v := -d / u[i][i];
    y := x[i := v];
    forall t | i <= t < k
      ensures Dot(u[t], y, n) == 0.0
    {
      DotUpdate(u[t], x, i, v, n);
      if t == i {
        PivotCancels(d, u[i][i], v);
      } else {
        assert Dot(u[t], x, n) == 0.0;
        ZeroCancels(u[t][i], v - x[i]);
      }
    }
  }

  lemma {:induction false} BackAll(u: seq<Vec>, x: Vec, n: nat, k: nat, s: nat) returns (y: Vec)
    requires Square(u, n) && s <= k < n && BackTo(u, x, n, k, s)
    requires forall t :: 0 <= t < k ==> u[t][t] != 0.0
    requires forall t, j :: 0 <= j < t < k ==> u[t][j] == 0.0
    ensures BackTo(u, y, n, k, 0)
    decreases s
  {
    if s == 0 {
      y := x;
    } else {
      var z := BackStep(u, x, n, k, s);
      y := BackAll(u, z, n, k, s - 1);
    }
  }

  /** If after k columns nothing but zeros is left of column k from row k on, some nonzero
      vector that uses no later column is mapped to zero. */
  lemma NoPivotIsSingular(a: seq<Vec>, p: seq<nat>, m: seq<Vec>, n: nat, k: nat) returns (x: Vec)
    requires Stage(a, p, m, n, k) && k < n && NonzeroPivots(m, n, k)
    requires forall i :: k <= i < n ==> m[i][k] == 0.0
    ensures |x| == n && x[k] == 1.0 && Solves(a, x, Zeros(n), n)
    ensures forall j :: k < j < n ==> x[j] == 0.0
  {
    var u := Upper(m, n, k);
    x := BackAll(u, Unit(n, k), n, k, k);
    forall t | k <= t < n
      ensures Dot(u[t], x, n) == 0.0
    {
      DotZero(u[t], x, n);
    }
    KernelFromUpper(a, p, m, u, n, k, x);
  }

  // ---------- all pivots: the matrix is regular ----------

  lemma {:induction false} UpperFromKernel(a: seq<Vec>, p: seq<nat>, m: seq<Vec>, u: seq<Vec>, n: nat, x: Vec, k: nat)
    requires Stage(a, p, m, n, n) && u == Upper(m, n, n) && |x| == n && Solves(a, x, Zeros(n), n) && k <= n
    ensures Annihilated(u, x, n, 0, k)
    decreases k
  {
    if k > 0 {
      UpperFromKernel(a, p, m, u, n, x, k - 1);
      StageApplied(a, p, m, u, n, n, x, k - 1);
      CombOfZeros(m[k - 1], u, x, k - 1, n);
    }
  }

  /** With pivots in the first m columns, a vector that uses only those is zero if it is mapped to zero. */
  lemma {:induction false} UpperIsInjective(u: seq<Vec>, x: Vec, n: nat, m: nat, s: nat)
    requires Square(u, n) && |x| == n && s <= m <= n && Annihilated(u, x, n, 0, m)
    requires forall t :: 0 <= t < m ==> u[t][t] != 0.0
    requires forall t, j :: 0 <= j < t < n ==> u[t][j] == 0.0
    requires forall j :: m <= j < n ==> x[j] == 0.0
    ensures forall j :: s <= j < n ==> x[j] == 0.0
    decreases m - s
  {
    if s < m {
      UpperIsInjective(u, x, n, m, s + 1);
      DotSingle(u[s], x, s, n);
      assert Dot(u[s], x, n) == 0.0;
    }
  }

  /** A decomposition has only nonzero pivots exactly when the matrix has a trivial kernel. */
  lemma PivotsIffTrivialKernel(a: seq<Vec>, p: seq<nat>, m: seq<Vec>, n: nat)
    requires n > 0 && Stage(a, p, m, n, n) && NonzeroPivots(m, n, n - 1)
    ensures m[n - 1][n - 1] != 0.0 <==> TrivialKernel(a, n)
  {
    if m[n - 1][n - 1] != 0.0 {
      forall x: Vec | |x| == n && Solves(a, x, Zeros(n), n)
        ensures x == Zeros(n)
      {
        var u := Upper(m, n, n);
        UpperFromKernel(a, p, m, u, n, x, n);
        UpperIsInjective(u, x, n, n, 0);
      }
    } else {
      StageEarlier(a, p, m, n);
      var x := NoPivotIsSingular(a, p, m, n, n - 1);
      assert x[n - 1] != Zeros(n)[n - 1];
    }
  }

  /** Pivots in all columns but the last make these independent. */
  lemma PivotsAreIndependent(a: seq<Vec>, p: seq<nat>, m: seq<Vec>, n: nat)
    requires n > 0 && Stage(a, p, m, n, n) && NonzeroPivots(m, n, n - 1)
    ensures LeadingIndependent(a, n)
  {
    forall x: Vec | |x| == n && x[n - 1] == 0.0 && Solves(a, x, Zeros(n), n)
      ensures x == Zeros(n)
    {
      var u := Upper(m, n, n);
      UpperFromKernel(a, p, m, u, n, x, n);
      UpperIsInjective(u, x, n, n - 1, 0);
    }
  }

  /** Nothing is eliminated in the last column. */
  lemma StageEarlier(a: seq<Vec>, p: seq<nat>, m: seq<Vec>, n: nat)
    requires n > 0 && Square(a, n) && IsPermutation(p, n) && Square(m, n)
    ensures Stage(a, p, m, n, n) <==> Stage(a, p, m, n, n - 1)
  {
    var u, v, k := Upper(m, n, n), Upper(m, n, n - 1), n - 1;
    assert forall i :: 0 <= i < n ==> u[i] == v[i];
    assert u == v;
    assert forall i, j :: 0 <= i < n && 0 <= j < n ==>
        (Represents(a, p, m, u, n, n, i, j) <==> Represents(a, p, m, u, n, k, i, j));
  }

  // ---------- the product form ----------

  /** Row i of the unit lower triangular factor. */
  function LowerRow(m: seq<Vec>, n: nat, i: nat): (l: Vec)
    requires Square(m, n) && i < n
    ensures |l| == n && forall t :: 0 <= t < n ==> l[t] == if t < i then m[i][t] else if t == i then 1.0 else 0.0
  {
    seq(n, t requires 0 <= t < n => if t < i then m[i][t] else if t == i then 1.0 else 0.0)
  }

  lemma {:induction false} CombOfUnit(l: Vec, u: seq<Vec>, j: nat, i: nat, n: nat)
    requires i < n == |l| == |u| && (forall t :: 0 <= t < n ==> j < |u[t]|)
    requires l[i] == 1.0 && forall t :: i < t < |l| ==> l[t] == 0.0
    ensures Comb(l, u, j, n) == Comb(l, u, j, i) + u[i][j]
  {
    var k := i + 1;
    while k < n
      invariant i < k <= n && Comb(l, u, j, k) == Comb(l, u, j, i) + u[i][j]
    {
      k := k + 1;
    }
  }

  /** P A = L U: row p[i] of a is row i of the product of the two triangular factors. */
  lemma StageIsProduct(a: seq<Vec>, p: seq<nat>, m: seq<Vec>, n: nat, i: nat, j: nat)
    requires Stage(a, p, m, n, n) && i < n && j < n
    ensures a[p[i]][j] == Comb(LowerRow(m, n, i), Upper(m, n, n), j, n)
  {
    var l, u := LowerRow(m, n, i), Upper(m, n, n);
    assert Represents(a, p, m, u, n, n, i, j);
    CombOfUnit(l, u, j, i, n);
    CombSame(l, m[i], u, u, j, i);
  }

  // ---------- substitution ----------

  /** Forward substitution: y[i] plus the earlier y weighted by the multipliers is b[p[i]]. */
  ghost predicate Forward(m: seq<Vec>, p: seq<nat>, b: Vec, y: Vec, n: nat, k: nat)
    requires Square(m, n) && IsPermutation(p, n) && |b| == n && |y| == n && k <= n
  {
    forall i :: 0 <= i < k ==> y[i] == b[p[i]] - Dot(m[i], y, i)
  }

  /** Backward substitution has solved the rows from k on. */
  ghost predicate Backward(u: seq<Vec>, y: Vec, x: Vec, n: nat, k: nat)
    requires Square(u, n) && |y| == n && |x| == n && k <= n
  {
    forall i :: k <= i < n ==> Dot(u[i], x, n) == y[i]
  }

  /** The two substitutions solve the original system. */
  lemma SubstitutionSolves(a: seq<Vec>, p: seq<nat>, m: seq<Vec>, n: nat, b: Vec, y: Vec, x: Vec)
    requires Stage(a, p, m, n, n) && |b| == |y| == |x| == n
    requires Forward(m, p, b, y, n, n) && Backward(Upper(m, n, n), y, x, n, 0)
    ensures Solves(a, x, b, n)
  {
    var u := Upper(m, n, n);
    forall r | 0 <= r < n
      ensures Dot(a[r], x, n) == b[r]
    {
      var i := SlotOf(p, n, r);
      StageApplied(a, p, m, u, n, n, x, i);
      CombDotsIs(m[i], u, x, y, i, n);
    }
  }
}
