/** What Gaussian elimination with row exchanges keeps: after k columns the original matrix,
    rows permuted, is the multipliers so far times what is left, plus what is left. */
module Elimination {
  import opened Vectors
  import opened Permutations

  function Min(i: nat, k: nat): nat {
    if i < k then i else k
  }

  function Magnitude(x: real): real {
    if x < 0.0 then -x else x
  }

  /** u is m with the multipliers of the first k columns blanked out. */
  ghost predicate IsUpper(u: seq<Vec>, m: seq<Vec>, n: nat, k: nat)
    requires Square(m, n)
  {
    Square(u, n) && forall i, j :: 0 <= i < n && 0 <= j < n ==> u[i][j] == if j >= Min(i, k) then m[i][j] else 0.0
  }

  function Upper(m: seq<Vec>, n: nat, k: nat): (u: seq<Vec>)
    requires Square(m, n)
    ensures IsUpper(u, m, n, k)
  {
    seq(n, i requires 0 <= i < n => seq(n, j requires 0 <= j < n => if j >= Min(i, k) then m[i][j] else 0.0))
  }

  predicate IsPermutation(p: seq<nat>, n: nat) {
    |p| == n && Distinct(p) && Below(p, n)
  }

  /** Entry j of row p[i] of the original matrix a. */
  ghost predicate Represents(a: seq<Vec>, p: seq<nat>, m: seq<Vec>, u: seq<Vec>, n: nat, k: nat, i: nat, j: nat)
    requires Square(a, n) && IsPermutation(p, n) && Square(m, n) && Square(u, n) && i < n && j < n
  {
    a[p[i]][j] == Comb(m[i], u, j, Min(i, k)) + u[i][j]
  }

  ghost predicate AllRepresented(a: seq<Vec>, p: seq<nat>, m: seq<Vec>, u: seq<Vec>, n: nat, k: nat)
    requires Square(a, n) && IsPermutation(p, n) && Square(m, n) && Square(u, n)
  {
    forall i, j :: 0 <= i < n && 0 <= j < n ==> Represents(a, p, m, u, n, k, i, j)
  }

  /** k columns of a have been eliminated, giving m. */
  ghost predicate Stage(a: seq<Vec>, p: seq<nat>, m: seq<Vec>, n: nat, k: nat) {
    && Square(a, n) && IsPermutation(p, n) && Square(m, n)
    && AllRepresented(a, p, m, Upper(m, n, k), n, k)
  }

  lemma StageFrom(a: seq<Vec>, p: seq<nat>, m: seq<Vec>, u: seq<Vec>, n: nat, k: nat)
    requires Square(a, n) && IsPermutation(p, n) && Square(m, n) && IsUpper(u, m, n, k)
    requires AllRepresented(a, p, m, u, n, k)
    ensures Stage(a, p, m, n, k)
  {
    var v := Upper(m, n, k);
    forall i | 0 <= i < n
      ensures u[i] == v[i]
    {
    }
    assert u == v;
  }

  lemma StageStart(a: seq<Vec>, p: seq<nat>, n: nat)
    requires Square(a, n) && |p| == n && forall i :: 0 <= i < n ==> p[i] == i
    ensures Stage(a, p, a, n, 0)
  {
    assert forall i, j :: 0 <= i < n && 0 <= j < n ==> Represents(a, p, a, Upper(a, n, 0), n, 0, i, j);
  }

  // ---------- exchanging two rows not yet eliminated ----------

  function Exchanged<T>(s: seq<T>, k: nat, r: nat): (t: seq<T>)
    requires k < |s| && r < |s|
    ensures |t| == |s| && t[k] == s[r] && t[r] == s[k]
    ensures forall i :: 0 <= i < |s| && i != k && i != r ==> t[i] == s[i]
  {
    s[k := s[r]][r := s[k]]
  }

  lemma StageExchange(a: seq<Vec>, p: seq<nat>, m: seq<Vec>, n: nat, k: nat, r: nat)
    requires Stage(a, p, m, n, k) && k <= r < n
    ensures Stage(a, Exchanged(p, k, r), Exchanged(m, k, r), n, k)
  {
    var u := Upper(m, n, k);
    var p', m', u' := Exchanged(p, k, r), Exchanged(m, k, r), Exchanged(u, k, r);
    forall i, j | 0 <= i < n && 0 <= j < n
      ensures Represents(a, p', m', u', n, k, i, j)
    {
      var i0 := if i == k then r else if i == r then k else i;
      assert Represents(a, p, m, u, n, k, i0, j);
      CombSame(m[i0], m'[i], u, u', j, Min(i, k));
    }
    StageFrom(a, p', m', u', n, k);
  }

  // ---------- eliminating a column ----------

  function EliminatedEntry(m: seq<Vec>, n: nat, k: nat, i: nat, j: nat): real
    requires Square(m, n) && k < n && i < n && j < n && m[k][k] != 0.0
  {
    if i <= k || j < k then m[i][j]
    else if j == k then m[i][k] / m[k][k]
    else m[i][j] - (m[i][k] / m[k][k]) * m[k][j]
  }

  ghost predicate Eliminated(m: seq<Vec>, m': seq<Vec>, n: nat, k: nat) {
    && Square(m, n) && Square(m', n) && k < n && m[k][k] != 0.0
    && forall i, j :: 0 <= i < n && 0 <= j < n ==> m'[i][j] == EliminatedEntry(m, n, k, i, j)
  }

  lemma Quotient(x: real, d: real)
    requires d != 0.0
    ensures (x / d) * d == x
  {
  }

  /** What was left of a row below is its multiplier times the pivot row plus what is left now. */
  lemma RowSplits(m: seq<Vec>, m': seq<Vec>, u: seq<Vec>, u': seq<Vec>, n: nat, k: nat, i: nat, j: nat)
    requires Eliminated(m, m', n, k) && k < i < n && j < n
    requires IsUpper(u, m, n, k) && IsUpper(u', m', n, k + 1)
    ensures u[i][j] == m'[i][k] * u'[k][j] + u'[i][j]
  {
    Quotient(m[i][k], m[k][k]);
    assert m'[i][k] == EliminatedEntry(m, n, k, i, k);
    assert m'[k][j] == m[k][j] && m'[i][j] == EliminatedEntry(m, n, k, i, j);
  }

  lemma CombSplits(l: Vec, l': Vec, u: seq<Vec>, u': seq<Vec>, n: nat, k: nat, j: nat, rest: real, rest': real)
    requires |l| == |l'| == |u| == |u'| == n && k < n && forall t :: 0 <= t < n ==> j < |u[t]| && j < |u'[t]|
    requires forall t :: 0 <= t < k ==> l[t] == l'[t] && u[t][j] == u'[t][j]
    requires rest == l'[k] * u'[k][j] + rest'
    ensures Comb(l, u, j, k) + rest == Comb(l', u', j, k + 1) + rest'
  {
    CombSame(l, l', u, u', j, k);
  }

  lemma EliminatedRow(a: seq<Vec>, p: seq<nat>, m: seq<Vec>, m': seq<Vec>, u: seq<Vec>, u': seq<Vec>, n: nat, k: nat,
                      i: nat, j: nat)
    requires Square(a, n) && IsPermutation(p, n) && Eliminated(m, m', n, k) && i < n && j < n
    requires IsUpper(u, m, n, k) && IsUpper(u', m', n, k + 1) && Represents(a, p, m, u, n, k, i, j)
    ensures Represents(a, p, m', u', n, k + 1, i, j)
  {
    if i > k {
      RowSplits(m, m', u, u', n, k, i, j);
      assert forall t :: 0 <= t < k ==> m[i][t] == m'[i][t] && u[t][j] == u'[t][j];
      CombSplits(m[i], m'[i], u, u', n, k, j, u[i][j], u'[i][j]);
    } else {
      CombSame(m[i], m'[i], u, u', j, i);
    }
  }

  lemma StageEliminate(a: seq<Vec>, p: seq<nat>, m: seq<Vec>, m': seq<Vec>, n: nat, k: nat, next: nat)
    requires Stage(a, p, m, n, k) && Eliminated(m, m', n, k) && next == k + 1
    ensures Stage(a, p, m', n, next)
  {
    var u, u' := Upper(m, n, k), Upper(m', n, next);
    forall i, j | 0 <= i < n && 0 <= j < n
      ensures Represents(a, p, m', u', n, next, i, j)
    {
      assert Represents(a, p, m, u, n, k, i, j);
      EliminatedRow(a, p, m, m', u, u', n, k, i, j);
    }
  }

  // ---------- multipliers and pivots ----------

  /** Multipliers of the first k columns are at most 1 in magnitude. */
  ghost predicate SmallMultipliers(m: seq<Vec>, n: nat, k: nat)
    requires Square(m, n) && k <= n
  {
    forall i, j :: 0 <= j < k && j < i < n ==> Magnitude(m[i][j]) <= 1.0
  }

  ghost predicate NonzeroPivots(m: seq<Vec>, n: nat, k: nat)
    requires Square(m, n) && k <= n
  {
    forall t :: 0 <= t < k ==> m[t][t] != 0.0
  }

  /** Row k holds the largest entry of column k among the rows from k on. */
  ghost predicate LargestFirst(m: seq<Vec>, n: nat, k: nat)
    requires Square(m, n) && k < n
  {
    forall i :: k <= i < n ==> Magnitude(m[i][k]) <= Magnitude(m[k][k])
  }

  lemma SignOfFactor(z: real, d: real)
    requires d > 0.0 && z * d >= 0.0
    ensures z >= 0.0
  {
  }

  lemma RatioSmall(x: real, d: real)
    requires d != 0.0 && Magnitude(x) <= Magnitude(d)
    ensures Magnitude(x / d) <= 1.0
  {
    Quotient(x, d);
    var q, e := x / d, Magnitude(d);
    assert (1.0 - q) * e == e - q * e;
    assert (1.0 + q) * e == e + q * e;
    SignOfFactor(1.0 - q, e);
    SignOfFactor(1.0 + q, e);
  }

  lemma MultipliersStaySmall(m: seq<Vec>, m': seq<Vec>, n: nat, k: nat)
    requires Eliminated(m, m', n, k) && LargestFirst(m, n, k) && SmallMultipliers(m, n, k) && NonzeroPivots(m, n, k)
    ensures SmallMultipliers(m', n, k + 1) && NonzeroPivots(m', n, k + 1)
  {
    forall i, j | 0 <= j < k + 1 && j < i < n
      ensures Magnitude(m'[i][j]) <= 1.0
    {
      if j == k {
        RatioSmall(m[i][k], m[k][k]);
      }
    }
  }

  lemma ExchangeKeepsSmall(m: seq<Vec>, n: nat, k: nat, r: nat)
    requires Square(m, n) && k <= r < n && SmallMultipliers(m, n, k) && NonzeroPivots(m, n, k)
    ensures var m' := Exchanged(m, k, r); Square(m', n) && SmallMultipliers(m', n, k) && NonzeroPivots(m', n, k)
  {
    var m' := Exchanged(m, k, r);
    assert Square(m', n);
    forall i, j | 0 <= j < k && j < i < n
      ensures Magnitude(m'[i][j]) <= 1.0
    {
      var i0 := if i == k then r else if i == r then k else i;
      assert m'[i] == m[i0];
    }
  }
}
