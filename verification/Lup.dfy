/** LUP decomposition, substitution and inverse on arrays, in place. */
module Lup {
  import opened Vectors
  import opened Elimination
  import opened LinearSystems

  predicate IsSquare(a: array2<real>) {
    a.Length0 == a.Length1
  }

  ghost function Rows(a: array2<real>): (r: seq<Vec>)
    requires IsSquare(a)
    reads a
    ensures Square(r, a.Length0)
    ensures forall i, j :: 0 <= i < a.Length0 && 0 <= j < a.Length1 ==> r[i][j] == a[i, j]
  {
    seq(a.Length0, i requires 0 <= i < a.Length0 reads a => seq(a.Length1,
                                                                j requires 0 <= j < a.Length1 reads a => a[i, j]))
  }

  lemma SameRows(a: array2<real>, m: seq<Vec>)
    requires IsSquare(a) && Square(m, a.Length0)
    requires forall i, j :: 0 <= i < a.Length0 && 0 <= j < a.Length1 ==> a[i, j] == m[i][j]
    ensures Rows(a) == m
  {
    var r := Rows(a);
    assert forall i :: 0 <= i < |r| ==> r[i] == m[i];
  }

  // ---------- decomposition ----------

  /** The row with the largest entry of column k, looking from row k down. */
  method FindPivot(a: array2<real>, k: nat) returns (pivot: nat, max: real)
    requires IsSquare(a) && k < a.Length0
    ensures max >= 0.0 && forall i :: k <= i < a.Length0 ==> Magnitude(a[i, k]) <= max
    ensures max > 0.0 ==> k <= pivot < a.Length0 && Magnitude(a[pivot, k]) == max
  {
    pivot, max := 0, 0.0;
    for i := k to a.Length0
      invariant max >= 0.0 && forall l :: k <= l < i ==> Magnitude(a[l, k]) <= max
      invariant max > 0.0 ==> k <= pivot < a.Length0 && Magnitude(a[pivot, k]) == max
    {
      if Magnitude(a[i, k]) > max {
        max := Magnitude(a[i, k]);
        pivot := i;
      }
    }
  }

  method SwapRows(a: array2<real>, k: nat, r: nat)
    requires IsSquare(a) && k < a.Length0 && r < a.Length0
    modifies a
    ensures Rows(a) == Exchanged(old(Rows(a)), k, r)
  {
    var n := a.Length0;
    for j := 0 to n
      invariant forall i, l :: 0 <= i < n && j <= l < n ==> a[i, l] == old(a[i, l])
      invariant forall l :: 0 <= l < j ==> a[k, l] == old(a[r, l]) && a[r, l] == old(a[k, l])
      invariant forall i, l :: 0 <= i < n && i != k && i != r && 0 <= l < j ==> a[i, l] == old(a[i, l])
    {
      a[k, j], a[r, j] := a[r, j], a[k, j];
    }
    SameRows(a, Exchanged(old(Rows(a)), k, r));
  }

  /** Divides by the pivot and subtracts the multiple of the pivot row from row i. */
  method EliminateRow(a: array2<real>, k: nat, i: nat)
    requires IsSquare(a) && k < i < a.Length0 && a[k, k] != 0.0
    modifies a
    ensures forall l, j :: 0 <= l < a.Length0 && 0 <= j < a.Length0 && (l != i || j < k) ==> a[l, j] == old(a[l, j])
    ensures a[i, k] == old(a[i, k]) / old(a[k, k])
    ensures forall j :: k < j < a.Length0 ==> a[i, j] == old(a[i, j]) - a[i, k] * old(a[k, j])
  {
    var n := a.Length0;
    a[i, k] := a[i, k] / a[k, k];
    for j := k + 1 to n
      invariant forall l, h :: 0 <= l < n && 0 <= h < n && (l != i || h < k || h >= j) ==> a[l, h] == old(a[l, h])
      invariant a[i, k] == old(a[i, k]) / old(a[k, k])
      invariant forall h :: k < h < j ==> a[i, h] == old(a[i, h]) - a[i, k] * old(a[k, h])
    {
      a[i, j] := a[i, j] - a[i, k] * a[k, j];
    }
  }

  ghost predicate EliminatedUpTo(a: array2<real>, m: seq<Vec>, n: nat, k: nat, i: nat)
    requires IsSquare(a) && a.Length0 == n && Square(m, n) && k < n && m[k][k] != 0.0
    reads a
  {
    forall l, j :: 0 <= l < n && 0 <= j < n ==> a[l, j] == if l < i then EliminatedEntry(m, n, k, l, j) else m[l][j]
  }

  method EliminateColumn(a: array2<real>, k: nat)
    requires IsSquare(a) && k < a.Length0 && a[k, k] != 0.0
    modifies a
    ensures Eliminated(old(Rows(a)), Rows(a), a.Length0, k)
  {
    var n := a.Length0;
    ghost var m := Rows(a);
    for i := k + 1 to n
      invariant EliminatedUpTo(a, m, n, k, i)
    {
      EliminateRow(a, k, i);
    }
  }

  method Identity(p: array<nat>)
    modifies p
    ensures forall i :: 0 <= i < p.Length ==> p[i] == i
  {
    for i := 0 to p.Length
      invariant forall l :: 0 <= l < i ==> p[l] == l
    {
      p[i] := i;
    }
  }

  /** Everything known after k columns. */
  ghost predicate Progress(o: seq<Vec>, p: seq<nat>, m: seq<Vec>, n: nat, k: nat) {
    k <= n && Stage(o, p, m, n, k) && SmallMultipliers(m, n, k) && NonzeroPivots(m, n, k)
  }

  lemma ProgressExchanged(o: seq<Vec>, p: seq<nat>, m: seq<Vec>, n: nat, k: nat, r: nat)
    requires Progress(o, p, m, n, k) && k <= r < n
    ensures Progress(o, Exchanged(p, k, r), Exchanged(m, k, r), n, k)
  {
    StageExchange(o, p, m, n, k, r);
    ExchangeKeepsSmall(m, n, k, r);
  }

  lemma ProgressEliminated(o: seq<Vec>, p: seq<nat>, m: seq<Vec>, m': seq<Vec>, n: nat, k: nat)
    requires Progress(o, p, m, n, k) && k < n && LargestFirst(m, n, k) && Eliminated(m, m', n, k)
    ensures Progress(o, p, m', n, k + 1)
  {
    StageEliminate(o, p, m, m', n, k, k + 1);
    MultipliersStaySmall(m, m', n, k);
  }

  /** One column: pivot to its place, then eliminate. Fails only when no pivot is left. */
  method EliminateWithPivot(a: array2<real>, p: array<nat>, k: nat, ghost o: seq<Vec>) returns (ok: bool)
    requires IsSquare(a) && p.Length == a.Length0 && k < a.Length0
    requires Progress(o, p[..], Rows(a), a.Length0, k)
    modifies a, p
    ensures ok ==> Progress(o, p[..], Rows(a), a.Length0, k + 1)
    ensures !ok ==> Progress(o, p[..], Rows(a), a.Length0, k) && forall i :: k <= i < a.Length0 ==> a[i, k] == 0.0
  {
    ghost var n, m, q := a.Length0, Rows(a), p[..];
    var pivot, max := FindPivot(a, k);
    if max == 0.0 {
      return false;
    }
    p[k], p[pivot] := p[pivot], p[k];
    SwapRows(a, k, pivot);
    ghost var m1 := Rows(a);
    assert p[..] == Exchanged(q, k, pivot);
    ProgressExchanged(o, q, m, n, k, pivot);
    assert LargestFirst(m1, n, k);
    EliminateColumn(a, k);
    ProgressEliminated(o, p[..], m1, Rows(a), n, k);
    ok := true;
  }

  /** Decomposes a in place into the triangular factors of its permuted rows. It stops exactly
      when the columns before the last are dependent, so a singular matrix passes if they are not;
      all pivots come out nonzero exactly when the matrix is regular. */
  method Decompose(a: array2<real>, p: array<nat>) returns (ok: bool)
    requires IsSquare(a) && p.Length == a.Length0
    modifies a, p
    ensures ok <==> LeadingIndependent(old(Rows(a)), a.Length0)
    ensures ok ==> Stage(old(Rows(a)), p[..], Rows(a), a.Length0, a.Length0)
    ensures ok ==> SmallMultipliers(Rows(a), a.Length0, a.Length0)
    ensures ok && a.Length0 > 0 ==> NonzeroPivots(Rows(a), a.Length0, a.Length0 - 1)
    ensures ok && a.Length0 > 0 ==> (a[a.Length0 - 1, a.Length0 - 1] != 0.0 <==> TrivialKernel(old(Rows(a)), a.Length0))
  {
    var n := a.Length0;
    ghost var o := Rows(a);
    Identity(p);
    StageStart(o, p[..], n);
    ok := true;
    if n == 0 {
      return;
    }
    for k := 0 to n - 1
      invariant Progress(o, p[..], Rows(a), n, k)
    {
      ok := EliminateWithPivot(a, p, k, o);
      if !ok {
        Singular(o, p[..], Rows(a), n, k);
        return;
      }
    }
    ok := true;
    Finished(o, p[..], Rows(a), n);
  }

  lemma Singular(o: seq<Vec>, p: seq<nat>, m: seq<Vec>, n: nat, k: nat)
    requires Progress(o, p, m, n, k) && k < n - 1 && forall i :: k <= i < n ==> m[i][k] == 0.0
    ensures !LeadingIndependent(o, n)
  {
    var x := NoPivotIsSingular(o, p, m, n, k);
    assert x[k] != Zeros(n)[k];
  }

  lemma Finished(o: seq<Vec>, p: seq<nat>, m: seq<Vec>, n: nat)
    requires n > 0 && Progress(o, p, m, n, n - 1)
    ensures Stage(o, p, m, n, n) && SmallMultipliers(m, n, n)
    ensures m[n - 1][n - 1] != 0.0 <==> TrivialKernel(o, n)
    ensures LeadingIndependent(o, n)
  {
    StageEarlier(o, p, m, n);
    PivotsIffTrivialKernel(o, p, m, n);
    PivotsAreIndependent(o, p, m, n);
  }

  lemma RegularIsIndependent(o: seq<Vec>, n: nat)
    requires Square(o, n)
    ensures TrivialKernel(o, n) ==> LeadingIndependent(o, n)
  {
  }

  /** The identity with its last diagonal entry zero. */
  function Gapped(n: nat): (m: seq<Vec>)
    ensures Square(m, n)
  {
    seq(n, i requires 0 <= i < n => if i == n - 1 then Zeros(n) else Unit(n, i))
  }

  lemma GappedIndependent(n: nat, x: Vec)
    requires |x| == n > 0 && x[n - 1] == 0.0 && Solves(Gapped(n), x, Zeros(n), n)
    ensures x == Zeros(n)
  {
    forall i | 0 <= i < n - 1
      ensures x[i] == 0.0
    {
      DotSingle(Gapped(n)[i], x, i, n);
    }
  }

  /** At every size some singular matrix is not refused; at size 1 it is the zero matrix. */
  lemma SingularPasses(n: nat)
    requires n > 0
    ensures Square(Gapped(n), n) && LeadingIndependent(Gapped(n), n) && !TrivialKernel(Gapped(n), n)
    ensures n == 1 ==> Gapped(n) == [[0.0]]
  {
    var m, e := Gapped(n), Unit(n, n - 1);
    assert n == 1 ==> m[0] == [0.0];
    forall x: Vec | |x| == n && x[n - 1] == 0.0 && Solves(m, x, Zeros(n), n)
      ensures x == Zeros(n)
    {
      GappedIndependent(n, x);
    }
    forall i | 0 <= i < n
      ensures Dot(m[i], e, n) == 0.0
    {
      DotZero(m[i], e, n);
    }
    assert Solves(m, e, Zeros(n), n) && e[n - 1] != Zeros(n)[n - 1];
  }
}
