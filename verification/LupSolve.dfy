/** Solving linear systems and inverting matrices with the decomposition. */
module LupSolve {
  import opened Vectors
  import opened Elimination
  import opened LinearSystems
  import opened Lup

  /** Sum of y[j] * a[i][j] over the multipliers of row i. */
  method LowerSum(a: array2<real>, y: array<real>, i: nat) returns (sum: real)
    requires IsSquare(a) && y.Length == a.Length0 && i < a.Length0
    ensures sum == Dot(Rows(a)[i], y[..], i)
  {
    sum := 0.0;
    for j := 0 to i
      invariant sum == Dot(Rows(a)[i], y[..], j)
    {
      sum := sum + y[j] * a[i, j];
    }
  }

  lemma ForwardStep(m: seq<Vec>, p: seq<nat>, b: Vec, y: Vec, y': Vec, n: nat, i: nat)
    requires Square(m, n) && IsPermutation(p, n) && i < n == |b| == |y|
    requires Forward(m, p, b, y, n, i) && y' == y[i := b[p[i]] - Dot(m[i], y, i)]
    ensures Forward(m, p, b, y', n, i + 1)
  {
    forall l | 0 <= l < i + 1
      ensures y'[l] == b[p[l]] - Dot(m[l], y', l)
    {
      DotSame(m[l], m[l], y, y', l);
    }
  }

  method ForwardEntry(a: array2<real>, p: array<nat>, b: array<real>, y: array<real>, i: nat,
                      ghost m: seq<Vec>, ghost q: seq<nat>, ghost c: Vec)
    requires IsSquare(a) && p.Length == b.Length == y.Length == a.Length0 && i < a.Length0
    requires m == Rows(a) && q == p[..] && c == b[..] && IsPermutation(q, a.Length0)
    requires Forward(m, q, c, y[..], a.Length0, i)
    modifies y
    ensures Forward(m, q, c, y[..], a.Length0, i + 1)
  {
    ghost var z := y[..];
    var sum := LowerSum(a, y, i);
    var v := b[p[i]] - sum;
    assert v == c[q[i]] - Dot(m[i], z, i);
    y[i] := v;
    ForwardStep(m, q, c, z, y[..], a.Length0, i);
  }

  method ForwardSubstitute(a: array2<real>, p: array<nat>, b: array<real>, ghost m: seq<Vec>) returns (y: array<real>)
    requires IsSquare(a) && p.Length == b.Length == a.Length0 && IsPermutation(p[..], a.Length0) && m == Rows(a)
    ensures fresh(y) && y.Length == a.Length0
    ensures Forward(m, p[..], b[..], y[..], a.Length0, a.Length0)
  {
    y := new real[a.Length0];
    ghost var q, c := p[..], b[..];
    for i := 0 to a.Length0
      invariant Rows(a) == m && p[..] == q && b[..] == c
      invariant Forward(m, q, c, y[..], a.Length0, i)
    {
      ForwardEntry(a, p, b, y, i, m, q, c);
    }
  }

  /** u times x from column lo on. */
  function DotFrom(u: Vec, x: Vec, lo: nat, n: nat): real
    requires lo <= n <= |u| && n <= |x|
  {
    Dot(u, x, n) - Dot(u, x, lo)
  }

  method UpperSum(a: array2<real>, x: array<real>, i: nat) returns (sum: real)
    requires IsSquare(a) && x.Length == a.Length0 && i < a.Length0
    ensures sum == DotFrom(Rows(a)[i], x[..], i + 1, a.Length0)
  {
    sum := 0.0;
    for j := i + 1 to a.Length0
      invariant sum == DotFrom(Rows(a)[i], x[..], i + 1, j)
    {
      sum := sum + x[j] * a[i, j];
    }
  }

  /** A row of the upper factor sees only the entries from the diagonal on. */
  lemma {:induction false} UpperDot(r: Vec, u: Vec, x: Vec, i: nat, n: nat)
    requires i < n <= |r| && n <= |u| && n <= |x|
    requires forall j :: 0 <= j < |u| && j < n ==> u[j] == if j >= i then r[j] else 0.0
    ensures Dot(u, x, n) == u[i] * x[i] + DotFrom(r, x, i + 1, n)
  {
    var k := i + 1;
    DotZero(u, x, i);
    while k < n
      invariant i < k <= n && Dot(u, x, k) == u[i] * x[i] + DotFrom(r, x, i + 1, k)
    {
      k := k + 1;
    }
  }

  lemma SolveRow(m: seq<Vec>, u: seq<Vec>, y: Vec, x: Vec, x': Vec, n: nat, i: nat)
    requires Square(m, n) && IsUpper(u, m, n, n) && i < n == |x| == |y| && m[i][i] != 0.0
    requires x' == x[i := (y[i] - DotFrom(m[i], x, i + 1, n)) / m[i][i]]
    requires Backward(u, y, x, n, i + 1)
    ensures Backward(u, y, x', n, i)
  {
    var v := x'[i];
    forall l | i <= l < n
      ensures Dot(u[l], x', n) == y[l]
    {
      DotUpdate(u[l], x, i, v, n);
      if l == i {
        UpperDot(m[i], u[i], x, i, n);
        Quotient(y[i] - DotFrom(m[i], x, i + 1, n), m[i][i]);
        assert u[i][i] * (v - x[i]) == m[i][i] * v - m[i][i] * x[i];
      } else {
        assert u[l][i] == 0.0 && Dot(u[l], x, n) == y[l];
      }
    }
  }

  method BackSubstitute(a: array2<real>, y: array<real>, x: array<real>)
    requires IsSquare(a) && x.Length == y.Length == a.Length0 && x != y
    requires NonzeroPivots(Rows(a), a.Length0, a.Length0)
    modifies x
    ensures Backward(Upper(Rows(a), a.Length0, a.Length0), y[..], x[..], a.Length0, 0)
  {
    var n := a.Length0;
    ghost var m := Rows(a);
    ghost var u := Upper(m, n, n);
    for i := n downto 0
      invariant Backward(u, y[..], x[..], n, i)
    {
      var sum := UpperSum(a, x, i);
      ghost var old_x := x[..];
      x[i] := (y[i] - sum) / a[i, i];
      SolveRow(m, u, y[..], old_x, x[..], n, i);
    }
  }

  /** Solves the system of the decomposed matrix o. x may be the same array as b. */
  method Solve(a: array2<real>, p: array<nat>, b: array<real>, x: array<real>, ghost o: seq<Vec>)
    requires IsSquare(a) && p.Length == b.Length == x.Length == a.Length0
    requires Stage(o, p[..], Rows(a), a.Length0, a.Length0) && NonzeroPivots(Rows(a), a.Length0, a.Length0)
    modifies x
    ensures Solves(o, x[..], old(b[..]), a.Length0)
  {
    var y := ForwardSubstitute(a, p, b, Rows(a));
    BackSubstitute(a, y, x);
    SubstitutionSolves(o, p[..], Rows(a), a.Length0, old(b[..]), y[..], x[..]);
  }

  // ---------- the inverse ----------

  ghost function Column(m: seq<Vec>, n: nat, j: nat): (c: Vec)
    requires Square(m, n) && j < n
    ensures |c| == n && forall i :: 0 <= i < n ==> c[i] == m[i][j]
  {
    seq(n, i requires 0 <= i < n => m[i][j])
  }

  /** The first k columns of inv are the solutions for the unit vectors. */
  ghost predicate InverseUpTo(o: seq<Vec>, inv: seq<Vec>, n: nat, k: nat)
    requires Square(o, n) && Square(inv, n) && k <= n
  {
    forall j :: 0 <= j < k ==> Solves(o, Column(inv, n, j), Unit(n, j), n)
  }

  method UnitVector(n: nat, j: nat) returns (col: array<real>)
    requires j < n
    ensures fresh(col) && col[..] == Unit(n, j)
  {
    col := new real[n];
    for i := 0 to n
      invariant forall l :: 0 <= l < i ==> col[l] == 0.0
    {
      col[i] := 0.0;
    }
    col[j] := 1.0;
  }

  method StoreColumn(inv: array2<real>, work: array<real>, j: nat)
    requires IsSquare(inv) && j < inv.Length0 == work.Length
    modifies inv
    ensures Column(Rows(inv), inv.Length0, j) == work[..]
    ensures forall l :: 0 <= l < inv.Length0 && l != j ==>
              Column(Rows(inv), inv.Length0, l) == Column(old(Rows(inv)), inv.Length0, l)
  {
    for i := 0 to inv.Length0
      invariant forall l :: 0 <= l < i ==> inv[l, j] == work[l]
      invariant forall l, h :: 0 <= l < inv.Length0 && 0 <= h < inv.Length0 && h != j ==> inv[l, h] == old(inv[l, h])
    {
      inv[i, j] := work[i];
    }
  }

  lemma InverseGrows(o: seq<Vec>, inv: seq<Vec>, inv': seq<Vec>, n: nat, j: nat)
    requires Square(o, n) && Square(inv, n) && Square(inv', n) && j < n && InverseUpTo(o, inv, n, j)
    requires Solves(o, Column(inv', n, j), Unit(n, j), n)
    requires forall l :: 0 <= l < n && l != j ==> Column(inv', n, l) == Column(inv, n, l)
    ensures InverseUpTo(o, inv', n, j + 1)
  {
  }

  /** Column j of the inverse. */
  method InvertColumn(inv: array2<real>, m: array2<real>, p: array<nat>, work: array<real>, j: nat, ghost o: seq<Vec>,
                      ghost n: nat)
    requires IsSquare(m) && IsSquare(inv) && m.Length0 == inv.Length0 == p.Length == work.Length == n && m != inv
    requires j < n
    requires Stage(o, p[..], Rows(m), n, n) && NonzeroPivots(Rows(m), n, n) && InverseUpTo(o, Rows(inv), n, j)
    modifies inv, work
    ensures InverseUpTo(o, Rows(inv), n, j + 1)
  {
    var col := UnitVector(m.Length0, j);
    Solve(m, p, col, work, o);
    ghost var before := Rows(inv);
    StoreColumn(inv, work, j);
    InverseGrows(o, before, Rows(inv), n, j);
  }

  method InvertColumns(inv: array2<real>, m: array2<real>, p: array<nat>, ghost o: seq<Vec>, ghost n: nat)
    requires IsSquare(m) && IsSquare(inv) && m.Length0 == inv.Length0 == p.Length == n && m != inv
    requires Stage(o, p[..], Rows(m), n, n) && NonzeroPivots(Rows(m), n, n)
    modifies inv
    ensures InverseUpTo(o, Rows(inv), n, n)
  {
    var work := new real[m.Length0];
    ghost var lu, q := Rows(m), p[..];
    for j := 0 to m.Length0
      invariant Rows(m) == lu && p[..] == q && InverseUpTo(o, Rows(inv), n, j)
    {
      InvertColumn(inv, m, p, work, j, o, n);
    }
  }

  lemma AllPivots(m: seq<Vec>, n: nat)
    requires n > 0 && Square(m, n) && NonzeroPivots(m, n, n - 1) && m[n - 1][n - 1] != 0.0
    ensures NonzeroPivots(m, n, n)
  {
  }

  lemma EmptyIsRegular(o: seq<Vec>)
    requires Square(o, 0)
    ensures TrivialKernel(o, 0)
  {
  }

  /** A matrix is inverted, refused as singular, or passes with a last pivot of zero that the
      substitution divides by. */
  datatype Outcome = Inverted | Refused | ZeroDivisor

  /** inv becomes the inverse of m, which is overwritten by its decomposition. */
  method Invert(inv: array2<real>, m: array2<real>) returns (outcome: Outcome)
    requires IsSquare(m) && IsSquare(inv) && m.Length0 == inv.Length0 && m != inv
    modifies inv, m
    ensures outcome == Refused <==> !LeadingIndependent(old(Rows(m)), m.Length0)
    ensures outcome == Inverted <==> TrivialKernel(old(Rows(m)), m.Length0)
    ensures outcome == Inverted ==> InverseUpTo(old(Rows(m)), Rows(inv), m.Length0, m.Length0)
    ensures outcome == ZeroDivisor ==> m.Length0 > 0 && m[m.Length0 - 1, m.Length0 - 1] == 0.0
  {
    ghost var o := Rows(m);
    var p := new nat[m.Length0];
    var ok := Decompose(m, p);
    RegularIsIndependent(o, m.Length0);
    if !ok {
      return Refused;
    }
    outcome := InvertDecomposed(inv, m, p, o);
  }

  method InvertDecomposed(inv: array2<real>, m: array2<real>, p: array<nat>, ghost o: seq<Vec>)
    returns (outcome: Outcome)
    requires IsSquare(m) && IsSquare(inv) && m.Length0 == inv.Length0 == p.Length && m != inv
    requires Stage(o, p[..], Rows(m), m.Length0, m.Length0)
    requires m.Length0 > 0 ==> NonzeroPivots(Rows(m), m.Length0, m.Length0 - 1)
    requires m.Length0 > 0 ==> (m[m.Length0 - 1, m.Length0 - 1] != 0.0 <==> TrivialKernel(o, m.Length0))
    modifies inv
    ensures outcome == if TrivialKernel(o, m.Length0) then Inverted else ZeroDivisor
    ensures outcome == Inverted ==> InverseUpTo(o, Rows(inv), m.Length0, m.Length0)
    ensures outcome == ZeroDivisor ==> m.Length0 > 0 && m[m.Length0 - 1, m.Length0 - 1] == 0.0
  {
    var n := m.Length0;
    if n == 0 {
      EmptyIsRegular(o);
      return Inverted;
    }
    if m[n - 1, n - 1] == 0.0 {
      return ZeroDivisor;
    }
    AllPivots(Rows(m), n);
    InvertColumns(inv, m, p, o, n);
    outcome := Inverted;
  }

  // ---------- products ----------

  /** c = a b */
  method Multiply(c: array2<real>, a: array2<real>, b: array2<real>)
    requires IsSquare(a) && IsSquare(b) && IsSquare(c) && a.Length0 == b.Length0 == c.Length0 && c != a && c != b
    modifies c
    ensures forall i, j :: 0 <= i < c.Length0 && 0 <= j < c.Length0 ==>
              c[i, j] == Comb(Rows(a)[i], Rows(b), j, c.Length0)
  {
    var n := c.Length0;
    for i := 0 to n
      invariant forall l, h :: 0 <= l < i && 0 <= h < n ==> c[l, h] == Comb(Rows(a)[l], Rows(b), h, n)
    {
      for j := 0 to n
        invariant forall l, h :: 0 <= l < i && 0 <= h < n ==> c[l, h] == Comb(Rows(a)[l], Rows(b), h, n)
        invariant forall h :: 0 <= h < j ==> c[i, h] == Comb(Rows(a)[i], Rows(b), h, n)
      {
        MultiplyEntry(c, a, b, i, j);
      }
    }
  }

  method MultiplyEntry(c: array2<real>, a: array2<real>, b: array2<real>, i: nat, j: nat)
    requires IsSquare(a) && IsSquare(b) && IsSquare(c) && a.Length0 == b.Length0 == c.Length0 && c != a && c != b
    requires i < c.Length0 && j < c.Length0
    modifies c
    ensures c[i, j] == Comb(Rows(a)[i], Rows(b), j, c.Length0)
    ensures forall l, h :: 0 <= l < c.Length0 && 0 <= h < c.Length0 && (l != i || h != j) ==> c[l, h] == old(c[l, h])
  {
    c[i, j] := 0.0;
    for k := 0 to c.Length0
      invariant c[i, j] == Comb(Rows(a)[i], Rows(b), j, k)
      invariant forall l, h ::
                  0 <= l < c.Length0 && 0 <= h < c.Length0 && (l != i || h != j) ==> c[l, h] == old(c[l, h])
    {
      c[i, j] := c[i, j] + a[i, k] * b[k, j];
    }
  }

  lemma {:induction false} CombIsDot(l: Vec, m: seq<Vec>, n: nat, j: nat, k: nat)
    requires Square(m, n) && j < n == |l| && k <= n
    ensures Comb(l, m, j, k) == Dot(l, Column(m, n, j), k)
  {
    if k > 0 {
      CombIsDot(l, m, n, j, k - 1);
    }
  }

  /** Multiplying a matrix by its inverse gives the identity. */
  lemma ProductIsIdentity(o: seq<Vec>, inv: seq<Vec>, n: nat, i: nat, j: nat)
    requires Square(o, n) && Square(inv, n) && InverseUpTo(o, inv, n, n) && i < n && j < n
    ensures Comb(o[i], inv, j, n) == if i == j then 1.0 else 0.0
  {
    CombIsDot(o[i], inv, n, j, n);
    assert Solves(o, Column(inv, n, j), Unit(n, j), n);
  }

  /** out = m v */
  method MultiplyVector(out: array<real>, m: array2<real>, v: array<real>)
    requires IsSquare(m) && out.Length == v.Length == m.Length0 && out != v
    modifies out
    ensures Solves(Rows(m), v[..], out[..], m.Length0)
  {
    var n := m.Length0;
    for i := 0 to n
      invariant forall l :: 0 <= l < i ==> Dot(Rows(m)[l], v[..], n) == out[l]
    {
      out[i] := 0.0;
      for j := 0 to n
        invariant forall l :: 0 <= l < i ==> Dot(Rows(m)[l], v[..], n) == out[l]
        invariant out[i] == Dot(Rows(m)[i], v[..], j)
      {
        out[i] := out[i] + m[i, j] * v[j];
      }
    }
  }
}
