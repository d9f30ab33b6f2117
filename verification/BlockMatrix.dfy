/** The matrix B of the steady state: B T = power. */
module BlockMatrix {
  import opened Vectors
  import opened Lup
  import opened Networks
  import opened ChipConductances
  import opened BlockNetwork

  /** Two conductances in series. */
  function Series(a: real, b: real): (s: real)
    requires a >= 0.0 && b >= 0.0
    ensures s >= 0.0 && (a > 0.0 && b > 0.0 ==> s > 0.0)
    ensures s == if b == 0.0 || a == 0.0 then 0.0 else 1.0 / (1.0 / b + 1.0 / a)
  {
    if a == 0.0 || b == 0.0 then 0.0
    else
      QuotientPositive(1.0, a);
      QuotientPositive(1.0, b);
      QuotientPositive(1.0, 1.0 / a + 1.0 / b);
      1.0 / (1.0 / a + 1.0 / b)
  }

  ghost predicate NonNegativeEntries(g: seq<Vec>, n: nat)
    requires Square(g, n)
  {
    forall i, j :: 0 <= i < n && 0 <= j < n ==> g[i][j] >= 0.0
  }

  /** Minus the series conductance of the two halves between nodes i and j. */
  ghost function Link(g: seq<Vec>, n: nat, i: nat, j: nat): (x: real)
    requires Square(g, n) && NonNegativeEntries(g, n) && i < n && j < n
    ensures x <= 0.0 && (g[i][j] > 0.0 && g[j][i] > 0.0 ==> x < 0.0)
    ensures x == -Series(g[j][i], g[i][j])
  {
    -Series(g[i][j], g[j][i])
  }

  ghost predicate Linked(b: array2<real>, g: seq<Vec>, n: nat, k: nat)
    requires IsSquare(b) && b.Length0 == n && Square(g, n) && NonNegativeEntries(g, n) && k <= n
    reads b
  {
    forall i, j :: 0 <= i < k && 0 <= j < k && i != j ==> b[i, j] == Link(g, n, i, j)
  }

  lemma MinusQuotient(x: real)
    requires x > 0.0
    ensures -1.0 / x == -(1.0 / x)
  {
  }

  method LinkPair(b: array2<real>, g: array2<real>, i: nat, j: nat, ghost m: seq<Vec>)
    requires IsSquare(b) && IsSquare(g) && b.Length0 == g.Length0 && b != g && j < i < b.Length0
    requires m == Rows(g) && NonNegativeEntries(m, b.Length0)
    modifies b
    ensures b[i, j] == b[j, i] == Link(m, b.Length0, i, j)
    ensures forall r, c :: 0 <= r < b.Length0 && 0 <= c < b.Length0 && !(r == i && c == j) && !(r == j && c == i)
              ==> b[r, c] == old(b[r, c])
  {
    if g[i, j] == 0.0 || g[j, i] == 0.0 {
      b[i, j], b[j, i] := 0.0, 0.0;
    } else {
      assert m[i][j] >= 0.0 && m[j][i] >= 0.0;
      QuotientPositive(1.0, g[i, j]);
      QuotientPositive(1.0, g[j, i]);
      MinusQuotient(1.0 / g[i, j] + 1.0 / g[j, i]);
      var x := -1.0 / (1.0 / g[i, j] + 1.0 / g[j, i]);
      b[i, j], b[j, i] := x, x;
    }
  }

  method LinkAll(b: array2<real>, g: array2<real>, ghost m: seq<Vec>, ghost n: nat)
    requires IsSquare(b) && IsSquare(g) && b.Length0 == g.Length0 == n && b != g
    requires m == Rows(g) && NonNegativeEntries(m, n)
    modifies b
    ensures Linked(b, m, n, n)
  {
    for i := 0 to b.Length0
      invariant Linked(b, m, n, i) && Rows(g) == m
    {
      for j := 0 to i
        invariant Linked(b, m, n, i) && Rows(g) == m
        invariant forall l :: 0 <= l < j ==> b[i, l] == Link(m, n, i, l) && b[l, i] == Link(m, n, l, i)
      {
        LinkPair(b, g, i, j, m);
      }
    }
  }

  /** Sum of a row except its diagonal entry. */
  function SumBut(v: Vec, i: nat, n: nat): real
    requires n <= |v|
  {
    if n == 0 then 0.0 else SumBut(v, i, n - 1) + if n - 1 == i then 0.0 else v[n - 1]
  }

  lemma {:induction false} SumButSame(v: Vec, w: Vec, i: nat, n: nat)
    requires n <= |v| == |w| && forall j :: 0 <= j < n && j != i ==> v[j] == w[j]
    ensures SumBut(v, i, n) == SumBut(w, i, n)
  {
    if n > 0 {
      SumButSame(v, w, i, n - 1);
    }
  }

  lemma {:induction false} SumIsSumBut(v: Vec, i: nat, n: nat)
    requires n <= |v|
    ensures Sum(v, n) == SumBut(v, i, n) + if i < n then v[i] else 0.0
  {
    if n > 0 {
      SumIsSumBut(v, i, n - 1);
    }
  }

  // ---------- the diagonal ----------

  /** What node r leads to ambient with. */
  function ToAmbient(ls: Links, a: Node): real {
    if a.Block? then if a.layer == HSINK then ls.blockAmb(a.unit) else 0.0
    else if a.k < SINK_C then 0.0
    else if a.k < SINK then ls.innerAmb(a.k - SINK_C)
    else ls.outerAmb
  }

  /** Entry i is the conductance of sink block i, or of package node i - n. */
  ghost predicate Ambients(gAmb: array<real>, ls: Links, n: nat)
    reads gAmb
  {
    && gAmb.Length == n + EXTRA
    && (forall i :: 0 <= i < n ==> gAmb[i] == ls.blockAmb(i))
    && (forall k :: 0 <= k < EXTRA ==> gAmb[n + k] == ToAmbient(ls, Extra(k)))
  }

  method FillBlockAmbients(gAmb: array<real>, ls: Links, n: nat)
    requires gAmb.Length == n + EXTRA
    modifies gAmb
    ensures forall i :: 0 <= i < n ==> gAmb[i] == ls.blockAmb(i)
    ensures forall k :: n <= k < n + EXTRA ==> gAmb[k] == 0.0
  {
    for i := 0 to n + EXTRA
      invariant forall l :: 0 <= l < i ==> gAmb[l] == 0.0
    {
      gAmb[i] := 0.0;
    }
    for i := 0 to n
      invariant forall l :: 0 <= l < i ==> gAmb[l] == ls.blockAmb(l)
      invariant forall l :: n <= l < n + EXTRA ==> gAmb[l] == 0.0
    {
      gAmb[i] := ls.blockAmb(i);
    }
  }

  method FillAmbients(gAmb: array<real>, ls: Links, n: nat)
    requires gAmb.Length == n + EXTRA
    modifies gAmb
    ensures Ambients(gAmb, ls, n)
  {
    FillBlockAmbients(gAmb, ls, n);
    SetSides(gAmb, n + SINK_C, ls.innerAmb(WEST), ls.innerAmb(EAST), ls.innerAmb(NORTH), ls.innerAmb(SOUTH));
    SetSides(gAmb, n + SINK, ls.outerAmb, ls.outerAmb, ls.outerAmb, ls.outerAmb);
  }

  /** The four package nodes of one kind, from position x on. */
  method SetSides(gAmb: array<real>, x: nat, west: real, east: real, north: real, south: real)
    requires x + 4 <= gAmb.Length
    modifies gAmb
    ensures gAmb[x + WEST] == west && gAmb[x + EAST] == east && gAmb[x + NORTH] == north && gAmb[x + SOUTH] == south
    ensures forall i :: 0 <= i < gAmb.Length && !(x <= i < x + 4) ==> gAmb[i] == old(gAmb[i])
  {
    gAmb[x + NORTH], gAmb[x + SOUTH] := north, south;
    gAmb[x + EAST], gAmb[x + WEST] := east, west;
  }

  lemma Remainder(i: nat, n: nat)
    requires 3 * n <= i < 4 * n
    ensures i % n == i - 3 * n
  {
    assert i == 3 * n + (i - 3 * n);
  }

  method AmbientAt(gAmb: array<real>, ls: Links, n: nat, i: nat) returns (x: real)
    requires Ambients(gAmb, ls, n) && i < Nodes(n)
    ensures x == ToAmbient(ls, NodeAt(n, i))
  {
    if HSINK * n <= i < NL * n {
      Remainder(i, n);
      x := gAmb[i % n];
    } else if i >= NL * n + SINK_C {
      ghost var k := i - NL * n;
      assert gAmb[n + k] == ToAmbient(ls, Extra(k));
      x := gAmb[n + i - NL * n];
    } else {
      x := 0.0;
    }
  }

  /** Starting from its conductance to ambient, subtracts all links of row i from its
      diagonal entry. */
  method SumLinks(b: array2<real>, i: nat, amb: real)
    requires IsSquare(b) && i < b.Length0
    modifies b
    ensures Sum(Rows(b)[i], b.Length0) == amb
    ensures forall r, c :: 0 <= r < b.Length0 && 0 <= c < b.Length0 && !(r == i && c == i) ==> b[r, c] == old(b[r, c])
  {
    b[i, i] := amb;
    ghost var row := Rows(b)[i];
    for j := 0 to b.Length0
      invariant b[i, i] == amb - SumBut(row, i, j)
      invariant forall r, c ::
                  0 <= r < b.Length0 && 0 <= c < b.Length0 && !(r == i && c == i) ==> b[r, c] == old(b[r, c])
    {
      if i != j {
        b[i, i] := b[i, i] - b[i, j];
      }
    }
    SumButSame(row, Rows(b)[i], i, b.Length0);
    SumIsSumBut(Rows(b)[i], i, b.Length0);
  }
}
