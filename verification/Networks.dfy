/** Resistive networks with conductances to ambient: maximum principle, uniqueness and
    conservation of energy, for any number of nodes. */
module Networks {
  import opened Vectors
  import opened LinearSystems

  function Sum(v: Vec, n: nat): real
    requires n <= |v|
  {
    if n == 0 then 0.0 else Sum(v, n - 1) + v[n - 1]
  }

  ghost predicate Symmetric(b: seq<Vec>, n: nat)
    requires Square(b, n)
  {
    forall i, j :: 0 <= i < n && 0 <= j < n ==> b[i][j] == b[j][i]
  }

  ghost predicate OffDiagonalNonPositive(b: seq<Vec>, n: nat)
    requires Square(b, n)
  {
    forall i, j :: 0 <= i < n && 0 <= j < n && i != j ==> b[i][j] <= 0.0
  }

  /** b is the conductance matrix of a network whose node i leads to ambient with amb[i]. */
  ghost predicate IsNetwork(b: seq<Vec>, amb: Vec, n: nat) {
    && Square(b, n) && |amb| == n
    && Symmetric(b, n) && OffDiagonalNonPositive(b, n)
    && (forall i :: 0 <= i < n ==> amb[i] >= 0.0)
    && (forall i :: 0 <= i < n ==> Sum(b[i], n) == amb[i])
  }

  /** Node i leads to ambient itself or conducts to a node of smaller rank. */
  ghost predicate Hop(b: seq<Vec>, amb: Vec, n: nat, rank: seq<nat>, i: nat, j: nat)
    requires Square(b, n) && |amb| == n && |rank| == n && i < n && j < n
  {
    amb[i] > 0.0 || (b[i][j] < 0.0 && rank[j] < rank[i])
  }

  /** Following the hops leads from every node to ambient. */
  ghost predicate Grounded(b: seq<Vec>, amb: Vec, n: nat, rank: seq<nat>, hop: seq<nat>) {
    && Square(b, n) && |amb| == n && |rank| == n && |hop| == n
    && forall i :: 0 <= i < n ==> hop[i] < n && Hop(b, amb, n, rank, i, hop[i])
  }

  // ---------- heat balance of one node ----------

  function Differences(t: Vec, i: nat): (d: Vec)
    requires i < |t|
    ensures |d| == |t| && forall j :: 0 <= j < |t| ==> d[j] == t[j] - t[i]
  {
    seq(|t|, j requires 0 <= j < |t| => t[j] - t[i])
  }

  lemma {:induction false} Balance(r: Vec, t: Vec, i: nat, n: nat)
    requires |r| == |t| && n <= |r| && i < |t|
    ensures Dot(r, t, n) == Sum(r, n) * t[i] + Dot(r, Differences(t, i), n)
  {
    if n > 0 {
      Balance(r, t, i, n - 1);
      var c, x, y, s := r[n - 1], t[n - 1], t[i], Sum(r, n - 1);
      assert c * (x - y) == c * x - c * y;
      assert (s + c) * y == s * y + c * y;
    }
  }

  /** Terms that are never positive sum to something not positive, and to zero only if all
      of them vanish. */
  lemma {:induction false} DotNonPositive(r: Vec, d: Vec, n: nat, k: nat)
    requires n <= |r| && n <= |d| && forall j :: 0 <= j < n ==> r[j] * d[j] <= 0.0
    ensures Dot(r, d, n) <= 0.0
    ensures k < n && Dot(r, d, n) >= 0.0 ==> r[k] * d[k] == 0.0
  {
    if n > 0 {
      DotNonPositive(r, d, n - 1, k);
    }
  }

  lemma ProductSign(c: real, d: real)
    requires c <= 0.0 && d >= 0.0
    ensures c * d <= 0.0
    ensures c * d == 0.0 && c < 0.0 ==> d == 0.0
  {
  }

  /** At a coldest node heat only flows in. */
  lemma ColdestGains(b: seq<Vec>, amb: Vec, n: nat, t: Vec, i: nat, k: nat)
    requires IsNetwork(b, amb, n) && |t| == n && i < n && k < n && forall j :: 0 <= j < n ==> t[i] <= t[j]
    ensures Dot(b[i], t, n) <= amb[i] * t[i]
    ensures Dot(b[i], t, n) >= amb[i] * t[i] && b[i][k] < 0.0 && k != i ==> t[k] == t[i]
  {
    var d := Differences(t, i);
    Balance(b[i], t, i, n);
    var gain := Dot(b[i], d, n);
    assert Dot(b[i], t, n) == amb[i] * t[i] + gain by { assert Sum(b[i], n) == amb[i]; }
    forall j | 0 <= j < n
      ensures b[i][j] * d[j] <= 0.0
    {
      if j != i {
        ProductSign(b[i][j], d[j]);
      }
    }
    DotNonPositive(b[i], d, n, k);
    var c, e := b[i][k], d[k];
    if k != i && c < 0.0 && gain >= 0.0 {
      assert c * e == 0.0;
      ProductSign(c, e);
    }
  }

  lemma {:induction false} Coldest(t: Vec, n: nat) returns (i: nat)
    requires 0 < n <= |t|
    ensures i < n && forall j :: 0 <= j < n ==> t[i] <= t[j]
  {
    if n == 1 {
      i := 0;
    } else {
      i := Coldest(t, n - 1);
      if t[n - 1] < t[i] {
        i := n - 1;
      }
    }
  }

  /** Every node receives at least what its conductance to ambient would give at ambient. */
  ghost predicate Heated(power: Vec, amb: Vec, ambient: real, n: nat)
    requires |power| == n && |amb| == n
  {
    forall i :: 0 <= i < n ==> power[i] >= amb[i] * ambient
  }

  lemma ProductOrder(c: real, x: real, y: real)
    requires c > 0.0 && c * x <= c * y
    ensures x <= y
  {
    assert c * (y - x) == c * y - c * x;
  }

  /** A coldest node is not below ambient: follow the hops until one leads to ambient. */
  lemma {:induction false} ColdestAtAmbient(b: seq<Vec>, amb: Vec, n: nat, rank: seq<nat>, hop: seq<nat>, t: Vec,
                                            power: Vec, ambient: real, i: nat)
    requires IsNetwork(b, amb, n) && Grounded(b, amb, n, rank, hop) && |t| == |power| == n && i < n
    requires Solves(b, t, power, n) && Heated(power, amb, ambient, n)
    requires forall j :: 0 <= j < n ==> t[i] <= t[j]
    ensures t[i] >= ambient
    decreases rank[i]
  {
    var k := hop[i];
    ColdestGains(b, amb, n, t, i, k);
    assert amb[i] * ambient <= power[i] == Dot(b[i], t, n);
    assert Hop(b, amb, n, rank, i, k);
    if amb[i] > 0.0 {
      ProductOrder(amb[i], ambient, t[i]);
    } else {
      ColdestAtAmbient(b, amb, n, rank, hop, t, power, ambient, k);
    }
  }

  /** Maximum principle: with heat only coming in, no node is below ambient. */
  lemma NoneBelowAmbient(b: seq<Vec>, amb: Vec, n: nat, rank: seq<nat>, hop: seq<nat>, t: Vec, power: Vec,
                         ambient: real, j: nat)
    requires IsNetwork(b, amb, n) && Grounded(b, amb, n, rank, hop) && |t| == |power| == n && j < n
    requires Solves(b, t, power, n) && Heated(power, amb, ambient, n)
    ensures t[j] >= ambient
  {
    var i := Coldest(t, n);
    ColdestAtAmbient(b, amb, n, rank, hop, t, power, ambient, i);
  }

  // ---------- uniqueness ----------

  function Negated(t: Vec): (u: Vec)
    ensures |u| == |t| && forall i :: 0 <= i < |t| ==> u[i] == -1.0 * t[i]
  {
    seq(|t|, i requires 0 <= i < |t| => -1.0 * t[i])
  }

  lemma NegatedSolves(b: seq<Vec>, n: nat, t: Vec)
    requires Square(b, n) && |t| == n && Solves(b, t, Zeros(n), n)
    ensures Solves(b, Negated(t), Zeros(n), n)
  {
    forall i | 0 <= i < n
      ensures Dot(b[i], Negated(t), n) == 0.0
    {
      DotScales(b[i], t, Negated(t), -1.0, n);
    }
  }

  /** The conductance matrix of a grounded network has a trivial kernel. */
  lemma NetworkIsRegular(b: seq<Vec>, amb: Vec, n: nat, rank: seq<nat>, hop: seq<nat>)
    requires IsNetwork(b, amb, n) && Grounded(b, amb, n, rank, hop)
    ensures TrivialKernel(b, n)
  {
    forall t: Vec | |t| == n && Solves(b, t, Zeros(n), n)
      ensures t == Zeros(n)
    {
      NegatedSolves(b, n, t);
      forall j | 0 <= j < n
        ensures t[j] == 0.0
      {
        NoneBelowAmbient(b, amb, n, rank, hop, t, Zeros(n), 0.0, j);
        NoneBelowAmbient(b, amb, n, rank, hop, Negated(t), Zeros(n), 0.0, j);
      }
    }
  }

  // ---------- energy ----------

  function Ones(n: nat): (v: Vec)
    ensures |v| == n && forall i :: 0 <= i < n ==> v[i] == 1.0
  {
    seq(n, i => 1.0)
  }

  lemma {:induction false} CombOfOnes(b: seq<Vec>, n: nat, j: nat, k: nat)
    requires Square(b, n) && Symmetric(b, n) && j < n && k <= n
    ensures Comb(Ones(n), b, j, k) == Sum(b[j], k)
  {
    if k > 0 {
      CombOfOnes(b, n, j, k - 1);
    }
  }

  lemma {:induction false} DotsOfOnes(b: seq<Vec>, n: nat, t: Vec, power: Vec, k: nat)
    requires Square(b, n) && |t| == |power| == n && Solves(b, t, power, n) && k <= n
    ensures CombDots(Ones(n), b, t, k, n) == Sum(power, k)
  {
    if k > 0 {
      DotsOfOnes(b, n, t, power, k - 1);
    }
  }

  /** In a steady state as much heat leaves to ambient as comes in. */
  lemma EnergyConserved(b: seq<Vec>, amb: Vec, n: nat, t: Vec, power: Vec)
    requires IsNetwork(b, amb, n) && |t| == |power| == n && Solves(b, t, power, n)
    ensures Sum(power, n) == Dot(amb, t, n)
  {
    var r := CombRow(Ones(n), b, n, n);
    CombApplied(Ones(n), b, t, n, n);
    DotsOfOnes(b, n, t, power, n);
    forall j | 0 <= j < n
      ensures r[j] == amb[j]
    {
      CombOfOnes(b, n, j, n);
    }
    assert r == amb;
  }
}
