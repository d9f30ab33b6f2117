/** Positions between the lines of a grid, claimed one after another. */
module GridPositions {
  import opened Permutations

  /** Column and row of a position: between lines a and a + 1, and b and b + 1. */
  datatype Pos = Pos(a: nat, b: nat)

  predicate Apart(ps: seq<Pos>) {
    forall i, j :: 0 <= i < j < |ps| ==> ps[i] != ps[j]
  }

  predicate Within(ps: seq<Pos>, m: nat, k: nat) {
    forall i :: 0 <= i < |ps| ==> ps[i].a < m && ps[i].b < k
  }

  // ---------- at most m * k ----------

  function Number(p: Pos, k: nat): nat {
    p.a * k + p.b
  }

  lemma Times(a: nat, b: nat, c: nat)
    ensures (a + b) * c == a * c + b * c
  {
  }

  lemma NumberBelow(p: Pos, m: nat, k: nat)
    requires p.a < m && p.b < k
    ensures Number(p, k) < m * k
  {
    Times(p.a + 1, m - p.a - 1, k);
    Times(p.a, 1, k);
  }

  lemma NumberInjective(p: Pos, q: Pos, k: nat)
    requires p.b < k && q.b < k && Number(p, k) == Number(q, k)
    ensures p == q
  {
    if p.a < q.a {
      NumberBelow(p, q.a, k);
    } else if q.a < p.a {
      NumberBelow(q, p.a, k);
    }
  }

  function Numbers(ps: seq<Pos>, k: nat): (r: seq<nat>)
    ensures |r| == |ps| && forall i :: 0 <= i < |ps| ==> r[i] == Number(ps[i], k)
  {
    seq(|ps|, i requires 0 <= i < |ps| => Number(ps[i], k))
  }

  lemma NumbersDistinct(ps: seq<Pos>, m: nat, k: nat)
    requires Apart(ps) && Within(ps, m, k)
    ensures Distinct(Numbers(ps, k)) && Below(Numbers(ps, k), m * k)
  {
    var ns := Numbers(ps, k);
    forall i, j | 0 <= i < j < |ns|
      ensures ns[i] != ns[j]
    {
      if ns[i] == ns[j] {
        NumberInjective(ps[i], ps[j], k);
      }
    }
    forall i | 0 <= i < |ns|
      ensures ns[i] < m * k
    {
      NumberBelow(ps[i], m, k);
    }
  }

  lemma AtMost(ps: seq<Pos>, m: nat, k: nat)
    requires Apart(ps) && Within(ps, m, k)
    ensures |ps| <= m * k
  {
    NumbersDistinct(ps, m, k);
    Pigeonhole(Numbers(ps, k), m * k);
  }

  /** With m * k positions every position is among them. */
  lemma FullHas(ps: seq<Pos>, m: nat, k: nat, p: Pos)
    requires Apart(ps) && Within(ps, m, k) && |ps| == m * k && p.a < m && p.b < k
    ensures p in ps
  {
    NumbersDistinct(ps, m, k);
    NumberBelow(p, m, k);
    var i := SlotOf(Numbers(ps, k), m * k, Number(p, k));
    NumberInjective(ps[i], p, k);
  }

  // ---------- blocks of positions ----------

  /** The rows from y0 on in one column. */
  function Column(a: nat, y0: nat, y1: nat): (r: seq<Pos>)
    ensures forall i :: 0 <= i < |r| ==> r[i].a == a && y0 <= r[i].b < y1
    decreases y1
  {
    if y1 <= y0 then [] else Column(a, y0, y1 - 1) + [Pos(a, y1 - 1)]
  }

  /** All positions of the columns from x0 and the rows from y0 on. */
  function Block(x0: nat, x1: nat, y0: nat, y1: nat): (r: seq<Pos>)
    ensures forall i :: 0 <= i < |r| ==> x0 <= r[i].a < x1 && y0 <= r[i].b < y1
    decreases x1
  {
    if x1 <= x0 then [] else Block(x0, x1 - 1, y0, y1) + Column(x1 - 1, y0, y1)
  }

  lemma {:induction false} ColumnHas(a: nat, y0: nat, y1: nat, b: nat)
    requires y0 <= b < y1
    ensures Pos(a, b) in Column(a, y0, y1)
    decreases y1
  {
    if b < y1 - 1 {
      ColumnHas(a, y0, y1 - 1, b);
    }
  }

  lemma {:induction false} BlockHas(x0: nat, x1: nat, y0: nat, y1: nat, p: Pos)
    requires x0 <= p.a < x1 && y0 <= p.b < y1
    ensures p in Block(x0, x1, y0, y1)
    decreases x1
  {
    if p.a < x1 - 1 {
      BlockHas(x0, x1 - 1, y0, y1, p);
    } else {
      ColumnHas(p.a, y0, y1, p.b);
    }
  }

  lemma {:induction false} ColumnApart(a: nat, y0: nat, y1: nat)
    ensures Apart(Column(a, y0, y1)) && (y0 <= y1 ==> |Column(a, y0, y1)| == y1 - y0)
    decreases y1
  {
    if y0 < y1 {
      ColumnApart(a, y0, y1 - 1);
    }
  }

  lemma {:induction false} BlockApart(x0: nat, x1: nat, y0: nat, y1: nat)
    ensures Apart(Block(x0, x1, y0, y1))
    ensures x0 <= x1 && y0 <= y1 ==> |Block(x0, x1, y0, y1)| == (x1 - x0) * (y1 - y0)
    decreases x1
  {
    if x0 < x1 {
      BlockApart(x0, x1 - 1, y0, y1);
      ColumnApart(x1 - 1, y0, y1);
      if y0 <= y1 {
        Times(x1 - 1 - x0, 1, y1 - y0);
      }
    }
  }

  // ---------- claiming ----------

  /** The taken positions and then those of the list that are not taken. */
  function Collect(taken: seq<Pos>, list: seq<Pos>): seq<Pos> {
    if list == [] then taken
    else
      var t := Collect(taken, list[..|list| - 1]);
      if list[|list| - 1] in t then t else t + [list[|list| - 1]]
  }

  lemma {:induction false} CollectGrows(taken: seq<Pos>, list: seq<Pos>)
    ensures taken <= Collect(taken, list)
    ensures Apart(taken) ==> Apart(Collect(taken, list))
    ensures forall p :: p in Collect(taken, list) <==> p in taken || p in list
    decreases |list|
  {
    if list != [] {
      CollectGrows(taken, list[..|list| - 1]);
      assert list == list[..|list| - 1] + [list[|list| - 1]];
    }
  }

  /** A list of free positions is taken as a whole. */
  lemma {:induction false} CollectFree(taken: seq<Pos>, list: seq<Pos>)
    requires Apart(list) && forall p :: p in list ==> p !in taken
    ensures Collect(taken, list) == taken + list
    decreases |list|
  {
    if list == [] {
      assert taken + list == taken;
    } else {
      var n := |list| - 1;
      assert forall p :: p in list[..n] ==> p in list;
      CollectFree(taken, list[..n]);
      assert list[n] !in list[..n];
      assert list[..n] + [list[n]] == list;
      assert taken + list[..n] + [list[n]] == taken + list;
    }
  }

  lemma {:induction false} CollectConcat(taken: seq<Pos>, a: seq<Pos>, b: seq<Pos>)
    ensures Collect(Collect(taken, a), b) == Collect(taken, a + b)
    decreases |b|
  {
    if b == [] {
      assert a + b == a;
    } else {
      CollectConcat(taken, a, b[..|b| - 1]);
      assert (a + b)[..|a + b| - 1] == a + b[..|b| - 1];
    }
  }

  lemma IndexOf(ps: seq<Pos>, p: Pos) returns (i: nat)
    requires p in ps
    ensures i < |ps| && ps[i] == p
  {
    i :| 0 <= i < |ps| && ps[i] == p;
  }

  /** If all positions are there, there are at least m * k. */
  lemma {:induction false} AtLeast(ps: seq<Pos>, m: nat, k: nat)
    requires forall p: Pos :: p.a < m && p.b < k ==> p in ps
    ensures m * k <= |ps|
  {
    var all := Block(0, m, 0, k);
    BlockApart(0, m, 0, k);
    var idx: seq<nat> := [];
    while |idx| < |all|
      invariant |idx| <= |all| && Below(idx, |ps|)
      invariant forall i :: 0 <= i < |idx| ==> idx[i] < |ps| && ps[idx[i]] == all[i]
    {
      var i := IndexOf(ps, all[|idx|]);
      idx := idx + [i];
    }
    assert Distinct(idx);
    Pigeonhole(idx, |ps|);
  }

  // ---------- one unit after another ----------

  /** Columns from x0 up to x1 and rows from y0 up to y1. */
  datatype Span = Span(x0: nat, x1: nat, y0: nat, y1: nat)

  function BlockOf(s: Span): seq<Pos> {
    Block(s.x0, s.x1, s.y0, s.y1)
  }

  predicate InSpan(s: Span, p: Pos) {
    s.x0 <= p.a < s.x1 && s.y0 <= p.b < s.y1
  }

  lemma BlockIsSpan(s: Span, p: Pos)
    ensures p in BlockOf(s) <==> InSpan(s, p)
  {
    if InSpan(s, p) {
      BlockHas(s.x0, s.x1, s.y0, s.y1, p);
    }
  }

  /** All positions taken by the first n spans. */
  function All(spans: seq<Span>, n: nat): seq<Pos>
    requires n <= |spans|
  {
    if n == 0 then [] else Collect(All(spans, n - 1), BlockOf(spans[n - 1]))
  }

  ghost predicate Fitting(spans: seq<Span>, m: nat, k: nat) {
    forall i :: 0 <= i < |spans| ==> spans[i].x1 <= m && spans[i].y1 <= k
  }

  lemma {:induction false} AllHas(spans: seq<Span>, n: nat, p: Pos)
    requires n <= |spans|
    ensures p in All(spans, n) <==> exists i :: 0 <= i < n && InSpan(spans[i], p)
  {
    if n > 0 {
      AllHas(spans, n - 1, p);
      CollectGrows(All(spans, n - 1), BlockOf(spans[n - 1]));
      BlockIsSpan(spans[n - 1], p);
    }
  }

  lemma {:induction false} AllApart(spans: seq<Span>, n: nat)
    requires n <= |spans|
    ensures Apart(All(spans, n))
  {
    if n > 0 {
      AllApart(spans, n - 1);
      CollectGrows(All(spans, n - 1), BlockOf(spans[n - 1]));
    }
  }

  lemma AllWithin(spans: seq<Span>, n: nat, m: nat, k: nat)
    requires n <= |spans| && Fitting(spans, m, k)
    ensures Within(All(spans, n), m, k)
  {
    var ps := All(spans, n);
    forall i | 0 <= i < |ps|
      ensures ps[i].a < m && ps[i].b < k
    {
      AllHas(spans, n, ps[i]);
    }
  }

  /** All m * k positions are taken exactly when each lies in some span. */
  lemma FullIff(spans: seq<Span>, m: nat, k: nat)
    requires Fitting(spans, m, k)
    ensures |All(spans, |spans|)| <= m * k
    ensures |All(spans, |spans|)| == m * k
            <==> forall p: Pos :: p.a < m && p.b < k ==> exists i :: 0 <= i < |spans| && InSpan(spans[i], p)
  {
    var ps := All(spans, |spans|);
    AllApart(spans, |spans|);
    AllWithin(spans, |spans|, m, k);
    AtMost(ps, m, k);
    forall p: Pos | p.a < m && p.b < k
      ensures p in ps <==> exists i :: 0 <= i < |spans| && InSpan(spans[i], p)
    {
      AllHas(spans, |spans|, p);
    }
    if |ps| == m * k {
      forall p: Pos | p.a < m && p.b < k
        ensures p in ps
      {
        FullHas(ps, m, k, p);
      }
    }
    if forall p: Pos :: p.a < m && p.b < k ==> p in ps {
      AtLeast(ps, m, k);
    }
  }

  /** Spans that share no position take their blocks as a whole. */
  lemma AllFree(spans: seq<Span>, n: nat)
    requires n < |spans|
    requires forall p: Pos, i :: 0 <= i < n && InSpan(spans[i], p) ==> !InSpan(spans[n], p)
    ensures All(spans, n + 1) == All(spans, n) + BlockOf(spans[n])
  {
    var s := spans[n];
    BlockApart(s.x0, s.x1, s.y0, s.y1);
    forall p | p in BlockOf(s)
      ensures p !in All(spans, n)
    {
      BlockIsSpan(s, p);
      AllHas(spans, n, p);
    }
    CollectFree(All(spans, n), BlockOf(s));
  }
}
