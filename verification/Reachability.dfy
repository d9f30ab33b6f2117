/** The move system is complete: every normalized Polish expression can be reached from the initial
    one. Any expression is brought to the initial one - cuts to the left, all cuts vertical, units
    in order - and since every move undoes itself the way can be walked backwards. */
module Reachability {
  import opened PolishExpressions
  import opened TreeBuilder

  // ---------- ways ----------

  /** ms leads from s to t. */
  ghost predicate Leads(s: seq<int>, ms: seq<Move>, t: seq<int>) {
    IsRun(s, ms) && RunEnd(s, ms) == t
  }

  lemma {:induction false} LeadsOn(s: seq<int>, ms: seq<Move>, t: seq<int>, ns: seq<Move>, u: seq<int>)
    requires Leads(s, ms, t) && Leads(t, ns, u)
    ensures Leads(s, ms + ns, u)
    decreases |ms|
  {
    if ms == [] {
      assert ms + ns == ns;
    } else {
      LeadsOn(Apply(s, ms[0]), ms[1..], t, ns, u);
      assert (ms + ns)[1..] == ms[1..] + ns;
    }
  }

  lemma LeadsOne(s: seq<int>, m: Move)
    requires Enabled(s, m)
    ensures Leads(s, [m], Apply(s, m))
  {
    assert [m][1..] == [];
  }

  function Backwards(ms: seq<Move>): seq<Move> {
    if ms == [] then [] else Backwards(ms[1..]) + [ms[0]]
  }

  /** A way walked backwards. */
  lemma {:induction false} LeadsBack(s: seq<int>, n: nat, ms: seq<Move>, t: seq<int>)
    requires IsNpe(s, n) && Leads(s, ms, t)
    ensures Leads(t, Backwards(ms), s)
    decreases |ms|
  {
    if ms != [] {
      var m := ms[0];
      MoveKeepsNpe(s, n, m);
      MoveUndoesItself(s, n, m);
      LeadsBack(Apply(s, m), n, ms[1..], t);
      LeadsOne(Apply(s, m), m);
      LeadsOn(t, Backwards(ms[1..]), Apply(s, m), [m], s);
    }
  }

  // ---------- cuts to the left ----------

  /** Counts of cuts over all prefixes up to m: it grows as cuts move left. */
  function Early(s: seq<int>, m: nat): nat
    requires m <= |s|
  {
    if m == 0 then 0 else Early(s, m - 1) + Cuts(s, m)
  }

  lemma {:induction false} EarlyBound(s: seq<int>, m: nat)
    requires m <= |s|
    ensures Early(s, m) <= m * |s|
  {
    if m > 0 {
      EarlyBound(s, m - 1);
      UnitPositionsCount(s, m);
      OneMore(m - 1, |s|);
    }
  }

  lemma OneMore(k: nat, b: nat)
    ensures (k + 1) * b == k * b + b
  {
  }

  lemma {:induction false} EarlyGrows(s: seq<int>, pos: nat, m: nat)
    requires IsFlip(s, pos) && s[pos] >= 0 && m <= |s|
    ensures Early(Swapped(s, pos, pos + 1), m) == Early(s, m) + if m > pos then 1 else 0
    decreases m
  {
    if m > 0 {
      EarlyGrows(s, pos, m - 1);
      FlipCuts(s, pos, m);
    }
  }

  lemma {:induction false} EarlySame(s: seq<int>, t: seq<int>, m: nat)
    requires SameKinds(s, t) && m <= |s|
    ensures Early(s, m) == Early(t, m)
    decreases m
  {
    if m > 0 {
      EarlySame(s, t, m - 1);
      SameKindsSameCaches(s, t, m);
    }
  }

  /** A unit before a cut that may change places with it, as far as balloting goes. */
  predicate Loose(s: seq<int>, pos: nat) {
    pos + 1 < |s| && s[pos] >= 0 && s[pos + 1] < 0 && 2 * Cuts(s, pos + 2) < pos + 1
  }

  lemma TurnedIsLegal(s: seq<int>, u: seq<int>, pos: nat)
    requires |u| == |s| && 0 < pos && Loose(s, pos) && Cuts(u, pos + 2) == Cuts(s, pos + 2)
    requires u[pos - 1] == s[pos - 1] == s[pos + 1] && u[pos] == s[pos] && u[pos + 1] == OtherCut(s[pos + 1])
    ensures LegalCutUnitSwap(u, pos)
  {
  }

  /** If the left neighbour is the same cut, the chain is inverted first. */
  lemma MakeLegal(s: seq<int>, n: nat, pos: nat) returns (ms: seq<Move>, u: seq<int>)
    requires IsNpe(s, n) && 0 < pos && Loose(s, pos)
    ensures Leads(s, ms, u) && IsNpe(u, n) && SameKinds(s, u) && LegalCutUnitSwap(u, pos)
  {
    if s[pos - 1] == s[pos + 1] {
      ms, u := TurnChain(s, n, pos);
    } else {
      ms, u := [], s;
    }
  }

  lemma TurnChain(s: seq<int>, n: nat, pos: nat) returns (ms: seq<Move>, u: seq<int>)
    requires IsNpe(s, n) && 0 < pos && Loose(s, pos) && s[pos - 1] == s[pos + 1]
    ensures Leads(s, ms, u) && IsNpe(u, n) && SameKinds(s, u) && LegalCutUnitSwap(u, pos)
  {
    var m := InvertChain(pos + 1);
    u := Apply(s, m);
    InvertChainKeepsNpe(s, n, pos + 1);
    InvertChainSameKinds(s, pos + 1);
    SameKindsSameCaches(s, u, pos + 2);
    TurnedIsLegal(s, u, pos);
    LeadsOne(s, m);
    ms := [m];
  }

  /** A loose cut moves left. */
  lemma CutMovesLeft(s: seq<int>, n: nat, pos: nat) returns (ms: seq<Move>, t: seq<int>)
    requires IsNpe(s, n) && n >= 2 && Loose(s, pos)
    ensures Leads(s, ms, t) && IsNpe(t, n) && Early(t, |t|) > Early(s, |s|)
  {
    FlipsAreInside(s, n, pos);
    var first, u := MakeLegal(s, n, pos);
    EarlySame(s, u, |s|);
    var m := SwapCutUnit(pos);
    t := Apply(u, m);
    SwapCutUnitKeepsNpe(u, n, pos);
    EarlyGrows(u, pos, |u|);
    LeadsOne(u, m);
    LeadsOn(s, first, u, [m], t);
    ms := first + [m];
  }

  ghost predicate NoneLoose(s: seq<int>) {
    forall pos :: 0 <= pos < |s| ==> !Loose(s, pos)
  }

  lemma {:induction false} CutsLeft(s: seq<int>, n: nat) returns (ms: seq<Move>, t: seq<int>)
    requires IsNpe(s, n) && n >= 2
    ensures Leads(s, ms, t) && IsNpe(t, n) && NoneLoose(t)
    decreases |s| * |s| - Early(s, |s|)
  {
    EarlyBound(s, |s|);
    if pos :| 0 <= pos < |s| && Loose(s, pos) {
      var first, u := CutMovesLeft(s, n, pos);
      EarlyBound(u, |u|);
      var rest;
      rest, t := CutsLeft(u, n);
      LeadsOn(s, first, u, rest, t);
      ms := first + rest;
    } else {
      ms, t := [], s;
    }
  }

  /** Cuts at the even positions from 2 on, as in the initial expression. */
  ghost predicate Alternates(s: seq<int>) {
    forall i :: 0 <= i < |s| ==> (s[i] < 0 <==> i >= 2 && i % 2 == 0)
  }

  lemma {:induction false} AlternatesUpTo(s: seq<int>, n: nat, k: nat)
    requires IsNpe(s, n) && n >= 2 && NoneLoose(s) && k <= |s|
    ensures forall i :: 0 <= i < k ==> (s[i] < 0 <==> i >= 2 && i % 2 == 0)
    ensures k >= 1 ==> Cuts(s, k) == (k - 1) / 2
    decreases k
  {
    if k > 0 {
      AlternatesUpTo(s, n, k - 1);
      NpeEnds(s, n);
      var i := k - 1;
      assert 2 * Cuts(s, k) < k;
      if i >= 2 && i % 2 == 0 && s[i] >= 0 {
        var pos := UnitBeforeCut(s, i);
        assert !Loose(s, pos);
      }
    }
  }

  /** From a unit on, the first unit that has a cut after it. */
  lemma UnitBeforeCut(s: seq<int>, i: nat) returns (pos: nat)
    requires i < |s| && s[i] >= 0 && s[|s| - 1] < 0
    ensures i <= pos && pos + 1 < |s| && s[pos] >= 0 && s[pos + 1] < 0 && Cuts(s, pos + 2) == Cuts(s, i) + 1
  {
    pos := i;
    while s[pos + 1] >= 0
      invariant i <= pos && pos + 1 < |s| && s[pos] >= 0 && Cuts(s, pos + 1) == Cuts(s, i)
      decreases |s| - pos
    {
      pos := pos + 1;
    }
  }

  // ---------- all cuts vertical ----------

  function Horizontals(s: seq<int>, k: nat): nat
    requires k <= |s|
  {
    if k == 0 then 0 else Horizontals(s, k - 1) + if s[k - 1] == CUT_HORIZONTAL then 1 else 0
  }

  lemma {:induction false} OneFewer(s: seq<int>, pos: nat, k: nat)
    requires pos < |s| && k <= |s| && s[pos] == CUT_HORIZONTAL
    ensures Horizontals(s[pos := CUT_VERTICAL], k) == Horizontals(s, k) - if pos < k then 1 else 0
    decreases k
  {
    if k > 0 {
      OneFewer(s, pos, k - 1);
    }
  }

  lemma TurnedIs(s: seq<int>, pos: nat)
    requires Alternates(s) && pos < |s| && s[pos] == CUT_HORIZONTAL
    ensures Enabled(s, InvertChain(pos)) && Apply(s, InvertChain(pos)) == s[pos := CUT_VERTICAL]
  {
    if pos + 1 < |s| {
      NextUnitIs(s, pos, pos + 1);
    } else {
      NextUnitNone(s, pos);
    }
  }

  /** A cut that stands alone is turned. */
  lemma CutTurns(s: seq<int>, n: nat, pos: nat) returns (t: seq<int>)
    requires IsNpe(s, n) && Alternates(s) && pos < |s| && s[pos] == CUT_HORIZONTAL
    ensures Enabled(s, InvertChain(pos)) && t == Apply(s, InvertChain(pos))
    ensures IsNpe(t, n) && Alternates(t) && Horizontals(t, |t|) < Horizontals(s, |s|)
  {
    TurnedIs(s, pos);
    InvertChainKeepsNpe(s, n, pos);
    OneFewer(s, pos, |s|);
    t := s[pos := CUT_VERTICAL];
  }

  ghost predicate AllVertical(s: seq<int>) {
    forall i :: 0 <= i < |s| ==> s[i] != CUT_HORIZONTAL
  }

  lemma {:induction false} CutsTurn(s: seq<int>, n: nat) returns (ms: seq<Move>, t: seq<int>)
    requires IsNpe(s, n) && Alternates(s)
    ensures Leads(s, ms, t) && IsNpe(t, n) && Alternates(t) && AllVertical(t)
    decreases Horizontals(s, |s|)
  {
    if pos :| 0 <= pos < |s| && s[pos] == CUT_HORIZONTAL {
      var u := CutTurns(s, n, pos);
      LeadsOne(s, InvertChain(pos));
      var rest;
      rest, t := CutsTurn(u, n);
      LeadsOn(s, [InvertChain(pos)], u, rest, t);
      ms := [InvertChain(pos)] + rest;
    } else {
      ms, t := [], s;
    }
  }

  // ---------- units in order ----------

  /** Units weighted by their positions: it grows as larger units move right. */
  function Weight(s: seq<int>, k: nat): nat
    requires k <= |s|
  {
    if k == 0 then 0 else Weight(s, k - 1) + if s[k - 1] >= 0 then (k - 1) * s[k - 1] else 0
  }

  lemma {:induction false} WeightBound(s: seq<int>, n: nat, k: nat)
    requires k <= |s| && WellTyped(s, n)
    ensures Weight(s, k) <= k * (|s| * n)
  {
    if k > 0 {
      WeightBound(s, n, k - 1);
      OneMore(k - 1, |s| * n);
      if s[k - 1] >= 0 {
        Product(k - 1, s[k - 1], |s|, n);
      }
    }
  }

  lemma Product(a: nat, b: nat, c: nat, d: nat)
    requires a <= c && b <= d
    ensures a * b <= c * d
  {
    assert a * b <= a * d;
    assert a * d <= c * d;
  }

  lemma {:induction false} WeightSwapped(s: seq<int>, p: nat, q: nat, k: nat)
    requires p < q < |s| && s[p] >= 0 && s[q] >= 0 && k <= |s|
    ensures Weight(Swapped(s, p, q), k) - Weight(s, k)
            == (if p < k then p * (s[q] - s[p]) else 0) + (if q < k then q * (s[p] - s[q]) else 0)
    decreases k
  {
    if k > 0 {
      WeightSwapped(s, p, q, k - 1);
      Difference(k - 1, s[q], s[p]);
      Difference(k - 1, s[p], s[q]);
    }
  }

  lemma Difference(k: int, x: int, y: int)
    ensures k * x - k * y == k * (x - y)
  {
  }

  lemma WeightGrows(s: seq<int>, p: nat, q: nat)
    requires p < q < |s| && s[p] > s[q] >= 0
    ensures Weight(Swapped(s, p, q), |s|) > Weight(s, |s|)
  {
    WeightSwapped(s, p, q, |s|);
    var d := s[p] - s[q];
    assert p * (s[q] - s[p]) == -(p * d);
    assert q * d - p * d == (q - p) * d;
    Product(1, 1, q - p, d);
  }

  lemma UnitsSwapKeepsShape(s: seq<int>, pos: nat)
    requires Enabled(s, SwapUnits(pos)) && Alternates(s) && AllVertical(s)
    ensures Alternates(Apply(s, SwapUnits(pos))) && AllVertical(Apply(s, SwapUnits(pos)))
  {
  }

  /** A unit that is not below the next one. */
  predicate OutOfOrder(s: seq<int>, pos: nat) {
    pos < |s| && s[pos] >= 0 && NextUnit(s, pos + 1) < |s| && s[pos] >= s[NextUnit(s, pos + 1)]
  }

  ghost predicate Ordered(s: seq<int>) {
    forall pos: nat :: !OutOfOrder(s, pos)
  }

  lemma TwiceCounted(s: seq<int>, p: nat, q: nat)
    requires p < q < |s| && s[p] == s[q]
    ensures multiset(s)[s[p]] >= 2
  {
    assert s == s[..q] + [s[q]] + s[q + 1..];
    assert s[..q][p] in multiset(s[..q]);
  }

  lemma DifferentUnits(s: seq<int>, n: nat, p: nat, q: nat)
    requires EachUnitOnce(s, n) && p < q < |s| && 0 <= s[p] < n
    ensures s[p] != s[q]
  {
    if s[p] == s[q] {
      TwiceCounted(s, p, q);
    }
  }

  lemma SortStep(s: seq<int>, n: nat, pos: nat) returns (u: seq<int>)
    requires IsNpe(s, n) && Alternates(s) && AllVertical(s) && OutOfOrder(s, pos)
    ensures Enabled(s, SwapUnits(pos)) && u == Apply(s, SwapUnits(pos))
    ensures IsNpe(u, n) && Alternates(u) && AllVertical(u) && Weight(u, |u|) > Weight(s, |s|)
  {
    var q := NextUnit(s, pos + 1);
    DifferentUnits(s, n, pos, q);
    u := Apply(s, SwapUnits(pos));
    SwapUnitsKeepsNpe(s, n, pos);
    UnitsSwapKeepsShape(s, pos);
    WeightGrows(s, pos, q);
  }

  lemma {:induction false} UnitsSort(s: seq<int>, n: nat, bound: nat) returns (ms: seq<Move>, t: seq<int>)
    requires IsNpe(s, n) && Alternates(s) && AllVertical(s) && bound == |s| * (|s| * n)
    ensures Leads(s, ms, t) && IsNpe(t, n) && Alternates(t) && AllVertical(t) && Ordered(t)
    decreases bound - Weight(s, |s|)
  {
    WeightBound(s, n, |s|);
    if pos: nat :| OutOfOrder(s, pos) {
      var u := SortStep(s, n, pos);
      WeightBound(u, n, |u|);
      LeadsOne(s, SwapUnits(pos));
      var rest;
      rest, t := UnitsSort(u, n, bound);
      LeadsOn(s, [SwapUnits(pos)], u, rest, t);
      ms := [SwapUnits(pos)] + rest;
    } else {
      ms, t := [], s;
    }
  }

  // ---------- that is the initial expression ----------

  /** Where the k-th unit stands. */
  function Place(k: nat): nat {
    if k == 0 then 0 else 2 * k - 1
  }

  lemma NextPlace(s: seq<int>, n: nat, k: nat)
    requires IsNpe(s, n) && Alternates(s) && Ordered(s) && k + 1 < n
    ensures Place(k + 1) < |s| && 0 <= s[Place(k)] < s[Place(k + 1)]
  {
    var p, q := Place(k), Place(k + 1);
    NextUnitIs(s, p + 1, q);
    assert !OutOfOrder(s, p);
  }

  lemma {:induction false} AtLeast(s: seq<int>, n: nat, k: nat)
    requires IsNpe(s, n) && Alternates(s) && Ordered(s) && k < n
    ensures s[Place(k)] >= k
    decreases k
  {
    if k > 0 {
      AtLeast(s, n, k - 1);
      NextPlace(s, n, k - 1);
    }
  }

  lemma {:induction false} AtMost(s: seq<int>, n: nat, k: nat)
    requires IsNpe(s, n) && Alternates(s) && Ordered(s) && k < n
    ensures s[Place(k)] <= k
    decreases n - k
  {
    if k + 1 < n {
      AtMost(s, n, k + 1);
      NextPlace(s, n, k);
    }
  }

  lemma SortedIsInitial(s: seq<int>, n: nat)
    requires IsNpe(s, n) && Alternates(s) && AllVertical(s) && Ordered(s)
    ensures s == Initial(n)
  {
    forall i | 0 <= i < |s|
      ensures s[i] == Initial(n)[i]
    {
      if s[i] >= 0 {
        var k := (i + 1) / 2;
        assert i == Place(k);
        AtLeast(s, n, k);
        AtMost(s, n, k);
      }
    }
  }

  lemma OneUnit(s: seq<int>)
    requires IsNpe(s, 1)
    ensures s == Initial(1)
  {
    assert Cuts(s, 1) == 0;
  }

  lemma ToInitial(s: seq<int>, n: nat) returns (ms: seq<Move>)
    requires IsNpe(s, n)
    ensures Leads(s, ms, Initial(n))
  {
    if n == 1 {
      OneUnit(s);
      ms := [];
    } else {
      var a, t := CutsLeft(s, n);
      AlternatesUpTo(t, n, |t|);
      var b, u := CutsTurn(t, n);
      var c, v := UnitsSort(u, n, |u| * (|u| * n));
      SortedIsInitial(v, n);
      LeadsOn(s, a, t, b, u);
      LeadsOn(s, a + b, u, c, v);
      ms := a + b + c;
    }
  }

  /** Every expression can be reached from the one annealing starts with. */
  lemma Reachable(s: seq<int>, n: nat) returns (ms: seq<Move>)
    requires IsNpe(s, n)
    ensures IsRun(Initial(n), ms) && RunEnd(Initial(n), ms) == s
  {
    var back := ToInitial(s, n);
    LeadsBack(s, n, back, Initial(n));
    ms := Backwards(back);
  }

  /** With more than MAX_STACK units there are moves after which the tree can no longer be built. */
  lemma OverflowIsReachable(n: nat) returns (ms: seq<Move>)
    requires n > MAX_STACK
    ensures IsRun(Initial(n), ms) && var t := RunEnd(Initial(n), ms); !ShallowUpTo(t, |t|)
  {
    DeepOverflows(n);
    ms := Reachable(Deep(n), n);
  }
}
