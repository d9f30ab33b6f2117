/** Normalized Polish expressions as plain sequences: what the floorplanner's moves
    work on, the positions its caches list, and the three moves themselves.
    Units are numbered from 0; cuts are the two negative codes. */
module PolishExpressions {

  const CUT_VERTICAL: int := -2
  const CUT_HORIZONTAL: int := -3

  predicate IsCut(e: int) {
    e == CUT_VERTICAL || e == CUT_HORIZONTAL
  }

  function OtherCut(e: int): int {
    if e == CUT_VERTICAL then CUT_HORIZONTAL else CUT_VERTICAL
  }

  // ---------- what the caches list ----------

  /** Number of cuts among the first k elements. */
  function Cuts(s: seq<int>, k: nat): nat
    requires k <= |s|
  {
    if k == 0 then 0 else Cuts(s, k - 1) + (if s[k - 1] < 0 then 1 else 0)
  }

  /** Positions below k that hold a unit, ascending. */
  function UnitPositions(s: seq<int>, k: nat): seq<int>
    requires k <= |s|
  {
    if k == 0 then [] else UnitPositions(s, k - 1) + (if s[k - 1] >= 0 then [k - 1] else [])
  }

  /** A unit next to a cut, in either order. */
  predicate IsFlip(s: seq<int>, i: int) {
    0 <= i < |s| - 1 && (s[i] < 0 <==> s[i + 1] >= 0)
  }

  /** Positions below k where a unit meets a cut, ascending. */
  function FlipPositions(s: seq<int>, k: nat): seq<int>
    requires k <= |s|
  {
    if k == 0 then [] else FlipPositions(s, k - 1) + (if IsFlip(s, k - 1) then [k - 1] else [])
  }

  /** The first cut of a maximal run of cuts. */
  predicate IsChainStart(s: seq<int>, i: int) {
    0 <= i < |s| && s[i] < 0 && (i == 0 || s[i - 1] >= 0)
  }

  /** Positions below k where a chain of cuts starts, ascending. */
  function ChainPositions(s: seq<int>, k: nat): seq<int>
    requires k <= |s|
  {
    if k == 0 then [] else ChainPositions(s, k - 1) + (if IsChainStart(s, k - 1) then [k - 1] else [])
  }

  // ---------- the expressions the floorplanner may hold ----------

  /** No two equal cuts side by side among the first k elements. */
  predicate NormalizedUpTo(s: seq<int>, k: nat)
    requires k <= |s|
  {
    forall i :: 0 <= i < k - 1 && s[i] < 0 ==> s[i] != s[i + 1]
  }

  predicate Normalized(s: seq<int>) {
    NormalizedUpTo(s, |s|)
  }

  /** Every prefix holds more units than cuts: 2 * cuts < length. */
  ghost predicate Balloting(s: seq<int>) {
    forall k :: 0 < k <= |s| ==> 2 * Cuts(s, k) < k
  }

  /** Each element is a cut or a unit below n. */
  predicate WellTyped(s: seq<int>, n: nat) {
    forall i :: 0 <= i < |s| ==> IsCut(s[i]) || 0 <= s[i] < n
  }

  /** Every unit below n occurs exactly once. */
  ghost predicate EachUnitOnce(s: seq<int>, n: nat) {
    forall u :: 0 <= u < n ==> multiset(s)[u] == 1
  }

  /** A normalized Polish expression over the units 0..n-1 with n-1 cuts. */
  ghost predicate IsNpe(s: seq<int>, n: nat) {
    && n >= 1
    && |s| == 2 * n - 1
    && WellTyped(s, n)
    && EachUnitOnce(s, n)
    && Cuts(s, |s|) == n - 1
    && Balloting(s)
    && Normalized(s)
  }

  // ---------- facts about the caches ----------

  lemma {:induction false} UnitPositionsMember(s: seq<int>, k: nat, x: int)
    requires k <= |s|
    ensures x in UnitPositions(s, k) <==> 0 <= x < k && s[x] >= 0
  {
    if k > 0 {
      UnitPositionsMember(s, k - 1, x);
    }
  }

  lemma {:induction false} FlipPositionsMember(s: seq<int>, k: nat, x: int)
    requires k <= |s|
    ensures x in FlipPositions(s, k) <==> x < k && IsFlip(s, x)
  {
    if k > 0 {
      FlipPositionsMember(s, k - 1, x);
    }
  }

  lemma {:induction false} ChainPositionsMember(s: seq<int>, k: nat, x: int)
    requires k <= |s|
    ensures x in ChainPositions(s, k) <==> x < k && IsChainStart(s, x)
  {
    if k > 0 {
      ChainPositionsMember(s, k - 1, x);
    }
  }

  /** The unit cache is strictly ascending, so it can be binary searched. */
  lemma {:induction false} UnitPositionsAscend(s: seq<int>, k: nat)
    requires k <= |s|
    ensures forall a, b :: 0 <= a < b < |UnitPositions(s, k)| ==> UnitPositions(s, k)[a] < UnitPositions(s, k)[b]
    ensures forall a :: 0 <= a < |UnitPositions(s, k)| ==> 0 <= UnitPositions(s, k)[a] < k
  {
    if k > 0 {
      UnitPositionsAscend(s, k - 1);
    }
  }

  /** Units and cuts share out the positions. */
  lemma {:induction false} UnitPositionsCount(s: seq<int>, k: nat)
    requires k <= |s|
    ensures |UnitPositions(s, k)| + Cuts(s, k) == k
  {
    if k > 0 {
      UnitPositionsCount(s, k - 1);
    }
  }

  lemma {:induction false} CacheSizes(s: seq<int>, k: nat)
    requires k <= |s|
    ensures |FlipPositions(s, k)| <= k
    ensures |ChainPositions(s, k)| <= Cuts(s, k)
  {
    if k > 0 {
      CacheSizes(s, k - 1);
    }
  }

  lemma {:induction false} CutsMonotone(s: seq<int>, j: nat, k: nat)
    requires j <= k <= |s|
    ensures Cuts(s, j) <= Cuts(s, k)
    ensures |UnitPositions(s, j)| <= |UnitPositions(s, k)|
    decreases k
  {
    if j < k {
      CutsMonotone(s, j, k - 1);
    }
  }

  // ---------- two sequences with the same kinds of elements share the caches ----------

  /** s and t hold a unit at exactly the same positions. */
  ghost predicate SameKinds(s: seq<int>, t: seq<int>) {
    |s| == |t| && forall i :: 0 <= i < |s| ==> (s[i] < 0 <==> t[i] < 0)
  }

  lemma {:induction false} SameKindsSameCaches(s: seq<int>, t: seq<int>, k: nat)
    requires SameKinds(s, t) && k <= |s|
    ensures Cuts(s, k) == Cuts(t, k)
    ensures UnitPositions(s, k) == UnitPositions(t, k)
    ensures FlipPositions(s, k) == FlipPositions(t, k)
    ensures ChainPositions(s, k) == ChainPositions(t, k)
  {
    if k > 0 {
      SameKindsSameCaches(s, t, k - 1);
    }
  }

  // ---------- the moves ----------

  function Swapped(s: seq<int>, i: nat, j: nat): (r: seq<int>)
    requires i < |s| && j < |s|
    ensures |r| == |s| && r[i] == s[j] && r[j] == s[i]
    ensures forall k :: 0 <= k < |s| && k != i && k != j ==> r[k] == s[k]
  {
    s[i := s[j]][j := s[i]]
  }

  lemma SwappedIsPermutation(s: seq<int>, i: nat, j: nat)
    requires i < |s| && j < |s|
    ensures multiset(Swapped(s, i, j)) == multiset(s)
  {
    assert Swapped(s, i, j) == s[i := s[j]][j := s[i]];
  }

  /** First unit at or after i, or |s| when there is none. */
  function NextUnit(s: seq<int>, i: nat): (j: nat)
    requires i <= |s|
    ensures i <= j <= |s|
    ensures forall k :: i <= k < j ==> s[k] < 0
    ensures j < |s| ==> s[j] >= 0
    decreases |s| - i
  {
    if i == |s| || s[i] >= 0 then i else NextUnit(s, i + 1)
  }

  datatype Move =
    | SwapUnits(pos: nat)    // M1: swap a unit with the next unit
    | InvertChain(pos: nat)  // M2: exchange the two cut types along one chain
    | SwapCutUnit(pos: nat)  // M3: swap neighbouring unit and cut

  /** The conditions under which the source carries the move out. */
  predicate Enabled(s: seq<int>, m: Move) {
    match m
    case SwapUnits(pos) => pos < |s| && s[pos] >= 0 && NextUnit(s, pos + 1) < |s|
    case InvertChain(pos) => IsChainStart(s, pos)
    case SwapCutUnit(pos) => LegalCutUnitSwap(s, pos)
  }

  /** Swapping positions pos and pos+1 keeps the expression normalized and balloting. */
  predicate LegalCutUnitSwap(s: seq<int>, pos: nat) {
    && 0 < pos
    && IsFlip(s, pos)
    && if s[pos] >= 0
       then s[pos - 1] != s[pos + 1] && 2 * Cuts(s, pos + 2) < pos + 1
       else pos + 2 >= |s| || s[pos] != s[pos + 2]
  }

  function Inverted(s: seq<int>, lo: nat, hi: nat): (r: seq<int>)
    requires lo <= hi <= |s|
    ensures |r| == |s|
    ensures forall i :: 0 <= i < |s| ==> r[i] == if lo <= i < hi then OtherCut(s[i]) else s[i]
  {
    seq(|s|, i requires 0 <= i < |s| => if lo <= i < hi then OtherCut(s[i]) else s[i])
  }

  function Apply(s: seq<int>, m: Move): seq<int>
    requires Enabled(s, m)
  {
    match m
    case SwapUnits(pos) => Swapped(s, pos, NextUnit(s, pos + 1))
    case InvertChain(pos) => Inverted(s, pos, NextUnit(s, pos))
    case SwapCutUnit(pos) => Swapped(s, pos, pos + 1)
  }

  // ---------- every move keeps the expression valid ----------

  lemma SwapUnitsSameKinds(s: seq<int>, pos: nat)
    requires Enabled(s, SwapUnits(pos))
    ensures SameKinds(s, Apply(s, SwapUnits(pos)))
  {
  }

  lemma SwapUnitsKeepsNpe(s: seq<int>, n: nat, pos: nat)
    requires IsNpe(s, n) && Enabled(s, SwapUnits(pos))
    ensures IsNpe(Apply(s, SwapUnits(pos)), n)
  {
    var t := Apply(s, SwapUnits(pos));
    SwappedIsPermutation(s, pos, NextUnit(s, pos + 1));
    forall k: nat | k <= |s|
      ensures Cuts(t, k) == Cuts(s, k)
    {
      SameKindsSameCaches(s, t, k);
    }
    forall i | 0 <= i < |t| - 1 && t[i] < 0
      ensures t[i] != t[i + 1]
    {
      assert s[i] == t[i];
    }
  }

  lemma InvertChainSameKinds(s: seq<int>, pos: nat)
    requires Enabled(s, InvertChain(pos))
    ensures SameKinds(s, Apply(s, InvertChain(pos)))
  {
  }

  /** Units are untouched when a stretch of cuts is inverted. */
  lemma {:induction false} InvertedKeepsUnits(s: seq<int>, lo: nat, hi: nat, u: int)
    requires lo <= hi <= |s| && u >= 0
    requires forall i :: lo <= i < hi ==> s[i] < 0
    ensures multiset(Inverted(s, lo, hi))[u] == multiset(s)[u]
    decreases hi - lo
  {
    if lo == hi {
      assert Inverted(s, lo, hi) == s;
    } else {
      var r := Inverted(s, lo, hi - 1);
      InvertedKeepsUnits(s, lo, hi - 1, u);
      assert Inverted(s, lo, hi) == r[hi - 1 := OtherCut(s[hi - 1])];
    }
  }

  lemma InvertChainKeepsNpe(s: seq<int>, n: nat, pos: nat)
    requires IsNpe(s, n) && Enabled(s, InvertChain(pos))
    ensures IsNpe(Apply(s, InvertChain(pos)), n)
  {
    var hi := NextUnit(s, pos);
    var t := Apply(s, InvertChain(pos));
    forall k: nat | k <= |s|
      ensures Cuts(t, k) == Cuts(s, k)
    {
      SameKindsSameCaches(s, t, k);
    }
    forall u | 0 <= u < n
      ensures multiset(t)[u] == 1
    {
      InvertedKeepsUnits(s, pos, hi, u);
    }
    InvertKeepsNormalized(s, n, pos, hi);
  }

  lemma InvertKeepsNormalized(s: seq<int>, n: nat, lo: nat, hi: nat)
    requires WellTyped(s, n) && Normalized(s)
    requires lo <= hi <= |s|
    requires forall i :: lo <= i < hi ==> s[i] < 0
    requires lo == 0 || s[lo - 1] >= 0
    requires hi == |s| || s[hi] >= 0
    ensures Normalized(Inverted(s, lo, hi))
  {
    var t := Inverted(s, lo, hi);
    forall i | 0 <= i < |t| - 1 && t[i] < 0
      ensures t[i] != t[i + 1]
    {
      assert s[i] < 0;
      assert s[i] != s[i + 1];
    }
  }

  /** How the prefix counts move when neighbours pos and pos+1 of different kinds change places. */
  lemma {:induction false} FlipCuts(s: seq<int>, pos: nat, k: nat)
    requires IsFlip(s, pos) && k <= |s|
    ensures var t := Swapped(s, pos, pos + 1);
            Cuts(t, k) == if k != pos + 1 then Cuts(s, k)
                          else if s[pos] >= 0 then Cuts(s, k) + 1 else Cuts(s, k) - 1
  {
    if k > 0 {
      FlipCuts(s, pos, k - 1);
    }
  }

  lemma SwapCutUnitKeepsNormalized(s: seq<int>, pos: nat)
    requires Normalized(s) && LegalCutUnitSwap(s, pos)
    ensures Normalized(Swapped(s, pos, pos + 1))
  {
    var t := Swapped(s, pos, pos + 1);
    forall i | 0 <= i < |t| - 1 && t[i] < 0
      ensures t[i] != t[i + 1]
    {
      assert s[i] < 0 ==> s[i] != s[i + 1];
    }
  }

  lemma SwapCutUnitKeepsNpe(s: seq<int>, n: nat, pos: nat)
    requires IsNpe(s, n) && Enabled(s, SwapCutUnit(pos))
    ensures IsNpe(Apply(s, SwapCutUnit(pos)), n)
  {
    var t := Apply(s, SwapCutUnit(pos));
    SwappedIsPermutation(s, pos, pos + 1);
    SwapCutUnitKeepsNormalized(s, pos);
    FlipCuts(s, pos, |s|);
    forall k | 0 < k <= |t|
      ensures 2 * Cuts(t, k) < k
    {
      FlipCuts(s, pos, k);
      if k == pos + 1 && s[pos] >= 0 {
        assert Cuts(s, pos + 2) == Cuts(s, pos + 1) + 1;
      }
    }
  }

  /** The tests M3 makes are exact: they reject a swap just when it would spoil the expression. */
  lemma SwapCutUnitLegalIff(s: seq<int>, n: nat, pos: nat)
    requires IsNpe(s, n) && n >= 2 && IsFlip(s, pos)
    ensures LegalCutUnitSwap(s, pos) <==> IsNpe(Swapped(s, pos, pos + 1), n)
  {
    FlipsAreInside(s, n, pos);
    if LegalCutUnitSwap(s, pos) {
      SwapCutUnitKeepsNpe(s, n, pos);
    } else {
      IllegalSwapSpoils(s, pos);
    }
  }

  lemma IllegalSwapSpoils(s: seq<int>, pos: nat)
    requires 0 < pos && IsFlip(s, pos) && !LegalCutUnitSwap(s, pos)
    ensures var t := Swapped(s, pos, pos + 1);
            !Normalized(t) || !Balloting(t)
  {
    var t := Swapped(s, pos, pos + 1);
    if s[pos] >= 0 {
      if s[pos - 1] == s[pos + 1] {
        assert t[pos - 1] == t[pos] < 0;
      } else {
        FlipCuts(s, pos, pos + 1);
        assert Cuts(s, pos + 2) == Cuts(s, pos + 1) + 1;
        assert 2 * Cuts(t, pos + 1) >= pos + 1;
      }
    } else {
      assert t[pos + 1] == t[pos + 2] < 0;
    }
  }

  /** Every move the source carries out turns a valid expression into a valid one. */
  lemma MoveKeepsNpe(s: seq<int>, n: nat, m: Move)
    requires IsNpe(s, n) && Enabled(s, m)
    ensures IsNpe(Apply(s, m), n)
  {
    match m
    case SwapUnits(pos) => SwapUnitsKeepsNpe(s, n, pos);
    case InvertChain(pos) => InvertChainKeepsNpe(s, n, pos);
    case SwapCutUnit(pos) => SwapCutUnitKeepsNpe(s, n, pos);
  }

  // ---------- whole runs ----------

  /** ms can be carried out one after the other from s. */
  ghost predicate IsRun(s: seq<int>, ms: seq<Move>)
    decreases |ms|
  {
    ms == [] || (Enabled(s, ms[0]) && IsRun(Apply(s, ms[0]), ms[1..]))
  }

  ghost function RunEnd(s: seq<int>, ms: seq<Move>): seq<int>
    requires IsRun(s, ms)
    decreases |ms|
  {
    if ms == [] then s else RunEnd(Apply(s, ms[0]), ms[1..])
  }

  /** The starting expression 0 1 V 2 V ... n-1 V. */
  function Initial(n: nat): (s: seq<int>)
    requires n >= 1
    ensures |s| == 2 * n - 1
  {
    seq(2 * n - 1, i => if i == 0 then 0 else if i % 2 == 1 then (i + 1) / 2 else CUT_VERTICAL)
  }

  lemma {:induction false} InitialCuts(n: nat, k: nat)
    requires n >= 1 && k <= 2 * n - 1
    ensures Cuts(Initial(n), k) == if k == 0 then 0 else (k - 1) / 2
  {
    if k > 0 {
      InitialCuts(n, k - 1);
    }
  }

  lemma {:induction false} InitialUnits(n: nat, u: nat)
    requires n >= 1
    ensures multiset(Initial(n))[u] == if u < n then 1 else 0
    decreases n
  {
    if n == 1 {
      assert Initial(1) == [0];
    } else {
      InitialUnits(n - 1, u);
      assert Initial(n) == Initial(n - 1) + [n - 1, CUT_VERTICAL];
    }
  }

  lemma InitialIsNpe(n: nat)
    requires n >= 1
    ensures IsNpe(Initial(n), n)
  {
    forall k: nat | k <= 2 * n - 1
      ensures Cuts(Initial(n), k) == if k == 0 then 0 else (k - 1) / 2
    {
      InitialCuts(n, k);
    }
    forall u | 0 <= u < n
      ensures multiset(Initial(n))[u] == 1
    {
      InitialUnits(n, u);
    }
  }

  /** Closure of the move system: no run from a valid expression ever leaves the valid ones. */
  lemma {:induction false} RunKeepsNpe(s: seq<int>, n: nat, ms: seq<Move>)
    requires IsNpe(s, n) && IsRun(s, ms)
    ensures IsNpe(RunEnd(s, ms), n)
    decreases |ms|
  {
    if ms != [] {
      MoveKeepsNpe(s, n, ms[0]);
      RunKeepsNpe(Apply(s, ms[0]), n, ms[1..]);
    }
  }

  /** ... in particular none that begins where annealing begins. */
  lemma RunFromInitial(n: nat, ms: seq<Move>)
    requires n >= 1 && IsRun(Initial(n), ms)
    ensures IsNpe(RunEnd(Initial(n), ms), n)
  {
    InitialIsNpe(n);
    RunKeepsNpe(Initial(n), n, ms);
  }

  // ---------- every move can be taken back ----------

  lemma NextUnitIs(s: seq<int>, i: nat, j: nat)
    requires i <= j < |s| && s[j] >= 0
    requires forall k :: i <= k < j ==> s[k] < 0
    ensures NextUnit(s, i) == j
  {
  }

  lemma NextUnitNone(s: seq<int>, i: nat)
    requires i <= |s|
    requires forall k :: i <= k < |s| ==> s[k] < 0
    ensures NextUnit(s, i) == |s|
  {
  }

  lemma SwapUnitsUndone(s: seq<int>, pos: nat)
    requires Enabled(s, SwapUnits(pos))
    ensures Enabled(Apply(s, SwapUnits(pos)), SwapUnits(pos))
    ensures Apply(Apply(s, SwapUnits(pos)), SwapUnits(pos)) == s
  {
    NextUnitIs(Apply(s, SwapUnits(pos)), pos + 1, NextUnit(s, pos + 1));
  }

  lemma InvertChainUndone(s: seq<int>, n: nat, pos: nat)
    requires WellTyped(s, n) && Enabled(s, InvertChain(pos))
    ensures Enabled(Apply(s, InvertChain(pos)), InvertChain(pos))
    ensures Apply(Apply(s, InvertChain(pos)), InvertChain(pos)) == s
  {
    var t := Apply(s, InvertChain(pos));
    var hi := NextUnit(s, pos);
    if hi < |s| { NextUnitIs(t, pos, hi); } else { NextUnitNone(t, pos); }
  }

  /** The move at the same place undoes any move, so the search space is undirected. */
  lemma MoveUndoesItself(s: seq<int>, n: nat, m: Move)
    requires IsNpe(s, n) && Enabled(s, m)
    ensures Enabled(Apply(s, m), m)
    ensures Apply(Apply(s, m), m) == s
  {
    match m
    case SwapUnits(pos) => SwapUnitsUndone(s, pos);
    case InvertChain(pos) => InvertChainUndone(s, n, pos);
    case SwapCutUnit(pos) => SwapCutUnitUndone(s, n, pos);
  }

  lemma SwapCutUnitUndone(s: seq<int>, n: nat, pos: nat)
    requires IsNpe(s, n) && LegalCutUnitSwap(s, pos)
    ensures LegalCutUnitSwap(Swapped(s, pos, pos + 1), pos)
    ensures Swapped(Swapped(s, pos, pos + 1), pos, pos + 1) == s
  {
    var t := Swapped(s, pos, pos + 1);
    FlipCuts(s, pos, pos + 2);
    if s[pos] < 0 {
      assert 2 * Cuts(s, pos + 1) < pos + 1;
      assert Cuts(s, pos + 2) == Cuts(s, pos + 1);
      assert s[pos - 1] < 0 ==> s[pos - 1] != s[pos];
    } else {
      assert pos + 2 < |s| ==> s[pos + 1] != s[pos + 2];
    }
  }

  // ---------- where moves can be made ----------

  /** With two or more units the first element is a unit, the second is too, and the last is a cut. */
  lemma NpeEnds(s: seq<int>, n: nat)
    requires IsNpe(s, n) && n >= 2
    ensures s[0] >= 0 && s[1] >= 0 && s[|s| - 1] < 0
  {
    assert Cuts(s, 1) == if s[0] < 0 then 1 else 0;
    assert Cuts(s, 2) == Cuts(s, 1) + if s[1] < 0 then 1 else 0;
    var k := |s| - 1;
    assert Cuts(s, k + 1) == Cuts(s, k) + if s[k] < 0 then 1 else 0;
  }

  /** A flip never sits at position 0, so M3 is always offered a position it accepts. */
  lemma FlipsAreInside(s: seq<int>, n: nat, i: nat)
    requires IsNpe(s, n) && n >= 2 && IsFlip(s, i)
    ensures 0 < i < |s| - 1
  {
    NpeEnds(s, n);
  }

  /** Every unit but the last one has a unit after it. */
  lemma UnitHasSuccessor(s: seq<int>, k: nat)
    requires k + 1 < |UnitPositions(s, |s|)|
    ensures var p := UnitPositions(s, |s|);
            0 <= p[k] < |s| && s[p[k]] >= 0 && NextUnit(s, p[k] + 1) == p[k + 1] < |s|
  {
    var p := UnitPositions(s, |s|);
    UnitPositionsAscend(s, |s|);
    UnitPositionsMember(s, |s|, p[k]);
    UnitPositionsMember(s, |s|, p[k + 1]);
    var j := NextUnit(s, p[k] + 1);
    UnitPositionsMember(s, |s|, j);
    NothingBetween(p, k, j);
  }

  lemma NothingBetween(p: seq<int>, k: nat, j: int)
    requires k + 1 < |p| && (forall a, b :: 0 <= a < b < |p| ==> p[a] < p[b]) && j in p && p[k] < j
    ensures p[k + 1] <= j
  {
    var c :| 0 <= c < |p| && p[c] == j;
  }

  lemma SomeFlip(s: seq<int>, a: nat, b: nat) returns (i: nat)
    requires a < b < |s| && s[a] >= 0 && s[b] < 0
    ensures a <= i < b && IsFlip(s, i)
  {
    i := a;
    while s[i + 1] >= 0
      invariant a <= i < b && s[i] >= 0
      decreases b - i
    {
      i := i + 1;
    }
  }

  /** With two or more units each kind of move has at least one position to choose from. */
  lemma MovesExist(s: seq<int>, n: nat)
    requires IsNpe(s, n) && n >= 2
    ensures |UnitPositions(s, |s|)| == n
    ensures |FlipPositions(s, |s|)| > 0
    ensures |ChainPositions(s, |s|)| > 0
  {
    NpeEnds(s, n);
    UnitPositionsCount(s, |s|);
    var i := SomeFlip(s, 0, |s| - 1);
    FlipPositionsMember(s, |s|, i);
    assert i in FlipPositions(s, |s|);
    var j := ChainStartBelow(s, |s| - 1);
    ChainPositionsMember(s, |s|, j);
    assert j in ChainPositions(s, |s|);
  }

  lemma ChainStartBelow(s: seq<int>, b: nat) returns (j: nat)
    requires b < |s| && s[b] < 0
    ensures j <= b && IsChainStart(s, j)
  {
    j := b;
    while j > 0 && s[j - 1] < 0
      invariant j <= b && s[j] < 0
      decreases j
    {
      j := j - 1;
    }
  }
}
