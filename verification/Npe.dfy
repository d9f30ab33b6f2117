/** The annealer's expression object: the element array together with the four index
    arrays it keeps beside it, and the operations that change them in place. */
module NpeModel {
  import opened PolishExpressions

  const MAX_MOVES: nat := 16

  class Npe {
    const elements: array<int>
    /** positions of the units */
    const unitPos: array<int>
    var nUnits: nat
    /** positions where a unit and a cut are neighbours */
    const flipPos: array<int>
    var nFlips: nat
    /** positions where a chain of cuts starts */
    const chainPos: array<int>
    var nChains: nat
    /** number of cuts up to and including each position */
    const ballotCount: array<int>

    /** The five buffers are separate and sized as the allocation sizes them. */
    ghost predicate Allocated(n: nat) {
      && n >= 1
      && elements.Length == 2 * n - 1
      && unitPos.Length == n
      && flipPos.Length == 2 * n - 1
      && chainPos.Length == n - 1
      && ballotCount.Length == 2 * n - 1
      && elements != unitPos && elements != flipPos && elements != chainPos && elements != ballotCount
      && unitPos != flipPos && unitPos != chainPos && unitPos != ballotCount
      && flipPos != chainPos && flipPos != ballotCount && chainPos != ballotCount
    }

    ghost predicate UnitsCached()
      reads this, elements, unitPos
    {
      && nUnits <= unitPos.Length
      && unitPos[..nUnits] == UnitPositions(elements[..], elements.Length)
    }

    ghost predicate FlipsCached()
      reads this, elements, flipPos
    {
      && nFlips <= flipPos.Length
      && flipPos[..nFlips] == FlipPositions(elements[..], elements.Length)
    }

    ghost predicate ChainsCached()
      reads this, elements, chainPos
    {
      && nChains <= chainPos.Length
      && chainPos[..nChains] == ChainPositions(elements[..], elements.Length)
    }

    ghost predicate BallotsCached()
      reads elements, ballotCount
    {
      && ballotCount.Length == elements.Length
      && forall i :: 0 <= i < elements.Length ==> ballotCount[i] == Cuts(elements[..], i + 1)
    }

    /** The elements form a normalized Polish expression over n units and every cache
        equals what recomputing it would give. */
    ghost predicate Valid(n: nat)
      reads this, elements, unitPos, flipPos, chainPos, ballotCount
    {
      && IsNpe(elements[..], n)
      && UnitsCached() && FlipsCached() && ChainsCached() && BallotsCached()
    }

    constructor Blank(n: nat)
      requires n >= 1
      ensures Allocated(n)
      ensures fresh(elements) && fresh(unitPos) && fresh(flipPos) && fresh(chainPos) && fresh(ballotCount)
    {
      elements := new int[2 * n - 1];
      unitPos := new int[n];
      flipPos := new int[2 * n - 1];
      chainPos := new int[n - 1];
      ballotCount := new int[2 * n - 1];
      nUnits, nFlips, nChains := 0, 0, 0;
    }

    method FillUnitPos()
      requires elements != unitPos
      requires |UnitPositions(elements[..], elements.Length)| <= unitPos.Length
      modifies this`nUnits, unitPos
      ensures UnitsCached()
    {
      ghost var s := elements[..];
      var i, j := 0, 0;
      while i < elements.Length
        invariant 0 <= i <= elements.Length && elements[..] == s
        invariant 0 <= j <= unitPos.Length
        invariant unitPos[..j] == UnitPositions(s, i)
      {
        if elements[i] >= 0 {
          CutsMonotone(s, i + 1, elements.Length);
          unitPos[j] := i;
          j := j + 1;
        }
        i := i + 1;
      }
      nUnits := j;
    }

    method FillFlipPos()
      requires elements != flipPos && flipPos.Length == elements.Length
      modifies this`nFlips, flipPos
      ensures FlipsCached()
    {
      ghost var s := elements[..];
      var i, j := 0, 0;
      while i < elements.Length - 1
        invariant 0 <= i <= elements.Length && elements[..] == s
        invariant i == 0 || i <= elements.Length - 1
        invariant 0 <= j <= i
        invariant flipPos[..j] == FlipPositions(s, i)
      {
        if (elements[i] < 0 && elements[i + 1] >= 0) || (elements[i] >= 0 && elements[i + 1] < 0) {
          flipPos[j] := i;
          j := j + 1;
        }
        i := i + 1;
      }
      assert elements.Length > 0 ==> FlipPositions(s, elements.Length) == FlipPositions(s, i);
      nFlips := j;
    }

    /** Lists the chains; gives up exactly when two equal cuts are neighbours. */
    method FillChainPos() returns (ok: bool)
      requires elements != chainPos
      requires Cuts(elements[..], elements.Length) <= chainPos.Length
      modifies this`nChains, chainPos
      ensures ok <==> Normalized(elements[..])
      ensures ok ==> ChainsCached()
    {
      ghost var s := elements[..];
      var i, j := 0, 0;
      while i < elements.Length
        invariant 0 <= i <= elements.Length && elements[..] == s
        invariant 0 <= j <= chainPos.Length
        invariant chainPos[..j] == ChainPositions(s, i)
        invariant ChainBoundary(s, i)
      {
        if elements[i] < 0 {
          var fine, end := AddChain(i, j);
          if !fine {
            return false;
          }
          i, j := end, j + 1;
        } else {
          i := i + 1;
        }
      }
      nChains := j;
      ok := true;
    }

    /** Lists the chain at i as the j-th and walks over it. */
    method AddChain(i: nat, j: nat) returns (fine: bool, end: nat)
      requires elements != chainPos && i < elements.Length && elements[i] < 0 && ChainBoundary(elements[..], i)
      requires Cuts(elements[..], elements.Length) <= chainPos.Length
      requires j <= chainPos.Length && chainPos[..j] == ChainPositions(elements[..], i)
      modifies chainPos
      ensures fine ==> i < end <= elements.Length && ChainBoundary(elements[..], end)
      ensures fine ==> j < chainPos.Length && chainPos[..j + 1] == ChainPositions(elements[..], end)
      ensures !fine ==> !Normalized(elements[..])
    {
      ChainRoom(elements[..], i);
      fine, end := SkipChain(i);
      if fine {
        ChainStep(elements[..], i, end);
        chainPos[j] := i;
      }
    }

    /** Everything before i is normalized and i is not inside a chain. */
    static ghost predicate ChainBoundary(s: seq<int>, i: nat) {
      && i <= |s|
      && NormalizedUpTo(s, i)
      && (i == 0 || i == |s| || s[i - 1] >= 0 || s[i] >= 0)
    }

    static lemma ChainStep(s: seq<int>, i: nat, end: nat)
      requires i < |s| && s[i] < 0 && ChainBoundary(s, i) && end == NextUnit(s, i)
      requires forall k :: i <= k < end - 1 ==> s[k] != s[k + 1]
      ensures ChainBoundary(s, end)
      ensures ChainPositions(s, end) == ChainPositions(s, i) + [i]
    {
      ChainListed(s, i, end);
    }

    /** Walks over the chain at i, comparing neighbours. */
    method SkipChain(i: nat) returns (ok: bool, end: nat)
      requires i < elements.Length && elements[i] < 0
      ensures ok ==> end == NextUnit(elements[..], i)
      ensures ok ==> forall k :: i <= k < end - 1 ==> elements[k] != elements[k + 1]
      ensures !ok ==> !Normalized(elements[..])
    {
      ghost var s := elements[..];
      var prev := elements[i];
      end := i + 1;
      while end < elements.Length && elements[end] < 0
        invariant i < end <= elements.Length
        invariant prev == s[end - 1] < 0
        invariant NextUnit(s, end) == NextUnit(s, i)
        invariant forall k :: i <= k < end - 1 ==> s[k] != s[k + 1]
        decreases elements.Length - end
      {
        if elements[end] == prev {
          assert s[end - 1] == s[end];
          return false, end;
        }
        prev := elements[end];
        end := end + 1;
      }
      ok := true;
    }

    /** Between the first cut of a chain and its end no other chain starts. */
    static lemma {:induction false} ChainListed(s: seq<int>, i: nat, end: nat)
      requires i < end <= |s| && IsChainStart(s, i)
      requires forall k :: i <= k < end ==> s[k] < 0
      ensures ChainPositions(s, end) == ChainPositions(s, i) + [i]
      decreases end
    {
      if end > i + 1 {
        ChainListed(s, i, end - 1);
      }
    }

    /** A chain starting at i still has a slot. */
    static lemma ChainRoom(s: seq<int>, i: nat)
      requires i < |s| && s[i] < 0
      ensures |ChainPositions(s, i)| < Cuts(s, |s|)
    {
      CacheSizes(s, i);
      CutsMonotone(s, i + 1, |s|);
    }

    method FillBallotCount()
      requires elements != ballotCount && ballotCount.Length == elements.Length
      modifies ballotCount
      ensures BallotsCached()
    {
      ghost var s := elements[..];
      var count := 0;
      for i := 0 to elements.Length
        invariant elements[..] == s
        invariant count == Cuts(s, i)
        invariant forall k :: 0 <= k < i ==> ballotCount[k] == Cuts(s, k + 1)
      {
        if elements[i] < 0 {
          count := count + 1;
        }
        ballotCount[i] := count;
      }
    }

    /** M1. Gives up when no unit follows pos. */
    method SwapUnits(pos: nat, ghost n: nat) returns (ok: bool)
      requires Allocated(n) && Valid(n)
      requires pos < elements.Length && elements[pos] >= 0
      modifies elements
      ensures ok <==> Enabled(old(elements[..]), Move.SwapUnits(pos))
      ensures ok ==> Valid(n) && elements[..] == Apply(old(elements[..]), Move.SwapUnits(pos))
      ensures !ok ==> elements[..] == old(elements[..])
    {
      ghost var s := elements[..];
      ok := ExchangeUnits(pos);
      if ok {
        SwapUnitsSameKinds(s, pos);
        SwapUnitsKeepsNpe(s, n, pos);
        KindsKeepCaches(s, elements[..]);
      }
    }

    method ExchangeUnits(pos: nat) returns (ok: bool)
      requires pos < elements.Length && elements[pos] >= 0
      modifies elements
      ensures ok <==> Enabled(old(elements[..]), Move.SwapUnits(pos))
      ensures elements[..] == if ok then Apply(old(elements[..]), Move.SwapUnits(pos)) else old(elements[..])
    {
      ghost var s := elements[..];
      var i := pos + 1;
      while i < elements.Length && elements[i] < 0
        invariant pos < i <= elements.Length
        invariant NextUnit(s, i) == NextUnit(s, pos + 1)
      {
        i := i + 1;
      }
      if i >= elements.Length {
        return false;
      }
      var t := elements[pos];
      elements[pos] := elements[i];
      elements[i] := t;
      ok := true;
    }

    static lemma KindsKeepCaches(s: seq<int>, t: seq<int>)
      requires SameKinds(s, t)
      ensures UnitPositions(s, |s|) == UnitPositions(t, |t|)
      ensures FlipPositions(s, |s|) == FlipPositions(t, |t|)
      ensures ChainPositions(s, |s|) == ChainPositions(t, |t|)
      ensures forall k: nat :: k <= |s| ==> Cuts(s, k) == Cuts(t, k)
    {
      SameKindsSameCaches(s, t, |s|);
      forall k: nat | k <= |s| ensures Cuts(s, k) == Cuts(t, k) {
        SameKindsSameCaches(s, t, k);
      }
    }

    /** M2. The complaints about an unknown cut or a chain that is not normalized are never made. */
    method InvertChain(pos: nat, ghost n: nat) returns (ok: bool)
      requires Allocated(n) && Valid(n)
      requires IsChainStart(elements[..], pos)
      modifies elements
      ensures ok
      ensures Valid(n) && elements[..] == Apply(old(elements[..]), Move.InvertChain(pos))
    {
      ghost var s := elements[..];
      ok := FlipChain(pos, n);
      InvertChainSameKinds(s, pos);
      InvertChainKeepsNpe(s, n, pos);
      KindsKeepCaches(s, elements[..]);
    }

    method FlipChain(pos: nat, ghost n: nat) returns (ok: bool)
      requires WellTyped(elements[..], n) && Normalized(elements[..])
      requires IsChainStart(elements[..], pos)
      modifies elements
      ensures ok
      ensures elements[..] == Inverted(old(elements[..]), pos, NextUnit(old(elements[..]), pos))
    {
      ghost var s := elements[..];
      var i := pos + 1;
      var prev := elements[pos];
      ok := FlipCut(pos);
      assert elements[..] == Inverted(s, pos, i);
      while i < elements.Length && elements[i] < 0
        invariant ok
        invariant pos < i <= elements.Length
        invariant prev == s[i - 1] < 0
        invariant elements[..] == Inverted(s, pos, i)
        invariant NextUnit(s, i) == NextUnit(s, pos)
        decreases elements.Length - i
      {
        assert elements[..][i] == s[i];
        assert s[i - 1] != s[i];
        if elements[i] == prev {
          assert false;
          return false;
        }
        prev := elements[i];
        ok := FlipCut(i);
        assert elements[..] == Inverted(s, pos, i + 1);
        i := i + 1;
      }
      assert i < elements.Length ==> elements[..][i] == s[i];
    }

    method FlipCut(i: nat) returns (ok: bool)
      requires i < elements.Length
      modifies elements
      ensures ok <==> IsCut(old(elements[i]))
      ensures elements[..] == if ok then old(elements[..])[i := OtherCut(old(elements[i]))] else old(elements[..])
    {
      if elements[i] == CUT_VERTICAL {
        elements[i] := CUT_HORIZONTAL;
      } else if elements[i] == CUT_HORIZONTAL {
        elements[i] := CUT_VERTICAL;
      } else {
        return false;
      }
      ok := true;
    }

    /** Binary search for pos in unitPos[start..end]; the entry found is moved by delta. */
    method UpdateUnitPos(pos: int, delta: int, start: nat, end: int) returns (found: bool)
      requires -1 <= end < unitPos.Length && start <= end + 1
      requires forall a, b :: start <= a < b <= end ==> unitPos[a] < unitPos[b]
      modifies unitPos
      ensures found <==> pos in old(unitPos[start..end + 1])
      ensures found ==> exists k :: start <= k <= end && old(unitPos[k]) == pos
                                    && unitPos[..] == old(unitPos[..])[k := pos + delta]
      ensures !found ==> unitPos[..] == old(unitPos[..])
      decreases end - start + 1
    {
      if start > end {
        return false;
      }
      var mid := (start + end) / 2;
      if unitPos[mid] == pos {
        assert unitPos[start..end + 1][mid - start] == pos;
        unitPos[mid] := unitPos[mid] + delta;
        found := true;
      } else if unitPos[mid] > pos {
        assert pos in unitPos[start..end + 1] <==> pos in unitPos[start..mid] by {
          SearchLeft(unitPos[..], pos, start, mid, end + 1);
        }
        found := UpdateUnitPos(pos, delta, start, mid - 1);
      } else {
        assert pos in unitPos[start..end + 1] <==> pos in unitPos[mid + 1..end + 1] by {
          SearchRight(unitPos[..], pos, start, mid, end + 1);
        }
        found := UpdateUnitPos(pos, delta, mid + 1, end);
      }
    }

    static lemma SearchLeft(a: seq<int>, x: int, lo: nat, mid: nat, hi: nat)
      requires lo <= mid < hi <= |a| && a[mid] > x
      requires forall i, j :: lo <= i < j < hi ==> a[i] < a[j]
      ensures x in a[lo..hi] <==> x in a[lo..mid]
    {
      if x in a[lo..hi] {
        var k :| lo <= k < hi && a[k] == x;
        assert k < mid;
        assert a[lo..mid][k - lo] == x;
      }
      if x in a[lo..mid] {
        var k :| 0 <= k < mid - lo && a[lo..mid][k] == x;
        assert a[lo..hi][k] == x;
      }
    }

    static lemma SearchRight(a: seq<int>, x: int, lo: nat, mid: nat, hi: nat)
      requires lo <= mid < hi <= |a| && a[mid] < x
      requires forall i, j :: lo <= i < j < hi ==> a[i] < a[j]
      ensures x in a[lo..hi] <==> x in a[mid + 1..hi]
    {
      if x in a[lo..hi] {
        var k :| lo <= k < hi && a[k] == x;
        assert k > mid;
        assert a[mid + 1..hi][k - mid - 1] == x;
      }
      if x in a[mid + 1..hi] {
        var k :| 0 <= k < hi - mid - 1 && a[mid + 1..hi][k] == x;
        assert a[lo..hi][k + mid + 1 - lo] == x;
      }
    }

    /** Moves the cached position of one unit by delta. */
    method MoveUnit(pos: int, delta: int, ghost c: nat) returns (found: bool)
      requires UnitsCached() && nUnits >= 1 && elements != unitPos
      requires c < nUnits && unitPos[c] == pos
      modifies unitPos
      ensures found
      ensures unitPos[..nUnits] == old(unitPos[..nUnits])[c := pos + delta]
    {
      UnitPositionsAscend(elements[..], elements.Length);
      ghost var u := unitPos[..nUnits];
      assert forall a, b :: 0 <= a < b < nUnits ==> u[a] < u[b];
      assert unitPos[0..nUnits][c] == pos;
      found := UpdateUnitPos(pos, delta, 0, nUnits - 1);
    }

    /** M3. Refuses an illegal swap without changing anything; none of its complaints
        (position out of range, unit not found, not normalized) is ever made. */
    method SwapCutUnit(pos: nat, ghost n: nat) returns (outcome: Outcome)
      requires Allocated(n) && Valid(n) && n >= 2 && IsFlip(elements[..], pos)
      modifies this, elements, unitPos, flipPos, chainPos, ballotCount
      ensures Valid(n)
      ensures outcome == if LegalCutUnitSwap(old(elements[..]), pos) then Done else Rejected
      ensures elements[..] == if outcome.Done? then Apply(old(elements[..]), Move.SwapCutUnit(pos))
                              else old(elements[..])
    {
      FlipsAreInside(elements[..], n, pos);
      if pos <= 0 || pos >= elements.Length - 1 {
        assert false;
        return Fatal;
      }
      var allowed := SwapAllowed(pos);
      if !allowed {
        return Rejected;
      }
      outcome := SwapPair(pos, n);
    }

    /** Makes a legal swap of the cut and the unit at pos. */
    method SwapPair(pos: nat, ghost n: nat) returns (outcome: Outcome)
      requires Allocated(n) && Valid(n) && LegalCutUnitSwap(elements[..], pos)
      modifies this`nFlips, this`nChains, elements, unitPos, flipPos, chainPos, ballotCount
      ensures Valid(n) && outcome == Done
      ensures elements[..] == Swapped(old(elements[..]), pos, pos + 1)
    {
      if elements[pos] >= 0 {
        outcome := AdvanceUnit(pos, n);
      } else {
        outcome := RetreatUnit(pos, n);
      }
    }

    /** The tests M3 makes, on the cached counts. */
    method SwapAllowed(pos: nat) returns (allowed: bool)
      requires BallotsCached() && 0 < pos && IsFlip(elements[..], pos)
      ensures allowed <==> LegalCutUnitSwap(elements[..], pos)
    {
      if elements[pos] >= 0 {
        allowed := elements[pos - 1] != elements[pos + 1] && 2 * ballotCount[pos + 1] < pos + 1;
      } else {
        allowed := !(pos < elements.Length - 2 && elements[pos] == elements[pos + 2]);
      }
    }

    /** The unit at pos changes places with the cut after it. */
    method AdvanceUnit(pos: nat, ghost n: nat) returns (outcome: Outcome)
      requires Allocated(n) && Valid(n) && LegalCutUnitSwap(elements[..], pos) && elements[pos] >= 0
      modifies this`nFlips, this`nChains, elements, unitPos, flipPos, chainPos, ballotCount
      ensures Valid(n) && outcome == Done
      ensures elements[..] == Swapped(old(elements[..]), pos, pos + 1)
    {
      ghost var s := elements[..];
      ghost var t := Swapped(s, pos, pos + 1);
      SwapCutUnitKeepsNpe(s, n, pos);
      ghost var c := FlippedUnit(s, pos);
      var found := MoveUnit(pos, 1, c);
      if !found {
        assert false;
        return Fatal;
      }
      ballotCount[pos] := ballotCount[pos] + 1;
      ExchangeNeighbours(pos);
      outcome := RefillFlipsAndChains(n);
    }

    /** The cut at pos changes places with the unit after it. */
    method RetreatUnit(pos: nat, ghost n: nat) returns (outcome: Outcome)
      requires Allocated(n) && Valid(n) && LegalCutUnitSwap(elements[..], pos) && elements[pos] < 0
      modifies this`nFlips, this`nChains, elements, unitPos, flipPos, chainPos, ballotCount
      ensures Valid(n) && outcome == Done
      ensures elements[..] == Swapped(old(elements[..]), pos, pos + 1)
    {
      ghost var s := elements[..];
      ghost var t := Swapped(s, pos, pos + 1);
      SwapCutUnitKeepsNpe(s, n, pos);
      ghost var c := FlippedUnit(s, pos);
      var found := MoveUnit(pos + 1, -1, c);
      if !found {
        assert false;
        return Fatal;
      }
      ballotCount[pos] := ballotCount[pos] - 1;
      ExchangeNeighbours(pos);
      outcome := RefillFlipsAndChains(n);
    }

    method ExchangeNeighbours(pos: nat)
      requires pos + 1 < elements.Length
      modifies elements
      ensures elements[..] == Swapped(old(elements[..]), pos, pos + 1)
    {
      var t := elements[pos];
      elements[pos] := elements[pos + 1];
      elements[pos + 1] := t;
    }

    /** Flip and chain positions are recomputed after a swap. */
    method RefillFlipsAndChains(ghost n: nat) returns (outcome: Outcome)
      requires Allocated(n) && IsNpe(elements[..], n) && UnitsCached() && BallotsCached()
      modifies this`nFlips, this`nChains, flipPos, chainPos
      ensures Valid(n) && outcome == Done
    {
      FillFlipPos();
      var ok := FillChainPos();
      if !ok {
        assert false;
        return Fatal;
      }
      outcome := Done;
    }
  }

  datatype Outcome = Done | Rejected | Fatal

  // ---------- the unit cache under M3 ----------

  lemma {:induction false} FlipUnitPositionsBelow(s: seq<int>, pos: nat, k: nat)
    requires IsFlip(s, pos) && k <= pos
    ensures UnitPositions(Swapped(s, pos, pos + 1), k) == UnitPositions(s, k)
  {
    if k > 0 {
      FlipUnitPositionsBelow(s, pos, k - 1);
    }
  }

  lemma {:induction false} FlipUnitPositions(s: seq<int>, pos: nat, k: nat)
    requires IsFlip(s, pos) && pos + 2 <= k <= |s|
    ensures var c := |UnitPositions(s, pos)|;
            var u := UnitPositions(s, k);
            && c < |u|
            && u[c] == (if s[pos] >= 0 then pos else pos + 1)
            && UnitPositions(Swapped(s, pos, pos + 1), k) == u[c := if s[pos] >= 0 then pos + 1 else pos]
  {
    var t := Swapped(s, pos, pos + 1);
    if k == pos + 2 {
      FlipUnitPositionsBelow(s, pos, pos);
      assert UnitPositions(s, pos + 1) == UnitPositions(s, pos) + if s[pos] >= 0 then [pos] else [];
      assert UnitPositions(t, pos + 1) == UnitPositions(t, pos) + if t[pos] >= 0 then [pos] else [];
    } else {
      FlipUnitPositions(s, pos, k - 1);
    }
  }

  /** Slot of the unit that M3 moves, and what the cache must become. */
  lemma FlippedUnit(s: seq<int>, pos: nat) returns (c: nat)
    requires IsFlip(s, pos)
    ensures var u := UnitPositions(s, |s|);
            && c < |u|
            && u[c] == (if s[pos] >= 0 then pos else pos + 1)
            && UnitPositions(Swapped(s, pos, pos + 1), |s|) == u[c := if s[pos] >= 0 then pos + 1 else pos]
    ensures forall k: nat :: k <= |s| ==>
              Cuts(Swapped(s, pos, pos + 1), k) == if k != pos + 1 then Cuts(s, k)
                                                   else if s[pos] >= 0 then Cuts(s, k) + 1 else Cuts(s, k) - 1
  {
    c := |UnitPositions(s, pos)|;
    FlipUnitPositions(s, pos, |s|);
    forall k: nat | k <= |s|
      ensures Cuts(Swapped(s, pos, pos + 1), k) == if k != pos + 1 then Cuts(s, k)
                                                   else if s[pos] >= 0 then Cuts(s, k) + 1 else Cuts(s, k) - 1
    {
      FlipCuts(s, pos, k);
    }
  }
}
