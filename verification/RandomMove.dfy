/** Creating, copying and randomly changing expressions. Random numbers come from an
    oracle: the k-th call rand_upto(max) answers draws(k) % max. */
module RandomMove {
  import opened PolishExpressions
  import opened NpeModel

  ghost function Buffers(e: Npe): set<object> {
    {e, e.elements, e.unitPos, e.flipPos, e.chainPos, e.ballotCount}
  }

  /** The expression annealing starts from, with its caches filled. */
  method GetInitial(n: nat) returns (e: Npe)
    requires n >= 1
    ensures fresh(Buffers(e)) && e.Allocated(n) && e.Valid(n)
    ensures e.elements[..] == Initial(n)
  {
    e := new Npe.Blank(n);
    FillInitial(e.elements, n);
    InitialIsNpe(n);
    UnitPositionsCount(e.elements[..], e.elements.Length);
    e.FillUnitPos();
    e.FillFlipPos();
    var ok := e.FillChainPos();
    e.FillBallotCount();
  }

  method FillInitial(elements: array<int>, n: nat)
    requires n >= 1 && elements.Length == 2 * n - 1
    modifies elements
    ensures elements[..] == Initial(n)
  {
    elements[0] := 0;
    var i := 1;
    while i < elements.Length
      invariant 1 <= i <= elements.Length && i % 2 == 1
      invariant forall k :: 0 <= k < i ==> elements[k] == Initial(n)[k]
    {
      elements[i] := (i + 1) / 2;
      elements[i + 1] := CUT_VERTICAL;
      i := i + 2;
    }
  }

  method CopyInto(dst: array<int>, src: array<int>, n: nat)
    requires n <= dst.Length && n <= src.Length && dst != src
    modifies dst
    ensures dst[..n] == src[..n]
  {
    for i := 0 to n
      invariant dst[..i] == src[..i]
    {
      dst[i] := src[i];
    }
  }

  /** A separate copy, caches included. */
  method Duplicate(e: Npe, ghost n: nat) returns (c: Npe)
    requires e.Allocated(n) && e.Valid(n)
    ensures fresh(Buffers(c)) && c.Allocated(n) && c.Valid(n)
    ensures c.elements[..] == e.elements[..]
  {
    var m := (e.elements.Length + 1) / 2;
    c := new Npe.Blank(m);
    CopyInto(c.elements, e.elements, e.elements.Length);
    assert c.elements[..] == c.elements[..e.elements.Length] == e.elements[..];
    c.nUnits := e.nUnits;
    CopyInto(c.unitPos, e.unitPos, e.nUnits);
    c.nFlips := e.nFlips;
    CopyInto(c.flipPos, e.flipPos, e.nFlips);
    c.nChains := e.nChains;
    CopyInto(c.chainPos, e.chainPos, e.nChains);
    CopyInto(c.ballotCount, e.ballotCount, e.elements.Length);
    assert c.ballotCount[..] == c.ballotCount[..e.elements.Length] == e.ballotCount[..];
  }

  // ---------- when a random move is given up ----------

  /** The flip position the k-th try of M3 picks when its draws start at d. */
  function TriedFlip(s: seq<int>, draws: nat -> nat, d: nat): int
    requires |FlipPositions(s, |s|)| > 0
  {
    FlipPositions(s, |s|)[draws(d) % |FlipPositions(s, |s|)|]
  }

  /** The try of M3 at draw d is refused. */
  ghost predicate IllegalTry(s: seq<int>, draws: nat -> nat, d: nat)
    requires |FlipPositions(s, |s|)| > 0
  {
    var p := TriedFlip(s, draws, d);
    p < 0 || !LegalCutUnitSwap(s, p)
  }

  ghost predicate IllegalTries(s: seq<int>, draws: nat -> nat, lo: nat, hi: nat)
    requires |FlipPositions(s, |s|)| > 0
  {
    forall d :: lo <= d < hi ==> IllegalTry(s, draws, d)
  }

  /** First draw of round r when all rounds before it failed. */
  function RoundStart(r: nat): nat {
    r * (MAX_MOVES + 1)
  }

  /** M3 is chosen in round r and the MAX_MOVES positions tried are all illegal. */
  ghost predicate RoundFails(s: seq<int>, draws: nat -> nat, r: nat)
    requires |FlipPositions(s, |s|)| > 0
  {
    && draws(RoundStart(r)) % 3 == 2
    && IllegalTries(s, draws, RoundStart(r) + 1, RoundStart(r + 1))
  }

  /** The first k rounds all fail. */
  ghost predicate RoundsFail(s: seq<int>, draws: nat -> nat, k: nat)
    requires |FlipPositions(s, |s|)| > 0
  {
    k == 0 || (RoundsFail(s, draws, k - 1) && RoundFails(s, draws, k - 1))
  }

  /** All rounds but the last fail. A success in the very last round comes too late. */
  ghost predicate GivesUp(s: seq<int>, draws: nat -> nat)
    requires |FlipPositions(s, |s|)| > 0
  {
    RoundsFail(s, draws, MAX_MOVES - 1)
  }

  lemma {:induction false} RoundsFailPrefix(s: seq<int>, draws: nat -> nat, j: nat, k: nat)
    requires |FlipPositions(s, |s|)| > 0
    requires j <= k && RoundsFail(s, draws, k)
    ensures RoundsFail(s, draws, j)
    decreases k
  {
    if j < k {
      RoundsFailPrefix(s, draws, j, k - 1);
    }
  }

  /** Round r is the first to succeed: the source has given up only if it was the last. */
  lemma SuccessDecides(s: seq<int>, draws: nat -> nat, r: nat)
    requires |FlipPositions(s, |s|)| > 0
    requires r < MAX_MOVES && RoundsFail(s, draws, r) && !RoundFails(s, draws, r)
    ensures r == MAX_MOVES - 1 <==> GivesUp(s, draws)
  {
    if r < MAX_MOVES - 1 && GivesUp(s, draws) {
      RoundsFailPrefix(s, draws, r + 1, MAX_MOVES - 1);
    }
  }

  // ---------- which move the draws ask for ----------

  /** Any unit but the last, by its number. */
  ghost predicate UnitDrawn(s: seq<int>, x: nat, m: Move) {
    var units := UnitPositions(s, |s|);
    m.SwapUnits? && |units| > 1 && m.pos == units[x % (|units| - 1)]
  }

  ghost predicate ChainDrawn(s: seq<int>, x: nat, m: Move) {
    var chains := ChainPositions(s, |s|);
    m.InvertChain? && |chains| > 0 && m.pos == chains[x % |chains|]
  }

  /** Round r of the draws makes move m: the first draw chooses its kind, and the next one the unit or
      chain. For the third kind each draw is a position, and the first legal one is taken. */
  ghost predicate RoundMakes(s: seq<int>, draws: nat -> nat, r: nat, m: Move)
    requires |FlipPositions(s, |s|)| > 0
  {
    var d := RoundStart(r);
    match draws(d) % 3
    case 0 => UnitDrawn(s, draws(d + 1), m)
    case 1 => ChainDrawn(s, draws(d + 1), m)
    case _ => m.SwapCutUnit? && FlipDrawn(s, draws, d + 1, RoundStart(r + 1), m.pos)
  }

  /** The tries from lo on are illegal up to the k-th, which is at pos. */
  ghost predicate FirstLegal(s: seq<int>, draws: nat -> nat, lo: nat, k: nat, pos: int)
    requires |FlipPositions(s, |s|)| > 0
  {
    lo <= k && IllegalTries(s, draws, lo, k) && !IllegalTry(s, draws, k) && pos == TriedFlip(s, draws, k)
  }

  ghost predicate FlipDrawn(s: seq<int>, draws: nat -> nat, lo: nat, hi: nat, pos: int)
    requires |FlipPositions(s, |s|)| > 0
  {
    exists k: nat :: k < hi && FirstLegal(s, draws, lo, k, pos)
  }

  /** m is the move of the first round that does not fail, and that is not the last. */
  ghost predicate Drawn(s: seq<int>, draws: nat -> nat, m: Move)
    requires |FlipPositions(s, |s|)| > 0
  {
    exists r :: DrawnIn(s, draws, r, m)
  }

  ghost predicate DrawnIn(s: seq<int>, draws: nat -> nat, r: nat, m: Move)
    requires |FlipPositions(s, |s|)| > 0
  {
    r < MAX_MOVES - 1 && RoundsFail(s, draws, r) && RoundMakes(s, draws, r, m)
  }

  lemma MakesIsNoFailure(s: seq<int>, draws: nat -> nat, r: nat, m: Move)
    requires |FlipPositions(s, |s|)| > 0 && RoundMakes(s, draws, r, m)
    ensures !RoundFails(s, draws, r)
  {
    if draws(RoundStart(r)) % 3 == 2 {
      var k: nat :| k < RoundStart(r + 1) && FirstLegal(s, draws, RoundStart(r) + 1, k, m.pos);
    }
  }

  lemma FlipUnique(s: seq<int>, draws: nat -> nat, lo: nat, hi: nat, pos: int, pos': int)
    requires |FlipPositions(s, |s|)| > 0 && FlipDrawn(s, draws, lo, hi, pos) && FlipDrawn(s, draws, lo, hi, pos')
    ensures pos == pos'
  {
    var k: nat :| k < hi && FirstLegal(s, draws, lo, k, pos);
    var k': nat :| k' < hi && FirstLegal(s, draws, lo, k', pos');
    assert k == k';
  }

  lemma SameRoundMakes(s: seq<int>, draws: nat -> nat, r: nat, m: Move, m': Move)
    requires |FlipPositions(s, |s|)| > 0 && RoundMakes(s, draws, r, m) && RoundMakes(s, draws, r, m')
    ensures m == m'
  {
    if draws(RoundStart(r)) % 3 == 2 {
      FlipUnique(s, draws, RoundStart(r) + 1, RoundStart(r + 1), m.pos, m'.pos);
    }
  }

  /** The draws determine the move. */
  lemma DrawnUnique(s: seq<int>, draws: nat -> nat, m: Move, m': Move)
    requires |FlipPositions(s, |s|)| > 0 && Drawn(s, draws, m) && Drawn(s, draws, m')
    ensures m == m'
  {
    var r: nat :| DrawnIn(s, draws, r, m);
    var r': nat :| DrawnIn(s, draws, r', m');
    MakesIsNoFailure(s, draws, r, m);
    MakesIsNoFailure(s, draws, r', m');
    if r < r' {
      RoundsFailPrefix(s, draws, r + 1, r');
    } else if r' < r {
      RoundsFailPrefix(s, draws, r' + 1, r);
    } else {
      SameRoundMakes(s, draws, r, m, m');
    }
  }

  /** Draws of a kind of move and then always of the same position. */
  function Asking(kind: nat, i: nat): nat -> nat {
    d => if d == 0 then kind else i
  }

  lemma UnitIsNotLast(s: seq<int>, pos: nat, i: nat)
    requires pos < |s| && s[pos] >= 0 && NextUnit(s, pos + 1) < |s|
    requires i < |UnitPositions(s, |s|)| && UnitPositions(s, |s|)[i] == pos
    ensures i < |UnitPositions(s, |s|)| - 1
  {
    UnitPositionsAscend(s, |s|);
    UnitPositionsMember(s, |s|, NextUnit(s, pos + 1));
    SomethingAfter(UnitPositions(s, |s|), i, NextUnit(s, pos + 1));
  }

  lemma SomethingAfter(p: seq<int>, i: nat, x: int)
    requires (forall a, b :: 0 <= a < b < |p| ==> p[a] < p[b]) && i < |p| && x in p && p[i] < x
    ensures i < |p| - 1
  {
    var c :| 0 <= c < |p| && p[c] == x;
  }

  lemma FirstRoundMakes(s: seq<int>, draws: nat -> nat, m: Move)
    requires |FlipPositions(s, |s|)| > 0 && RoundMakes(s, draws, 0, m)
    ensures Drawn(s, draws, m)
  {
    assert DrawnIn(s, draws, 0, m);
  }

  lemma SmallRemainder(i: nat, m: nat)
    requires i < m
    ensures i % m == i
  {
  }

  lemma UnitsAreDrawn(s: seq<int>, pos: nat) returns (draws: nat -> nat)
    requires |FlipPositions(s, |s|)| > 0 && Enabled(s, Move.SwapUnits(pos))
    ensures RoundMakes(s, draws, 0, Move.SwapUnits(pos))
  {
    UnitPositionsMember(s, |s|, pos);
    var i: nat :| i < |UnitPositions(s, |s|)| && UnitPositions(s, |s|)[i] == pos;
    UnitIsNotLast(s, pos, i);
    assert UnitDrawn(s, i, Move.SwapUnits(pos)) by { SmallRemainder(i, |UnitPositions(s, |s|)| - 1); }
    draws := Asking(0, i);
    assert RoundStart(0) == 0;
  }

  lemma ChainsAreDrawn(s: seq<int>, pos: nat) returns (draws: nat -> nat)
    requires |FlipPositions(s, |s|)| > 0 && Enabled(s, Move.InvertChain(pos))
    ensures RoundMakes(s, draws, 0, Move.InvertChain(pos))
  {
    ChainPositionsMember(s, |s|, pos);
    var i: nat :| i < |ChainPositions(s, |s|)| && ChainPositions(s, |s|)[i] == pos;
    assert ChainDrawn(s, i, Move.InvertChain(pos)) by { SmallRemainder(i, |ChainPositions(s, |s|)|); }
    draws := Asking(1, i);
    assert RoundStart(0) == 0;
  }

  lemma FlipsAreDrawn(s: seq<int>, pos: nat) returns (draws: nat -> nat)
    requires |FlipPositions(s, |s|)| > 0 && Enabled(s, Move.SwapCutUnit(pos))
    ensures RoundMakes(s, draws, 0, Move.SwapCutUnit(pos))
  {
    FlipPositionsMember(s, |s|, pos);
    var i: nat :| i < |FlipPositions(s, |s|)| && FlipPositions(s, |s|)[i] == pos;
    draws := Asking(2, i);
    SmallRemainder(i, |FlipPositions(s, |s|)|);
    assert draws(0) == 2 && draws(1) == i && TriedFlip(s, draws, 1) == pos;
    FoundFlip(s, draws, 1, 1, MAX_MOVES + 1, pos);
    assert RoundStart(0) == 0 && RoundStart(1) == MAX_MOVES + 1;
  }

  /** Every enabled move is drawn by some draws, in the very first round. */
  lemma EveryMoveIsDrawn(s: seq<int>, n: nat, m: Move) returns (draws: nat -> nat)
    requires IsNpe(s, n) && n >= 2 && Enabled(s, m)
    ensures |FlipPositions(s, |s|)| > 0 && Drawn(s, draws, m)
  {
    MovesExist(s, n);
    match m
    case SwapUnits(pos) =>
      draws := UnitsAreDrawn(s, pos);
      FirstRoundMakes(s, draws, m);
    case InvertChain(pos) =>
      draws := ChainsAreDrawn(s, pos);
      FirstRoundMakes(s, draws, m);
    case SwapCutUnit(pos) =>
      draws := FlipsAreDrawn(s, pos);
      FirstRoundMakes(s, draws, m);
  }

  lemma FoundFlip(s: seq<int>, draws: nat -> nat, lo: nat, k: nat, hi: nat, pos: int)
    requires |FlipPositions(s, |s|)| > 0 && lo <= k < hi && IllegalTries(s, draws, lo, k)
    requires !IllegalTry(s, draws, k) && pos == TriedFlip(s, draws, k)
    ensures FlipDrawn(s, draws, lo, hi, pos) && !IllegalTries(s, draws, lo, hi)
  {
    assert FirstLegal(s, draws, lo, k, pos);
  }

  // ---------- giving up does happen ----------

  /** On 0 1 V the only flip is at 1, and swapping there spoils the expression. */
  lemma NothingToFlip(draws: nat -> nat, d: nat)
    ensures var s := Initial(2); |FlipPositions(s, |s|)| > 0 && IllegalTry(s, draws, d)
  {
    var s := Initial(2);
    assert s == [0, 1, CUT_VERTICAL];
    FlipPositionsMember(s, |s|, 1);
    assert 1 in FlipPositions(s, |s|);
    var p := TriedFlip(s, draws, d);
    assert p in FlipPositions(s, |s|);
    FlipPositionsMember(s, |s|, p);
    assert Cuts(s, 3) == 1;
  }

  lemma {:induction false} AllRoundsFail(draws: nat -> nat, k: nat)
    requires forall r: nat :: r < k ==> draws(RoundStart(r)) % 3 == 2
    ensures var s := Initial(2); |FlipPositions(s, |s|)| > 0 && RoundsFail(s, draws, k)
    decreases k
  {
    var s := Initial(2);
    NothingToFlip(draws, 0);
    if k > 0 {
      AllRoundsFail(draws, k - 1);
      forall d: nat | RoundStart(k - 1) + 1 <= d < RoundStart(k)
        ensures IllegalTry(s, draws, d)
      {
        NothingToFlip(draws, d);
      }
    }
  }

  /** Two units and draws that always ask for M3: the source gives up. */
  lemma GivesUpOnTwoUnits()
    ensures var s := Initial(2); IsNpe(s, 2) && |FlipPositions(s, |s|)| > 0 && GivesUp(s, _ => 2)
  {
    InitialIsNpe(2);
    AllRoundsFail(_ => 2, MAX_MOVES - 1);
  }

  /** Draws that ask for M3 in all rounds but the last, and there for M1. */
  function LateDraws(k: nat): nat {
    if k < RoundStart(MAX_MOVES - 1) then 2 else 0
  }

  /** The move made in the last round succeeds and is thrown away. */
  lemma LateSuccessIsLost()
    ensures var s := Initial(2);
            |FlipPositions(s, |s|)| > 0 && GivesUp(s, LateDraws) && !RoundFails(s, LateDraws, MAX_MOVES - 1)
  {
    forall r: nat | r < MAX_MOVES - 1
      ensures LateDraws(RoundStart(r)) % 3 == 2
    {
    }
    AllRoundsFail(LateDraws, MAX_MOVES - 1);
  }

  /** t is what move m makes of s. */
  ghost predicate Moved(s: seq<int>, m: Move, t: seq<int>) {
    Enabled(s, m) && Apply(s, m) == t
  }

  /** One try of M3 at a random flip position. */
  method TryCutUnitSwap(flips: array<int>, nFlips: nat, copy: Npe, ghost s: seq<int>, ghost n: nat,
                        draws: nat -> nat, d: nat) returns (done: bool, ghost m: Move)
    requires copy.Allocated(n) && copy.Valid(n) && n >= 2 && copy.elements[..] == s
    requires 0 < nFlips <= flips.Length
    requires flips[..nFlips] == FlipPositions(s, |s|)
    modifies Buffers(copy)
    ensures copy.Valid(n)
    ensures done <==> !IllegalTry(s, draws, d)
    ensures if done then Moved(s, m, copy.elements[..]) else copy.elements[..] == s
    ensures m.SwapCutUnit? && (done ==> m.pos == TriedFlip(s, draws, d))
  {
    var pos := flips[draws(d) % nFlips];
    assert pos == TriedFlip(s, draws, d);
    FlipPositionsMember(s, |s|, pos);
    var outcome := copy.SwapCutUnit(pos, n);
    done, m := outcome.Done?, Move.SwapCutUnit(pos);
  }

  /** Up to MAX_MOVES tries of M3 at random flip positions. */
  method TryCutUnitSwaps(flips: array<int>, nFlips: nat, copy: Npe, ghost s: seq<int>, ghost n: nat,
                         draws: nat -> nat, d: nat) returns (done: bool, d': nat, ghost m: Move)
    requires copy.Allocated(n) && copy.Valid(n) && n >= 2 && copy.elements[..] == s
    requires flips !in Buffers(copy) && 0 < nFlips <= flips.Length
    requires flips[..nFlips] == FlipPositions(s, |s|)
    modifies Buffers(copy)
    ensures copy.Valid(n)
    ensures done <==> !IllegalTries(s, draws, d, d + MAX_MOVES)
    ensures done ==> Moved(s, m, copy.elements[..])
    ensures done ==> m.SwapCutUnit? && FlipDrawn(s, draws, d, d + MAX_MOVES, m.pos)
    ensures !done ==> copy.elements[..] == s && d' == d + MAX_MOVES
  {
    done, d', m := false, d, Move.SwapCutUnit(0);
    while !done && d' < d + MAX_MOVES
      invariant d <= d' <= d + MAX_MOVES && copy.Valid(n)
      invariant flips[..nFlips] == FlipPositions(s, |s|)
      invariant !done ==> copy.elements[..] == s && IllegalTries(s, draws, d, d')
      invariant done ==> Moved(s, m, copy.elements[..]) && !IllegalTries(s, draws, d, d + MAX_MOVES)
      invariant done ==> m.SwapCutUnit? && FlipDrawn(s, draws, d, d + MAX_MOVES, m.pos)
      decreases d + MAX_MOVES - d', !done
    {
      done, m := TryCutUnitSwap(flips, nFlips, copy, s, n, draws, d');
      if done {
        FoundFlip(s, draws, d, d', d + MAX_MOVES, m.pos);
      }
      d' := d' + 1;
    }
  }

  /** e's position caches are those of s. */
  ghost predicate Lists(e: Npe, s: seq<int>)
    reads e, e.unitPos, e.flipPos, e.chainPos
  {
    && e.nUnits <= e.unitPos.Length && e.unitPos[..e.nUnits] == UnitPositions(s, |s|)
    && e.nFlips <= e.flipPos.Length && e.flipPos[..e.nFlips] == FlipPositions(s, |s|)
    && e.nChains <= e.chainPos.Length && e.chainPos[..e.nChains] == ChainPositions(s, |s|)
  }

  /** One round: draw the kind of move, then make it. */
  method TryMove(e: Npe, copy: Npe, ghost s: seq<int>, ghost n: nat, draws: nat -> nat, r: nat)
    returns (done: bool, ghost m: Move)
    requires copy.Allocated(n) && copy.Valid(n) && n >= 2 && copy.elements[..] == s
    requires Lists(e, s) && Buffers(e) !! Buffers(copy)
    requires |FlipPositions(s, |s|)| > 0
    modifies Buffers(copy)
    ensures copy.Valid(n)
    ensures done <==> !RoundFails(s, draws, r)
    ensures if done then Moved(s, m, copy.elements[..]) && RoundMakes(s, draws, r, m) else copy.elements[..] == s
  {
    var d := RoundStart(r);
    var kind := draws(d) % 3;
    if kind < 2 {
      done, m := RandomUnitOrChain(e, copy, s, n, kind, draws(d + 1));
    } else {
      var d';
      done, d', m := TryCutUnitSwaps(e.flipPos, e.nFlips, copy, s, n, draws, d + 1);
    }
    RoundOutcome(s, draws, r, d, kind, done, m);
  }

  lemma RoundOutcome(s: seq<int>, draws: nat -> nat, r: nat, d: nat, kind: nat, done: bool, m: Move)
    requires |FlipPositions(s, |s|)| > 0 && d == RoundStart(r) && kind == draws(d) % 3
    requires kind == 0 ==> done && UnitDrawn(s, draws(d + 1), m)
    requires kind == 1 ==> done && ChainDrawn(s, draws(d + 1), m)
    requires kind == 2 ==> (done <==> !IllegalTries(s, draws, d + 1, d + 1 + MAX_MOVES))
    requires kind == 2 && done ==> m.SwapCutUnit? && FlipDrawn(s, draws, d + 1, d + 1 + MAX_MOVES, m.pos)
    ensures done <==> !RoundFails(s, draws, r)
    ensures done ==> RoundMakes(s, draws, r, m)
  {
    assert RoundStart(r + 1) == d + 1 + MAX_MOVES;
  }

  /** The two kinds of move that always succeed. */
  method RandomUnitOrChain(e: Npe, copy: Npe, ghost s: seq<int>, ghost n: nat, kind: nat, x: nat)
    returns (done: bool, ghost m: Move)
    requires copy.Allocated(n) && copy.Valid(n) && n >= 2 && copy.elements[..] == s
    requires Lists(e, s) && Buffers(e) !! Buffers(copy)
    modifies copy.elements
    ensures copy.Valid(n) && done && Moved(s, m, copy.elements[..])
    ensures if kind == 0 then UnitDrawn(s, x, m) else ChainDrawn(s, x, m)
  {
    if kind == 0 {
      done, m := RandomSwapUnits(e.unitPos, e.nUnits, copy, s, n, x);
    } else {
      done, m := RandomInvertChain(e.chainPos, e.nChains, copy, s, n, x);
    }
  }

  method RandomSwapUnits(units: array<int>, nUnits: nat, copy: Npe, ghost s: seq<int>, ghost n: nat, x: nat)
    returns (done: bool, ghost m: Move)
    requires copy.Allocated(n) && copy.Valid(n) && n >= 2 && copy.elements[..] == s
    requires units !in Buffers(copy) && nUnits <= units.Length
    requires units[..nUnits] == UnitPositions(s, |s|)
    modifies copy.elements
    ensures copy.Valid(n) && done && Moved(s, m, copy.elements[..])
    ensures UnitDrawn(s, x, m)
  {
    MovesExist(s, n);
    var i := x % (nUnits - 1);
    UnitHasSuccessor(s, i);
    var pos := units[i];
    done := copy.SwapUnits(pos, n);
    m := Move.SwapUnits(pos);
  }

  method RandomInvertChain(chains: array<int>, nChains: nat, copy: Npe, ghost s: seq<int>, ghost n: nat, x: nat)
    returns (done: bool, ghost m: Move)
    requires copy.Allocated(n) && copy.Valid(n) && n >= 2 && copy.elements[..] == s
    requires chains !in Buffers(copy) && nChains <= chains.Length
    requires chains[..nChains] == ChainPositions(s, |s|)
    modifies copy.elements
    ensures copy.Valid(n) && done && Moved(s, m, copy.elements[..])
    ensures ChainDrawn(s, x, m)
  {
    MovesExist(s, n);
    var pos := chains[x % nChains];
    ChainPositionsMember(s, |s|, pos);
    done := copy.InvertChain(pos, n);
    m := Move.InvertChain(pos);
  }

  /** Rounds of tries until one succeeds or MAX_MOVES of them have been made. */
  method TryRounds(e: Npe, copy: Npe, ghost s: seq<int>, ghost n: nat, draws: nat -> nat)
    returns (ok: bool, ghost m: Move)
    requires copy.Allocated(n) && copy.Valid(n) && n >= 2 && copy.elements[..] == s
    requires Lists(e, s) && Buffers(e) !! Buffers(copy)
    requires |FlipPositions(s, |s|)| > 0
    modifies Buffers(copy)
    ensures copy.Valid(n)
    ensures ok <==> !GivesUp(s, draws)
    ensures ok ==> Moved(s, m, copy.elements[..]) && Drawn(s, draws, m)
  {
    m := Move.SwapCutUnit(0);
    var count := 0;
    while count < MAX_MOVES
      invariant 0 <= count <= MAX_MOVES
      invariant copy.Valid(n) && Lists(e, s)
      invariant copy.elements[..] == s && RoundsFail(s, draws, count)
    {
      var done;
      done, m := TryMove(e, copy, s, n, draws, count);
      if done {
        SuccessDecides(s, draws, count);
        assert count < MAX_MOVES - 1 ==> DrawnIn(s, draws, count, m);
      }
      count := count + 1;
      if done {
        return count != MAX_MOVES, m;
      }
    }
    RoundsFailPrefix(s, draws, MAX_MOVES - 1, MAX_MOVES);
    ok := false;
  }

  /** A copy of e changed by one move. The attempt is given up exactly when GivesUp holds. */
  method MakeRandomMove(e: Npe, ghost n: nat, draws: nat -> nat) returns (ok: bool, copy: Npe, ghost m: Move)
    requires e.Allocated(n) && e.Valid(n) && n >= 2
    ensures fresh(Buffers(copy)) && copy.Allocated(n) && copy.Valid(n)
    ensures |FlipPositions(e.elements[..], e.elements.Length)| > 0
    ensures ok <==> !GivesUp(e.elements[..], draws)
    ensures ok ==> Moved(e.elements[..], m, copy.elements[..]) && Drawn(e.elements[..], draws, m)
  {
    MovesExist(e.elements[..], n);
    copy := Duplicate(e, n);
    ok, m := TryRounds(e, copy, e.elements[..], n, draws);
  }
}
