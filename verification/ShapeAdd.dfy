/** Curve addition and the minimum-area query, as loops over index pairs. */
module ShapeAdd {
  import opened PolishExpressions
  import opened Shapes

  predicate WellSized(c: Curve) {
    0 < |c.x| == |c.y|
  }

  /** Operand position of step index i: curves are read backwards at a horizontal cut. */
  function At(size: nat, cut: int, i: nat): nat
    requires i < size
  {
    if cut == CUT_VERTICAL then i else size - 1 - i
  }

  /** The value that decides which curve steps forward. */
  function Key(c: Curve, cut: int, i: nat): real
    requires WellSized(c) && i < |c.x|
  {
    if cut == CUT_VERTICAL then c.y[i] else c.x[At(|c.x|, cut, i)]
  }

  ghost function Keys(c: Curve, cut: int): (ks: seq<real>)
    requires WellSized(c)
    ensures |ks| == |c.x|
    ensures forall i :: 0 <= i < |ks| ==> ks[i] == Key(c, cut, i)
  {
    if cut == CUT_VERTICAL then c.y else Reversed(c.x)
  }

  /** Number of entries the sum will have. */
  method ResultSize(c1: Curve, c2: Curve, cut: int) returns (total: nat)
    requires WellSized(c1) && WellSized(c2)
    ensures total == |Walk(Keys(c1, cut), Keys(c2, cut), 0, 0)|
  {
    ghost var a, b := Keys(c1, cut), Keys(c2, cut);
    var i, j := 0, 0;
    total := 0;
    while i < |c1.x| && j < |c2.x|
      invariant i <= |a| && j <= |b|
      invariant total + |Walk(a, b, i, j)| == |Walk(a, b, 0, 0)|
      decreases |a| - i + |b| - j
    {
      assert FirstSteps(a, b, i, j) <==> Key(c1, cut, i) >= Key(c2, cut, j);
      if Key(c1, cut, i) >= Key(c2, cut, j) {
        i := i + 1;
      } else {
        j := j + 1;
      }
      total := total + 1;
    }
  }

  /** The slot the k-th step writes. */
  function Slot(total: nat, cut: int, k: nat): nat
    requires k < total
  {
    if cut == CUT_VERTICAL then k else total - 1 - k
  }

  /** The slots written in k steps are those from WrittenFrom up to WrittenTo. */
  function WrittenFrom(total: nat, cut: int, k: nat): nat
    requires k <= total
  {
    if cut == CUT_VERTICAL then 0 else total - k
  }

  function WrittenTo(total: nat, cut: int, k: nat): nat
    requires k <= total
  {
    if cut == CUT_VERTICAL then k else total
  }

  lemma PairsFromWalk(c1: Curve, c2: Curve, cut: int, k: nat)
    requires WellSized(c1) && WellSized(c2) && k < |Walk(Keys(c1, cut), Keys(c2, cut), 0, 0)|
    ensures var w := Walk(Keys(c1, cut), Keys(c2, cut), 0, 0);
            && |Pairs(c1, c2, cut)| == |w|
            && Pairs(c1, c2, cut)[Slot(|w|, cut, k)] == (At(|c1.x|, cut, w[k].0), At(|c2.x|, cut, w[k].1))
  {
  }

  /** Entry t of a curve under construction. */
  datatype Entry = Entry(x: real, y: real, leftPos: nat, rightPos: nat, median: real)

  function EntryOf(c1: Curve, c2: Curve, cut: int, p: nat, q: nat): Entry
    requires WellSized(c1) && WellSized(c2) && p < |c1.x| && q < |c2.x|
  {
    Entry(JoinedWidth(c1.x[p], c2.x[q], cut), JoinedHeight(c1.y[p], c2.y[q], cut), p, q,
          if cut == CUT_VERTICAL then c1.x[p] else c1.y[p])
  }

  ghost predicate Agrees(e: Entry, s: Curve, t: nat)
    requires |s.x| == |s.y| == |s.leftPos| == |s.rightPos| == |s.median| && t < |s.x|
  {
    e == Entry(s.x[t], s.y[t], s.leftPos[t], s.rightPos[t], s.median[t])
  }

  /** What the k-th step writes is what the sum holds there. */
  lemma StepEntry(c1: Curve, c2: Curve, cut: int, k: nat)
    requires WellSized(c1) && WellSized(c2) && k < |Walk(Keys(c1, cut), Keys(c2, cut), 0, 0)|
    ensures var w := Walk(Keys(c1, cut), Keys(c2, cut), 0, 0);
            && |Sum(c1, c2, cut).x| == |w|
            && Agrees(EntryOf(c1, c2, cut, At(|c1.x|, cut, w[k].0), At(|c2.x|, cut, w[k].1)),
                      Sum(c1, c2, cut), Slot(|w|, cut, k))
  {
    var t := Slot(|Walk(Keys(c1, cut), Keys(c2, cut), 0, 0)|, cut, k);
    PairsFromWalk(c1, c2, cut, k);
    SumEntry(c1, c2, cut, t);
  }

  /** s holds what the k-th step of the walk writes. */
  ghost predicate StepHeld(c1: Curve, c2: Curve, cut: int, s: Curve, k: int)
    requires WellSized(c1) && WellSized(c2)
  {
    var w := Walk(Keys(c1, cut), Keys(c2, cut), 0, 0);
    && |s.x| == |s.y| == |s.leftPos| == |s.rightPos| == |s.median| == |w|
    && 0 <= k < |w|
    && Agrees(EntryOf(c1, c2, cut, At(|c1.x|, cut, w[k].0), At(|c2.x|, cut, w[k].1)), s, Slot(|w|, cut, k))
  }

  ghost predicate HoldsSteps(c1: Curve, c2: Curve, cut: int, s: Curve)
    requires WellSized(c1) && WellSized(c2)
  {
    && |s.x| == |Walk(Keys(c1, cut), Keys(c2, cut), 0, 0)|
    && |s.x| == |s.y| == |s.leftPos| == |s.rightPos| == |s.median|
    && forall k :: 0 <= k < |s.x| ==> StepHeld(c1, c2, cut, s, k)
  }

  lemma SumHoldsSteps(c1: Curve, c2: Curve, cut: int)
    requires WellSized(c1) && WellSized(c2)
    ensures HoldsSteps(c1, c2, cut, Sum(c1, c2, cut))
  {
    StepEntry(c1, c2, cut, 0);
    forall k | 0 <= k < |Sum(c1, c2, cut).x|
      ensures StepHeld(c1, c2, cut, Sum(c1, c2, cut), k)
    {
      StepEntry(c1, c2, cut, k);
    }
  }

  /** Adds two curves: walks both once, filling slot after slot of the result. */
  method Add(c1: Curve, c2: Curve, cut: int) returns (sum: Curve)
    requires WellSized(c1) && WellSized(c2)
    ensures sum == Sum(c1, c2, cut)
  {
    SumHoldsSteps(c1, c2, cut);
    sum := AddSteps(c1, c2, cut, Sum(c1, c2, cut));
  }

  method AddSteps(c1: Curve, c2: Curve, cut: int, ghost s: Curve) returns (sum: Curve)
    requires WellSized(c1) && WellSized(c2) && HoldsSteps(c1, c2, cut, s)
    ensures sum == s
  {
    var total := ResultSize(c1, c2, cut);
    var entries := new Entry[total];
    Fill(c1, c2, cut, entries, s);
    sum := Unzip(entries);
    SameColumns(entries[..], sum, s);
  }

  lemma SameColumns(es: seq<Entry>, c: Curve, s: Curve)
    requires |c.x| == |c.y| == |c.leftPos| == |c.rightPos| == |c.median| == |es|
    requires |s.x| == |s.y| == |s.leftPos| == |s.rightPos| == |s.median| == |es|
    requires forall t :: 0 <= t < |es| ==> Agrees(es[t], c, t) && Agrees(es[t], s, t)
    ensures c == s
  {
    assert c.x == s.x by { assert forall t :: 0 <= t < |es| ==> c.x[t] == es[t].x == s.x[t]; }
    assert c.y == s.y by { assert forall t :: 0 <= t < |es| ==> c.y[t] == es[t].y == s.y[t]; }
    assert c.leftPos == s.leftPos by { assert forall t ::
                                      0 <= t < |es| ==> c.leftPos[t] == es[t].leftPos == s.leftPos[t]; }
    assert c.rightPos == s.rightPos by { assert forall t ::
                                        0 <= t < |es| ==> c.rightPos[t] == es[t].rightPos == s.rightPos[t]; }
    assert c.median == s.median by { assert forall t :: 0 <= t < |es| ==> c.median[t] == es[t].median == s.median[t]; }
  }

  /** One step along a walk of which k pairs are done. */
  lemma WalkOn(a: seq<real>, b: seq<real>, w: seq<(nat, nat)>, k: nat, i: nat, j: nat, first: bool)
    requires i < |a| && j < |b| && k <= |w| && w[k..] == Walk(a, b, i, j)
    requires a[i] >= b[j] <==> first
    ensures k < |w| && w[k] == (i, j)
    ensures w[k + 1..] == Walk(a, b, if first then i + 1 else i, if first then j else j + 1)
  {
    assert w[k] == w[k..][0];
    assert w[k + 1..] == w[k..][1..];
  }

  method Fill(c1: Curve, c2: Curve, cut: int, entries: array<Entry>, ghost s: Curve)
    requires WellSized(c1) && WellSized(c2) && HoldsSteps(c1, c2, cut, s)
    requires entries.Length == |s.x|
    modifies entries
    ensures forall t :: 0 <= t < entries.Length ==> Agrees(entries[t], s, t)
  {
    var total := entries.Length;
    ghost var a, b := Keys(c1, cut), Keys(c2, cut);
    ghost var w := Walk(a, b, 0, 0);
    var i, j, k := 0, 0, 0;
    while i < |c1.x| && j < |c2.x|
      invariant i <= |a| && j <= |b| && k <= total
      invariant w[k..] == Walk(a, b, i, j)
      invariant forall t :: WrittenFrom(total, cut, k) <= t < WrittenTo(total, cut, k) ==> Agrees(entries[t], s, t)
      decreases |a| - i + |b| - j
    {
      var first := Key(c1, cut, i) >= Key(c2, cut, j);
      assert a[i] >= b[j] <==> first;
      WalkOn(a, b, w, k, i, j, first);
      WriteStep(c1, c2, cut, entries, s, k, i, j);
      if first {
        i := i + 1;
      } else {
        j := j + 1;
      }
      k := k + 1;
    }
  }

  method WriteStep(c1: Curve, c2: Curve, cut: int, entries: array<Entry>, ghost s: Curve, k: nat, i: nat, j: nat)
    requires WellSized(c1) && WellSized(c2) && HoldsSteps(c1, c2, cut, s)
    requires k < entries.Length == |s.x|
    requires Walk(Keys(c1, cut), Keys(c2, cut), 0, 0)[k] == (i, j)
    requires forall t :: WrittenFrom(entries.Length, cut, k) <= t < WrittenTo(entries.Length, cut, k)
                         ==> Agrees(entries[t], s, t)
    modifies entries
    ensures forall t :: WrittenFrom(entries.Length, cut, k + 1) <= t < WrittenTo(entries.Length, cut, k + 1)
                        ==> Agrees(entries[t], s, t)
  {
    assert StepHeld(c1, c2, cut, s, k);
    var slot := Slot(entries.Length, cut, k);
    entries[slot] := EntryOf(c1, c2, cut, At(|c1.x|, cut, i), At(|c2.x|, cut, j));
    assert Agrees(entries[slot], s, slot);
  }

  /** The five columns of a filled table. */
  method Unzip(entries: array<Entry>) returns (c: Curve)
    ensures |c.x| == |c.y| == |c.leftPos| == |c.rightPos| == |c.median| == entries.Length
    ensures forall t :: 0 <= t < entries.Length ==> Agrees(entries[t], c, t)
  {
    var es := entries[..];
    c := Curve(seq(|es|, t requires 0 <= t < |es| => es[t].x), seq(|es|, t requires 0 <= t < |es| => es[t].y),
               seq(|es|, t requires 0 <= t < |es| => es[t].leftPos),
               seq(|es|, t requires 0 <= t < |es| => es[t].rightPos),
               seq(|es|, t requires 0 <= t < |es| => es[t].median));
  }

  /** First position whose box has the least area. */
  method MinAreaPos(c: Curve) returns (pos: nat)
    requires WellSized(c)
    ensures pos < |c.x|
    ensures forall i :: 0 <= i < |c.x| ==> Area(c, pos) <= Area(c, i)
    ensures forall i :: 0 <= i < pos ==> Area(c, pos) < Area(c, i)
  {
    pos := 0;
    var min := Area(c, 0);
    for i := 1 to |c.x|
      invariant pos < i && min == Area(c, pos)
      invariant forall k :: 0 <= k < i ==> min <= Area(c, k)
      invariant forall k :: 0 <= k < pos ==> min < Area(c, k)
    {
      if min > Area(c, i) {
        min := Area(c, i);
        pos := i;
      }
    }
  }
}
