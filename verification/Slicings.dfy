/** The bare structure behind a Polish expression: which cut separates which groups of
    units. Reading an expression with a stack and writing a structure in postorder are
    inverse to each other. */
module Slicings {
  import opened PolishExpressions

  datatype Option<T> = None | Some(value: T)

  datatype Slicing =
    | Block(unit: nat)
    | Slice(cut: int, left: Slicing, right: Slicing)

  function Postorder(t: Slicing): (s: seq<int>)
    ensures |s| >= 1
  {
    match t
    case Block(u) => [u as int]
    case Slice(cut, l, r) => Postorder(l) + Postorder(r) + [cut]
  }

  /** Cuts on the slices, and blocks below n. */
  predicate OverUnits(t: Slicing, n: nat) {
    match t
    case Block(u) => u < n
    case Slice(cut, l, r) => IsCut(cut) && OverUnits(l, n) && OverUnits(r, n)
  }

  function Postorders(ts: seq<Slicing>): seq<int> {
    if ts == [] then [] else Postorders(ts[..|ts| - 1]) + Postorder(ts[|ts| - 1])
  }

  // ---------- the stack machine ----------

  /** What one element does to the stack; None when the stack runs short. */
  function Step(st: seq<Slicing>, e: int): Option<seq<Slicing>> {
    if e >= 0 then Some(st + [Block(e)])
    else if |st| < 2 then None
    else Some(st[..|st| - 2] + [Slice(e, st[|st| - 2], st[|st| - 1])])
  }

  /** The stack after the first k elements of s, starting from st. */
  function After(st: seq<Slicing>, s: seq<int>, k: nat): Option<seq<Slicing>>
    requires k <= |s|
  {
    if k == 0 then Some(st)
    else
      var before := After(st, s, k - 1);
      if before.None? then None else Step(before.value, s[k - 1])
  }

  /** Depth of the stack after k elements of an expression. */
  function Depth(s: seq<int>, k: nat): int
    requires k <= |s|
  {
    k - 2 * Cuts(s, k)
  }

  lemma PostordersLast(ts: seq<Slicing>, t: Slicing)
    ensures Postorders(ts + [t]) == Postorders(ts) + Postorder(t)
  {
    assert (ts + [t])[..|ts|] == ts;
  }

  lemma JoinTop(rest: seq<Slicing>, l: Slicing, r: Slicing, cut: int)
    ensures Postorders(rest + [Slice(cut, l, r)]) == Postorders(rest + [l] + [r]) + [cut]
  {
    PostordersLast(rest, Slice(cut, l, r));
    PostordersLast(rest, l);
    PostordersLast(rest + [l], r);
  }

  lemma SplitTop(st: seq<Slicing>)
    requires |st| >= 2
    ensures st == st[..|st| - 2] + [st[|st| - 2]] + [st[|st| - 1]]
  {
  }

  ghost predicate AllOver(st: seq<Slicing>, n: nat) {
    forall i :: 0 <= i < |st| ==> OverUnits(st[i], n)
  }

  /** One element appends itself to what the stack spells. */
  lemma StepSpells(st: seq<Slicing>, e: int, n: nat)
    requires AllOver(st, n) && (IsCut(e) || 0 <= e < n) && (e < 0 ==> |st| >= 2)
    ensures Step(st, e).Some?
    ensures Postorders(Step(st, e).value) == Postorders(st) + [e]
    ensures |Step(st, e).value| == if e >= 0 then |st| + 1 else |st| - 1
    ensures AllOver(Step(st, e).value, n)
  {
    if e >= 0 {
      PostordersLast(st, Block(e));
    } else {
      SplitTop(st);
      JoinTop(st[..|st| - 2], st[|st| - 2], st[|st| - 1], e);
    }
  }

  /** A balloting expression never runs the stack short: after k elements it holds
      k - 2 * cuts slicings that spell out exactly those elements. */
  lemma {:induction false} StackSpellsPrefix(s: seq<int>, n: nat, k: nat)
    requires k <= |s| && WellTyped(s, n) && Balloting(s)
    ensures After([], s, k).Some?
    ensures |After([], s, k).value| == Depth(s, k)
    ensures Postorders(After([], s, k).value) == s[..k]
    ensures AllOver(After([], s, k).value, n)
  {
    if k > 0 {
      StackSpellsPrefix(s, n, k - 1);
      assert 2 * Cuts(s, k) < k;
      StepSpells(After([], s, k - 1).value, s[k - 1], n);
      assert s[..k] == s[..k - 1] + [s[k - 1]];
    }
  }

  /** Every valid expression is the postorder of the one slicing left on the stack. */
  lemma ExpressionHasSlicing(s: seq<int>, n: nat) returns (t: Slicing)
    requires IsNpe(s, n)
    ensures After([], s, |s|) == Some([t])
    ensures Postorder(t) == s && OverUnits(t, n)
  {
    StackSpellsPrefix(s, n, |s|);
    var st := After([], s, |s|).value;
    t := st[0];
    assert st == [] + [t];
    PostordersLast([], t);
    assert s[..|s|] == s;
  }

  // ---------- and every slicing is the one its postorder builds ----------

  lemma {:induction false} AfterPrefix(st: seq<Slicing>, u: seq<int>, v: seq<int>, k: nat)
    requires k <= |u|
    ensures After(st, u + v, k) == After(st, u, k)
  {
    if k > 0 {
      AfterPrefix(st, u, v, k - 1);
    }
  }

  lemma {:induction false} AfterSplit(st: seq<Slicing>, u: seq<int>, v: seq<int>, k: nat)
    requires k <= |v| && After(st, u, |u|).Some?
    ensures After(st, u + v, |u| + k) == After(After(st, u, |u|).value, v, k)
  {
    if k == 0 {
      AfterPrefix(st, u, v, |u|);
    } else {
      AfterSplit(st, u, v, k - 1);
      assert (u + v)[|u| + k - 1] == v[k - 1];
    }
  }

  /** Reading a slicing's postorder puts that slicing on top of whatever was there. */
  lemma {:induction false} PostorderPushes(st: seq<Slicing>, t: Slicing, n: nat)
    requires OverUnits(t, n)
    ensures After(st, Postorder(t), |Postorder(t)|) == Some(st + [t])
    decreases t
  {
    match t
    case Block(u) =>
      assert After(st, Postorder(t), 0) == Some(st);
    case Slice(cut, l, r) =>
      PostorderPushes(st, l, n);
      PostorderPushes(st + [l], r, n);
      PushBoth(st, l, r, cut, Postorder(l), Postorder(r));
  }

  lemma PushBoth(st: seq<Slicing>, l: Slicing, r: Slicing, cut: int, a: seq<int>, b: seq<int>)
    requires cut < 0
    requires After(st, a, |a|) == Some(st + [l])
    requires After(st + [l], b, |b|) == Some(st + [l] + [r])
    ensures After(st, a + b + [cut], |a + b + [cut]|) == Some(st + [Slice(cut, l, r)])
  {
    var both := st + [l] + [r];
    assert After(st, a + b, |a + b|) == Some(both) by { AfterSplit(st, a, b, |b|); }
    var s := a + b + [cut];
    assert After(st, s, |s| - 1) == Some(both) by { AfterPrefix(st, a + b, [cut], |a + b|); }
    assert Step(both, cut) == Some(st + [Slice(cut, l, r)]) by { assert both[..|both| - 2] == st; }
  }

  /** Distinct slicings have distinct expressions. */
  lemma PostorderInjective(t: Slicing, t': Slicing, n: nat)
    requires OverUnits(t, n) && OverUnits(t', n) && Postorder(t) == Postorder(t')
    ensures t == t'
  {
    PostorderPushes([], t, n);
    PostorderPushes([], t', n);
    assert ([] + [t])[0] == t && ([] + [t'])[0] == t';
  }

  // ---------- normalized means skewed ----------

  /** No right part repeats the cut above it. */
  predicate Skewed(t: Slicing) {
    t.Slice? ==> Skewed(t.left) && Skewed(t.right) && !(t.right.Slice? && t.right.cut == t.cut)
  }

  lemma {:induction false} PostorderEnds(t: Slicing, n: nat)
    requires OverUnits(t, n)
    ensures Postorder(t)[0] >= 0
    ensures Postorder(t)[|Postorder(t)| - 1] == if t.Block? then t.unit as int else t.cut
  {
    if t.Slice? {
      PostorderEnds(t.left, n);
    }
  }

  /** An expression is normalized exactly when its slicing is skewed. */
  lemma {:induction false} NormalizedIffSkewed(t: Slicing, n: nat)
    requires OverUnits(t, n)
    ensures Normalized(Postorder(t)) <==> Skewed(t)
  {
    match t
    case Block(_) =>
    case Slice(cut, l, r) =>
      NormalizedIffSkewed(l, n);
      NormalizedIffSkewed(r, n);
      PostorderEnds(l, n);
      PostorderEnds(r, n);
      NormalizedJoin(Postorder(l), Postorder(r), cut);
  }

  /** A join is normalized when both parts are and the right part does not end in the same cut. */
  lemma NormalizedJoin(a: seq<int>, b: seq<int>, cut: int)
    requires a != [] && b != [] && b[0] >= 0 && cut < 0
    ensures Normalized(a + b + [cut]) <==> Normalized(a) && Normalized(b) && b[|b| - 1] != cut
  {
    var s := a + b + [cut];
    assert forall i :: 0 <= i < |a| ==> s[i] == a[i];
    assert forall i :: 0 <= i < |b| ==> s[|a| + i] == b[i];
    assert s[|a| + |b|] == cut;
    if Normalized(s) {
      assert forall i :: 0 <= i < |b| - 1 && b[i] < 0 ==> s[|a| + i] != s[|a| + i + 1];
      assert s[|a| + |b| - 1] != s[|a| + |b|];
    }
    if Normalized(a) && Normalized(b) && b[|b| - 1] != cut {
      forall i | 0 <= i < |s| - 1 && s[i] < 0
        ensures s[i] != s[i + 1]
      {
        if |a| <= i < |a| + |b| - 1 {
          assert b[i - |a|] != b[i - |a| + 1];
        }
      }
    }
  }
}
