/** Building the slicing tree of an expression with the floorplanner's fixed-size stack. */
module TreeBuilder {
  import opened PolishExpressions
  import opened Shapes
  import opened Slicings
  import opened SlicingTrees
  import ShapeAdd

  const MAX_STACK: nat := 128

  /** A stack of tree nodes with MAX_STACK cells; top is the first free one. */
  class NodeStack {
    const cells: array<Tree>
    var top: nat

    ghost predicate Valid()
      reads this
    {
      cells.Length == MAX_STACK && top <= MAX_STACK
    }

    constructor ()
      ensures Valid() && top == 0 && fresh(cells)
    {
      cells := new Tree[MAX_STACK];
      top := 0;
    }

    /** Refused exactly when the stack is full. */
    method Push(t: Tree) returns (ok: bool)
      requires Valid()
      modifies this`top, cells
      ensures Valid()
      ensures ok <==> old(top) < MAX_STACK
      ensures cells[..top] == if ok then old(cells[..top]) + [t] else old(cells[..top])
    {
      ok := top < MAX_STACK;
      if ok {
        cells[top] := t;
        top := top + 1;
      }
    }

    /** None exactly when the stack is empty. */
    method Pop() returns (t: Option<Tree>)
      requires Valid()
      modifies this`top
      ensures Valid()
      ensures t.Some? <==> old(top) > 0
      ensures if t.Some? then old(cells[..top]) == cells[..top] + [t.value] else top == old(top)
    {
      if top == 0 {
        return None;
      }
      top := top - 1;
      t := Some(cells[top]);
    }
  }

  datatype BuildResult = Built(tree: Tree) | StackNotEmpty | StackOverflow | StackUnderflow

  // ---------- relating the stack of trees to the stack of slicings ----------

  /** Tree t is the tree of slicing sl. */
  ghost predicate IsTreeOf(t: Tree, sl: Slicing, shapes: seq<Shape>) {
    OverUnits(sl, |shapes|) && t == Decorated(sl, shapes)
  }

  ghost function TreeRelation(shapes: seq<Shape>): (Tree, Slicing) -> bool {
    (t, sl) => IsTreeOf(t, sl, shapes)
  }

  /** R holds between leaves and blocks and is kept by joining at a cut. */
  ghost predicate Builds(R: (Tree, Slicing) -> bool, shapes: seq<Shape>) {
    && (forall u: nat :: u < |shapes| ==> R(Leaf(u, shapes[u]), Block(u)))
    && (forall l, r, sl, sr, cut :: R(l, sl) && R(r, sr) && IsCut(cut) ==> R(Join(cut, l, r), Slice(cut, sl, sr)))
  }

  lemma TreeRelationBuilds(shapes: seq<Shape>)
    ensures Builds(TreeRelation(shapes), shapes)
  {
    var R := TreeRelation(shapes);
    forall l, r, sl, sr, cut | R(l, sl) && R(r, sr) && IsCut(cut)
      ensures R(Join(cut, l, r), Slice(cut, sl, sr))
    {
      assert IsTreeOf(l, sl, shapes) && IsTreeOf(r, sr, shapes);
    }
  }

  /** The two stacks match cell by cell. */
  ghost predicate Matches(R: (Tree, Slicing) -> bool, ts: seq<Tree>, st: seq<Slicing>) {
    && |ts| == |st|
    && forall i :: 0 <= i < |st| ==> R(ts[i], st[i])
  }

  lemma MatchesPush(R: (Tree, Slicing) -> bool, ts: seq<Tree>, st: seq<Slicing>, t: Tree, sl: Slicing)
    requires Matches(R, ts, st) && R(t, sl)
    ensures Matches(R, ts + [t], st + [sl])
  {
  }

  lemma MatchesPop(R: (Tree, Slicing) -> bool, ts: seq<Tree>, st: seq<Slicing>, t: Tree)
    requires Matches(R, ts + [t], st)
    ensures |st| >= 1 && Matches(R, ts, st[..|st| - 1]) && R(t, st[|st| - 1])
  {
    var all := ts + [t];
    assert all[|ts|] == t;
    forall i | 0 <= i < |ts|
      ensures R(ts[i], st[..|st| - 1][i])
    {
      assert all[i] == ts[i];
    }
  }

  // ---------- the two things an element can do ----------

  method PushLeaf(shapes: seq<Shape>, stack: NodeStack, u: nat, ghost R: (Tree, Slicing) -> bool,
                  ghost st: seq<Slicing>)
    returns (ok: bool)
    requires stack.Valid() && Builds(R, shapes) && Matches(R, stack.cells[..stack.top], st) && u < |shapes|
    modifies stack`top, stack.cells
    ensures stack.Valid()
    ensures ok <==> |st| < MAX_STACK
    ensures ok ==> Matches(R, stack.cells[..stack.top], st + [Block(u)])
  {
    var leaf := Leaf(u, shapes[u]);
    MatchesPush(R, stack.cells[..stack.top], st, leaf, Block(u));
    ok := stack.Push(leaf);
  }

  /** A new inner node over two trees. */
  method JoinNodes(cut: int, left: Tree, right: Tree) returns (t: Tree)
    ensures t == Join(cut, left, right)
  {
    var curve := ShapeAdd.Add(left.curve, right.curve, cut);
    PairsNonEmpty(left.curve, right.curve, cut);
    t := Node(cut, left, right, curve);
  }

  /** Runs short exactly when fewer than two nodes are on the stack. */
  method JoinTopTwo(shapes: seq<Shape>, stack: NodeStack, cut: int, ghost R: (Tree, Slicing) -> bool,
                    ghost st: seq<Slicing>)
    returns (ok: bool)
    requires stack.Valid() && Builds(R, shapes) && Matches(R, stack.cells[..stack.top], st) && IsCut(cut)
    modifies stack`top, stack.cells
    ensures stack.Valid()
    ensures ok <==> |st| >= 2
    ensures ok ==> Step(st, cut).Some? && Matches(R, stack.cells[..stack.top], Step(st, cut).value)
  {
    var right := stack.Pop();
    if right.None? {
      return false;
    }
    ghost var st1 := st[..|st| - 1];
    MatchesPop(R, stack.cells[..stack.top], st, right.value);
    var left := stack.Pop();
    if left.None? {
      return false;
    }
    ghost var st2 := st1[..|st1| - 1];
    MatchesPop(R, stack.cells[..stack.top], st1, left.value);
    assert st2 == st[..|st| - 2];
    var node := JoinNodes(cut, left.value, right.value);
    MatchesPush(R, stack.cells[..stack.top], st2, node, Slice(cut, st[|st| - 2], st[|st| - 1]));
    ok := stack.Push(node);
  }

  // ---------- the whole expression ----------

  /** The stack stays within its MAX_STACK cells while the first k elements are read. */
  ghost predicate ShallowUpTo(s: seq<int>, k: nat)
    requires k <= |s|
  {
    forall i :: 0 <= i <= k ==> Depth(s, i) <= MAX_STACK
  }

  /** What After says of one more element of a valid expression. */
  lemma OneMore(s: seq<int>, n: nat, k: nat)
    requires IsNpe(s, n) && k < |s|
    ensures After([], s, k).Some? && |After([], s, k).value| == Depth(s, k)
    ensures s[k] < 0 ==> IsCut(s[k]) && Depth(s, k) >= 2
    ensures s[k] >= 0 ==> s[k] < n
    ensures After([], s, k + 1) == Step(After([], s, k).value, s[k])
    ensures Depth(s, k + 1) == if s[k] >= 0 then Depth(s, k) + 1 else Depth(s, k) - 1
  {
    StackSpellsPrefix(s, n, k);
    assert 2 * Cuts(s, k + 1) < k + 1;
  }

  /** Reads the elements one by one; the node made last ends up alone on the stack. */
  method ReadElements(shapes: seq<Shape>, stack: NodeStack, s: seq<int>, ghost R: (Tree, Slicing) -> bool)
    returns (failure: Option<BuildResult>)
    requires stack.Valid() && stack.top == 0 && IsNpe(s, |shapes|) && Builds(R, shapes)
    modifies stack`top, stack.cells
    ensures stack.Valid()
    ensures failure == if ShallowUpTo(s, |s|) then None else Some(StackOverflow)
    ensures failure.None? ==> After([], s, |s|).Some? && Matches(R, stack.cells[..stack.top], After([], s, |s|).value)
  {
    for i := 0 to |s|
      invariant stack.Valid() && ShallowUpTo(s, i)
      invariant After([], s, i).Some? && Matches(R, stack.cells[..stack.top], After([], s, i).value)
    {
      OneMore(s, |shapes|, i);
      ghost var st := After([], s, i).value;
      var ok;
      if s[i] >= 0 {
        ok := PushLeaf(shapes, stack, s[i], R, st);
        if !ok {
          assert Depth(s, i + 1) > MAX_STACK;
          return Some(StackOverflow);
        }
      } else {
        ok := JoinTopTwo(shapes, stack, s[i], R, st);
        if !ok {
          assert false;
          return Some(StackUnderflow);
        }
      }
    }
    failure := None;
  }

  /** The tree of a valid expression. It is built exactly when the stack given is empty and
      the expression never needs more than MAX_STACK cells; the stack never runs short. */
  method TreeFromNpe(shapes: seq<Shape>, stack: NodeStack, elements: seq<int>) returns (r: BuildResult)
    requires stack.Valid() && IsNpe(elements, |shapes|)
    modifies stack, stack.cells
    ensures stack.Valid()
    ensures r == StackNotEmpty <==> old(stack.top) != 0
    ensures r == StackOverflow <==> old(stack.top) == 0 && !ShallowUpTo(elements, |elements|)
    ensures r != StackUnderflow
    ensures r.Built? ==> stack.top == 0
    ensures r.Built? ==> exists sl: Slicing :: IsTreeOf(r.tree, sl, shapes) && Postorder(sl) == elements
  {
    if stack.top != 0 {
      return StackNotEmpty;
    }
    ghost var R := TreeRelation(shapes);
    TreeRelationBuilds(shapes);
    var failure := ReadElements(shapes, stack, elements, R);
    if failure.Some? {
      return failure.value;
    }
    ghost var sl := ExpressionHasSlicing(elements, |shapes|);
    assert R(stack.cells[..stack.top][0], [sl][0]);
    r := Built(stack.cells[0]);
    stack.top := 0;
    assert IsTreeOf(r.tree, sl, shapes) && Postorder(sl) == elements;
  }

  // ---------- when the stack is large enough ----------

  /** Up to MAX_STACK units every expression fits. */
  lemma FewUnitsFit(s: seq<int>, n: nat)
    requires IsNpe(s, n) && n <= MAX_STACK
    ensures ShallowUpTo(s, |s|)
  {
    forall i | 0 <= i <= |s|
      ensures Depth(s, i) <= MAX_STACK
    {
      UnitPositionsCount(s, i);
      UnitPositionsCount(s, |s|);
      CutsMonotone(s, i, |s|);
    }
  }

  /** The initial expression never has more than two trees on the stack. */
  lemma InitialIsShallow(n: nat)
    requires n >= 1
    ensures ShallowUpTo(Initial(n), |Initial(n)|)
  {
    var s := Initial(n);
    forall i | 0 <= i <= |s|
      ensures Depth(s, i) <= MAX_STACK
    {
      InitialCuts(n, i);
    }
  }

  /** All units first, then alternating cuts. */
  function Deep(n: nat): (s: seq<int>)
    requires n >= 1
    ensures |s| == 2 * n - 1
  {
    seq(2 * n - 1, i => if i < n then i else if (i - n) % 2 == 0 then CUT_VERTICAL else CUT_HORIZONTAL)
  }

  lemma {:induction false} DeepCuts(n: nat, k: nat)
    requires n >= 1 && k <= 2 * n - 1
    ensures Cuts(Deep(n), k) == if k <= n then 0 else k - n
  {
    if k > 0 {
      DeepCuts(n, k - 1);
    }
  }

  lemma {:induction false} CountOnce(s: seq<int>, u: int, at: nat)
    requires at < |s| && s[at] == u
    requires forall i :: 0 <= i < |s| && i != at ==> s[i] != u
    ensures multiset(s)[u] == 1
  {
    assert s == s[..at] + [u] + s[at + 1..];
    assert u !in s[..at] && u !in s[at + 1..];
  }

  lemma DeepNormalized(n: nat)
    requires n >= 1
    ensures Normalized(Deep(n)) && WellTyped(Deep(n), n)
  {
    var s := Deep(n);
    forall i | 0 <= i < |s| - 1 && s[i] < 0
      ensures s[i] != s[i + 1]
    {
      assert (i + 1 - n) % 2 != (i - n) % 2;
    }
  }

  /** With more than MAX_STACK units some valid expression overflows the stack. */
  lemma DeepOverflows(n: nat)
    requires n > MAX_STACK
    ensures IsNpe(Deep(n), n) && !ShallowUpTo(Deep(n), |Deep(n)|)
  {
    var s := Deep(n);
    DeepNormalized(n);
    forall k: nat | k <= |s|
      ensures Cuts(s, k) == if k <= n then 0 else k - n
    {
      DeepCuts(n, k);
    }
    forall u | 0 <= u < n
      ensures multiset(s)[u] == 1
    {
      CountOnce(s, u, u);
    }
    assert Depth(s, n) > MAX_STACK;
  }
}
