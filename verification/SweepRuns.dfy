/** A whole sweep: it leaves the field unchanged exactly when every node is balanced, and never
    takes a temperature below ambient. */
module SweepRuns {
  import opened GridNetwork
  import opened GridSweep
  import opened NearBalance
  import opened SweepTurns

  type Nodes = Node -> bool

  ghost predicate Same(g: Grid, t: Field, t': Field) {
    forall a :: IsNode(g, a) ==> t(a) == t'(a)
  }

  ghost predicate Heating(g: Grid, power: Field) {
    forall a :: IsNode(g, a) ==> power(a) >= 0.0
  }

  ghost predicate AllBalanced(g: Grid, net: Net, t: Field, power: Field, done: Nodes) {
    forall a :: IsNode(g, a) && done(a) ==> Balanced(g, net, t, power, a)
  }

  /** From t0 the done nodes have been relaxed, giving t; max is the largest change so far. */
  ghost predicate Progress(g: Grid, net: Net, power: Field, q: Gauge, t0: Field, t: Field, done: Nodes, max: real) {
    && max >= 0.0 && (max == 0.0 <==> Same(g, t0, t))
    && (forall a :: IsNode(g, a) && !done(a) ==> t(a) == t0(a))
    && (Same(g, t0, t) <==> AllBalanced(g, net, t0, power, done))
    && (AboveAmbient(g, t0) && Heating(g, power) ==> AboveAmbient(g, t))
    && Close(g, q, t, done, max) && InTurn(g, net, power, t0, t, done, max)
  }

  lemma {:induction false} SumWSame(g: Grid, t: Field, t': Field, ls: seq<Link>)
    requires SoundLinks(g, ls) && Same(g, t, t')
    ensures SumW(g, t, ls) == SumW(g, t', ls)
    decreases |ls|
  {
    if ls != [] {
      assert SoundLink(g, ls[|ls| - 1]);
      SumWSame(g, t, t', ls[..|ls| - 1]);
    }
  }

  lemma {:induction false} SameAfter(g: Grid, net: Net, power: Field, t0: Field, t: Field, done: Nodes, done': Nodes,
                                     a: Node, x: real)
    requires SoundNet(g, net) && IsNode(g, a) && !done(a) && OneMore(g, done, done', a)
    requires (forall b :: IsNode(g, b) && !done(b) ==> t(b) == t0(b)) && Relaxed(g, net, t, power, a, x)
    requires Same(g, t0, t) <==> AllBalanced(g, net, t0, power, done)
    ensures Same(g, t0, Set(t, a, x)) <==> Same(g, t0, t) && x == t(a)
    ensures Same(g, t0, Set(t, a, x)) <==> AllBalanced(g, net, t0, power, done')
  {
    var t' := Set(t, a, x);
    assert t'(a) == x && t(a) == t0(a);
    assert forall b :: IsNode(g, b) && b != a ==> t'(b) == t(b);
    if Same(g, t0, t) {
      SumWSame(g, t0, t, net(a));
      StillIffBalanced(g, t0, net(a), power(a), x, t0(a));
      assert AllBalanced(g, net, t0, power, done') <==> Balanced(g, net, t0, power, a);
    } else {
      var w :| IsNode(g, w) && t0(w) != t(w);
      assert w != a && t'(w) != t0(w);
      var u :| IsNode(g, u) && done(u) && !Balanced(g, net, t0, power, u);
      assert done'(u);
    }
  }

  /** Relaxing one more node keeps all of it. */
  lemma {:induction false} ProgressStep(g: Grid, net: Net, power: Field, q: Gauge, t0: Field, t: Field, done: Nodes,
                                        done': Nodes, max: real, a: Node, x: real)
    requires Gauges(q, g, net, power) && SoundNet(g, net) && Progress(g, net, power, q, t0, t, done, max)
    requires IsNode(g, a) && !done(a) && OneMore(g, done, done', a) && Relaxed(g, net, t, power, a, x)
    ensures Progress(g, net, power, q, t0, Set(t, a, x), done', Larger(max, Magnitude(t(a) - x)))
  {
    SameAfter(g, net, power, t0, t, done, done', a, x);
    if AboveAmbient(g, t0) && Heating(g, power) {
      StaysAboveAmbient(g, t, net(a), power(a), x);
    }
    CloseStep(g, net, power, q, t, Set(t, a, x), done, done', max, a, x - t(a), Larger(max, Magnitude(t(a) - x)));
    NextTurn(g, net, power, t0, t, done, done', max, a, x);
  }

  lemma {:induction false} ProgressStart(g: Grid, net: Net, power: Field, q: Gauge, t: Field, none: Nodes)
    requires forall a :: IsNode(g, a) ==> !none(a)
    ensures Progress(g, net, power, q, t, t, none, 0.0)
  {
    NoTurns(g, net, power, t, none);
  }

  lemma {:induction false} ProgressSame(g: Grid, net: Net, power: Field, q: Gauge, t0: Field, t: Field, done: Nodes,
                                        done': Nodes, max: real)
    requires Gauges(q, g, net, power) && SoundNet(g, net) && Progress(g, net, power, q, t0, t, done, max)
    requires forall a :: IsNode(g, a) ==> (done(a) <==> done'(a))
    ensures Progress(g, net, power, q, t0, t, done', max)
  {
    CloseSame(g, net, power, q, t, done, done', max);
    SameTurns(g, net, power, t0, t, done, done', max);
  }

  /** Every node has had its turn, which gives t; max is the largest change. */
  ghost predicate AllInTurn(g: Grid, net: Net, power: Field, t0: Field, t: Field, max: real) {
    exists u: Field :: InTurn(g, net, power, t0, u, All(), max) && Same(g, u, t)
  }

  lemma InTurnSame(g: Grid, net: Net, power: Field, t0: Field, t: Field, t': Field, max: real)
    requires AllInTurn(g, net, power, t0, t, max) && Same(g, t, t')
    ensures AllInTurn(g, net, power, t0, t', max)
  {
    var u: Field :| InTurn(g, net, power, t0, u, All(), max) && Same(g, u, t);
    assert Same(g, u, t');
  }

  /** What a whole sweep has done. It reports no change, and makes none, exactly when the field it finds
      is balanced. Reporting max, it leaves no node out of balance by more than max times its
      conductance. */
  ghost predicate Swept(g: Grid, net: Net, power: Field, t0: Field, t: Field, max: real) {
    && max >= 0.0 && (max == 0.0 <==> Same(g, t0, t))
    && (Same(g, t0, t) <==> AllBalanced(g, net, t0, power, All()))
    && (AboveAmbient(g, t0) && Heating(g, power) ==> AboveAmbient(g, t))
    && Within(g, net, t, power, max) && AllInTurn(g, net, power, t0, t, max)
  }

  // ---------- progress, by name only ----------

  /** How far a sweep is: the field, the nodes done and the largest change. */
  type Stage = (Field, Nodes, real) -> bool

  ghost predicate KeptByStep(g: Grid, step: Step, so: Stage, t: Field, done: Nodes, done': Nodes, max: real, a: Node,
                             x: real)
  {
    so(t, done, max) && IsNode(g, a) && !done(a) && OneMore(g, done, done', a) && step(t, a, x)
    ==> so(Set(t, a, x), done', Larger(max, Magnitude(t(a) - x)))
  }

  ghost predicate SameNodes(g: Grid, done: Nodes, done': Nodes) {
    forall a :: IsNode(g, a) ==> (done(a) <==> done'(a))
  }

  ghost predicate KeptBySame(g: Grid, so: Stage, t: Field, done: Nodes, done': Nodes, max: real) {
    so(t, done, max) && SameNodes(g, done, done') ==> so(t, done', max)
  }

  ghost predicate Carries(g: Grid, step: Step, so: Stage) {
    && (forall t: Field, done: Nodes, done': Nodes, max, a, x :: KeptByStep(g, step, so, t, done, done', max, a, x))
    && (forall t: Field, done: Nodes, done': Nodes, max :: KeptBySame(g, so, t, done, done', max))
  }

  ghost predicate EndsAs(g: Grid, net: Net, power: Field, t0: Field, so: Stage) {
    forall t: Field, max {:trigger Swept(g, net, power, t0, t, max)} ::
      so(t, All(), max) ==> Swept(g, net, power, t0, t, max)
  }

  ghost function StageOf(g: Grid, net: Net, power: Field, q: Gauge, t0: Field): Stage {
    (t: Field, done: Nodes, max: real) => Progress(g, net, power, q, t0, t, done, max)
  }

  lemma {:induction false} StageCarries(g: Grid, net: Net, power: Field, step: Step, q: Gauge, t0: Field, so: Stage)
    requires Gauges(q, g, net, power) && Relaxes(g, net, power, step) && so == StageOf(g, net, power, q, t0)
    ensures Carries(g, step, so)
  {
    forall t: Field, done: Nodes, done': Nodes, max, a, x
      ensures KeptByStep(g, step, so, t, done, done', max, a, x)
    {
      if so(t, done, max) && IsNode(g, a) && !done(a) && OneMore(g, done, done', a) && step(t, a, x) {
        ProgressStep(g, net, power, q, t0, t, done, done', max, a, x);
      }
    }
    forall t: Field, done: Nodes, done': Nodes, max
      ensures KeptBySame(g, so, t, done, done', max)
    {
      if so(t, done, max) && SameNodes(g, done, done') {
        ProgressSame(g, net, power, q, t0, t, done, done', max);
      }
    }
  }

  lemma {:induction false} StageEnds(g: Grid, net: Net, power: Field, q: Gauge, t0: Field, so: Stage)
    requires Gauges(q, g, net, power) && SoundNet(g, net) && so == StageOf(g, net, power, q, t0)
    ensures EndsAs(g, net, power, t0, so)
  {
    forall t: Field, max | so(t, All(), max)
      ensures Swept(g, net, power, t0, t, max)
    {
      CloseIsWithin(g, net, power, q, t, All(), max);
      assert InTurn(g, net, power, t0, t, All(), max) && Same(g, t, t);
    }
  }

  lemma {:induction false} BeginStage(g: Grid, net: Net, power: Field, step: Step, t0: Field) returns (so: Stage)
    requires Relaxes(g, net, power, step)
    ensures Carries(g, step, so) && EndsAs(g, net, power, t0, so) && so(t0, CellsBefore(0, 0, 0), 0.0)
  {
    var q := GaugeOf(g, net, power);
    so := StageOf(g, net, power, q, t0);
    StageCarries(g, net, power, step, q, t0, so);
    StageEnds(g, net, power, q, t0, so);
    ProgressStart(g, net, power, q, t0, CellsBefore(0, 0, 0));
  }

  // ---------- one node on the arrays ----------

  /** x is what relaxing node a of the grid gives. */
  ghost predicate NewValue(g: Grid, power: Field, t: Field, a: Node, x: real) {
    && Sound(g) && IsNode(g, a)
    && Balances(g, t, LinksOf(g, a), power(a), x)
  }

  /** Relaxing, by name only: from a field, a node and its new value. */
  type Step = (Field, Node, real) -> bool

  ghost predicate Computes(g: Grid, power: Field, step: Step) {
    forall t: Field, a, x {:trigger NewValue(g, power, t, a, x)} :: NewValue(g, power, t, a, x) ==> step(t, a, x)
  }

  ghost predicate Relaxes(g: Grid, net: Net, power: Field, step: Step) {
    SoundNet(g, net) && forall t: Field, a, x :: step(t, a, x) ==> Relaxed(g, net, t, power, a, x)
  }

  ghost function StepOf(g: Grid, power: Field): Step {
    (t: Field, a: Node, x: real) => NewValue(g, power, t, a, x)
  }

  lemma StepOfGrid(g: Grid, power: Field)
    requires Sound(g)
    ensures Computes(g, power, StepOf(g, power)) && Relaxes(g, NetOf(g), power, StepOf(g, power))
  {
    NetOfSound(g);
    var step := StepOf(g, power);
    forall t: Field, a, x | step(t, a, x)
      ensures Relaxed(g, NetOf(g), t, power, a, x)
    {
      NewValueRelaxes(g, power, t, a, x);
    }
  }

  lemma NewValueRelaxes(g: Grid, power: Field, t: Field, a: Node, x: real)
    requires NewValue(g, power, t, a, x)
    ensures Relaxed(g, NetOf(g), t, power, a, x)
  {
    assert NetOf(g)(a) == LinksOf(g, a);
  }

  ghost predicate Separate(v: Values, p: Values) {
    v.cuboid != p.cuboid && v.extra != p.extra
  }

  method CellValue(g: Grid, v: Values, p: Values, n: nat, i: nat, j: nat, ghost t: Field, ghost power: Field,
                   ghost step: Step)
    returns (x: real)
    requires Sound(g) && IsNode(g, Cell(n, i, j)) && Shows(v, g, t) && Shows(p, g, power) && Computes(g, power, step)
    ensures step(t, Cell(n, i, j), x)
  {
    var c, w := AddCell(g, v, n, i, j, t);
    x := Settle(g, t, Cell(n, i, j), p.cuboid[n, i, j], c, w, power, step);
  }

  lemma PositiveSum(g: Grid, a: Node, c: real)
    requires Sound(g) && IsNode(g, a) && c == SumG(LinksOf(g, a))
    ensures c > 0.0
  {
    LinksSound(g, a);
    ConductancePositive(g, LinksOf(g, a));
  }

  lemma Quotient(y: real, d: real)
    requires d > 0.0
    ensures (y / d) * d == y
  {
  }

  /** The value that balances the sums over a node's links. */
  method Settle(ghost g: Grid, ghost t: Field, ghost a: Node, pw: real, c: real, w: real, ghost power: Field,
                ghost step: Step)
    returns (x: real)
    requires Sound(g) && IsNode(g, a) && Sum(g, t, LinksOf(g, a), c, w) && pw == power(a) && Computes(g, power, step)
    ensures step(t, a, x)
  {
    PositiveSum(g, a, c);
    x := Divide(g, t, LinksOf(g, a), pw, c, w);
    assert NewValue(g, power, t, a, x);
  }

  method Divide(ghost g: Grid, ghost t: Field, ghost ls: seq<Link>, pw: real, c: real, w: real) returns (x: real)
    requires c > 0.0 && Sum(g, t, ls, c, w)
    ensures Balances(g, t, ls, pw, x)
  {
    x := (pw + w) / c;
    Quotient(pw + w, c);
  }

  method UpdateCell(g: Grid, v: Values, p: Values, n: nat, i: nat, j: nat, ghost t: Field, ghost power: Field,
                    ghost step: Step)
    returns (x: real)
    requires Sound(g) && IsNode(g, Cell(n, i, j)) && Shows(v, g, t) && Shows(p, g, power) && Separate(v, p)
    requires Computes(g, power, step)
    modifies v.cuboid
    ensures step(t, Cell(n, i, j), x) && Shows(v, g, Set(t, Cell(n, i, j), x)) && Shows(p, g, power)
  {
    x := CellValue(g, v, p, n, i, j, t, power, step);
    v.cuboid[n, i, j] := x;
  }

  /** Package nodes have no power of their own. */
  ghost predicate PackagePassive(power: Field) {
    forall k :: 0 <= k < EXTRA ==> power(Extra(k)) == 0.0
  }

  method UpdateExtra(g: Grid, v: Values, p: Values, k: nat, ghost t: Field, ghost power: Field, ghost step: Step)
    returns (x: real)
    requires Sound(g) && k < EXTRA && Shows(v, g, t) && Shows(p, g, power) && Separate(v, p) && PackagePassive(power)
    requires Computes(g, power, step)
    modifies v.extra
    ensures step(t, Extra(k), x) && Shows(v, g, Set(t, Extra(k), x)) && Shows(p, g, power)
  {
    var c, w := AddExtra(g, v, k, t);
    x := Settle(g, t, Extra(k), 0.0, c, w, power, step);
    v.extra[k] := x;
  }

  // ---------- all nodes in order ----------

  /** Cells before (n, i, j) in the order of the sweep. */
  ghost function CellsBefore(n: nat, i: nat, j: nat): Nodes {
    (a: Node) => a.Cell? && (a.n < n || (a.n == n && (a.i < i || (a.i == i && a.j < j))))
  }

  /** Package nodes are swept outer sink, inner sink, spreader, each north, south, west, east. */
  function Turn(k: nat): nat {
    var side := k % 4;
    (if k >= SINK then 0 else if k >= SINK_C then 4 else 8)
    + (if side == NORTH then 0 else if side == SOUTH then 1 else if side == WEST then 2 else 3)
  }

  function AtTurn(m: nat): nat {
    var side := if m % 4 == 0 then NORTH else if m % 4 == 1 then SOUTH else if m % 4 == 2 then WEST else EAST;
    (if m < 4 then SINK else if m < 8 then SINK_C else SP) + side
  }

  /** All cells and the first m package nodes. */
  ghost function ExtrasBefore(m: nat): Nodes {
    (a: Node) => a.Cell? || Turn(a.k) < m
  }

  ghost function All(): Nodes {
    (a: Node) => true
  }

  lemma NextCell(g: Grid, n: nat, i: nat, j: nat)
    ensures OneMore(g, CellsBefore(n, i, j), CellsBefore(n, i, j + 1), Cell(n, i, j))
    ensures !CellsBefore(n, i, j)(Cell(n, i, j))
  {
  }

  /** The same nodes by another description. */
  lemma Renamed(g: Grid, step: Step, so: Stage, t: Field, done: Nodes, done': Nodes, max: real)
    requires Carries(g, step, so) && so(t, done, max) && SameNodes(g, done, done')
    ensures so(t, done', max)
  {
    assert KeptBySame(g, so, t, done, done', max);
  }

  lemma NextRow(g: Grid, n: nat, i: nat)
    ensures SameNodes(g, CellsBefore(n, i, g.cols), CellsBefore(n, i + 1, 0))
  {
  }

  lemma NextLayer(g: Grid, n: nat)
    ensures SameNodes(g, CellsBefore(n, g.rows, 0), CellsBefore(n + 1, 0, 0))
  {
  }

  lemma CellsDone(g: Grid)
    ensures SameNodes(g, CellsBefore(|g.layers|, 0, 0), ExtrasBefore(0))
  {
  }

  lemma NextExtra(g: Grid, m: nat)
    requires m < EXTRA
    ensures AtTurn(m) < EXTRA && OneMore(g, ExtrasBefore(m), ExtrasBefore(m + 1), Extra(AtTurn(m)))
    ensures !ExtrasBefore(m)(Extra(AtTurn(m)))
  {
  }

  lemma SweepDone(g: Grid)
    ensures SameNodes(g, ExtrasBefore(EXTRA), All())
  {
  }

  /** What a sweep works on and how far it is. */
  ghost predicate Sweeping(g: Grid, v: Values, p: Values, power: Field, so: Stage, t: Field, done: Nodes, max: real)
    reads v.cuboid, v.extra, p.cuboid, p.extra
  {
    && Shows(v, g, t) && Shows(p, g, power) && Separate(v, p)
    && so(t, done, max)
  }

  ghost predicate Stepping(g: Grid, power: Field, step: Step, so: Stage) {
    Sound(g) && Computes(g, power, step) && Carries(g, step, so)
  }

  method SweepCell(g: Grid, v: Values, p: Values, n: nat, i: nat, j: nat, max: real,
                   ghost power: Field, ghost step: Step, ghost so: Stage, ghost t: Field)
    returns (max': real, ghost t': Field)
    requires Stepping(g, power, step, so) && IsNode(g, Cell(n, i, j))
    requires Sweeping(g, v, p, power, so, t, CellsBefore(n, i, j), max)
    modifies v.cuboid
    ensures Sweeping(g, v, p, power, so, t', CellsBefore(n, i, j + 1), max')
  {
    var prev := v.cuboid[n, i, j];
    var x := UpdateCell(g, v, p, n, i, j, t, power, step);
    t' := Set(t, Cell(n, i, j), x);
    max' := Larger(max, Magnitude(prev - x));
    NextCell(g, n, i, j);
    assert KeptByStep(g, step, so, t, CellsBefore(n, i, j), CellsBefore(n, i, j + 1), max, Cell(n, i, j), x);
  }

  method SweepRow(g: Grid, v: Values, p: Values, n: nat, i: nat, max: real,
                  ghost power: Field, ghost step: Step, ghost so: Stage, ghost t: Field)
    returns (max': real, ghost t': Field)
    requires Stepping(g, power, step, so) && n < |g.layers| && i < g.rows
    requires Sweeping(g, v, p, power, so, t, CellsBefore(n, i, 0), max)
    modifies v.cuboid
    ensures Sweeping(g, v, p, power, so, t', CellsBefore(n, i + 1, 0), max')
  {
    max', t' := max, t;
    for j := 0 to g.cols
      invariant Sweeping(g, v, p, power, so, t', CellsBefore(n, i, j), max')
    {
      max', t' := SweepCell(g, v, p, n, i, j, max', power, step, so, t');
    }
    NextRow(g, n, i);
    Renamed(g, step, so, t', CellsBefore(n, i, g.cols), CellsBefore(n, i + 1, 0), max');
  }

  method SweepCells(g: Grid, v: Values, p: Values, ghost power: Field, ghost step: Step, ghost so: Stage,
                    ghost t0: Field)
    returns (max: real, ghost t: Field)
    requires Stepping(g, power, step, so) && Sweeping(g, v, p, power, so, t0, CellsBefore(0, 0, 0), 0.0)
    modifies v.cuboid
    ensures Sweeping(g, v, p, power, so, t, ExtrasBefore(0), max)
  {
    max, t := 0.0, t0;
    for n := 0 to |g.layers|
      invariant Sweeping(g, v, p, power, so, t, CellsBefore(n, 0, 0), max)
    {
      for i := 0 to g.rows
        invariant Sweeping(g, v, p, power, so, t, CellsBefore(n, i, 0), max)
      {
        max, t := SweepRow(g, v, p, n, i, max, power, step, so, t);
      }
      NextLayer(g, n);
      Renamed(g, step, so, t, CellsBefore(n, g.rows, 0), CellsBefore(n + 1, 0, 0), max);
    }
    CellsDone(g);
    Renamed(g, step, so, t, CellsBefore(|g.layers|, 0, 0), ExtrasBefore(0), max);
  }

  method SweepExtra(g: Grid, v: Values, p: Values, m: nat, max: real,
                    ghost power: Field, ghost step: Step, ghost so: Stage, ghost t: Field)
    returns (max': real, ghost t': Field)
    requires Stepping(g, power, step, so) && m < EXTRA && PackagePassive(power)
    requires Sweeping(g, v, p, power, so, t, ExtrasBefore(m), max)
    modifies v.extra
    ensures Sweeping(g, v, p, power, so, t', ExtrasBefore(m + 1), max')
  {
    NextExtra(g, m);
    var k := AtTurn(m);
    var prev := v.extra[k];
    var x := UpdateExtra(g, v, p, k, t, power, step);
    t' := Set(t, Extra(k), x);
    max' := Larger(max, Magnitude(prev - x));
    assert KeptByStep(g, step, so, t, ExtrasBefore(m), ExtrasBefore(m + 1), max, Extra(k), x);
  }

  /** One sweep: all cells, then all package nodes. The largest change it reports is 0, and the
      field is what it was, exactly when every node is balanced; and however large it is, no node is
      left out of balance by more than that times its conductance. */
  method Sweep(g: Grid, v: Values, p: Values, ghost net: Net, ghost power: Field, ghost step: Step, ghost t0: Field)
    returns (max: real, ghost t: Field)
    requires Sound(g) && Computes(g, power, step) && Relaxes(g, net, power, step)
    requires PackagePassive(power) && Shows(v, g, t0) && Shows(p, g, power) && Separate(v, p)
    modifies v.cuboid, v.extra
    ensures Shows(v, g, t) && Shows(p, g, power) && Swept(g, net, power, t0, t, max)
  {
    ghost var so := BeginStage(g, net, power, step, t0);
    max, t := SweepNodes(g, v, p, power, step, so, t0);
    assert Swept(g, net, power, t0, t, max);
  }

  method SweepNodes(g: Grid, v: Values, p: Values, ghost power: Field, ghost step: Step, ghost so: Stage,
                    ghost t0: Field)
    returns (max: real, ghost t: Field)
    requires Stepping(g, power, step, so) && Sweeping(g, v, p, power, so, t0, CellsBefore(0, 0, 0), 0.0)
    requires PackagePassive(power)
    modifies v.cuboid, v.extra
    ensures Shows(v, g, t) && Shows(p, g, power) && so(t, All(), max)
  {
    max, t := SweepCells(g, v, p, power, step, so, t0);
    for m := 0 to EXTRA
      invariant Sweeping(g, v, p, power, so, t, ExtrasBefore(m), max)
    {
      max, t := SweepExtra(g, v, p, m, max, power, step, so, t);
    }
    SweepDone(g);
    Renamed(g, step, so, t, ExtrasBefore(EXTRA), All(), max);
  }
}
