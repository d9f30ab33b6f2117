/** The sweep, the transient slope and the matrix with its right-hand side state the same balance
    of heat. */
module GridAgreement {
  import opened GridNetwork
  import opened GridSweep
  import opened SweepRuns
  import opened NearBalance
  import opened GridSlope
  import opened GridMatrix
  import opened GridBuilder
  import opened GridSystem
  import opened GridCounts
  import opened GridTotals

  // ---------- the matrix ----------

  /** coo holds the row of every node and nothing else. */
  ghost predicate IsMatrix(g: Grid, coo: seq<Entry>) {
    && (forall a :: IsNode(g, a) ==> IsRow(g, a, RowOf(coo, a)))
    && (forall i :: 0 <= i < |coo| ==> IsNode(g, coo[i].row))
  }

  /** ok tells whether the entries built are as many as were allocated: they always are. */
  method BuildMatrix(g: Grid) returns (ok: bool, coo: seq<Entry>)
    requires Sound(g) && g.rows >= 2 && g.cols >= 2
    ensures ok && |coo| == Allocated(|g.layers|, g.rows, g.cols) && DistinctPlaces(coo) && IsMatrix(g, coo)
  {
    RowsOfGrid(g);
    coo := BuildRows(g, RowsOf(g), LengthOf(g));
    CountIsAllocated(g);
    ok := |coo| == Allocated(|g.layers|, g.rows, g.cols);
    MatrixBuilt(g, coo);
  }

  lemma MatrixBuilt(g: Grid, coo: seq<Entry>)
    requires Built(g, RowsOf(g), coo, All())
    ensures IsMatrix(g, coo)
  {
    forall a | IsNode(g, a)
      ensures IsRow(g, a, RowOf(coo, a))
    {
      assert All()(a) && RowsOf(g)(a, RowOf(coo, a));
    }
  }

  // ---------- the right-hand side ----------

  lemma {:induction false} AmbientConcat(g: Grid, a: seq<Link>, b: seq<Link>)
    ensures SumAmbient(g, a + b) == SumAmbient(g, a) + SumAmbient(g, b)
    decreases |b|
  {
    if b == [] {
      assert a + b == a;
    } else {
      AmbientConcat(g, a, b[..|b| - 1]);
      assert (a + b)[..|a + b| - 1] == a + b[..|b| - 1];
    }
  }

  lemma {:induction false} NoAmbient(g: Grid, ls: seq<Link>)
    requires forall i :: 0 <= i < |ls| ==> ls[i].src.From?
    ensures SumAmbient(g, ls) == 0.0
    decreases |ls|
  {
    if ls != [] {
      NoAmbient(g, ls[..|ls| - 1]);
    }
  }

  lemma OneAmbient(g: Grid, ls: seq<Link>, c: real)
    requires forall i :: 0 <= i < |ls| ==> ls[i].src.From?
    ensures SumAmbient(g, ls + [Link(Ambient, c)]) == c * g.ambient
  {
    NoAmbient(g, ls);
    AmbientConcat(g, ls, [Link(Ambient, c)]);
    Single(g, Link(Ambient, c));
  }

  lemma Single(g: Grid, l: Link)
    requires l.src.Ambient?
    ensures SumAmbient(g, [l]) == l.c * g.ambient
  {
    assert [l][..0] == [];
  }

  lemma CellAmbient(g: Grid, n: nat, i: nat, j: nat)
    requires Sound(g) && IsNode(g, Cell(n, i, j)) && g.rows >= 2 && g.cols >= 2
    ensures SumAmbient(g, CellOrder(g, n, i, j)) == if n == |g.layers| - 1 then Per(g.layers[n].rz) * g.ambient else 0.0
  {
    var cells := LateralOrder(g, n, i, j) + LinkBelow(g, n, i, j) + LinkAbove(g, n, i, j);
    CellsFrom(g, n, i, j);
    NoAmbient(g, cells);
    AmbientConcat(g, cells, MoreOrder(g, n, i, j));
    MoreAmbient(g, n, i, j);
  }

  lemma CellsFrom(g: Grid, n: nat, i: nat, j: nat)
    requires n < |g.layers| && i < g.rows && j < g.cols && g.rows >= 2 && g.cols >= 2
    ensures var ls := LateralOrder(g, n, i, j) + LinkBelow(g, n, i, j) + LinkAbove(g, n, i, j);
            forall k :: 0 <= k < |ls| ==> ls[k].src.From?
  {
    LateralSize(g, n, i, j);
  }

  lemma BorderFrom(g: Grid, sink: bool, i: nat, j: nat)
    requires Sound(g)
    ensures forall k :: 0 <= k < |BorderOrder(g, sink, i, j)| ==> BorderOrder(g, sink, i, j)[k].src.From?
  {
  }

  lemma MoreAmbient(g: Grid, n: nat, i: nat, j: nat)
    requires Sound(g) && n < |g.layers|
    ensures SumAmbient(g, MoreOrder(g, n, i, j)) == if n == |g.layers| - 1 then Per(g.layers[n].rz) * g.ambient else 0.0
  {
    if n == |g.layers| - 2 {
      BorderFrom(g, false, i, j);
      NoAmbient(g, BorderOrder(g, false, i, j));
    } else if n == |g.layers| - 1 {
      BorderFrom(g, true, i, j);
      OneAmbient(g, BorderOrder(g, true, i, j), Per(g.layers[n].rz));
    }
  }

  lemma ExtraAmbient(g: Grid, k: nat)
    requires Sound(g) && k < EXTRA
    ensures SumAmbient(g, ExtraOrder(g, k))
            == if k < SINK_C then 0.0
              else Per(if k < SINK then AxisOf(g, k - SINK_C).rInnerAmb else g.pack.rOuterAmb) * g.ambient
  {
    if k < SINK_C {
      SideLinksAt(g, |g.layers| - 2, k, BorderC(g, false, k), SideLength(g, k));
      NoAmbient(g, ExtraOrder(g, k));
    } else if k < SINK {
      InnerAmbient(g, k);
    } else {
      var l := Link(From(Extra(k - 4)), Per(SinkLink(g, k - SINK)));
      assert ExtraOrder(g, k) == [l] + [Link(Ambient, Per(g.pack.rOuterAmb))];
      OneAmbient(g, [l], Per(g.pack.rOuterAmb));
    }
  }

  lemma InnerAmbient(g: Grid, k: nat)
    requires Sound(g) && SINK_C <= k < SINK
    ensures SumAmbient(g, ExtraOrder(g, k)) == Per(AxisOf(g, k - SINK_C).rInnerAmb) * g.ambient
  {
    var side := k - SINK_C;
    SideLinksAt(g, |g.layers| - 1, side, BorderC(g, true, side), SideLength(g, side));
    ThreeAmbient(g, AllAlong(g, true, side), Link(From(Extra(k - 4)), Per(AxisOf(g, side).rSpPer)),
                 Link(From(Extra(k + 4)), Per(SinkLink(g, side))), Per(AxisOf(g, side).rInnerAmb));
  }

  lemma ThreeAmbient(g: Grid, ls: seq<Link>, l: Link, m: Link, c: real)
    requires (forall i :: 0 <= i < |ls| ==> ls[i].src.From?) && l.src.From? && m.src.From?
    ensures SumAmbient(g, ls + [l, m, Link(Ambient, c)]) == c * g.ambient
  {
    OneAmbient(g, ls + [l, m], c);
    assert ls + [l, m] + [Link(Ambient, c)] == ls + [l, m, Link(Ambient, c)];
  }

  /** x is the right-hand side at node a. */
  ghost predicate IsRhs(g: Grid, power: Field, a: Node, x: real) {
    && Sound(g) && IsNode(g, a)
    && x == power(a) + SumAmbient(g, OrderOf(g, a))
  }

  ghost predicate Stated(g: Grid, power: Field, rule: Rule) {
    forall a, x {:trigger IsRhs(g, power, a, x)} :: IsRhs(g, power, a, x) ==> rule(a, x)
  }

  method CellRhs(g: Grid, p: Values, n: nat, i: nat, j: nat, ghost power: Field, ghost rule: Rule) returns (x: real)
    requires Sound(g) && Shows(p, g, power) && IsNode(g, Cell(n, i, j)) && g.rows >= 2 && g.cols >= 2
    requires Stated(g, power, rule)
    ensures rule(Cell(n, i, j), x)
  {
    if n == |g.layers| - 1 {
      assert SoundLayer(g.layers[n]);
      x := g.ambient / g.layers[n].rz + p.cuboid[n, i, j];
    } else {
      x := p.cuboid[n, i, j];
    }
    CellRhsIs(g, n, i, j, power, x);
  }

  lemma CellRhsIs(g: Grid, n: nat, i: nat, j: nat, power: Field, x: real)
    requires Sound(g) && IsNode(g, Cell(n, i, j)) && g.rows >= 2 && g.cols >= 2 && g.layers[n].rz > 0.0
    requires x == if n == |g.layers| - 1 then g.ambient / g.layers[n].rz + power(Cell(n, i, j))
             else power(Cell(n, i, j))
    ensures IsRhs(g, power, Cell(n, i, j), x)
  {
    var s := CellShare(g, n, i, j);
    assert s == SumAmbient(g, OrderOf(g, Cell(n, i, j)));
  }

  /** What ambient contributes to a cell, as a quotient. */
  lemma CellShare(g: Grid, n: nat, i: nat, j: nat) returns (s: real)
    requires Sound(g) && IsNode(g, Cell(n, i, j)) && g.rows >= 2 && g.cols >= 2 && g.layers[n].rz > 0.0
    ensures s == SumAmbient(g, OrderOf(g, Cell(n, i, j))) && s == if n == |g.layers| - 1 then g.ambient / g.layers[n].rz
            else 0.0
  {
    s := AmbientOver(n == |g.layers| - 1, g.ambient, g.layers[n].rz);
    CellAmbient(g, n, i, j);
  }

  lemma AmbientOver(last: bool, ambient: real, r: real) returns (s: real)
    requires r > 0.0
    ensures s == (if last then ambient / r else 0.0) && s == if last then Per(r) * ambient else 0.0
  {
    s := if last then ambient / r else 0.0;
    OverIsTimes(ambient, r);
  }

  method ExtraRhs(g: Grid, k: nat, ghost power: Field, ghost rule: Rule) returns (x: real)
    requires Sound(g) && k < EXTRA && PackagePassive(power) && Stated(g, power, rule)
    ensures rule(Extra(k), x)
  {
    ExtraAmbient(g, k);
    x := 0.0;
    if k >= SINK_C {
      var r := if k >= SINK then g.pack.rOuterAmb
               else if k == SINK_C + NORTH || k == SINK_C + SOUTH then g.pack.y.rInnerAmb else g.pack.x.rInnerAmb;
      OverIsTimes(g.ambient, r);
      x := g.ambient / r;
    }
    assert IsRhs(g, power, Extra(k), x);
  }

  method FillRhsRow(g: Grid, p: Values, rhs: Values, n: nat, i: nat, ghost power: Field, ghost rule: Rule)
    requires Sound(g) && Shows(p, g, power) && Fits(rhs, g) && Separate(rhs, p) && g.rows >= 2 && g.cols >= 2
    requires n < |g.layers| && i < g.rows && Stated(g, power, rule) && CellsFollow(rhs, g, rule, n, i, 0)
    modifies rhs.cuboid
    ensures CellsFollow(rhs, g, rule, n, i + 1, 0)
  {
    for j := 0 to g.cols
      invariant Shows(p, g, power) && CellsFollow(rhs, g, rule, n, i, j)
    {
      var x := CellRhs(g, p, n, i, j, power, rule);
      rhs.cuboid[n, i, j] := x;
    }
  }

  /** The right-hand side at every node. */
  method FillRhs(g: Grid, p: Values, rhs: Values, ghost power: Field, ghost rule: Rule)
    requires Sound(g) && Shows(p, g, power) && Fits(rhs, g) && Separate(rhs, p) && g.rows >= 2 && g.cols >= 2
    requires PackagePassive(power) && Stated(g, power, rule)
    modifies rhs.cuboid, rhs.extra
    ensures CellsFollow(rhs, g, rule, |g.layers|, 0, 0) && ExtrasFollow(rhs, g, rule, EXTRA)
  {
    for n := 0 to |g.layers|
      invariant Shows(p, g, power) && CellsFollow(rhs, g, rule, n, 0, 0)
    {
      for i := 0 to g.rows
        invariant Shows(p, g, power) && CellsFollow(rhs, g, rule, n, i, 0)
      {
        FillRhsRow(g, p, rhs, n, i, power, rule);
      }
    }
    for k := 0 to EXTRA
      invariant CellsFollow(rhs, g, rule, |g.layers|, 0, 0) && ExtrasFollow(rhs, g, rule, k)
    {
      var x := ExtraRhs(g, k, power, rule);
      rhs.extra[k] := x;
    }
  }

  // ---------- the forms agree ----------

  /** The field solves the equations of the matrix with that right-hand side. */
  ghost predicate Solves(g: Grid, coo: seq<Entry>, rhs: Field, t: Field) {
    forall a :: IsNode(g, a) ==> Dot(RowOf(coo, a), t) == rhs(a)
  }

  /** A field solves the matrix exactly when every node is balanced. */
  lemma SolvesIffBalanced(g: Grid, coo: seq<Entry>, rhs: Field, t: Field, power: Field)
    requires Sound(g) && g.rows >= 2 && g.cols >= 2 && IsMatrix(g, coo)
    requires forall a :: IsNode(g, a) ==> IsRhs(g, power, a, rhs(a))
    ensures Solves(g, coo, rhs, t) <==> AllBalanced(g, NetOf(g), t, power, All())
  {
    forall a | IsNode(g, a)
      ensures Dot(RowOf(coo, a), t) == rhs(a) <==> Balanced(g, NetOf(g), t, power, a)
    {
      RowSolves(g, coo, rhs, t, power, a);
    }
    NodeByNode(g, coo, rhs, t, a => Balanced(g, NetOf(g), t, power, a));
  }

  lemma RowSolves(g: Grid, coo: seq<Entry>, rhs: Field, t: Field, power: Field, a: Node)
    requires Sound(g) && g.rows >= 2 && g.cols >= 2 && IsNode(g, a) && IsRow(g, a, RowOf(coo, a))
    requires IsRhs(g, power, a, rhs(a))
    ensures Dot(RowOf(coo, a), t) == rhs(a) <==> Balanced(g, NetOf(g), t, power, a)
  {
    MatrixRowBalanced(g, t, power, a);
  }

  lemma {:induction false} NodeByNode(g: Grid, coo: seq<Entry>, rhs: Field, t: Field, balanced: Nodes)
    requires forall a :: IsNode(g, a) ==> (Dot(RowOf(coo, a), t) == rhs(a) <==> balanced(a))
    ensures Solves(g, coo, rhs, t) <==> forall a :: IsNode(g, a) ==> balanced(a)
  {
    if Solves(g, coo, rhs, t) {
      forall a | IsNode(g, a)
        ensures balanced(a)
      {
        assert Dot(RowOf(coo, a), t) == rhs(a);
      }
    }
  }

  /** The slope is zero everywhere exactly when every node is balanced. */
  lemma StillIffAllBalanced(g: Grid, slope: Field, t: Field, power: Field)
    requires Sound(g) && forall a :: IsNode(g, a) ==> IsSlope(g, t, power, a, slope(a))
    ensures (forall a :: IsNode(g, a) ==> slope(a) == 0.0) <==> AllBalanced(g, NetOf(g), t, power, All())
  {
    forall a | IsNode(g, a)
      ensures slope(a) == 0.0 <==> Balanced(g, NetOf(g), t, power, a)
    {
      ZeroSlopeIffBalanced(g, t, power, a, slope(a));
    }
    SlopeByNode(g, slope, a => Balanced(g, NetOf(g), t, power, a));
  }

  lemma {:induction false} SlopeByNode(g: Grid, slope: Field, balanced: Nodes)
    requires forall a :: IsNode(g, a) ==> (slope(a) == 0.0 <==> balanced(a))
    ensures (forall a :: IsNode(g, a) ==> slope(a) == 0.0) <==> forall a :: IsNode(g, a) ==> balanced(a)
  {
  }

  // ---------- on the arrays ----------

  /** The field that v holds. */
  ghost function Held(g: Grid, v: Values): Field
    requires Fits(v, g)
    reads v.cuboid, v.extra
  {
    var cuboid, extra := v.cuboid, v.extra;
    var cells := seq(|g.layers|, n requires 0 <= n < |g.layers| reads cuboid =>
                     seq(g.rows, i requires 0 <= i < g.rows reads cuboid =>
                         seq(g.cols, j requires 0 <= j < g.cols reads cuboid => cuboid[n, i, j])));
    var extras := extra[..];
    (a: Node) => if !IsNode(g, a) then 0.0 else if a.Cell? then cells[a.n][a.i][a.j] else extras[a.k]
  }

  lemma HeldShows(g: Grid, v: Values)
    requires Fits(v, g)
    ensures Shows(v, g, Held(g, v))
  {
  }

  lemma ShowsHeld(g: Grid, v: Values, t: Field)
    requires Shows(v, g, t)
    ensures Same(g, t, Held(g, v))
  {
  }

  lemma SameTransitive(g: Grid, t: Field, t': Field, t'': Field)
    requires Same(g, t', t'')
    ensures Same(g, t, t') <==> Same(g, t, t'')
    ensures AboveAmbient(g, t') <==> AboveAmbient(g, t'')
  {
  }

  lemma ExcessSame(g: Grid, net: Net, t: Field, t': Field, power: Field, a: Node)
    requires SoundLinks(g, net(a)) && Same(g, t, t') && t(a) == t'(a)
    ensures Excess(g, net, t, power, a) == Excess(g, net, t', power, a)
  {
    FlowsSplit(g, t, net(a), t(a));
    FlowsSplit(g, t', net(a), t(a));
    SumWSame(g, t, t', net(a));
  }

  lemma WithinSame(g: Grid, net: Net, t: Field, t': Field, power: Field, d: real)
    requires SoundNet(g, net) && Same(g, t, t') && Within(g, net, t, power, d)
    ensures Within(g, net, t', power, d)
  {
    forall a | IsNode(g, a)
      ensures WithinAt(g, net, t', power, d, a)
    {
      assert WithinAt(g, net, t, power, d, a);
      ExcessSame(g, net, t, t', power, a);
    }
  }

  /** A sweep relaxes every node once, each with the values that its neighbours have by then, and reports
      the largest change. It reports no change, and makes none, exactly when the field it finds is balanced. A
      sweep that reports max leaves no node out of balance by more than max times its conductance. */
  method SweepGrid(g: Grid, v: Values, p: Values) returns (max: real)
    requires Sound(g) && Fits(v, g) && Fits(p, g) && Separate(v, p) && PackagePassive(Held(g, p))
    modifies v.cuboid, v.extra
    ensures Held(g, p) == old(Held(g, p)) && Swept(g, NetOf(g), Held(g, p), old(Held(g, v)), Held(g, v), max)
  {
    ghost var t0, power := Held(g, v), Held(g, p);
    HeldShows(g, v);
    HeldShows(g, p);
    StepOfGrid(g, power);
    ghost var t;
    max, t := Sweep(g, v, p, NetOf(g), power, StepOf(g, power), t0);
    ShowsHeld(g, v, t);
    SweptSame(g, power, t0, t, Held(g, v), max);
  }

  lemma SweptSame(g: Grid, power: Field, t0: Field, t: Field, t': Field, max: real)
    requires Sound(g) && Swept(g, NetOf(g), power, t0, t, max) && Same(g, t, t')
    ensures Swept(g, NetOf(g), power, t0, t', max)
  {
    SameTransitive(g, t0, t, t');
    NetOfSound(g);
    WithinSame(g, NetOf(g), t, t', power, max);
    InTurnSame(g, NetOf(g), power, t0, t, t', max);
  }

  /** What a rule says of every node. */
  ghost predicate Ruled(g: Grid, x: Field, rule: Rule) {
    forall a :: IsNode(g, a) ==> rule(a, x(a))
  }

  lemma FollowsRuled(g: Grid, dv: Values, rule: Rule)
    requires Fits(dv, g) && CellsFollow(dv, g, rule, |g.layers|, 0, 0) && ExtrasFollow(dv, g, rule, EXTRA)
    ensures Ruled(g, Held(g, dv), rule)
  {
    HeldShows(g, dv);
    forall a | IsNode(g, a)
      ensures rule(a, Held(g, dv)(a))
    {
      assert a.Cell? ==> CellsBefore(|g.layers|, 0, 0)(Cell(a.n, a.i, a.j));
    }
  }

  ghost function SlopeRule(g: Grid, t: Field, power: Field): Rule {
    (a: Node, d: real) => IsSlope(g, t, power, a, d)
  }

  ghost function RhsRule(g: Grid, power: Field): Rule {
    (a: Node, x: real) => IsRhs(g, power, a, x)
  }

  method SlopeGrid(g: Grid, v: Values, p: Values, dv: Values)
    requires Sound(g) && Fits(v, g) && Fits(p, g) && Fits(dv, g) && Apart(dv, v, p) && PackagePassive(Held(g, p))
    modifies dv.cuboid, dv.extra
    ensures Ruled(g, Held(g, dv), SlopeRule(g, old(Held(g, v)), old(Held(g, p))))
  {
    ghost var t, power := Held(g, v), Held(g, p);
    HeldShows(g, v);
    HeldShows(g, p);
    ghost var rule := SlopeRule(g, t, power);
    Slopes(g, v, p, dv, t, power, rule);
    FollowsRuled(g, dv, rule);
  }

  method BuildRhs(g: Grid, p: Values) returns (rhs: Values)
    requires Sound(g) && Fits(p, g) && g.rows >= 2 && g.cols >= 2 && PackagePassive(Held(g, p))
    ensures Fits(rhs, g) && Ruled(g, Held(g, rhs), RhsRule(g, Held(g, p)))
  {
    rhs := new Values(|g.layers|, g.rows, g.cols);
    ghost var power := Held(g, p);
    HeldShows(g, p);
    ghost var rule := RhsRule(g, power);
    FillRhs(g, p, rhs, power, rule);
    FollowsRuled(g, rhs, rule);
  }

  /** Three forms of one balance: the slope is zero at every node, the matrix is solved, every
      node is balanced (and so a sweep changes nothing). */
  lemma FormsAgree(g: Grid, coo: seq<Entry>, rhs: Field, slope: Field, t: Field, power: Field)
    requires Sound(g) && g.rows >= 2 && g.cols >= 2 && IsMatrix(g, coo)
    requires Ruled(g, rhs, RhsRule(g, power)) && Ruled(g, slope, SlopeRule(g, t, power))
    ensures Solves(g, coo, rhs, t) <==> AllBalanced(g, NetOf(g), t, power, All())
    ensures (forall a :: IsNode(g, a) ==> slope(a) == 0.0) <==> AllBalanced(g, NetOf(g), t, power, All())
  {
    forall a | IsNode(g, a)
      ensures IsRhs(g, power, a, rhs(a)) && IsSlope(g, t, power, a, slope(a))
    {
      assert RhsRule(g, power)(a, rhs(a)) && SlopeRule(g, t, power)(a, slope(a));
    }
    SolvesIffBalanced(g, coo, rhs, t, power);
    StillIffAllBalanced(g, slope, t, power);
  }
}
