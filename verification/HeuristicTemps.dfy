/** Initial temperatures at the coarsest grid, ignoring the lateral resistances. */
module HeuristicTemps {
  import opened GridNetwork
  import opened GridSweep
  import opened SweepRuns

  /** Power in the first m layers at one position. */
  function PowerAbove(p: Field, m: nat, i: nat, j: nat): real {
    if m == 0 then 0.0 else PowerAbove(p, m - 1, i, j) + p(Cell(m - 1, i, j))
  }

  /** All power of the layers above has to pass each resistance on its way down. */
  function HeatAt(g: Grid, p: Field, n: nat, i: nat, j: nat): real
    decreases |g.layers| - n
  {
    if n >= |g.layers| then g.ambient else HeatAt(g, p, n + 1, i, j) + PowerAbove(p, n + 1, i, j) * g.layers[n].rz
  }

  ghost function Heuristic(g: Grid, p: Field): Field {
    (a: Node) => if a.Cell? then HeatAt(g, p, a.n, a.i, a.j) else g.ambient
  }

  lemma {:induction false} PowerAboveNonNegative(g: Grid, p: Field, m: nat, i: nat, j: nat)
    requires Heating(g, p) && m <= |g.layers| && i < g.rows && j < g.cols
    ensures PowerAbove(p, m, i, j) >= 0.0
    decreases m
  {
    if m > 0 {
      PowerAboveNonNegative(g, p, m - 1, i, j);
      assert IsNode(g, Cell(m - 1, i, j));
    }
  }

  lemma Product(x: real, y: real)
    requires x >= 0.0 && y >= 0.0
    ensures x * y >= 0.0
  {
  }

  lemma {:induction false} HeatAtAbove(g: Grid, p: Field, n: nat, i: nat, j: nat)
    requires Sound(g) && Heating(g, p) && i < g.rows && j < g.cols
    ensures HeatAt(g, p, n, i, j) >= g.ambient
    decreases |g.layers| - n
  {
    if n < |g.layers| {
      HeatAtAbove(g, p, n + 1, i, j);
      PowerAboveNonNegative(g, p, n + 1, i, j);
      assert SoundLayer(g.layers[n]);
      Product(PowerAbove(p, n + 1, i, j), g.layers[n].rz);
    }
  }

  lemma HeuristicAbove(g: Grid, p: Field)
    requires Sound(g) && Heating(g, p)
    ensures AboveAmbient(g, Heuristic(g, p))
  {
    forall a | IsNode(g, a)
      ensures Heuristic(g, p)(a) >= g.ambient
    {
      if a.Cell? {
        HeatAtAbove(g, p, a.n, a.i, a.j);
      }
    }
  }

  lemma DropFlow(x: real, y: real, q: real, r: real)
    requires r > 0.0 && x == y + q * r
    ensures Per(r) * (y - x) == -q && Per(r) * (x - y) == q
  {
    assert Per(r) * r == 1.0;
    Regroup(Per(r), r, q);
  }

  lemma Regroup(c: real, r: real, q: real)
    requires c * r == 1.0
    ensures c * (q * r) == q && c * (-(q * r)) == -q
  {
    assert c * (q * r) == q * (c * r);
  }

  lemma OneFlow(g: Grid, t: Field, l: Link, x: real, q: real)
    requires l.c * (Temp(g, t, l.src) - x) == q
    ensures SumP(g, t, [l], x) == q
  {
    assert [l][..0] == [];
  }

  lemma HeatStep(g: Grid, p: Field, n: nat, i: nat, j: nat) returns (x: real, y: real, q: real)
    requires n < |g.layers|
    ensures x == HeatAt(g, p, n, i, j) && y == HeatAt(g, p, n + 1, i, j) && q == PowerAbove(p, n + 1, i, j)
    ensures x == y + q * g.layers[n].rz
  {
    x, y, q := HeatAt(g, p, n, i, j), HeatAt(g, p, n + 1, i, j), PowerAbove(p, n + 1, i, j);
  }

  lemma HeatFlow(g: Grid, p: Field, n: nat, i: nat, j: nat) returns (x: real, y: real, q: real)
    requires Sound(g) && n < |g.layers|
    ensures x == HeatAt(g, p, n, i, j) && y == HeatAt(g, p, n + 1, i, j) && q == PowerAbove(p, n + 1, i, j)
    ensures Per(g.layers[n].rz) * (y - x) == -q && Per(g.layers[n].rz) * (x - y) == q
  {
    assert SoundLayer(g.layers[n]);
    x, y, q := HeatStep(g, p, n, i, j);
    DropFlow(x, y, q, g.layers[n].rz);
  }

  lemma FlowDown(g: Grid, t: Field, n: nat, i: nat, j: nat, x: real, y: real, q: real)
    requires 0 < n < |g.layers| && t(Cell(n - 1, i, j)) == x && Per(g.layers[n - 1].rz) * (x - y) == q
    ensures SumP(g, t, LinkAbove(g, n, i, j), y) == q
  {
    OneFlow(g, t, Link(From(Cell(n - 1, i, j)), Per(g.layers[n - 1].rz)), y, q);
  }

  lemma FlowAbove(g: Grid, p: Field, t: Field, n: nat, i: nat, j: nat) returns (x: real, q: real)
    requires Sound(g) && IsNode(g, Cell(n, i, j)) && (n > 0 ==> t(Cell(n - 1, i, j)) == HeatAt(g, p, n - 1, i, j))
    ensures x == HeatAt(g, p, n, i, j) && q == PowerAbove(p, n, i, j) && SumP(g, t, LinkAbove(g, n, i, j), x) == q
  {
    if n > 0 {
      var y;
      y, x, q := HeatFlow(g, p, n - 1, i, j);
      FlowDown(g, t, n, i, j, y, x, q);
    } else {
      x, q := HeatAt(g, p, n, i, j), 0.0;
    }
  }

  /** Towards the cell below, or from the last layer to ambient. */
  function DownLinks(g: Grid, n: nat, i: nat, j: nat): seq<Link>
    requires n < |g.layers|
  {
    if n < |g.layers| - 1 then LinkBelow(g, n, i, j) else [Link(Ambient, Per(g.layers[n].rz))]
  }

  lemma FlowBelow(g: Grid, p: Field, t: Field, n: nat, i: nat, j: nat) returns (x: real, q: real)
    requires Sound(g) && IsNode(g, Cell(n, i, j))
    requires (n + 1 < |g.layers| ==> t(Cell(n + 1, i, j)) == HeatAt(g, p, n + 1, i, j))
    ensures x == HeatAt(g, p, n, i, j) && q == PowerAbove(p, n + 1, i, j) && SumP(g, t, DownLinks(g, n, i, j), x) == -q
  {
    var y;
    x, y, q := HeatFlow(g, p, n, i, j);
    var src := if n < |g.layers| - 1 then From(Cell(n + 1, i, j)) else Ambient;
    OneFlow(g, t, Link(src, Per(g.layers[n].rz)), x, -q);
  }

  /** Without lateral flow every cell is balanced. */
  lemma HeuristicBalanced(g: Grid, p: Field, n: nat, i: nat, j: nat)
    requires Sound(g) && IsNode(g, Cell(n, i, j))
    ensures var t := Heuristic(g, p);
            p(Cell(n, i, j)) + SumP(g, t, LinkAbove(g, n, i, j) + DownLinks(g, n, i, j), t(Cell(n, i, j))) == 0.0
  {
    var t := Heuristic(g, p);
    var x, q := FlowAbove(g, p, t, n, i, j);
    var x', q' := FlowBelow(g, p, t, n, i, j);
    SumsConcat(g, t, LinkAbove(g, n, i, j), DownLinks(g, n, i, j), x);
    assert q' == q + p(Cell(n, i, j));
  }

  // ---------- on the arrays ----------

  /** sum holds the power of the first m layers. */
  ghost predicate Holds(sum: array2<real>, g: Grid, p: Field, m: nat)
    reads sum
  {
    && sum.Length0 == g.rows && sum.Length1 == g.cols
    && forall i, j :: 0 <= i < g.rows && 0 <= j < g.cols ==> sum[i, j] == PowerAbove(p, m, i, j)
  }

  method AddLayer(sum: array2<real>, cuboid: array3<real>, n: nat, scale: real)
    requires n < cuboid.Length0 && sum.Length0 == cuboid.Length1 && sum.Length1 == cuboid.Length2
    modifies sum
    ensures forall i, j :: 0 <= i < sum.Length0 && 0 <= j < sum.Length1 ==>
              sum[i, j] == old(sum[i, j]) + scale * cuboid[n, i, j]
  {
    for i := 0 to sum.Length0
      invariant forall x, y ::
                  0 <= x < i && 0 <= y < sum.Length1 ==> sum[x, y] == old(sum[x, y]) + scale * cuboid[n, x, y]
      invariant forall x, y :: i <= x < sum.Length0 && 0 <= y < sum.Length1 ==> sum[x, y] == old(sum[x, y])
    {
      for j := 0 to sum.Length1
        invariant forall x, y ::
                    0 <= x < i && 0 <= y < sum.Length1 ==> sum[x, y] == old(sum[x, y]) + scale * cuboid[n, x, y]
        invariant forall y :: 0 <= y < j ==> sum[i, y] == old(sum[i, y]) + scale * cuboid[n, i, y]
        invariant forall y :: j <= y < sum.Length1 ==> sum[i, y] == old(sum[i, y])
        invariant forall x, y :: i < x < sum.Length0 && 0 <= y < sum.Length1 ==> sum[x, y] == old(sum[x, y])
      {
        sum[i, j] := sum[i, j] + scale * cuboid[n, i, j];
      }
    }
  }

  method AddedUp(sum: array2<real>, power: Values, n: nat, ghost g: Grid, ghost p: Field)
    requires Shows(power, g, p) && n < |g.layers| && Holds(sum, g, p, n)
    modifies sum
    ensures Holds(sum, g, p, n + 1)
  {
    AddLayer(sum, power.cuboid, n, 1.0);
  }

  method Subtracted(sum: array2<real>, power: Values, n: nat, ghost g: Grid, ghost p: Field)
    requires Shows(power, g, p) && n < |g.layers| && Holds(sum, g, p, n + 1)
    modifies sum
    ensures Holds(sum, g, p, n)
  {
    AddLayer(sum, power.cuboid, n, -1.0);
  }

  /** Layers from n on have their heuristic temperatures. */
  ghost predicate HeatedFrom(v: Values, g: Grid, p: Field, n: nat)
    reads v.cuboid
  {
    && Fits(v, g)
    && forall m, i, j :: n <= m < |g.layers| && 0 <= i < g.rows && 0 <= j < g.cols ==>
         v.cuboid[m, i, j] == HeatAt(g, p, m, i, j)
  }

  /** The last layer is above ambient, every other above the one below. */
  method HeatLayer(g: Grid, v: Values, sum: array2<real>, n: nat, ghost p: Field)
    requires n < |g.layers| && HeatedFrom(v, g, p, n + 1) && Holds(sum, g, p, n + 1)
    modifies v.cuboid
    ensures HeatedFrom(v, g, p, n)
  {
    for i := 0 to g.rows
      invariant HeatedFrom(v, g, p, n + 1)
      invariant forall x, y :: 0 <= x < i && 0 <= y < g.cols ==> v.cuboid[n, x, y] == HeatAt(g, p, n, x, y)
    {
      for j := 0 to g.cols
        invariant HeatedFrom(v, g, p, n + 1)
        invariant forall x, y :: 0 <= x < i && 0 <= y < g.cols ==> v.cuboid[n, x, y] == HeatAt(g, p, n, x, y)
        invariant forall y :: 0 <= y < j ==> v.cuboid[n, i, y] == HeatAt(g, p, n, i, y)
      {
        HeatCell(g, v, n, i, j, sum[i, j], p);
      }
    }
  }

  method HeatCell(g: Grid, v: Values, n: nat, i: nat, j: nat, q: real, ghost p: Field)
    requires n < |g.layers| && HeatedFrom(v, g, p, n + 1) && i < g.rows && j < g.cols && q == PowerAbove(p, n + 1, i, j)
    modifies v.cuboid
    ensures v.cuboid[n, i, j] == HeatAt(g, p, n, i, j)
    ensures forall m, x, y :: 0 <= m < |g.layers| && 0 <= x < g.rows && 0 <= y < g.cols && (m, x, y) != (n, i, j)
                              ==> v.cuboid[m, x, y] == old(v.cuboid[m, x, y])
  {
    var below := if n == |g.layers| - 1 then g.ambient else v.cuboid[n + 1, i, j];
    v.cuboid[n, i, j] := below + q * g.layers[n].rz;
  }

  method SetHeuristic(g: Grid, power: Values, temp: Values, ghost p: Field)
    requires Sound(g) && Shows(power, g, p) && Fits(temp, g) && Separate(temp, power)
    modifies temp.cuboid, temp.extra
    ensures Shows(temp, g, Heuristic(g, p))
  {
    for k := 0 to EXTRA
      invariant forall m :: 0 <= m < k ==> temp.extra[m] == g.ambient
      invariant Shows(power, g, p)
    {
      temp.extra[k] := g.ambient;
    }
    HeatAll(g, power, temp, p);
  }

  method HeatAll(g: Grid, power: Values, temp: Values, ghost p: Field)
    requires Sound(g) && Shows(power, g, p) && Fits(temp, g) && Separate(temp, power)
    modifies temp.cuboid
    ensures HeatedFrom(temp, g, p, 0)
  {
    var sum := new real[g.rows, g.cols]((i, j) => 0.0);
    for n := 0 to |g.layers|
      invariant Holds(sum, g, p, n)
    {
      AddedUp(sum, power, n, g, p);
    }
    for n := |g.layers| downto 0
      invariant Holds(sum, g, p, n) && HeatedFrom(temp, g, p, n) && Shows(power, g, p)
    {
      HeatLayer(g, temp, sum, n, p);
      Subtracted(sum, power, n, g, p);
    }
  }
}
