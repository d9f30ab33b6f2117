/** The nested iteration: solve on a coarser grid first, interpolate, then sweep until nothing
    changes. The model is made coarser in place and restored on the way back. */
module MultigridRun {
  import opened GridNetwork
  import Adjacency
  import opened GridSweep
  import opened SweepRuns
  import opened NearBalance
  import opened GridAgreement
  import opened Multigrid
  import opened Prolongation
  import opened HeuristicTemps

  // ---------- the model ----------

  class Model {
    var grid: Grid
    const cReady: bool

    constructor (g: Grid, ready: bool)
      ensures grid == g && cReady == ready
    {
      grid, cReady := g, ready;
    }
  }

  /** Half the rows and columns: a quarter of the vertical resistance, four times the capacity. */
  function CoarserLayer(l: Layer, cReady: bool): Layer {
    l.(rz := l.rz / 4.0, c := if cReady then l.c * 4.0 else l.c)
  }

  /** In the coarser grid a cell stands for four: between its layers they conduct side by side, and
      their capacities add. Across, two side by side carry what one does over half the way, and so
      the lateral resistances stay. */
  lemma FourInOne(g: Grid, cReady: bool, n: nat)
    requires n < |g.layers| && SoundLayer(g.layers[n])
    ensures var fine, coarse := g.layers[n], Coarser(g, cReady).layers[n];
            && coarse.rz > 0.0
            && 1.0 / coarse.rz == 1.0 / fine.rz + 1.0 / fine.rz + 1.0 / fine.rz + 1.0 / fine.rz
            && (cReady ==> coarse.c == fine.c + fine.c + fine.c + fine.c) && (!cReady ==> coarse.c == fine.c)
            && 1.0 / coarse.rx == 1.0 / (fine.rx + fine.rx) + 1.0 / (fine.rx + fine.rx)
            && 1.0 / coarse.ry == 1.0 / (fine.ry + fine.ry) + 1.0 / (fine.ry + fine.ry)
  {
    Quarter(g.layers[n].rz, CoarserLayer(g.layers[n], cReady).rz);
    TwoByTwo(g.layers[n].rx);
    TwoByTwo(g.layers[n].ry);
  }

  lemma Quarter(r: real, q: real)
    requires r > 0.0 && q == r / 4.0
    ensures q > 0.0 && 1.0 / q == 1.0 / r + 1.0 / r + 1.0 / r + 1.0 / r
  {
    var c := 1.0 / r;
    assert c * r == 1.0 && 4.0 * c * q == 1.0;
  }

  lemma TwoByTwo(r: real)
    requires r > 0.0
    ensures 1.0 / r == 1.0 / (r + r) + 1.0 / (r + r)
  {
    var c := 1.0 / (r + r);
    assert c * (r + r) == 1.0 && 2.0 * c * r == 1.0;
  }

  function FinerLayer(l: Layer, cReady: bool): Layer {
    l.(rz := l.rz * 4.0, c := if cReady then l.c / 4.0 else l.c)
  }

  function Map(f: Layer -> Layer, ls: seq<Layer>): (r: seq<Layer>)
    ensures |r| == |ls| && forall n :: 0 <= n < |ls| ==> r[n] == f(ls[n])
  {
    if ls == [] then [] else Map(f, ls[..|ls| - 1]) + [f(ls[|ls| - 1])]
  }

  function Coarser(g: Grid, cReady: bool): Grid {
    g.(rows := g.rows / 2, cols := g.cols / 2, layers := Map(l => CoarserLayer(l, cReady), g.layers))
  }

  function Refined(g: Grid, cReady: bool): Grid {
    g.(rows := g.rows * 2, cols := g.cols * 2, layers := Map(l => FinerLayer(l, cReady), g.layers))
  }

  /** Making a grid coarser and finer again gives it back exactly when rows and columns are even. */
  lemma RefinedCoarser(g: Grid, cReady: bool)
    ensures Refined(Coarser(g, cReady), cReady) == g <==> g.rows % 2 == 0 && g.cols % 2 == 0
  {
    assert Refined(Coarser(g, cReady), cReady).layers == g.layers;
  }

  /** What the recursion leaves of the grid. */
  function AfterRun(g: Grid, cReady: bool): Grid
    decreases g.rows
  {
    if g.rows <= 1 || g.cols <= 1 then g else Refined(AfterRun(Coarser(g, cReady), cReady), cReady)
  }

  /** Rows and columns can be halved until one of them is one. */
  predicate Halves(rows: nat, cols: nat)
    decreases rows
  {
    rows <= 1 || cols <= 1 || (rows % 2 == 0 && cols % 2 == 0 && Halves(rows / 2, cols / 2))
  }

  lemma {:induction false} AfterRunSize(g: Grid, cReady: bool)
    ensures AfterRun(g, cReady).rows <= g.rows && AfterRun(g, cReady).cols <= g.cols
    decreases g.rows
  {
    if g.rows > 1 && g.cols > 1 {
      AfterRunSize(Coarser(g, cReady), cReady);
    }
  }

  lemma RefinedInjective(a: Grid, b: Grid, cReady: bool)
    requires Refined(a, cReady) == Refined(b, cReady)
    ensures a == b
  {
    var p, q := Refined(a, cReady).layers, Refined(b, cReady).layers;
    forall n | 0 <= n < |a.layers|
      ensures a.layers[n] == b.layers[n]
    {
      assert p[n] == FinerLayer(a.layers[n], cReady) && q[n] == FinerLayer(b.layers[n], cReady);
    }
    assert a.layers == b.layers;
    assert a == b.(layers := a.layers, rows := a.rows, cols := a.cols, pack := a.pack, ambient := a.ambient);
  }

  lemma RestoredStep(g: Grid, coarse: Grid, after: Grid, cReady: bool)
    requires coarse == Coarser(g, cReady) && after.rows <= coarse.rows && after.cols <= coarse.cols
    ensures Refined(after, cReady) == g <==> after == coarse && g.rows % 2 == 0 && g.cols % 2 == 0
  {
    RefinedCoarser(g, cReady);
    if Refined(after, cReady) == g {
      assert after.rows * 2 == g.rows && after.cols * 2 == g.cols;
      RefinedInjective(after, coarse, cReady);
    }
  }

  /** The grid is restored exactly when it can be halved all the way down. */
  lemma {:induction false} RestoredIff(g: Grid, cReady: bool)
    ensures AfterRun(g, cReady) == g <==> Halves(g.rows, g.cols)
    decreases g.rows
  {
    if g.rows > 1 && g.cols > 1 {
      var coarse := Coarser(g, cReady);
      var after := AfterRun(coarse, cReady);
      RestoredIff(coarse, cReady);
      AfterRunSize(coarse, cReady);
      RestoredStep(g, coarse, after, cReady);
      assert AfterRun(g, cReady) == Refined(after, cReady);
    }
  }

  predicate PowerOfTwo(n: nat) {
    n == 1 || (n >= 2 && n % 2 == 0 && PowerOfTwo(n / 2))
  }

  lemma {:induction false} PowersHalve(rows: nat, cols: nat)
    requires PowerOfTwo(rows) && PowerOfTwo(cols)
    ensures Halves(rows, cols)
    decreases rows
  {
    if rows > 1 && cols > 1 {
      PowersHalve(rows / 2, cols / 2);
    }
  }

  lemma CoarserSound(g: Grid, cReady: bool)
    requires Sound(g) && g.rows >= 2 && g.cols >= 2
    ensures Sound(Coarser(g, cReady))
  {
    forall n | 0 <= n < |g.layers|
      ensures SoundLayer(CoarserLayer(g.layers[n], cReady))
    {
      assert SoundLayer(g.layers[n]);
    }
  }

  /** Rows, columns and layer after layer in place. */
  method MakeCoarser(m: Model)
    modifies m
    ensures m.grid == Coarser(old(m.grid), m.cReady)
  {
    ghost var g := m.grid;
    m.grid := m.grid.(rows := m.grid.rows / 2, cols := m.grid.cols / 2);
    for n := 0 to |m.grid.layers|
      invariant m.grid.rows == g.rows / 2 && m.grid.cols == g.cols / 2 && m.grid.pack == g.pack
      invariant m.grid.ambient == g.ambient
      invariant |m.grid.layers| == |g.layers| && m.grid.layers[n..] == g.layers[n..]
      invariant forall k :: 0 <= k < n ==> m.grid.layers[k] == CoarserLayer(g.layers[k], m.cReady)
    {
      m.grid := m.grid.(layers := m.grid.layers[n := CoarserLayer(m.grid.layers[n], m.cReady)]);
    }
    assert m.grid.layers == Coarser(g, m.cReady).layers;
  }

  method MakeFiner(m: Model)
    modifies m
    ensures m.grid == Refined(old(m.grid), m.cReady)
  {
    ghost var g := m.grid;
    m.grid := m.grid.(rows := m.grid.rows * 2, cols := m.grid.cols * 2);
    for n := 0 to |m.grid.layers|
      invariant m.grid.rows == g.rows * 2 && m.grid.cols == g.cols * 2 && m.grid.pack == g.pack
      invariant m.grid.ambient == g.ambient
      invariant |m.grid.layers| == |g.layers| && m.grid.layers[n..] == g.layers[n..]
      invariant forall k :: 0 <= k < n ==> m.grid.layers[k] == FinerLayer(g.layers[k], m.cReady)
    {
      m.grid := m.grid.(layers := m.grid.layers[n := FinerLayer(m.grid.layers[n], m.cReady)]);
    }
    assert m.grid.layers == Refined(g, m.cReady).layers;
  }

  // ---------- sweeping until nothing changes ----------

  /** No node of the grid is out of balance by more than d times its conductance. */
  ghost predicate Steady(g: Grid, t: Field, power: Field, d: real) {
    Sound(g) && Within(g, NetOf(g), t, power, d)
  }

  lemma SteadyEnough(g: Grid, t: Field, power: Field, d: real)
    requires Steady(g, t, power, d) && Adjacency.Eq(d, 0.0)
    ensures Steady(g, t, power, Adjacency.DELTA)
  {
    NetOfSound(g);
    WithinMore(g, NetOf(g), t, power, d, Adjacency.DELTA);
  }

  /** What a sweep does, by name only. */
  type Sweeps = (Field, Field, real) -> bool

  ghost predicate Tells(r: Sweeps, g: Grid, power: Field) {
    && Sound(g)
    && forall t: Field, t': Field, d: real {:trigger Swept(g, NetOf(g), power, t, t', d)} ::
         Swept(g, NetOf(g), power, t, t', d) <==> r(t, t', d)
  }

  lemma TellsOf(g: Grid, power: Field) returns (r: Sweeps)
    requires Sound(g)
    ensures Tells(r, g, power)
  {
    r := (t: Field, t': Field, d: real) => Swept(g, NetOf(g), power, t, t', d);
  }

  lemma Told(r: Sweeps, g: Grid, power: Field, t: Field, t': Field, d: real)
    requires Tells(r, g, power)
    ensures Swept(g, NetOf(g), power, t, t', d) <==> r(t, t', d)
  {
  }

  /** The fields before and after each sweep and the largest changes, which are as good as 0 at most
      in the last. */
  ghost predicate SweptBy(r: Sweeps, t0: Field, t: Field, ts: seq<Field>, ds: seq<real>) {
    && |ts| == |ds| + 1 > 1 && ts[0] == t0 && ts[|ds|] == t
    && (forall i :: 0 <= i < |ds| ==> r(ts[i], ts[i + 1], ds[i]))
    && (forall i :: 0 <= i < |ds| - 1 ==> !Adjacency.Eq(ds[i], 0.0))
  }

  ghost predicate Stops(ds: seq<real>, limit: nat, settled: bool) {
    && 0 < |ds| <= limit + 1 && (settled <==> Adjacency.Eq(ds[|ds| - 1], 0.0)) && (!settled ==> |ds| == limit + 1)
  }

  ghost predicate IteratedBy(r: Sweeps, t0: Field, t: Field, limit: nat, settled: bool) {
    exists ts: seq<Field>, ds: seq<real> :: SweptBy(r, t0, t, ts, ds) && Stops(ds, limit, settled)
  }

  /** Sweeps from t0 to t: one, and as many more as it takes until the largest change is as good as
      0, or the limit if that is not enough. */
  ghost predicate Iterated(g: Grid, power: Field, t0: Field, t: Field, limit: nat, settled: bool) {
    exists r: Sweeps :: Tells(r, g, power) && IteratedBy(r, t0, t, limit, settled)
  }

  lemma NextSweep(r: Sweeps, t0: Field, t: Field, t': Field, ts: seq<Field>, ds: seq<real>, d: real)
    requires SweptBy(r, t0, t, ts, ds) && !Adjacency.Eq(ds[|ds| - 1], 0.0) && r(t, t', d)
    ensures SweptBy(r, t0, t', ts + [t'], ds + [d])
  {
    var ts', ds' := ts + [t'], ds + [d];
    forall i | 0 <= i < |ds'|
      ensures r(ts'[i], ts'[i + 1], ds'[i])
    {
      if i < |ds| {
        assert r(ts[i], ts[i + 1], ds[i]);
      }
    }
  }

  /** At least one sweep, and at most limit more, until the largest change is as good as 0. */
  method Relax(g: Grid, v: Values, p: Values, limit: nat) returns (settled: bool)
    requires Sound(g) && Fits(v, g) && Fits(p, g) && Separate(v, p) && PackagePassive(Held(g, p))
    modifies v.cuboid, v.extra
    ensures Held(g, p) == old(Held(g, p))
    ensures Iterated(g, Held(g, p), old(Held(g, v)), Held(g, v), limit, settled)
  {
    ghost var r := TellsOf(g, Held(g, p));
    settled := SweepUntil(g, v, p, limit, r);
  }

  method SweepUntil(g: Grid, v: Values, p: Values, limit: nat, ghost r: Sweeps) returns (settled: bool)
    requires Sound(g) && Fits(v, g) && Fits(p, g) && Separate(v, p) && PackagePassive(Held(g, p))
    requires Tells(r, g, Held(g, p))
    modifies v.cuboid, v.extra
    ensures Held(g, p) == old(Held(g, p)) && IteratedBy(r, old(Held(g, v)), Held(g, v), limit, settled)
  {
    ghost var power, t0 := Held(g, p), Held(g, v);
    var delta := SweepOnce(g, v, p, r);
    ghost var ts, ds := [t0, Held(g, v)], [delta];
    var k := 0;
    while !Adjacency.Eq(delta, 0.0) && k < limit
      invariant Held(g, p) == power && |ds| == k + 1 <= limit + 1 && ds[k] == delta
      invariant SweptBy(r, t0, Held(g, v), ts, ds)
      decreases limit - k
    {
      ghost var t := Held(g, v);
      delta := SweepOnce(g, v, p, r);
      NextSweep(r, t0, t, Held(g, v), ts, ds, delta);
      ts, ds := ts + [Held(g, v)], ds + [delta];
      k := k + 1;
    }
    settled := Adjacency.Eq(delta, 0.0);
    assert Stops(ds, limit, settled);
  }

  method SweepOnce(g: Grid, v: Values, p: Values, ghost r: Sweeps) returns (delta: real)
    requires Sound(g) && Fits(v, g) && Fits(p, g) && Separate(v, p) && PackagePassive(Held(g, p))
    requires Tells(r, g, Held(g, p))
    modifies v.cuboid, v.extra
    ensures Held(g, p) == old(Held(g, p)) && r(old(Held(g, v)), Held(g, v), delta)
  {
    delta := SweepGrid(g, v, p);
  }

  lemma {:induction false} SweepsAbove(r: Sweeps, g: Grid, power: Field, t0: Field, t: Field, ts: seq<Field>,
                                       ds: seq<real>, k: nat)
    requires Tells(r, g, power) && SweptBy(r, t0, t, ts, ds) && k < |ts| && Heating(g, power) && AboveAmbient(g, t0)
    ensures AboveAmbient(g, ts[k])
    decreases k
  {
    if k > 0 {
      SweepsAbove(r, g, power, t0, t, ts, ds, k - 1);
      assert r(ts[k - 1], ts[k - 1 + 1], ds[k - 1]);
      SweepKeepsAbove(r, g, power, ts[k - 1], ts[k], ds[k - 1]);
    }
  }

  lemma SweepKeepsAbove(r: Sweeps, g: Grid, power: Field, t: Field, t': Field, d: real)
    requires Tells(r, g, power) && r(t, t', d) && Heating(g, power) && AboveAmbient(g, t)
    ensures AboveAmbient(g, t')
  {
    Told(r, g, power, t, t', d);
  }

  lemma SweepSettles(r: Sweeps, g: Grid, power: Field, t: Field, t': Field, d: real)
    requires Tells(r, g, power) && r(t, t', d) && Adjacency.Eq(d, 0.0)
    ensures Steady(g, t', power, Adjacency.DELTA)
  {
    Told(r, g, power, t, t', d);
    SteadyEnough(g, t', power, d);
  }

  /** Where sweeping leads: balance up to DELTA when it has settled, and nothing below ambient. */
  lemma IteratedEnds(g: Grid, power: Field, t0: Field, t: Field, limit: nat, settled: bool)
    requires Iterated(g, power, t0, t, limit, settled)
    ensures settled ==> Steady(g, t, power, Adjacency.DELTA)
    ensures AboveAmbient(g, t0) && Heating(g, power) ==> AboveAmbient(g, t)
  {
    var r: Sweeps :| Tells(r, g, power) && IteratedBy(r, t0, t, limit, settled);
    var ts: seq<Field>, ds: seq<real> :| SweptBy(r, t0, t, ts, ds) && Stops(ds, limit, settled);
    var last := |ds| - 1;
    assert r(ts[last], ts[last + 1], ds[last]);
    if settled {
      SweepSettles(r, g, power, ts[last], t, ds[last]);
    }
    if AboveAmbient(g, t0) && Heating(g, power) {
      SweepsAbove(r, g, power, t0, t, ts, ds, |ds|);
    }
  }

  // ---------- between the grids ----------

  /** Power for the coarser grid. */
  method Restrict(fine: Grid, coarse: Grid, power: Values) returns (dst: Values)
    requires Fits(power, fine) && |coarse.layers| == |fine.layers| && fine.rows == 2 * coarse.rows
    requires fine.cols == 2 * coarse.cols
    ensures Fits(dst, coarse) && fresh(dst.cuboid) && fresh(dst.extra)
    ensures Restricted(|coarse.layers|, coarse.rows, coarse.cols, Held(coarse, dst), Held(fine, power))
  {
    dst := new Values(|coarse.layers|, coarse.rows, coarse.cols);
    RestrictCells(dst.cuboid, power.cuboid);
    CopyExtra(dst.extra, power.extra);
    RestrictedHeld(fine, coarse, power, dst);
  }

  lemma RestrictedHeld(fine: Grid, coarse: Grid, power: Values, dst: Values)
    requires Fits(power, fine) && Fits(dst, coarse) && |coarse.layers| == |fine.layers| && fine.rows == 2 * coarse.rows
    requires fine.cols == 2 * coarse.cols
    requires SumsBefore(dst.cuboid, power.cuboid, dst.cuboid.Length0, 0, 0) && dst.extra[..] == power.extra[..]
    ensures Restricted(|coarse.layers|, coarse.rows, coarse.cols, Held(coarse, dst), Held(fine, power))
  {
    HeldShows(fine, power);
    HeldShows(coarse, dst);
    var c, f := Held(coarse, dst), Held(fine, power);
    forall n, i, j | 0 <= n < |coarse.layers| && 0 <= i < coarse.rows && 0 <= j < coarse.cols
      ensures IsFour(c, f, n, i, j)
    {
      assert CellsBefore(dst.cuboid.Length0, 0, 0)(Cell(n, i, j));
      assert Sums(dst.cuboid, power.cuboid, n, i, j);
    }
    forall k | 0 <= k < EXTRA
      ensures c(Extra(k)) == f(Extra(k))
    {
      assert dst.extra[..][k] == power.extra[..][k];
    }
  }

  /** Temperatures of the fine grid from the coarse ones. */
  ghost predicate Interpolated(fine: Grid, coarse: Grid, t: Field, s: Field) {
    && (forall n, i, j :: 0 <= n < |fine.layers| && 0 <= i < fine.rows && 0 <= j < fine.cols
                          ==> t(Cell(n, i, j)) == Blend(s, n, coarse.rows, coarse.cols, i, j))
    && (forall k :: 0 <= k < EXTRA ==> t(Extra(k)) == s(Extra(k)))
  }

  method Prolong(fine: Grid, coarse: Grid, temp: Values, src: Values)
    requires Fits(temp, fine) && Fits(src, coarse) && Separate(temp, src) && coarse.rows >= 1 && coarse.cols >= 1
    requires |coarse.layers| == |fine.layers| && fine.rows == 2 * coarse.rows && fine.cols == 2 * coarse.cols
    modifies temp.cuboid, temp.extra
    ensures Held(coarse, src) == old(Held(coarse, src))
    ensures Interpolated(fine, coarse, Held(fine, temp), Held(coarse, src))
  {
    ghost var s := Held(coarse, src);
    HeldShows(coarse, src);
    ProlongCells(temp.cuboid, src.cuboid, s);
    CopyExtra(temp.extra, src.extra);
    HeldShows(coarse, src);
    HeldShows(fine, temp);
    assert forall k :: 0 <= k < EXTRA ==> temp.extra[..][k] == src.extra[..][k];
  }

  lemma {:induction false} Highest(s: Field, n: nat, rows: nat, cols: nat) returns (hi: real)
    ensures forall x, y :: 0 <= x < rows && 0 <= y < cols ==> s(Cell(n, x, y)) <= hi
  {
    hi := 0.0;
    for i := 0 to rows
      invariant forall x, y :: 0 <= x < i && 0 <= y < cols ==> s(Cell(n, x, y)) <= hi
    {
      for j := 0 to cols
        invariant forall x, y :: 0 <= x < i && 0 <= y < cols ==> s(Cell(n, x, y)) <= hi
        invariant forall y :: 0 <= y < j ==> s(Cell(n, i, y)) <= hi
      {
        hi := Larger(hi, s(Cell(n, i, j)));
      }
    }
  }

  /** Interpolation keeps above ambient. */
  lemma InterpolatedAbove(fine: Grid, coarse: Grid, t: Field, s: Field)
    requires Interpolated(fine, coarse, t, s) && AboveAmbient(coarse, s) && fine.ambient == coarse.ambient
    requires |coarse.layers| == |fine.layers| && fine.rows == 2 * coarse.rows && fine.cols == 2 * coarse.cols
    ensures AboveAmbient(fine, t)
  {
    forall a | IsNode(fine, a)
      ensures t(a) >= fine.ambient
    {
      if a.Cell? {
        var hi := Highest(s, a.n, coarse.rows, coarse.cols);
        forall x, y | 0 <= x < coarse.rows && 0 <= y < coarse.cols
          ensures fine.ambient <= s(Cell(a.n, x, y)) <= hi
        {
          assert IsNode(coarse, Cell(a.n, x, y));
        }
        BlendBetween(s, a.n, coarse.rows, coarse.cols, a.i, a.j, fine.ambient, hi);
      } else {
        assert IsNode(coarse, a);
      }
    }
  }

  // ---------- levels ----------

  /** One level of the recursion when it returns: from which temperatures it started, and whether its
      sweeping settled. */
  datatype Level = Level(grid: Grid, power: Field, start: Field, temp: Field, settled: bool)

  function TotalPower(g: Grid, power: Field): real {
    CellSum(power, g.rows, g.cols, |g.layers|)
  }

  ghost predicate LevelOk(l: Level, total: real, heating: bool, limit: nat) {
    && TotalPower(l.grid, l.power) == total
    && Iterated(l.grid, l.power, l.start, l.temp, limit, l.settled)
    && (heating ==> AboveAmbient(l.grid, l.temp))
    && (l.settled ==> Steady(l.grid, l.temp, l.power, Adjacency.DELTA))
  }

  /** The coarsest level, with a single row or column, starts from heuristic temperatures. */
  ghost predicate Coarsest(g: Grid, power: Field, start: Field) {
    (g.rows <= 1 || g.cols <= 1) && Same(g, Heuristic(g, power), start)
  }

  /** Each other level is made coarser to give the one below, its power added up there, and it
      starts from the temperatures found there, interpolated. */
  ghost predicate Above(l: Level, g: Grid, power: Field, start: Field, cReady: bool) {
    && l.grid == Coarser(g, cReady)
    && Restricted(|l.grid.layers|, l.grid.rows, l.grid.cols, l.power, power)
    && Interpolated(g, l.grid, start, l.temp)
  }

  ghost predicate Chain(levels: seq<Level>, cReady: bool) {
    && |levels| >= 1 && Coarsest(levels[0].grid, levels[0].power, levels[0].start)
    && forall k :: 0 < k < |levels| ==>
                     Above(levels[k - 1], levels[k].grid, levels[k].power, levels[k].start, cReady)
  }

  ghost predicate AllOk(levels: seq<Level>, total: real, heating: bool, limit: nat) {
    forall k :: 0 <= k < |levels| ==> LevelOk(levels[k], total, heating, limit)
  }

  ghost predicate AllSettled(levels: seq<Level>) {
    forall k :: 0 <= k < |levels| ==> levels[k].settled
  }

  /** The levels of a run that found temperatures t for power p on grid g. */
  ghost predicate SolvedBy(levels: seq<Level>, g: Grid, cReady: bool, p: Field, t: Field, limit: nat, settled: bool) {
    && Chain(levels, cReady) && AllOk(levels, TotalPower(g, p), Heating(g, p), limit)
    && levels[|levels| - 1].grid == g && levels[|levels| - 1].power == p && levels[|levels| - 1].temp == t
    && (settled <==> AllSettled(levels))
  }

  ghost predicate Ready(g: Grid, power: Values, temp: Values)
    reads power.cuboid, power.extra
  {
    && Sound(g) && PowerOfTwo(g.rows) && PowerOfTwo(g.cols) && Fits(power, g) && Fits(temp, g) && Separate(temp, power)
    && PackagePassive(Held(g, power))
  }

  lemma CoarseHeating(fine: Grid, coarse: Grid, p: Field, q: Field)
    requires Restricted(|coarse.layers|, coarse.rows, coarse.cols, q, p) && Heating(fine, p)
    requires |coarse.layers| == |fine.layers| && fine.rows == 2 * coarse.rows && fine.cols == 2 * coarse.cols
    ensures Heating(coarse, q)
  {
    forall a | IsNode(coarse, a)
      ensures q(a) >= 0.0
    {
      if a.Cell? {
        assert IsFour(q, p, a.n, a.i, a.j);
        assert IsNode(fine, Cell(a.n, 2 * a.i, 2 * a.j)) && IsNode(fine, Cell(a.n, 2 * a.i + 1, 2 * a.j));
        assert IsNode(fine, Cell(a.n, 2 * a.i, 2 * a.j + 1)) && IsNode(fine, Cell(a.n, 2 * a.i + 1, 2 * a.j + 1));
      } else {
        assert IsNode(fine, a);
      }
    }
  }

  /** The coarse problem carries the same power in all, and is heating if the fine one is. */
  lemma CoarseProblem(fine: Grid, coarse: Grid, p: Field, q: Field, cReady: bool)
    requires Sound(fine) && fine.rows > 1 && fine.cols > 1 && PowerOfTwo(fine.rows) && PowerOfTwo(fine.cols)
    requires coarse == Coarser(fine, cReady) && Restricted(|coarse.layers|, coarse.rows, coarse.cols, q, p)
    requires PackagePassive(p)
    ensures Sound(coarse) && PowerOfTwo(coarse.rows) && PowerOfTwo(coarse.cols) && PackagePassive(q)
    ensures TotalPower(coarse, q) == TotalPower(fine, p) && (Heating(fine, p) ==> Heating(coarse, q))
  {
    CoarserSound(fine, cReady);
    PowerConserved(|coarse.layers|, coarse.rows, coarse.cols, q, p, |coarse.layers|);
    if Heating(fine, p) {
      CoarseHeating(fine, coarse, p, q);
    }
  }

  lemma ChainGrows(levels: seq<Level>, l: Level, cReady: bool, total: real, heating: bool, limit: nat)
    requires Chain(levels, cReady) && Above(levels[|levels| - 1], l.grid, l.power, l.start, cReady)
    requires AllOk(levels, total, heating, limit) && LevelOk(l, total, heating, limit)
    ensures Chain(levels + [l], cReady) && AllOk(levels + [l], total, heating, limit)
  {
    var more := levels + [l];
    forall k | 0 <= k < |more|
      ensures LevelOk(more[k], total, heating, limit)
    {
      if k < |levels| {
        assert LevelOk(levels[k], total, heating, limit);
      }
    }
    forall k | 0 < k < |more|
      ensures Above(more[k - 1], more[k].grid, more[k].power, more[k].start, cReady)
    {
      if k < |levels| {
        assert Above(levels[k - 1], levels[k].grid, levels[k].power, levels[k].start, cReady);
      }
    }
  }

  lemma AllOkWeaker(levels: seq<Level>, total: real, heating: bool, less: bool, limit: nat)
    requires AllOk(levels, total, heating, limit) && (less ==> heating)
    ensures AllOk(levels, total, less, limit)
  {
    forall k | 0 <= k < |levels|
      ensures LevelOk(levels[k], total, less, limit)
    {
      assert LevelOk(levels[k], total, heating, limit);
    }
  }

  lemma SettledGrows(levels: seq<Level>, l: Level)
    ensures AllSettled(levels + [l]) <==> AllSettled(levels) && l.settled
  {
    var more := levels + [l];
    assert more[|levels|] == l;
    assert forall k :: 0 <= k < |levels| ==> more[k] == levels[k];
  }

  lemma SolvedAbove(levels: seq<Level>, g: Grid, cReady: bool, p: Field, t: Field, limit: nat, settled: bool)
    requires SolvedBy(levels, g, cReady, p, t, limit, settled)
    ensures Heating(g, p) ==> AboveAmbient(g, t)
    ensures settled ==> Steady(g, t, p, Adjacency.DELTA)
  {
    assert LevelOk(levels[|levels| - 1], TotalPower(g, p), Heating(g, p), limit);
  }

  // ---------- levels, by name only ----------

  type Runs = (seq<Level>, Grid, Field, Field, bool) -> bool

  ghost predicate Names(r: Runs, cReady: bool, limit: nat) {
    forall ls: seq<Level>, g: Grid, p: Field, t: Field, s: bool {:trigger SolvedBy(ls, g, cReady, p, t, limit, s)} ::
      SolvedBy(ls, g, cReady, p, t, limit, s) <==> r(ls, g, p, t, s)
  }

  lemma NamesOf(cReady: bool, limit: nat) returns (r: Runs)
    ensures Names(r, cReady, limit)
  {
    r := (ls: seq<Level>, g: Grid, p: Field, t: Field, s: bool) => SolvedBy(ls, g, cReady, p, t, limit, s);
  }

  lemma Named(r: Runs, cReady: bool, limit: nat, ls: seq<Level>, g: Grid, p: Field, t: Field, s: bool)
    requires Names(r, cReady, limit)
    ensures SolvedBy(ls, g, cReady, p, t, limit, s) <==> r(ls, g, p, t, s)
  {
  }

  /** The coarser levels have run, with the power of this one added up, and their result interpolated
      is where this level starts. */
  ghost predicate FromLevels(r: Runs, g: Grid, power: Field, start: Field, levels: seq<Level>, cReady: bool,
                             settled: bool, p: Field, t: Field)
  {
    var coarse := Coarser(g, cReady);
    && r(levels, coarse, p, t, settled) && Restricted(|coarse.layers|, coarse.rows, coarse.cols, p, power)
    && Interpolated(g, coarse, start, t)
  }

  /** Where a level starts: at the coarsest from heuristic temperatures. */
  ghost predicate Starts(r: Runs, g: Grid, power: Field, start: Field, levels: seq<Level>, cReady: bool,
                         settled: bool)
  {
    if levels == [] then settled && Coarsest(g, power, start)
    else exists p, t :: FromLevels(r, g, power, start, levels, cReady, settled, p, t)
  }

  lemma Began(r: Runs, g: Grid, power: Field, start: Field, levels: seq<Level>, cReady: bool, settled: bool, p: Field,
              t: Field)
    requires levels != [] && FromLevels(r, g, power, start, levels, cReady, settled, p, t)
    ensures Starts(r, g, power, start, levels, cReady, settled)
  {
  }

  lemma CoarsestDone(g: Grid, power: Field, start: Field, t: Field, cReady: bool, limit: nat, done: bool)
    requires Sound(g) && Coarsest(g, power, start) && Iterated(g, power, start, t, limit, done)
    ensures SolvedBy([Level(g, power, start, t, done)], g, cReady, power, t, limit, done)
  {
    if Heating(g, power) {
      HeuristicAbove(g, power);
      assert AboveAmbient(g, start);
    }
    IteratedEnds(g, power, start, t, limit, done);
    var l := Level(g, power, start, t, done);
    assert LevelOk(l, TotalPower(g, power), Heating(g, power), limit);
    assert [l][0] == l;
  }

  ghost predicate Halvable(g: Grid) {
    Sound(g) && PowerOfTwo(g.rows) && PowerOfTwo(g.cols)
  }

  lemma FinerDone(g: Grid, power: Field, start: Field, t: Field, levels: seq<Level>, cReady: bool, limit: nat,
                  settled: bool, done: bool, p: Field, ct: Field)
    requires Halvable(g) && g.rows > 1 && g.cols > 1 && PackagePassive(power)
    requires Above(Level(Coarser(g, cReady), p, ct, ct, true), g, power, start, cReady)
    requires SolvedBy(levels, Coarser(g, cReady), cReady, p, ct, limit, settled)
    requires Iterated(g, power, start, t, limit, done)
    ensures SolvedBy(levels + [Level(g, power, start, t, done)], g, cReady, power, t, limit, settled && done)
  {
    var coarse, l := Coarser(g, cReady), Level(g, power, start, t, done);
    var total, heating := TotalPower(g, power), Heating(g, power);
    PowersHalve(g.rows, g.cols);
    CoarseProblem(g, coarse, power, p, cReady);
    StartsAbove(g, power, start, levels, cReady, limit, settled, p, ct);
    IteratedEnds(g, power, start, t, limit, done);
    assert LevelOk(l, total, heating, limit);
    AllOkWeaker(levels, total, Heating(coarse, p), heating, limit);
    ChainGrows(levels, l, cReady, total, heating, limit);
    SettledGrows(levels, l);
  }

  lemma StartsAbove(g: Grid, power: Field, start: Field, levels: seq<Level>, cReady: bool, limit: nat, settled: bool,
                    p: Field, ct: Field)
    requires Halvable(g) && g.rows > 1 && g.cols > 1 && PackagePassive(power)
    requires Above(Level(Coarser(g, cReady), p, ct, ct, true), g, power, start, cReady)
    requires SolvedBy(levels, Coarser(g, cReady), cReady, p, ct, limit, settled)
    ensures Heating(g, power) ==> AboveAmbient(g, start)
  {
    var coarse := Coarser(g, cReady);
    PowersHalve(g.rows, g.cols);
    CoarseProblem(g, coarse, power, p, cReady);
    SolvedAbove(levels, coarse, cReady, p, ct, limit, settled);
    if Heating(g, power) {
      InterpolatedAbove(g, coarse, start, ct);
    }
  }

  lemma LevelDone(r: Runs, g: Grid, power: Field, start: Field, t: Field, levels: seq<Level>, cReady: bool, limit: nat,
                  settled: bool, done: bool)
    requires Names(r, cReady, limit) && Halvable(g) && PackagePassive(power)
    requires levels != [] ==> g.rows > 1 && g.cols > 1
    requires Starts(r, g, power, start, levels, cReady, settled) && Iterated(g, power, start, t, limit, done)
    ensures r(levels + [Level(g, power, start, t, done)], g, power, t, settled && done)
  {
    var l := Level(g, power, start, t, done);
    if levels == [] {
      CoarsestDone(g, power, start, t, cReady, limit, done);
      assert levels + [l] == [l];
    } else {
      var p: Field, ct: Field :| FromLevels(r, g, power, start, levels, cReady, settled, p, ct);
      Named(r, cReady, limit, levels, Coarser(g, cReady), p, ct, settled);
      FinerDone(g, power, start, t, levels, cReady, limit, settled, done, p, ct);
    }
    Named(r, cReady, limit, levels + [l], g, power, t, settled && done);
  }

  // ---------- the recursion ----------

  /** Makes the model coarser and sets up its problem. */
  method Descend(m: Model, power: Values) returns (coarsePower: Values, coarseTemp: Values)
    requires Sound(m.grid) && PowerOfTwo(m.grid.rows) && PowerOfTwo(m.grid.cols) && Fits(power, m.grid)
    requires PackagePassive(Held(m.grid, power))
    requires m.grid.rows > 1 && m.grid.cols > 1
    modifies m
    ensures m.grid == Coarser(old(m.grid), m.cReady) && Ready(m.grid, coarsePower, coarseTemp)
    ensures fresh(coarsePower.cuboid) && fresh(coarsePower.extra) && fresh(coarseTemp.cuboid) && fresh(coarseTemp.extra)
    ensures Restricted(|m.grid.layers|, m.grid.rows, m.grid.cols, Held(m.grid, coarsePower), old(Held(m.grid, power)))
    ensures old(m.grid.rows) % 2 == 0 && old(m.grid.cols) % 2 == 0
  {
    var g := m.grid;
    PowersHalve(g.rows, g.cols);
    MakeCoarser(m);
    coarsePower := Restrict(g, m.grid, power);
    CoarseProblem(g, m.grid, Held(g, power), Held(m.grid, coarsePower), m.cReady);
    coarseTemp := new Values(|m.grid.layers|, m.grid.rows, m.grid.cols);
  }

  /** Interpolates and restores the model. */
  method Ascend(m: Model, g: Grid, temp: Values, coarseTemp: Values)
    requires m.grid == Coarser(g, m.cReady) && g.rows % 2 == 0 && g.cols % 2 == 0 && g.rows > 1 && g.cols > 1
    requires Fits(temp, g) && Fits(coarseTemp, m.grid) && Separate(temp, coarseTemp)
    modifies m, temp.cuboid, temp.extra
    ensures m.grid == g && Interpolated(g, old(m.grid), Held(g, temp), old(Held(m.grid, coarseTemp)))
  {
    var coarse := m.grid;
    Prolong(g, coarse, temp, coarseTemp);
    RefinedCoarser(g, m.cReady);
    MakeFiner(m);
  }

  /** Solves on the coarser grid and interpolates; the model is restored. */
  method FromCoarser(m: Model, power: Values, temp: Values, limit: nat, ghost r: Runs)
    returns (settled: bool, ghost levels: seq<Level>)
    requires Ready(m.grid, power, temp) && m.grid.rows > 1 && m.grid.cols > 1 && Names(r, m.cReady, limit)
    modifies m, temp.cuboid, temp.extra
    ensures m.grid == old(m.grid) && levels != []
    ensures Starts(r, m.grid, Held(m.grid, power), Held(m.grid, temp), levels, m.cReady, settled)
    decreases m.grid.rows, 0
  {
    var g := m.grid;
    var coarsePower, coarseTemp := Descend(m, power);
    settled, levels := Nested(m, coarsePower, coarseTemp, limit, r);
    ghost var p, t := Held(m.grid, coarsePower), Held(m.grid, coarseTemp);
    Ascend(m, g, temp, coarseTemp);
    Began(r, g, Held(g, power), Held(g, temp), levels, m.cReady, settled, p, t);
  }

  /** Initial temperatures: at the coarsest level heuristic ones, else from a coarser level. */
  method Estimate(m: Model, power: Values, temp: Values, limit: nat, ghost r: Runs)
    returns (settled: bool, ghost levels: seq<Level>)
    requires Ready(m.grid, power, temp) && Names(r, m.cReady, limit)
    modifies m, temp.cuboid, temp.extra
    ensures m.grid == old(m.grid) && (levels != [] ==> m.grid.rows > 1 && m.grid.cols > 1)
    ensures Starts(r, m.grid, Held(m.grid, power), Held(m.grid, temp), levels, m.cReady, settled)
    decreases m.grid.rows, 1
  {
    var g := m.grid;
    if g.rows <= 1 || g.cols <= 1 {
      ghost var p := Held(g, power);
      HeldShows(g, power);
      SetHeuristic(g, power, temp, p);
      ShowsHeld(g, temp, Heuristic(g, p));
      settled, levels := true, [];
    } else {
      settled, levels := FromCoarser(m, power, temp, limit, r);
    }
  }

  method Nested(m: Model, power: Values, temp: Values, limit: nat, ghost r: Runs)
    returns (settled: bool, ghost levels: seq<Level>)
    requires Ready(m.grid, power, temp) && Names(r, m.cReady, limit)
    modifies m, temp.cuboid, temp.extra
    ensures m.grid == old(m.grid) && levels != []
    ensures r(levels, m.grid, Held(m.grid, power), Held(m.grid, temp), settled)
    decreases m.grid.rows, 2
  {
    ghost var coarser;
    settled, coarser := Estimate(m, power, temp, limit, r);
    ghost var start := Held(m.grid, temp);
    var done := Relax(m.grid, temp, power, limit);
    ghost var p, t := Held(m.grid, power), Held(m.grid, temp);
    LevelDone(r, m.grid, p, start, t, coarser, m.cReady, limit, settled, done);
    settled := settled && done;
    levels := coarser + [Level(m.grid, p, start, t, done)];
  }

  /** The steady temperatures by nested iteration. The model comes back as it was. Each level carries
      the power of the finer one, added up cell by cell, and starts from the coarser one's result,
      interpolated. With power everywhere non-negative no temperature is below ambient, and each level
      whose sweeping settled is balanced up to DELTA. */
  method RecursiveMultigrid(m: Model, power: Values, temp: Values, limit: nat)
    returns (settled: bool, ghost levels: seq<Level>)
    requires Ready(m.grid, power, temp)
    modifies m, temp.cuboid, temp.extra
    ensures m.grid == old(m.grid)
    ensures SolvedBy(levels, m.grid, m.cReady, Held(m.grid, power), Held(m.grid, temp), limit, settled)
  {
    ghost var r := NamesOf(m.cReady, limit);
    settled, levels := Nested(m, power, temp, limit, r);
    Named(r, m.cReady, limit, levels, m.grid, Held(m.grid, power), Held(m.grid, temp), settled);
  }
}
