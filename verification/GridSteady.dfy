/** Steady temperatures of the blocks by way of the grid: block powers to cells, nested iteration, cell
    temperatures back to blocks, for all layers of one flat vector. */
module GridSteady {
  import opened Tilings
  import opened Extents
  import opened BlockGrid
  import opened BlockLists
  import opened BlockTranslate
  import opened GridNetwork
  import opened SweepRuns
  import opened GridAgreement
  import opened MultigridRun
  import Adjacency
  import CellsToBlocks
  import GridSweep
  import Multigrid

  // ---------- the maps of all layers ----------

  /** Blocks of a layer, their lists for the cells and their ranges of cells. */
  datatype LayerMap = LayerMap(units: seq<Rect>, lists: array2<seq<Item>>, ranges: array<CellRange>)

  ghost predicate MapOk(c: Cells, m: LayerMap, s: Shares)
    reads m.lists, m.ranges
  {
    && IsMap(c, m.units, m.lists, s)
    && m.ranges.Length == |m.units| && Ranged(m.ranges[..], c, m.units, |m.units|)
  }

  function Objects(maps: seq<LayerMap>): set<object> {
    (set m | m in maps :: m.lists) + (set m | m in maps :: m.ranges)
  }

  ghost predicate MapsOk(c: Cells, maps: seq<LayerMap>, ss: seq<Shares>)
    reads Objects(maps)
  {
    |ss| == |maps| && forall n :: 0 <= n < |maps| ==> MapOk(c, maps[n], ss[n])
  }

  ghost predicate LayerInside(c: Cells, us: seq<Rect>) {
    AllInside(c, us, |us|)
  }

  /** Sets up the map of one layer. */
  method MapLayer(width: real, height: real, c: Cells, us: seq<Rect>) returns (ok: bool, m: LayerMap, ghost s: Shares)
    requires Proper(c) && Outline(c) == Rect(0.0, 0.0, width, height) && AllPositive(us)
    ensures fresh(m.lists) && fresh(m.ranges) && m.units == us
    ensures ok <==> LayerInside(c, us)
    ensures ok ==> MapOk(c, m, s)
  {
    s := FindShares(c, us);
    var lists := new seq<Item>[c.rows, c.cols];
    var ranges := new CellRange[|us|](_ => CellRange(0, 0, 0, 0));
    ok := SetBgmap(width, height, c, us, lists, ranges, s);
    m := LayerMap(us, lists, ranges);
  }

  /** Sets up the maps of all layers; it gives up exactly when a block sticks out of the chip. */
  method MapLayers(width: real, height: real, rows: nat, cols: nat, layers: seq<seq<Rect>>)
    returns (ok: bool, c: Cells, maps: seq<LayerMap>, ghost ss: seq<Shares>)
    requires width > 0.0 && height > 0.0 && rows >= 1 && cols >= 1
    requires forall n :: 0 <= n < |layers| ==> AllPositive(layers[n])
    ensures c.rows == rows && c.cols == cols && Proper(c) && Outline(c) == Rect(0.0, 0.0, width, height)
    ensures ok <==> forall n :: 0 <= n < |layers| ==> LayerInside(c, layers[n])
    ensures ok ==> |maps| == |layers| && MapsOk(c, maps, ss)
    ensures ok ==> forall n :: 0 <= n < |maps| ==> maps[n].units == layers[n]
  {
    Divided(width, height, rows, cols);
    c := Cells(rows, cols, width / cols as real, height / rows as real);
    maps, ss := [], [];
    for n := 0 to |layers|
      invariant |maps| == |ss| == n && MapsOk(c, maps, ss)
      invariant forall k :: 0 <= k < n ==> LayerInside(c, layers[k]) && maps[k].units == layers[k]
    {
      var m;
      ghost var s;
      ok, m, s := MapLayer(width, height, c, layers[n]);
      if !ok {
        return;
      }
      maps, ss := maps + [m], ss + [s];
    }
    ok := true;
  }

  // ---------- slices of the flat vector ----------

  /** Layer n occupies the vector of all blocks from starts[n] up to starts[n + 1]. */
  ghost predicate IsStart(maps: seq<LayerMap>, starts: seq<nat>, n: nat)
    requires n < |maps| && |starts| == |maps| + 1
  {
    starts[n + 1] == starts[n] + |maps[n].units|
  }

  ghost predicate AreStarts(maps: seq<LayerMap>, starts: seq<nat>) {
    && |starts| == |maps| + 1 && starts[0] == 0
    && forall n :: 0 <= n < |maps| ==> IsStart(maps, starts, n)
  }

  lemma StartsOf(maps: seq<LayerMap>) returns (starts: seq<nat>)
    ensures AreStarts(maps, starts)
  {
    starts := [0];
    while |starts| <= |maps|
      invariant 0 < |starts| <= |maps| + 1 && starts[0] == 0
      invariant forall n :: 0 <= n < |starts| - 1 ==> starts[n + 1] == starts[n] + |maps[n].units|
    {
      starts := starts + [starts[|starts| - 1] + |maps[|starts| - 1].units|];
    }
    assert forall n :: 0 <= n < |maps| ==> IsStart(maps, starts, n);
  }

  lemma {:induction false} StartsGrow(maps: seq<LayerMap>, starts: seq<nat>, m: nat, n: nat)
    requires AreStarts(maps, starts) && m <= n <= |maps|
    ensures starts[m] <= starts[n]
    decreases n
  {
    if m < n {
      StartsGrow(maps, starts, m, n - 1);
      assert IsStart(maps, starts, n - 1);
    }
  }

  lemma {:induction false} SumConcat(a: seq<real>, b: seq<real>)
    ensures Sum(a + b) == Sum(a) + Sum(b)
    decreases |b|
  {
    if b == [] {
      assert a + b == a;
    } else {
      SumConcat(a, b[..|b| - 1]);
      assert (a + b)[..|a + b| - 1] == a + b[..|b| - 1];
    }
  }

  // ---------- power ----------

  /** The cells of a layer hold the power b of its blocks. */
  ghost predicate LayerFilled(c: Cells, g: array2<real>, b: seq<real>)
    reads g
  {
    && g.Length0 == c.rows && g.Length1 == c.cols && TotalSum(g, c.rows) == Sum(b)
    && (NoneNegative(b) ==> forall i, j :: 0 <= i < c.rows && 0 <= j < c.cols ==> g[i, j] >= 0.0)
  }

  method LayerPower(c: Cells, width: real, height: real, m: LayerMap, b: seq<real>, ghost s: Shares)
    returns (g: array2<real>)
    requires MapOk(c, m, s) && |b| == |m.units| && Outline(c) == Rect(0.0, 0.0, width, height)
    ensures fresh(g) && LayerFilled(c, g, b)
  {
    g := new real[c.rows, c.cols];
    PowerToCells(c, width, height, m.units, m.lists, b, g, s);
  }

  /** b is part n of the vector. */
  ghost predicate IsPart(starts: seq<nat>, power: seq<real>, n: nat, b: seq<real>) {
    n + 1 < |starts| && starts[n] <= starts[n + 1] <= |power| && b == power[starts[n]..starts[n + 1]]
  }

  ghost predicate Parted(starts: seq<nat>, power: seq<real>, parts: seq<seq<real>>) {
    forall n :: 0 <= n < |parts| ==> IsPart(starts, power, n, parts[n])
  }

  ghost predicate Sizes(maps: seq<LayerMap>, parts: seq<seq<real>>) {
    |parts| <= |maps| && forall n :: 0 <= n < |parts| ==> |parts[n]| == |maps[n].units|
  }

  method Parts(maps: seq<LayerMap>, power: seq<real>, ghost starts: seq<nat>) returns (parts: seq<seq<real>>)
    requires AreStarts(maps, starts) && starts[|maps|] <= |power|
    ensures |parts| == |maps| && Sizes(maps, parts) && Parted(starts, power, parts)
  {
    parts := [];
    var base := 0;
    for n := 0 to |maps|
      invariant |parts| == n && base == starts[n] && Sizes(maps, parts) && Parted(starts, power, parts)
    {
      assert IsStart(maps, starts, n);
      StartsGrow(maps, starts, n + 1, |maps|);
      parts := parts + [power[base..base + |maps[n].units|]];
      base := base + |maps[n].units|;
    }
  }

  ghost predicate AllFilled(c: Cells, gs: seq<array2<real>>, parts: seq<seq<real>>)
    reads gs
  {
    |gs| <= |parts| && forall n :: 0 <= n < |gs| ==> LayerFilled(c, gs[n], parts[n])
  }

  /** The cell powers of all layers. */
  method LayerPowers(c: Cells, width: real, height: real, maps: seq<LayerMap>, parts: seq<seq<real>>,
                     ghost ss: seq<Shares>)
    returns (gs: seq<array2<real>>)
    requires MapsOk(c, maps, ss) && Outline(c) == Rect(0.0, 0.0, width, height)
    requires |parts| == |maps| && Sizes(maps, parts)
    ensures |gs| == |maps| && AllFilled(c, gs, parts)
  {
    gs := [];
    for n := 0 to |maps|
      invariant |gs| == n && AllFilled(c, gs, parts)
    {
      assert MapOk(c, maps[n], ss[n]);
      var g := LayerPower(c, width, height, maps[n], parts[n], ss[n]);
      gs := gs + [g];
    }
  }

  /** The layers hold the values of the field t. */
  ghost predicate Holds(m: array2<real>, rows: nat, cols: nat, t: Field, n: nat)
    reads m
  {
    && m.Length0 == rows && m.Length1 == cols
    && forall i, j :: 0 <= i < rows && 0 <= j < cols ==> m[i, j] == t(Cell(n, i, j))
  }

  ghost predicate Hold(gs: seq<array2<real>>, rows: nat, cols: nat, t: Field)
    reads gs
  {
    forall n :: 0 <= n < |gs| ==> Holds(gs[n], rows, cols, t, n)
  }

  lemma {:induction false} RowSumHeld(g: array2<real>, t: Field, n: nat, i: nat, m: nat)
    requires i < g.Length0 && m <= g.Length1 && forall j :: 0 <= j < g.Length1 ==> g[i, j] == t(Cell(n, i, j))
    ensures Multigrid.RowSum(t, n, i, m) == RowSum(g, i, m)
    decreases m
  {
    if m > 0 {
      RowSumHeld(g, t, n, i, m - 1);
    }
  }

  lemma {:induction false} LayerSumHeld(g: array2<real>, t: Field, n: nat, m: nat)
    requires m <= g.Length0
    requires forall i, j :: 0 <= i < g.Length0 && 0 <= j < g.Length1 ==> g[i, j] == t(Cell(n, i, j))
    ensures Multigrid.LayerSum(t, n, g.Length1, m) == TotalSum(g, m)
    decreases m
  {
    if m > 0 {
      LayerSumHeld(g, t, n, m - 1);
      RowSumHeld(g, t, n, m - 1, g.Length1);
    }
  }

  /** The power of the first m layers is that of their blocks. */
  lemma {:induction false} PowerOfLayers(c: Cells, gs: seq<array2<real>>, starts: seq<nat>, power: seq<real>,
                                         parts: seq<seq<real>>, t: Field, m: nat)
    requires m <= |gs| == |parts| && |starts| == |parts| + 1 && starts[0] == 0 && Parted(starts, power, parts)
    requires AllFilled(c, gs, parts) && Hold(gs, c.rows, c.cols, t)
    ensures starts[m] <= |power| && Multigrid.CellSum(t, c.rows, c.cols, m) == Sum(power[..starts[m]])
    decreases m
  {
    if m > 0 {
      var a := starts[m - 1];
      PowerOfLayers(c, gs, starts, power, parts, t, m - 1);
      assert Holds(gs[m - 1], c.rows, c.cols, t, m - 1);
      LayerSumHeld(gs[m - 1], t, m - 1, c.rows);
      assert LayerFilled(c, gs[m - 1], parts[m - 1]) && IsPart(starts, power, m - 1, parts[m - 1]);
      SumConcat(power[..a], parts[m - 1]);
      assert power[..a] + parts[m - 1] == power[..starts[m]];
    }
  }

  lemma CellsHeated(c: Cells, gs: seq<array2<real>>, starts: seq<nat>, power: seq<real>, parts: seq<seq<real>>,
                    t: Field, n: nat, i: nat, j: nat)
    requires n < |gs| == |parts| && Parted(starts, power, parts) && AllFilled(c, gs, parts)
    requires Hold(gs, c.rows, c.cols, t) && NoneNegative(power) && IsCell(c, i, j)
    ensures t(Cell(n, i, j)) >= 0.0
  {
    assert LayerFilled(c, gs[n], parts[n]) && IsPart(starts, power, n, parts[n]);
    assert Holds(gs[n], c.rows, c.cols, t, n);
    assert NoneNegative(parts[n]);
  }

  /** Copies all layers and clears the package nodes. */
  method Fill(g: Grid, p: GridSweep.Values, gs: seq<array2<real>>)
    requires GridSweep.Fits(p, g) && |gs| == |g.layers|
    requires forall n :: 0 <= n < |gs| ==> gs[n].Length0 == g.rows && gs[n].Length1 == g.cols
    modifies p.cuboid, p.extra
    ensures Hold(gs, g.rows, g.cols, Held(g, p)) && PackagePassive(Held(g, p))
  {
    forall n, i, j | 0 <= n < |g.layers| && 0 <= i < g.rows && 0 <= j < g.cols {
      p.cuboid[n, i, j] := gs[n][i, j];
    }
    forall k | 0 <= k < p.extra.Length {
      p.extra[k] := 0.0;
    }
    HeldShows(g, p);
  }

  ghost predicate Powered(g: Grid, p: Field, power: seq<real>) {
    && PackagePassive(p) && TotalPower(g, p) == Sum(power) && (NoneNegative(power) ==> Heating(g, p))
  }

  /** The cell powers of all layers from the flat vector. */
  method CellPowers(c: Cells, width: real, height: real, maps: seq<LayerMap>, power: seq<real>, ghost ss: seq<Shares>,
                    ghost starts: seq<nat>)
    returns (gs: seq<array2<real>>, ghost parts: seq<seq<real>>)
    requires MapsOk(c, maps, ss) && Outline(c) == Rect(0.0, 0.0, width, height)
    requires AreStarts(maps, starts) && starts[|maps|] == |power|
    ensures |gs| == |maps| == |parts| && Parted(starts, power, parts) && AllFilled(c, gs, parts)
    ensures forall n :: 0 <= n < |gs| ==> gs[n].Length0 == c.rows && gs[n].Length1 == c.cols
  {
    var ps := Parts(maps, power, starts);
    gs := LayerPowers(c, width, height, maps, ps, ss);
    assert forall n :: 0 <= n < |gs| ==> LayerFilled(c, gs[n], ps[n]);
    parts := ps;
  }

  /** The cells and package nodes of the whole grid hold the power of all blocks. */
  method PowerToGrid(g: Grid, c: Cells, width: real, height: real, maps: seq<LayerMap>, power: seq<real>,
                     ghost ss: seq<Shares>, ghost starts: seq<nat>)
    returns (p: GridSweep.Values)
    requires MapsOk(c, maps, ss) && Outline(c) == Rect(0.0, 0.0, width, height)
    requires AreStarts(maps, starts) && starts[|maps|] == |power|
    requires |maps| == |g.layers| && c.rows == g.rows && c.cols == g.cols
    ensures fresh(p.cuboid) && fresh(p.extra) && GridSweep.Fits(p, g) && Powered(g, Held(g, p), power)
  {
    var gs;
    ghost var parts;
    gs, parts := CellPowers(c, width, height, maps, power, ss, starts);
    p := NewFilled(g, gs);
    GridPowered(g, c, starts, power, parts, gs, Held(g, p));
  }

  method NewFilled(g: Grid, gs: seq<array2<real>>) returns (p: GridSweep.Values)
    requires |gs| == |g.layers|
    requires forall n :: 0 <= n < |gs| ==> gs[n].Length0 == g.rows && gs[n].Length1 == g.cols
    ensures fresh(p.cuboid) && fresh(p.extra) && GridSweep.Fits(p, g)
    ensures Hold(gs, g.rows, g.cols, Held(g, p)) && PackagePassive(Held(g, p))
  {
    p := new GridSweep.Values(|g.layers|, g.rows, g.cols);
    Fill(g, p, gs);
  }

  lemma GridPowered(g: Grid, c: Cells, starts: seq<nat>, power: seq<real>, parts: seq<seq<real>>,
                    gs: seq<array2<real>>, t: Field)
    requires |gs| == |g.layers| == |parts| && c.rows == g.rows && c.cols == g.cols && |starts| == |parts| + 1
    requires starts[0] == 0 && starts[|parts|] == |power| && Parted(starts, power, parts)
    requires AllFilled(c, gs, parts) && Hold(gs, c.rows, c.cols, t) && PackagePassive(t)
    ensures Powered(g, t, power)
  {
    PowerOfLayers(c, gs, starts, power, parts, t, |parts|);
    assert power[..|power|] == power;
    if NoneNegative(power) {
      forall a | IsNode(g, a)
        ensures t(a) >= 0.0
      {
        if a.Cell? {
          CellsHeated(c, gs, starts, power, parts, t, a.n, a.i, a.j);
        }
      }
    }
  }

  // ---------- temperature ----------

  /** The cells of one layer. */
  method LayerOf(g: Grid, v: GridSweep.Values, n: nat, ghost t: Field) returns (m: array2<real>)
    requires GridSweep.Shows(v, g, t) && n < |g.layers|
    ensures fresh(m) && Holds(m, g.rows, g.cols, t, n)
  {
    m := new real[g.rows, g.cols];
    forall i, j | 0 <= i < g.rows && 0 <= j < g.cols {
      m[i, j] := v.cuboid[n, i, j];
    }
  }

  ghost predicate NoneBelow(m: array2<real>, lo: real)
    reads m
  {
    forall i, j :: 0 <= i < m.Length0 && 0 <= j < m.Length1 ==> m[i, j] >= lo
  }

  lemma {:induction false} RowTop(m: array2<real>, i: nat, k: nat) returns (hi: real)
    requires i < m.Length0 && k <= m.Length1
    ensures forall j :: 0 <= j < k ==> m[i, j] <= hi
    decreases k
  {
    hi := 0.0;
    if k > 0 {
      hi := RowTop(m, i, k - 1);
      hi := if hi < m[i, k - 1] then m[i, k - 1] else hi;
    }
  }

  lemma {:induction false} Top(m: array2<real>, n: nat) returns (hi: real)
    requires n <= m.Length0
    ensures forall i, j :: 0 <= i < n && 0 <= j < m.Length1 ==> m[i, j] <= hi
    decreases n
  {
    hi := 0.0;
    if n > 0 {
      var above := Top(m, n - 1);
      var row := RowTop(m, n - 1, m.Length1);
      hi := if above < row then row else above;
    }
  }

  /** No mode gives a block less than the lowest of its cells. */
  lemma BlockNotBelow(m: array2<real>, r: CellRange, mode: CellsToBlocks.MapMode, t: real, lo: real)
    requires CellsToBlocks.BlockOk(m, r, mode, t) && NoneBelow(m, lo)
    ensures t >= lo
  {
    var hi := Top(m, m.Length0);
    assert CellsToBlocks.Bounded(m, r, lo, hi);
  }

  /** The temperatures are what the mode makes of the cells in the ranges. */
  ghost predicate LayerMapped(m: array2<real>, ranges: seq<CellRange>, mode: CellsToBlocks.MapMode, temps: seq<real>)
    reads m
  {
    |temps| <= |ranges| && forall u :: 0 <= u < |temps| ==> CellsToBlocks.BlockOk(m, ranges[u], mode, temps[u])
  }

  /** r are the ranges of a layer's blocks. */
  ghost predicate LayerRanged(c: Cells, lm: LayerMap, r: seq<CellRange>)
    reads lm.ranges
  {
    r == lm.ranges[..] && |r| == |lm.units| && Ranged(r, c, lm.units, |lm.units|)
  }

  /** Temperatures of the blocks of one layer. */
  method LayerTemps(c: Cells, m: array2<real>, lm: LayerMap, mode: CellsToBlocks.MapMode, ghost r: seq<CellRange>)
    returns (temps: seq<real>)
    requires m.Length0 == c.rows && m.Length1 == c.cols && LayerRanged(c, lm, r)
    ensures |temps| == |lm.units| && LayerMapped(m, r, mode, temps)
  {
    temps := [];
    for u := 0 to |lm.units|
      invariant |temps| == u && LayerMapped(m, r, mode, temps)
    {
      assert IsRangeOf(c, lm.units[u], r[u]);
      var t := CellsToBlocks.BlockTemp(m, lm.ranges[u], mode);
      temps := temps + [t];
    }
  }

  /** parts[n] are the temperatures of layer n's blocks, from cells ms[n] in ranges rs[n]. */
  ghost predicate AllMapped(ms: seq<array2<real>>, rs: seq<seq<CellRange>>, mode: CellsToBlocks.MapMode,
                            parts: seq<seq<real>>)
    reads ms
  {
    |parts| <= |ms| <= |rs| && forall n :: 0 <= n < |parts| ==> LayerMapped(ms[n], rs[n], mode, parts[n])
  }

  lemma OneMoreMapped(ms: seq<array2<real>>, rs: seq<seq<CellRange>>, mode: CellsToBlocks.MapMode,
                      parts: seq<seq<real>>, temps: seq<real>)
    requires AllMapped(ms, rs, mode, parts) && |parts| < |ms|
    requires LayerMapped(ms[|parts|], rs[|parts|], mode, temps)
    ensures AllMapped(ms, rs, mode, parts + [temps])
  {
  }

  ghost predicate RangesAre(c: Cells, maps: seq<LayerMap>, rs: seq<seq<CellRange>>)
    reads Objects(maps)
  {
    |rs| == |maps| && forall n :: 0 <= n < |maps| ==> LayerRanged(c, maps[n], rs[n])
  }

  /** The cells of all layers. */
  method LayersOf(g: Grid, v: GridSweep.Values, ghost t: Field) returns (ms: seq<array2<real>>)
    requires GridSweep.Shows(v, g, t)
    ensures |ms| == |g.layers| && Hold(ms, g.rows, g.cols, t)
  {
    ms := [];
    for n := 0 to |g.layers|
      invariant |ms| == n && Hold(ms, g.rows, g.cols, t)
    {
      var m := LayerOf(g, v, n, t);
      ms := ms + [m];
    }
  }

  /** Temperatures of the blocks of all layers. */
  method BlockTemps(g: Grid, c: Cells, ms: seq<array2<real>>, maps: seq<LayerMap>, mode: CellsToBlocks.MapMode,
                    ghost t: Field, ghost rs: seq<seq<CellRange>>)
    returns (parts: seq<seq<real>>)
    requires |ms| == |maps| && Hold(ms, g.rows, g.cols, t) && RangesAre(c, maps, rs)
    requires c.rows == g.rows && c.cols == g.cols
    ensures |parts| == |maps| && Sizes(maps, parts) && AllMapped(ms, rs, mode, parts)
  {
    parts := [];
    for n := 0 to |maps|
      invariant |parts| == n && Sizes(maps, parts) && AllMapped(ms, rs, mode, parts)
    {
      assert LayerRanged(c, maps[n], rs[n]) && Holds(ms[n], g.rows, g.cols, t, n);
      var temps := LayerTemps(c, ms[n], maps[n], mode, rs[n]);
      OneMoreMapped(ms, rs, mode, parts, temps);
      parts := parts + [temps];
    }
  }

  lemma PartNotBelow(m: array2<real>, ranges: seq<CellRange>, mode: CellsToBlocks.MapMode, temps: seq<real>, lo: real)
    requires LayerMapped(m, ranges, mode, temps) && NoneBelow(m, lo)
    ensures forall u :: 0 <= u < |temps| ==> temps[u] >= lo
  {
    forall u | 0 <= u < |temps|
      ensures temps[u] >= lo
    {
      BlockNotBelow(m, ranges[u], mode, temps[u], lo);
    }
  }

  lemma LayerNotBelow(g: Grid, m: array2<real>, t: Field, n: nat, lo: real)
    requires Holds(m, g.rows, g.cols, t, n) && n < |g.layers| && forall a :: IsNode(g, a) ==> t(a) >= lo
    ensures NoneBelow(m, lo)
  {
    forall i, j | 0 <= i < m.Length0 && 0 <= j < m.Length1
      ensures m[i, j] >= lo
    {
      assert IsNode(g, Cell(n, i, j));
    }
  }

  /** Writes the parts one behind the other and the package nodes behind them. */
  method WriteAll(temps: array<real>, parts: seq<seq<real>>, extra: array<real>, maps: seq<LayerMap>,
                  ghost starts: seq<nat>)
    requires |parts| == |maps| && Sizes(maps, parts) && AreStarts(maps, starts)
    requires temps != extra && temps.Length == starts[|maps|] + extra.Length
    modifies temps
    ensures Parted(starts, temps[..], parts) && temps[starts[|maps|]..] == extra[..]
  {
    var base := WriteParts(temps, parts, maps, starts);
    WriteExtras(temps, base, extra, maps, parts, starts);
  }

  method WriteParts(temps: array<real>, parts: seq<seq<real>>, maps: seq<LayerMap>, ghost starts: seq<nat>)
    returns (base: nat)
    requires |parts| == |maps| && Sizes(maps, parts) && AreStarts(maps, starts) && starts[|maps|] <= temps.Length
    modifies temps
    ensures base == starts[|maps|] && Parted(starts, temps[..], parts)
  {
    base := 0;
    ghost var done: seq<seq<real>> := [];
    for n := 0 to |maps|
      invariant |done| == n && done == parts[..n] && base == starts[n] && Parted(starts, temps[..], done)
    {
      assert IsStart(maps, starts, n);
      StartsGrow(maps, starts, n + 1, |maps|);
      base := WriteNext(temps, base, parts[n], maps, done, starts);
      done := done + [parts[n]];
    }
    assert done == parts;
  }

  /** One more part. */
  method WriteNext(temps: array<real>, base: nat, part: seq<real>, ghost maps: seq<LayerMap>,
                   ghost done: seq<seq<real>>, ghost starts: seq<nat>)
    returns (base': nat)
    requires AreStarts(maps, starts) && |done| < |maps| && base == starts[|done|]
    requires base + |part| == starts[|done| + 1] <= temps.Length && Parted(starts, temps[..], done)
    modifies temps
    ensures base' == starts[|done| + 1] && Parted(starts, temps[..], done + [part])
  {
    ghost var before := temps[..];
    WritePart(temps, base, part);
    ghost var after := temps[..];
    assert before[..base] == after[..base] && after[base..base + |part|] == part;
    PartedStays(maps, starts, before, after, done);
    base' := base + |part|;
  }

  method WriteExtras(temps: array<real>, base: nat, extra: array<real>, ghost maps: seq<LayerMap>,
                     ghost parts: seq<seq<real>>, ghost starts: seq<nat>)
    requires AreStarts(maps, starts) && |parts| == |maps| && base == starts[|maps|] && temps != extra
    requires base + extra.Length == temps.Length && Parted(starts, temps[..], parts)
    modifies temps
    ensures Parted(starts, temps[..], parts) && temps[base..] == extra[..]
  {
    ghost var before := temps[..];
    WritePart(temps, base, extra[..]);
    ghost var after := temps[..];
    assert before[..base] == after[..base];
    PartedStays(maps, starts, before, after, parts);
  }

  method WritePart(temps: array<real>, base: nat, part: seq<real>)
    requires base + |part| <= temps.Length
    modifies temps
    ensures temps[..base] == old(temps[..base]) && temps[base..base + |part|] == part
  {
    for u := 0 to |part|
      invariant temps[..base] == old(temps[..base]) && temps[base..base + u] == part[..u]
    {
      temps[base + u] := part[u];
    }
  }

  /** Writing behind parts leaves them. */
  lemma PartedStays(maps: seq<LayerMap>, starts: seq<nat>, a: seq<real>, b: seq<real>, parts: seq<seq<real>>)
    requires AreStarts(maps, starts) && |parts| <= |maps| && Parted(starts, a, parts)
    requires starts[|parts|] <= |a| == |b| && a[..starts[|parts|]] == b[..starts[|parts|]]
    ensures Parted(starts, b, parts)
  {
    forall n | 0 <= n < |parts|
      ensures IsPart(starts, b, n, parts[n])
    {
      assert IsPart(starts, a, n, parts[n]);
      StartsGrow(maps, starts, n + 1, |parts|);
      SamePart(a, b, starts[n], starts[n + 1], starts[|parts|]);
    }
  }

  lemma SamePart(a: seq<real>, b: seq<real>, lo: nat, hi: nat, base: nat)
    requires lo <= hi <= base <= |a| == |b| && a[..base] == b[..base]
    ensures a[lo..hi] == b[lo..hi]
  {
    assert a[lo..hi] == a[..base][lo..hi] && b[lo..hi] == b[..base][lo..hi];
  }

  /** Every position before the package nodes lies in some part. */
  lemma {:induction false} Located(maps: seq<LayerMap>, starts: seq<nat>, m: nat, k: nat) returns (n: nat)
    requires AreStarts(maps, starts) && m <= |maps| && k < starts[m]
    ensures n < m && starts[n] <= k < starts[n + 1]
    decreases m
  {
    if k < starts[m - 1] {
      n := Located(maps, starts, m - 1, k);
    } else {
      n := m - 1;
    }
  }

  lemma InPart(starts: seq<nat>, temps: seq<real>, n: nat, part: seq<real>, k: nat, lo: real)
    requires IsPart(starts, temps, n, part) && starts[n] <= k < starts[n + 1]
    requires forall u :: 0 <= u < |part| ==> part[u] >= lo
    ensures k < |temps| && temps[k] >= lo
  {
    assert temps[k] == part[k - starts[n]];
  }

  lemma PartsNotBelow(g: Grid, mode: CellsToBlocks.MapMode, ms: seq<array2<real>>, rs: seq<seq<CellRange>>,
                      parts: seq<seq<real>>, t: Field, lo: real, n: nat)
    requires n < |parts| == |g.layers| == |ms| && AllMapped(ms, rs, mode, parts) && Hold(ms, g.rows, g.cols, t)
    requires forall a :: IsNode(g, a) ==> t(a) >= lo
    ensures forall u :: 0 <= u < |parts[n]| ==> parts[n][u] >= lo
  {
    assert Holds(ms[n], g.rows, g.cols, t, n) && LayerMapped(ms[n], rs[n], mode, parts[n]);
    LayerNotBelow(g, ms[n], t, n, lo);
    PartNotBelow(ms[n], rs[n], mode, parts[n], lo);
  }

  /** Where no node is below lo, no temperature of a block is. */
  lemma NothingBelow(g: Grid, maps: seq<LayerMap>, mode: CellsToBlocks.MapMode, ms: seq<array2<real>>,
                     rs: seq<seq<CellRange>>, parts: seq<seq<real>>, temps: seq<real>, starts: seq<nat>, t: Field,
                     lo: real, k: nat)
    requires |maps| == |g.layers| == |parts| == |ms| && AllMapped(ms, rs, mode, parts)
    requires Hold(ms, g.rows, g.cols, t)
    requires AreStarts(maps, starts) && Parted(starts, temps, parts) && k < starts[|maps|] <= |temps|
    requires forall a :: IsNode(g, a) ==> t(a) >= lo
    ensures temps[k] >= lo
  {
    var n := Located(maps, starts, |maps|, k);
    PartsNotBelow(g, mode, ms, rs, parts, t, lo, n);
    assert IsPart(starts, temps, n, parts[n]);
    InPart(starts, temps, n, parts[n], k, lo);
  }

  /** What the flat vector of temperatures holds. */
  ghost predicate TempsAre(g: Grid, maps: seq<LayerMap>, mode: CellsToBlocks.MapMode, ms: seq<array2<real>>,
                           rs: seq<seq<CellRange>>, parts: seq<seq<real>>, temps: seq<real>, starts: seq<nat>, t: Field)
    reads ms
  {
    && |maps| == |g.layers| == |parts| == |ms| && AllMapped(ms, rs, mode, parts) && Hold(ms, g.rows, g.cols, t)
    && Sizes(maps, parts) && AreStarts(maps, starts) && Parted(starts, temps, parts)
    && starts[|maps|] + EXTRA == |temps| && forall k :: 0 <= k < EXTRA ==> temps[starts[|maps|] + k] == t(Extra(k))
  }

  lemma TempsAbove(g: Grid, maps: seq<LayerMap>, mode: CellsToBlocks.MapMode, ms: seq<array2<real>>,
                   rs: seq<seq<CellRange>>, parts: seq<seq<real>>, temps: seq<real>, starts: seq<nat>, t: Field)
    requires TempsAre(g, maps, mode, ms, rs, parts, temps, starts, t) && AboveAmbient(g, t)
    ensures forall k :: 0 <= k < |temps| ==> temps[k] >= g.ambient
  {
    var total := starts[|maps|];
    forall k | 0 <= k < |temps|
      ensures temps[k] >= g.ambient
    {
      if k < total {
        NothingBelow(g, maps, mode, ms, rs, parts, temps, starts, t, g.ambient, k);
      } else {
        assert IsNode(g, Extra(k - total)) && temps[k] == temps[total + (k - total)];
      }
    }
  }

  /** Temperatures of all blocks and then of the package nodes. */
  method TempsToBlocks(g: Grid, c: Cells, v: GridSweep.Values, maps: seq<LayerMap>, mode: CellsToBlocks.MapMode,
                       temps: array<real>, ghost t: Field, ghost rs: seq<seq<CellRange>>, ghost starts: seq<nat>)
    returns (ghost ms: seq<array2<real>>, ghost parts: seq<seq<real>>)
    requires GridSweep.Shows(v, g, t) && |maps| == |g.layers| && c.rows == g.rows
    requires AreStarts(maps, starts) && temps.Length == starts[|maps|] + EXTRA && temps != v.extra
    requires c.cols == g.cols && RangesAre(c, maps, rs)
    modifies temps
    ensures TempsAre(g, maps, mode, ms, rs, parts, temps[..], starts, t)
  {
    var layers := LayersOf(g, v, t);
    var ps := BlockTemps(g, c, layers, maps, mode, t, rs);
    WriteAll(temps, ps, v.extra, maps, starts);
    ms, parts := layers, ps;
    ExtrasAre(temps[..], starts[|maps|], v.extra[..], t);
  }

  lemma ExtrasAre(temps: seq<real>, total: nat, extra: seq<real>, t: Field)
    requires total + EXTRA == |temps| && |extra| == EXTRA && temps[total..] == extra
    requires forall k :: 0 <= k < EXTRA ==> extra[k] == t(Extra(k))
    ensures forall k :: 0 <= k < EXTRA ==> temps[total + k] == t(Extra(k))
  {
    forall k | 0 <= k < EXTRA
      ensures temps[total + k] == t(Extra(k))
    {
      assert temps[total + k] == temps[total..][k];
    }
  }

  // ---------- from block powers to block temperatures ----------

  /** Package nodes have no power of their own. */
  method ClearExtras(power: array<real>, total: nat)
    requires total + EXTRA == power.Length
    modifies power
    ensures power[..total] == old(power[..total]) && forall k :: total <= k < power.Length ==> power[k] == 0.0
  {
    for k := 0 to EXTRA
      invariant power[..total] == old(power[..total]) && forall l :: total <= l < total + k ==> power[l] == 0.0
    {
      power[total + k] := 0.0;
    }
  }

  /** Everything the run needs of the model and its maps. */
  ghost predicate Prepared(g: Grid, c: Cells, width: real, height: real, maps: seq<LayerMap>, ss: seq<Shares>,
                           last: GridSweep.Values)
    reads Objects(maps)
  {
    && Sound(g) && PowerOfTwo(g.rows) && PowerOfTwo(g.cols) && |maps| == |g.layers| && c.rows == g.rows
    && c.cols == g.cols && Outline(c) == Rect(0.0, 0.0, width, height) && MapsOk(c, maps, ss)
    && GridSweep.Fits(last, g)
  }

  lemma RangesOf(c: Cells, maps: seq<LayerMap>, ss: seq<Shares>) returns (rs: seq<seq<CellRange>>)
    requires MapsOk(c, maps, ss)
    ensures RangesAre(c, maps, rs)
  {
    assert forall n :: 0 <= n < |maps| ==> MapOk(c, maps[n], ss[n]);
    rs := seq(|maps|, n requires 0 <= n < |maps| reads Objects(maps) => maps[n].ranges[..]);
  }

  /** Solves the grid for the powers of all blocks. */
  method Solve(model: Model, c: Cells, width: real, height: real, maps: seq<LayerMap>, power: seq<real>,
               last: GridSweep.Values, limit: nat, ghost ss: seq<Shares>, ghost starts: seq<nat>)
    returns (settled: bool, ghost p: Field, ghost levels: seq<Level>)
    requires Prepared(model.grid, c, width, height, maps, ss, last)
    requires AreStarts(maps, starts) && |power| == starts[|maps|]
    modifies model, last.cuboid, last.extra
    ensures model.grid == old(model.grid) && Powered(model.grid, p, power)
    ensures SolvedBy(levels, model.grid, model.cReady, p, Held(model.grid, last), limit, settled)
    ensures settled ==> Steady(model.grid, Held(model.grid, last), p, Adjacency.DELTA)
    ensures NoneNegative(power) ==> AboveAmbient(model.grid, Held(model.grid, last))
  {
    var cells := PowerToGrid(model.grid, c, width, height, maps, power, ss, starts);
    p := Held(model.grid, cells);
    settled, levels := RecursiveMultigrid(model, cells, last, limit);
    SolvedAbove(levels, model.grid, model.cReady, p, Held(model.grid, last), limit, settled);
  }

  /** Steady temperatures of all blocks and package nodes. The power of the blocks arrives in the grid
      undiminished, the grid is balanced up to DELTA once sweeping has settled, each block gets what the
      mode makes of its cells, and with no negative power nothing is below ambient, in any mode. */
  method SteadyState(model: Model, c: Cells, width: real, height: real, maps: seq<LayerMap>, power: array<real>,
                     temps: array<real>, last: GridSweep.Values, mode: CellsToBlocks.MapMode, limit: nat, total: nat,
                     ghost ss: seq<Shares>, ghost starts: seq<nat>)
    returns (settled: bool, ghost p: Field, ghost t: Field, ghost ms: seq<array2<real>>,
             ghost rs: seq<seq<CellRange>>, ghost parts: seq<seq<real>>, ghost levels: seq<Level>)
    requires Prepared(model.grid, c, width, height, maps, ss, last)
    requires AreStarts(maps, starts) && total == starts[|maps|]
    requires power.Length == temps.Length == total + EXTRA && power != temps
    requires temps != last.extra && power != last.extra
    modifies model, power, temps, last.cuboid, last.extra
    ensures model.grid == old(model.grid) && power[..total] == old(power[..total])
    ensures Powered(model.grid, p, old(power[..total])) && RangesAre(c, maps, rs)
    ensures SolvedBy(levels, model.grid, model.cReady, p, t, limit, settled)
    ensures settled ==> Steady(model.grid, t, p, Adjacency.DELTA)
    ensures TempsAre(model.grid, maps, mode, ms, rs, parts, temps[..], starts, t)
    ensures NoneNegative(old(power[..total])) ==> forall k :: 0 <= k < temps.Length ==> temps[k] >= model.grid.ambient
  {
    ClearExtras(power, total);
    ghost var b := power[..total];
    settled, p, levels := Solve(model, c, width, height, maps, power[..total], last, limit, ss, starts);
    rs := RangesOf(c, maps, ss);
    t, ms, parts := ReadBack(model.grid, c, last, maps, mode, temps, rs, starts);
    assert power[..total] == b;
    if NoneNegative(b) {
      TempsAbove(model.grid, maps, mode, ms, rs, parts, temps[..], starts, t);
    }
  }

  method ReadBack(g: Grid, c: Cells, last: GridSweep.Values, maps: seq<LayerMap>, mode: CellsToBlocks.MapMode,
                  temps: array<real>, ghost rs: seq<seq<CellRange>>, ghost starts: seq<nat>)
    returns (ghost t: Field, ghost ms: seq<array2<real>>, ghost parts: seq<seq<real>>)
    requires GridSweep.Fits(last, g) && |maps| == |g.layers| && c.rows == g.rows
    requires AreStarts(maps, starts) && temps.Length == starts[|maps|] + EXTRA && temps != last.extra
    requires c.cols == g.cols && RangesAre(c, maps, rs)
    modifies temps
    ensures t == Held(g, last) && TempsAre(g, maps, mode, ms, rs, parts, temps[..], starts, t)
  {
    t := Held(g, last);
    HeldShows(g, last);
    ms, parts := TempsToBlocks(g, c, last, maps, mode, temps, t, rs, starts);
  }
}
