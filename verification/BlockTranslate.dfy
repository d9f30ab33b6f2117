/** Power and temperature from blocks to cells, and temperature back, for one layer. */
module BlockTranslate {
  import opened Tilings
  import opened Extents
  import opened CellRanges
  import opened BlockGrid
  import opened BlockLists
  import opened BlockSums

  // ---------- blocks to cells ----------

  /** The value of a block that a cell averages: power density, or temperature. */
  ghost predicate IsValue(us: seq<Rect>, b: seq<real>, power: bool, f: nat -> real) {
    && |b| == |us| && AllPositive(us)
    && forall k :: 0 <= k < |us| ==> if power then f(k) == b[k] / AreaOf(us[k]) else f(k) == b[k]
  }

  ghost predicate InList(list: seq<Item>, n: nat) {
    forall k :: 0 <= k < |list| ==> list[k].idx < n
  }

  lemma {:induction false} ListInRange(s: Shares, area: real, n: nat, i: nat, j: nat, list: seq<Item>)
    requires IsList(s, area, n, i, j, list)
    ensures InList(list, n)
    decreases n
  {
    if n > 0 {
      ListInRange(s, area, n - 1, i, j, if s(n - 1, i, j) > 0.0 then list[..|list| - 1] else list);
    }
  }

  lemma Quotients(o: real, v: real, a: real)
    requires a != 0.0
    ensures o * v / a == o * (v / a)
  {
    assert o * v / a == o * v * (1.0 / a);
    assert v / a == v * (1.0 / a);
  }

  /** Average over the blocks in a cell, weighted by their occupancies. */
  method BlistAvg(list: seq<Item>, us: seq<Rect>, b: seq<real>, power: bool, ghost f: nat -> real) returns (val: real)
    requires InList(list, |us|) && IsValue(us, b, power, f)
    ensures val == Weighted(list, f)
  {
    val := 0.0;
    for n := 0 to |list|
      invariant val == Weighted(list[..n], f)
    {
      var e := list[n];
      assert list[..n + 1][..n] == list[..n] && PositiveRect(us[e.idx]);
      var part := PartOf(e, us[e.idx], b[e.idx], power);
      val := val + part;
    }
    assert list[..|list|] == list;
  }

  method PartOf(e: Item, u: Rect, v: real, power: bool) returns (part: real)
    requires PositiveRect(u)
    ensures part == e.occupancy * if power then v / AreaOf(u) else v
  {
    if power {
      ProductSign(u.width, u.height);
      Quotients(e.occupancy, v, u.width * u.height);
      part := e.occupancy * v / (u.width * u.height);
    } else {
      part := e.occupancy * v;
    }
  }

  /** What a cell gets: the average of its list, scaled. */
  ghost predicate IsAverage(list: seq<Item>, f: nat -> real, scale: real, x: real) {
    x == Weighted(list, f) * scale
  }

  /** What cells get, by name only. */
  type Getting = (seq<Item>, real) -> bool

  ghost predicate Gets(want: Getting, f: nat -> real, scale: real) {
    forall list, x {:trigger IsAverage(list, f, scale, x)} :: IsAverage(list, f, scale, x) ==> want(list, x)
  }

  ghost predicate Averaged(g: array2<real>, c: Cells, lists: array2<seq<Item>>, want: Getting, a: nat, b: nat)
    requires g.Length0 == c.rows && g.Length1 == c.cols && Fits(lists, c)
    reads g, lists
  {
    forall i, j :: 0 <= i < c.rows && 0 <= j < c.cols && (i < a || (i == a && j < b)) ==> want(lists[i, j], g[i, j])
  }

  method CellValue(list: seq<Item>, us: seq<Rect>, b: seq<real>, power: bool, scale: real, ghost f: nat -> real,
                   ghost want: Getting)
    returns (x: real)
    requires InList(list, |us|) && IsValue(us, b, power, f) && Gets(want, f, scale)
    ensures want(list, x)
  {
    var avg := BlistAvg(list, us, b, power, f);
    x := avg * scale;
    assert IsAverage(list, f, scale, x);
  }

  /** Each cell gets the average over its blocks, scaled. */
  method ToCells(c: Cells, us: seq<Rect>, lists: array2<seq<Item>>, b: seq<real>, power: bool, scale: real,
                 g: array2<real>, ghost f: nat -> real, ghost want: Getting)
    requires g.Length0 == c.rows && g.Length1 == c.cols && Fits(lists, c) && IsValue(us, b, power, f)
    requires Gets(want, f, scale)
    requires forall i, j :: 0 <= i < c.rows && 0 <= j < c.cols ==> InList(lists[i, j], |us|)
    modifies g
    ensures Averaged(g, c, lists, want, c.rows, 0)
  {
    for i := 0 to c.rows
      invariant Averaged(g, c, lists, want, i, 0)
    {
      for j := 0 to c.cols
        invariant Averaged(g, c, lists, want, i, j)
      {
        var x := CellValue(lists[i, j], us, b, power, scale, f, want);
        g[i, j] := x;
      }
    }
  }

  /** The average of every cell, scaled, in terms of the areas shared with it. */
  method Translate(c: Cells, us: seq<Rect>, lists: array2<seq<Item>>, b: seq<real>, power: bool, scale: real,
                   g: array2<real>, ghost f: nat -> real, ghost s: Shares)
    requires IsMap(c, us, lists, s) && IsValue(us, b, power, f) && g.Length0 == c.rows && g.Length1 == c.cols
    modifies g
    ensures forall i, j :: 0 <= i < c.rows && 0 <= j < c.cols ==> IsAverage(lists[i, j], f, scale, g[i, j])
  {
    forall i, j | 0 <= i < c.rows && 0 <= j < c.cols
      ensures InList(lists[i, j], |us|)
    {
      ListAt(c, us, lists, s, i, j);
    }
    ghost var want: Getting := (list: seq<Item>, x: real) => IsAverage(list, f, scale, x);
    ToCells(c, us, lists, b, power, scale, g, f, want);
    forall i, j | 0 <= i < c.rows && 0 <= j < c.cols
      ensures IsAverage(lists[i, j], f, scale, g[i, j])
    {
      assert want(lists[i, j], g[i, j]);
    }
  }

  // ---------- power ----------

  /** Sum over all cells. */
  ghost function RowSum(g: array2<real>, i: nat, m: nat): real
    requires i < g.Length0 && m <= g.Length1
    reads g
  {
    if m == 0 then 0.0 else RowSum(g, i, m - 1) + g[i, m - 1]
  }

  ghost function TotalSum(g: array2<real>, m: nat): real
    requires m <= g.Length0
    reads g
  {
    if m == 0 then 0.0 else TotalSum(g, m - 1) + RowSum(g, m - 1, g.Length1)
  }

  lemma {:induction false} RowSumIs(g: array2<real>, s: Shares, f: nat -> real, n: nat, i: nat, m: nat)
    requires i < g.Length0 && m <= g.Length1
    requires forall j :: 0 <= j < g.Length1 ==> g[i, j] == WeightedShares(s, f, n, i, j)
    ensures RowSum(g, i, m) == RowTotal(s, f, n, i, m)
    decreases m
  {
    if m > 0 {
      RowSumIs(g, s, f, n, i, m - 1);
    }
  }

  lemma {:induction false} TotalSumIs(g: array2<real>, s: Shares, f: nat -> real, n: nat, m: nat)
    requires m <= g.Length0
    requires forall i, j :: 0 <= i < g.Length0 && 0 <= j < g.Length1 ==> g[i, j] == WeightedShares(s, f, n, i, j)
    ensures TotalSum(g, m) == CellsTotal(s, f, n, g.Length1, m)
    decreases m
  {
    if m > 0 {
      TotalSumIs(g, s, f, n, m - 1);
      RowSumIs(g, s, f, n, m - 1, g.Length1);
    }
  }

  /** The lists set up for a layer's blocks. */
  ghost predicate IsMap(c: Cells, us: seq<Rect>, lists: array2<seq<Item>>, s: Shares)
    reads lists
  {
    && Proper(c) && Fits(lists, c) && AllPositive(us) && AllInside(c, us, |us|) && SharesAre(s, c, us)
    && NonNegativeShares(s)
    && Listed(lists, c, ListsOf(s, CellArea(c)), |us|)
  }

  lemma ListAt(c: Cells, us: seq<Rect>, lists: array2<seq<Item>>, s: Shares, i: nat, j: nat)
    requires IsMap(c, us, lists, s) && IsCell(c, i, j)
    ensures IsList(s, CellArea(c), |us|, i, j, lists[i, j]) && InList(lists[i, j], |us|)
  {
    assert ListsOf(s, CellArea(c))(|us|, i, j, lists[i, j]);
    ListInRange(s, CellArea(c), |us|, i, j, lists[i, j]);
  }

  lemma DensityTimesArea(us: seq<Rect>, b: seq<real>, f: nat -> real, k: nat)
    requires IsValue(us, b, true, f) && k < |us|
    ensures AreaOf(us[k]) * f(k) == b[k]
  {
    assert PositiveRect(us[k]);
    ProductSign(us[k].width, us[k].height);
    Quotient(b[k], AreaOf(us[k]));
  }

  lemma CellShare(c: Cells, us: seq<Rect>, lists: array2<seq<Item>>, s: Shares, f: nat -> real, i: nat, j: nat, x: real)
    requires IsMap(c, us, lists, s) && IsCell(c, i, j) && IsAverage(lists[i, j], f, CellArea(c), x)
    ensures x == WeightedShares(s, f, |us|, i, j)
  {
    ListAt(c, us, lists, s, i, j);
    ShareFrom(s, CellArea(c), f, |us|, i, j, lists[i, j], x);
  }

  lemma ShareFrom(s: Shares, area: real, f: nat -> real, n: nat, i: nat, j: nat, list: seq<Item>, x: real)
    requires IsList(s, area, n, i, j, list) && NonNegativeShares(s) && IsAverage(list, f, area, x)
    ensures x == WeightedShares(s, f, n, i, j)
  {
    WeightedIs(s, area, f, n, i, j, list);
  }

  lemma ChipOverCells(cw: real, ch: real, cols: real, rows: real)
    requires cols > 0.0 && rows > 0.0
    ensures ((cols * cw) * (rows * ch)) / (cols * rows) == ch * cw
  {
    ProductSign(cols, rows);
    var d := cols * rows;
    assert (cols * cw) * (rows * ch) == d * (ch * cw);
    Cancelled(d, ch * cw);
  }

  lemma Cancelled(d: real, x: real)
    requires d > 0.0
    ensures (d * x) / d == x
  {
  }

  /** The area of a single cell. */
  method AreaOfCell(c: Cells, width: real, height: real) returns (area: real)
    requires Proper(c) && Outline(c) == Rect(0.0, 0.0, width, height)
    ensures area == CellArea(c)
  {
    LineIs(c.cols, c.cw);
    LineIs(c.rows, c.ch);
    ChipOverCells(c.cw, c.ch, c.cols as real, c.rows as real);
    ProductSign(c.cols as real, c.rows as real);
    area := (width * height) / (c.cols as real * c.rows as real);
  }

  ghost predicate NoneNegative(b: seq<real>) {
    forall k :: 0 <= k < |b| ==> b[k] >= 0.0
  }

  lemma DensityNotNegative(us: seq<Rect>, b: seq<real>, f: nat -> real, k: nat)
    requires IsValue(us, b, true, f) && k < |us| && b[k] >= 0.0
    ensures f(k) >= 0.0
  {
    assert PositiveRect(us[k]);
    ProductSign(us[k].width, us[k].height);
    Quotient(b[k], AreaOf(us[k]));
  }

  lemma {:induction false} SharesNotNegative(s: Shares, f: nat -> real, n: nat, i: nat, j: nat)
    requires NonNegativeShares(s) && forall k :: 0 <= k < n ==> f(k) >= 0.0
    ensures WeightedShares(s, f, n, i, j) >= 0.0
    decreases n
  {
    if n > 0 {
      SharesNotNegative(s, f, n - 1, i, j);
      ProductSign(s(n - 1, i, j), f(n - 1));
    }
  }

  lemma CellsNotNegative(us: seq<Rect>, b: seq<real>, f: nat -> real, s: Shares, i: nat, j: nat)
    requires IsValue(us, b, true, f) && NonNegativeShares(s) && NoneNegative(b)
    ensures WeightedShares(s, f, |us|, i, j) >= 0.0
  {
    forall k | 0 <= k < |us|
      ensures f(k) >= 0.0
    {
      DensityNotNegative(us, b, f, k);
    }
    SharesNotNegative(s, f, |us|, i, j);
  }

  /** Power in the cells: together it is the power of the blocks, and no cell has a negative part of
      powers that are not. */
  method PowerToCells(c: Cells, width: real, height: real, us: seq<Rect>, lists: array2<seq<Item>>, b: seq<real>,
                      g: array2<real>, ghost s: Shares)
    requires IsMap(c, us, lists, s) && |b| == |us| && Outline(c) == Rect(0.0, 0.0, width, height) && g.Length0 == c.rows
    requires g.Length1 == c.cols
    modifies g
    ensures TotalSum(g, c.rows) == Sum(b)
    ensures NoneNegative(b) ==> forall i, j :: 0 <= i < c.rows && 0 <= j < c.cols ==> g[i, j] >= 0.0
  {
    var area := AreaOfCell(c, width, height);
    ghost var f := Densities(us, b);
    Translate(c, us, lists, b, true, area, g, f, s);
    forall i, j | 0 <= i < c.rows && 0 <= j < c.cols
      ensures g[i, j] == WeightedShares(s, f, |us|, i, j)
    {
      CellShare(c, us, lists, s, f, i, j, g[i, j]);
    }
    if NoneNegative(b) {
      forall i, j | 0 <= i < c.rows && 0 <= j < c.cols
        ensures g[i, j] >= 0.0
      {
        CellsNotNegative(us, b, f, s, i, j);
      }
    }
    TotalSumIs(g, s, f, |us|, c.rows);
    PowerKept(c, us, s, b, f);
  }

  function Sum(b: seq<real>): real {
    if b == [] then 0.0 else Sum(b[..|b| - 1]) + b[|b| - 1]
  }

  lemma Densities(us: seq<Rect>, b: seq<real>) returns (f: nat -> real)
    requires |b| == |us| && AllPositive(us)
    ensures IsValue(us, b, true, f)
  {
    f := (k: nat) => if k < |us| && AreaOf(us[k]) != 0.0 then b[k] / AreaOf(us[k]) else 0.0;
    forall k | 0 <= k < |us|
      ensures AreaOf(us[k]) != 0.0 && f(k) == b[k] / AreaOf(us[k])
    {
      assert PositiveRect(us[k]);
      ProductSign(us[k].width, us[k].height);
    }
  }

  lemma {:induction false} SumIs(b: seq<real>, p: nat -> real, n: nat)
    requires n <= |b| && forall k :: 0 <= k < |b| ==> p(k) == b[k]
    ensures SumTo(p, n) == Sum(b[..n])
    decreases n
  {
    if n > 0 {
      SumIs(b, p, n - 1);
      assert b[..n][..n - 1] == b[..n - 1];
    }
  }

  lemma PowerKept(c: Cells, us: seq<Rect>, s: Shares, b: seq<real>, f: nat -> real)
    requires Proper(c) && AllPositive(us) && AllInside(c, us, |us|) && SharesAre(s, c, us) && IsValue(us, b, true, f)
    ensures CellsTotal(s, f, |us|, c.cols, c.rows) == Sum(b)
  {
    var p: nat -> real := (k: nat) => if k < |b| then b[k] else 0.0;
    forall k | 0 <= k < |us|
      ensures AreaOf(us[k]) * f(k) == p(k)
    {
      DensityTimesArea(us, b, f, k);
    }
    TotalKept(c, us, s, f, p, |us|);
    SumIs(b, p, |us|);
    assert b[..|us|] == b;
  }

  // ---------- temperature ----------

  lemma {:induction false} WeightedConstant(s: Shares, f: nat -> real, one: nat -> real, t: real, n: nat, i: nat,
                                            j: nat)
    requires (forall k :: one(k) == 1.0) && forall k :: 0 <= k < n ==> f(k) == t
    ensures WeightedShares(s, f, n, i, j) == t * WeightedShares(s, one, n, i, j)
    decreases n
  {
    if n > 0 {
      WeightedConstant(s, f, one, t, n - 1, i, j);
      BlockSums.Distribute(t, WeightedShares(s, one, n - 1, i, j), s(n - 1, i, j));
    }
  }

  lemma SameFactor(x: real, y: real, a: real)
    requires a > 0.0 && x * a == y * a
    ensures x == y
  {
  }

  lemma Ones() returns (one: nat -> real)
    ensures forall k :: one(k) == 1.0
  {
    one := (k: nat) => 1.0;
  }

  /** In a tiled chip a cell whose blocks all have the value t averages to t. */
  lemma UniformAverage(c: Cells, us: seq<Rect>, s: Shares, f: nat -> real, t: real, i: nat, j: nat, list: seq<Item>)
    requires Proper(c) && IsCell(c, i, j) && SharesAre(s, c, us) && NonNegativeShares(s) && Tiles(us, Outline(c))
    requires IsList(s, CellArea(c), |us|, i, j, list) && forall k :: 0 <= k < |us| ==> f(k) == t
    ensures Weighted(list, f) == t
  {
    var one := Ones();
    CellFilled(c, us, s, i, j, one);
    ProductSign(c.ch, c.cw);
    UniformFrom(s, CellArea(c), f, one, t, |us|, i, j, list);
  }

  lemma UniformFrom(s: Shares, area: real, f: nat -> real, one: nat -> real, t: real, n: nat, i: nat, j: nat,
                    list: seq<Item>)
    requires IsList(s, area, n, i, j, list) && NonNegativeShares(s) && area > 0.0
    requires WeightedShares(s, one, n, i, j) == area
    requires (forall k :: one(k) == 1.0) && forall k :: 0 <= k < n ==> f(k) == t
    ensures Weighted(list, f) == t
  {
    WeightedIs(s, area, f, n, i, j, list);
    WeightedConstant(s, f, one, t, n, i, j);
    SameFactor(Weighted(list, f), t, area);
  }

  /** In a tiled chip the occupancies of every cell sum to 1. */
  lemma OccupanciesSumToOne(c: Cells, us: seq<Rect>, lists: array2<seq<Item>>, s: Shares, one: nat -> real, i: nat,
                            j: nat)
    requires IsMap(c, us, lists, s) && Tiles(us, Outline(c)) && IsCell(c, i, j) && forall k :: one(k) == 1.0
    ensures Weighted(lists[i, j], one) == 1.0
  {
    ListAt(c, us, lists, s, i, j);
    UniformAverage(c, us, s, one, 1.0, i, j, lists[i, j]);
  }

  /** Temperatures of the cells; where all blocks of a tiled chip have the same, so have all cells. */
  method TempToCells(c: Cells, us: seq<Rect>, lists: array2<seq<Item>>, b: seq<real>, g: array2<real>, ghost s: Shares)
    requires IsMap(c, us, lists, s) && |b| == |us| && g.Length0 == c.rows && g.Length1 == c.cols
    modifies g
    ensures forall t :: Tiles(us, Outline(c)) && Uniform(b, t) ==> UniformCells(g, t)
  {
    ghost var f: nat -> real := (k: nat) => if k < |b| then b[k] else 0.0;
    Translate(c, us, lists, b, false, 1.0, g, f, s);
    forall t | Tiles(us, Outline(c)) && Uniform(b, t)
      ensures UniformCells(g, t)
    {
      forall i, j | 0 <= i < c.rows && 0 <= j < c.cols
        ensures g[i, j] == t
      {
        ListAt(c, us, lists, s, i, j);
        UniformAverage(c, us, s, f, t, i, j, lists[i, j]);
      }
    }
  }

  ghost predicate Uniform(b: seq<real>, t: real) {
    forall k :: 0 <= k < |b| ==> b[k] == t
  }

  ghost predicate UniformCells(g: array2<real>, t: real)
    reads g
  {
    forall i, j :: 0 <= i < g.Length0 && 0 <= j < g.Length1 ==> g[i, j] == t
  }
}
