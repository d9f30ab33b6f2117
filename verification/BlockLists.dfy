/** For every cell the list of blocks that lie in it, with their occupancies. */
module BlockLists {
  import opened Tilings
  import opened Extents
  import opened CellRanges
  import opened BlockGrid

  datatype Item = Item(idx: nat, occupancy: real)

  /** Area of block k in cell (i, j). */
  type Shares = (nat, nat, nat) -> real

  ghost predicate SharesAre(s: Shares, c: Cells, us: seq<Rect>) {
    && (forall k, i, j {:trigger SharedArea(c, us[k], i, j)} ::
          0 <= k < |us| && IsCell(c, i, j) ==> s(k, i, j) == SharedArea(c, us[k], i, j))
  }

  ghost predicate IsItem(s: Shares, area: real, i: nat, j: nat, k: nat, e: Item) {
    e.idx == k && e.occupancy * area == s(k, i, j) > 0.0
  }

  /** The list of a cell: the first n blocks that share area with it, in order, and no others. */
  ghost predicate IsList(s: Shares, area: real, n: nat, i: nat, j: nat, list: seq<Item>) {
    if n == 0 then list == []
    else if s(n - 1, i, j) > 0.0 then
      && list != [] && IsItem(s, area, i, j, n - 1, list[|list| - 1])
      && IsList(s, area, n - 1, i, j, list[..|list| - 1])
    else IsList(s, area, n - 1, i, j, list)
  }

  lemma IsListGrows(s: Shares, area: real, n: nat, i: nat, j: nat, list: seq<Item>, e: Item)
    requires IsList(s, area, n, i, j, list) && IsItem(s, area, i, j, n, e)
    ensures IsList(s, area, n + 1, i, j, list + [e])
  {
    assert (list + [e])[..|list|] == list;
  }

  // ---------- setting up the lists ----------

  /** Lists, by name only: after n blocks, at a cell. */
  type Lists = (nat, nat, nat, seq<Item>) -> bool

  ghost predicate Grows(so: Lists, s: Shares, area: real) {
    && (forall i: nat, j: nat :: so(0, i, j, []))
    && (forall n: nat, i: nat, j: nat, list, e {:trigger so(n, i, j, list), IsItem(s, area, i, j, n, e)} ::
          so(n, i, j, list) && IsItem(s, area, i, j, n, e) ==> so(n + 1, i, j, list + [e]))
    && (forall n: nat, i: nat, j: nat, list {:trigger so(n, i, j, list), s(n, i, j)} ::
          so(n, i, j, list) && s(n, i, j) <= 0.0 ==> so(n + 1, i, j, list))
  }

  ghost function ListsOf(s: Shares, area: real): Lists {
    (n: nat, i: nat, j: nat, list: seq<Item>) => IsList(s, area, n, i, j, list)
  }

  lemma ListsOfGrow(s: Shares, area: real)
    ensures Grows(ListsOf(s, area), s, area)
  {
    var so := ListsOf(s, area);
    forall n: nat, i: nat, j: nat, list, e | so(n, i, j, list) && IsItem(s, area, i, j, n, e)
      ensures so(n + 1, i, j, list + [e])
    {
      IsListGrows(s, area, n, i, j, list, e);
    }
  }

  ghost predicate Fits(lists: array2<seq<Item>>, c: Cells) {
    lists.Length0 == c.rows && lists.Length1 == c.cols
  }

  /** All lists are there for the first n blocks. */
  ghost predicate Listed(lists: array2<seq<Item>>, c: Cells, so: Lists, n: nat)
    requires Fits(lists, c)
    reads lists
  {
    forall i, j :: 0 <= i < c.rows && 0 <= j < c.cols ==> so(n, i, j, lists[i, j])
  }

  /** In the range of block n, the cells before (a, b) also have that block. */
  ghost predicate Listing(lists: array2<seq<Item>>, c: Cells, so: Lists, n: nat, r: CellRange, a: int, b: int)
    requires Fits(lists, c)
    reads lists
  {
    forall i, j :: 0 <= i < c.rows && 0 <= j < c.cols
                   ==> so(if InRange(r, i, j) && (i < a || (i == a && j < b)) then n + 1 else n, i, j, lists[i, j])
  }

  method AddToCell(lists: array2<seq<Item>>, c: Cells, height: real, us: seq<Rect>, n: nat, r: CellRange, i: nat,
                   j: nat, ghost so: Lists, ghost s: Shares)
    returns (negative: bool)
    requires Fits(lists, c) && Proper(c) && height == Line(c.rows, c.ch) && n < |us| && PositiveRect(us[n])
    requires IsRangeOf(c, us[n], r)
    requires InRange(r, i, j) && Grows(so, s, CellArea(c)) && SharesAre(s, c, us) && Listing(lists, c, so, n, r, i, j)
    modifies lists
    ensures !negative && Listing(lists, c, so, n, r, i, j + 1)
  {
    RangeIsShared(c, us[n], r, i, j);
    var o;
    negative, o := Occupancy(c, height, us[n], r, i, j);
    assert SharedArea(c, us[n], i, j) == s(n, i, j);
    assert IsItem(s, CellArea(c), i, j, n, Item(n, o)) && so(n, i, j, lists[i, j]);
    lists[i, j] := lists[i, j] + [Item(n, o)];
  }

  method AddToRow(lists: array2<seq<Item>>, c: Cells, height: real, us: seq<Rect>, n: nat, r: CellRange, i: nat,
                  ghost so: Lists, ghost s: Shares)
    returns (negative: bool)
    requires Fits(lists, c) && Proper(c) && height == Line(c.rows, c.ch) && n < |us| && PositiveRect(us[n])
    requires IsRangeOf(c, us[n], r)
    requires r.i1 <= i < r.i2 && Grows(so, s, CellArea(c)) && SharesAre(s, c, us)
    requires Listing(lists, c, so, n, r, i, r.j1)
    modifies lists
    ensures !negative && Listing(lists, c, so, n, r, i + 1, r.j1)
  {
    negative := false;
    for j := r.j1 to r.j2
      invariant !negative && Listing(lists, c, so, n, r, i, j)
    {
      negative := AddToCell(lists, c, height, us, n, r, i, j, so, s);
    }
  }

  method AddBlock(lists: array2<seq<Item>>, c: Cells, height: real, us: seq<Rect>, n: nat, r: CellRange,
                  ghost so: Lists, ghost s: Shares)
    returns (negative: bool)
    requires Fits(lists, c) && Proper(c) && height == Line(c.rows, c.ch) && n < |us| && PositiveRect(us[n])
    requires IsRangeOf(c, us[n], r)
    requires Grows(so, s, CellArea(c)) && SharesAre(s, c, us) && Listed(lists, c, so, n)
    modifies lists
    ensures !negative && Listed(lists, c, so, n + 1)
  {
    negative := false;
    for i := r.i1 to r.i2
      invariant !negative && Listing(lists, c, so, n, r, i, r.j1)
    {
      negative := AddToRow(lists, c, height, us, n, r, i, so, s);
    }
    forall i, j | 0 <= i < c.rows && 0 <= j < c.cols
      ensures so(n + 1, i, j, lists[i, j])
    {
      RangeIsShared(c, us[n], r, i, j);
      assert SharedArea(c, us[n], i, j) == s(n, i, j);
      assert InRange(r, i, j) <==> s(n, i, j) > 0.0;
    }
  }

  method ResetLists(lists: array2<seq<Item>>)
    modifies lists
    ensures forall i, j :: 0 <= i < lists.Length0 && 0 <= j < lists.Length1 ==> lists[i, j] == []
  {
    for i := 0 to lists.Length0
      invariant forall x, y :: 0 <= x < i && 0 <= y < lists.Length1 ==> lists[x, y] == []
    {
      for j := 0 to lists.Length1
        invariant forall x, y :: 0 <= x < i && 0 <= y < lists.Length1 ==> lists[x, y] == []
        invariant forall y :: 0 <= y < j ==> lists[i, y] == []
      {
        lists[i, j] := [];
      }
    }
  }

  ghost predicate Ranged(ranges: seq<CellRange>, c: Cells, us: seq<Rect>, n: nat) {
    n <= |us| && n <= |ranges| && forall k :: 0 <= k < n ==> IsRangeOf(c, us[k], ranges[k])
  }

  ghost predicate AllInside(c: Cells, us: seq<Rect>, n: nat) {
    n <= |us| && forall k :: 0 <= k < n ==> Inside(us[k], Outline(c))
  }

  /** Sets up both maps. It gives up exactly when a block sticks out of the chip. */
  method SetBgmap(width: real, height: real, c: Cells, us: seq<Rect>, lists: array2<seq<Item>>,
                  ranges: array<CellRange>, ghost s: Shares)
    returns (ok: bool)
    requires SharesAre(s, c, us) && Proper(c) && Outline(c) == Rect(0.0, 0.0, width, height) && Fits(lists, c)
    requires ranges.Length == |us| && AllPositive(us)
    modifies lists, ranges
    ensures ok <==> AllInside(c, us, |us|)
    ensures ok ==> Listed(lists, c, ListsOf(s, CellArea(c)), |us|) && Ranged(ranges[..], c, us, |us|)
  {
    ResetLists(lists);
    ghost var so := ListsOf(s, CellArea(c));
    ListsOfGrow(s, CellArea(c));
    for n := 0 to |us|
      invariant AllInside(c, us, n) && Listed(lists, c, so, n) && Ranged(ranges[..], c, us, n)
    {
      assert PositiveRect(us[n]);
      var inside, r := FindRange(c, us[n]);
      if !inside {
        return false;
      }
      ranges[n] := r;
      var negative := AddBlock(lists, c, height, us, n, r, so, s);
      if negative {
        return false;
      }
    }
    ok := true;
  }

  // ---------- what is shared adds up ----------

  /** Occupancies weighted by a value of each block. */
  function Weighted(list: seq<Item>, f: nat -> real): real {
    if list == [] then 0.0 else Weighted(list[..|list| - 1], f) + list[|list| - 1].occupancy * f(list[|list| - 1].idx)
  }

  /** Shared areas weighted by a value of each block. */
  function WeightedShares(s: Shares, f: nat -> real, n: nat, i: nat, j: nat): real {
    if n == 0 then 0.0 else WeightedShares(s, f, n - 1, i, j) + s(n - 1, i, j) * f(n - 1)
  }

  ghost predicate NonNegativeShares(s: Shares) {
    forall k, i, j :: s(k, i, j) >= 0.0
  }

  lemma WeightStep(x: real, o: real, v: real, a: real, s: real, sum: real)
    requires o * a == s && x * a == sum
    ensures (x + o * v) * a == sum + s * v
  {
    assert (x + o * v) * a == x * a + (o * v) * a;
    assert (o * v) * a == (o * a) * v;
  }

  /** The occupancies in the list of a cell stand for the areas shared with it. */
  lemma {:induction false} WeightedIs(s: Shares, area: real, f: nat -> real, n: nat, i: nat, j: nat, list: seq<Item>)
    requires IsList(s, area, n, i, j, list) && NonNegativeShares(s)
    ensures Weighted(list, f) * area == WeightedShares(s, f, n, i, j)
    decreases n
  {
    if n > 0 {
      if s(n - 1, i, j) > 0.0 {
        var rest, e := list[..|list| - 1], list[|list| - 1];
        WeightedIs(s, area, f, n - 1, i, j, rest);
        WeightStep(Weighted(rest, f), e.occupancy, f(n - 1), area, s(n - 1, i, j), WeightedShares(s, f, n - 1, i, j));
      } else {
        WeightedIs(s, area, f, n - 1, i, j, list);
      }
    }
  }

  lemma SharedNotNegative(c: Cells, u: Rect, i: nat, j: nat)
    requires IsCell(c, i, j)
    ensures SharedArea(c, u, i, j) >= 0.0
  {
    ProductSign(SharedHeight(c, u, i), SharedWidth(c, u, j));
  }

  /** What the blocks share with the cells. */
  lemma FindShares(c: Cells, us: seq<Rect>) returns (s: Shares)
    ensures SharesAre(s, c, us) && NonNegativeShares(s)
  {
    s := (k: nat, i: nat, j: nat) => if k < |us| && IsCell(c, i, j) then SharedArea(c, us[k], i, j) else 0.0;
    forall k: nat, i: nat, j: nat
      ensures s(k, i, j) >= 0.0
    {
      if k < |us| && IsCell(c, i, j) {
        SharedNotNegative(c, us[k], i, j);
      }
    }
  }
}
