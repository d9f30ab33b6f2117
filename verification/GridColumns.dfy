/** The matrix of the grid in compressed columns. */
module GridColumns {
  import opened GridNetwork
  import opened GridMatrix
  import opened GridBuilder
  import opened GridSystem
  import opened GridCounts
  import opened GridTotals
  import opened GridAgreement
  import opened SparseColumns

  // ---------- numbering ----------

  /** Cells layer by layer and row by row, then the package nodes. */
  function Index(g: Grid, a: Node): nat {
    if a.Cell? then a.n * (g.rows * g.cols) + (a.i * g.cols + a.j) else |g.layers| * (g.rows * g.cols) + a.k
  }

  function Nodes(g: Grid): nat {
    |g.layers| * (g.rows * g.cols) + EXTRA
  }

  lemma Below(i: nat, m: nat, j: nat, c: nat)
    requires i < m && j < c
    ensures i * c + j < m * c
  {
    Times(i, m - i, c);
    TimesAtLeast(m - i, c);
  }

  lemma Unique(i: nat, j: nat, i': nat, j': nat, c: nat)
    requires j < c && j' < c && i * c + j == i' * c + j'
    ensures i == i' && j == j'
  {
    if i < i' {
      Below(i, i', j, c);
    } else if i' < i {
      Below(i', i, j', c);
    }
  }

  lemma IndexInRange(g: Grid, a: Node)
    requires IsNode(g, a)
    ensures Index(g, a) < Nodes(g) && (a.Cell? ==> Index(g, a) < |g.layers| * (g.rows * g.cols))
  {
    if a.Cell? {
      Below(a.i, g.rows, a.j, g.cols);
      Below(a.n, |g.layers|, a.i * g.cols + a.j, g.rows * g.cols);
    }
  }

  /** Different nodes have different numbers. */
  lemma IndexInjective(g: Grid, a: Node, b: Node)
    requires IsNode(g, a) && IsNode(g, b) && Index(g, a) == Index(g, b)
    ensures a == b
  {
    IndexInRange(g, a);
    IndexInRange(g, b);
    if a.Cell? && b.Cell? {
      Below(a.i, g.rows, a.j, g.cols);
      Below(b.i, g.rows, b.j, g.cols);
      Unique(a.n, a.i * g.cols + a.j, b.n, b.i * g.cols + b.j, g.rows * g.cols);
      Unique(a.i, a.j, b.i, b.j, g.cols);
    }
  }

  // ---------- all columns are nodes ----------

  lemma ColumnsAreNodes(g: Grid, a: Node)
    requires Sound(g) && IsNode(g, a) && g.rows >= 2 && g.cols >= 2
    ensures forall i :: 0 <= i < |Row(a, OrderOf(g, a))| ==> IsNode(g, Row(a, OrderOf(g, a))[i].col)
  {
    if a.Cell? {
      CellOrderSame(g, a.n, a.i, a.j);
    } else {
      ExtraOrderSame(g, a.k);
    }
    LinksSound(g, a);
    ColumnsFrom(g, a, OrderOf(g, a), LinksOf(g, a));
  }

  lemma ColumnsFrom(g: Grid, a: Node, ls: seq<Link>, all: seq<Link>)
    requires IsNode(g, a) && multiset(ls) == multiset(all) && SoundLinks(g, all)
    ensures forall i :: 0 <= i < |Row(a, ls)| ==> IsNode(g, Row(a, ls)[i].col)
  {
    OffDiagonalFrom(a, ls);
    var off := OffDiagonal(a, ls);
    forall i | 0 <= i < |off|
      ensures IsNode(g, off[i].col)
    {
      var j :| 0 <= j < |ls| && ls[j].src == From(off[i].col);
      assert ls[j] in multiset(ls);
      assert ls[j] in all;
      var k :| 0 <= k < |all| && all[k] == ls[j];
      assert SoundLink(g, all[k]);
    }
  }

  lemma {:induction false} InItsRow(coo: seq<Entry>, i: nat)
    requires i < |coo|
    ensures coo[i] in RowOf(coo, coo[i].row)
    decreases |coo|
  {
    if i < |coo| - 1 {
      InItsRow(coo[..|coo| - 1], i);
    }
  }

  lemma {:induction false} RowOfIn(coo: seq<Entry>, a: Node, e: Entry)
    requires e in RowOf(coo, a)
    ensures e in coo
    decreases |coo|
  {
    if coo != [] && e in RowOf(coo[..|coo| - 1], a) {
      RowOfIn(coo[..|coo| - 1], a, e);
    }
  }

  lemma EntriesAreNodes(g: Grid, coo: seq<Entry>, i: nat)
    requires Sound(g) && g.rows >= 2 && g.cols >= 2 && IsMatrix(g, coo) && i < |coo|
    ensures IsNode(g, coo[i].row) && IsNode(g, coo[i].col)
  {
    InItsRow(coo, i);
    ColumnsAreNodes(g, coo[i].row);
    var row := RowOf(coo, coo[i].row);
    var k :| 0 <= k < |row| && row[k] == coo[i];
  }

  /** Every column has its diagonal entry. */
  lemma DiagonalIn(g: Grid, coo: seq<Entry>, a: Node) returns (k: nat)
    requires Sound(g) && g.rows >= 2 && g.cols >= 2 && IsMatrix(g, coo) && IsNode(g, a)
    ensures k < |coo| && coo[k].col == a
  {
    var row := RowOf(coo, a);
    var e := row[|row| - 1];
    assert e in row;
    RowOfIn(coo, a, e);
    k :| 0 <= k < |coo| && coo[k] == e;
  }

  // ---------- the entries by number ----------

  function Numbered(g: Grid, e: Entry): Elem {
    Elem(Index(g, e.row), Index(g, e.col), e.val)
  }

  ghost function AllNumbered(g: Grid, coo: seq<Entry>): seq<Elem> {
    seq(|coo|, k requires 0 <= k < |coo| => Numbered(g, coo[k]))
  }

  ghost predicate OfNodes(g: Grid, coo: seq<Entry>) {
    forall i :: 0 <= i < |coo| ==> IsNode(g, coo[i].row) && IsNode(g, coo[i].col)
  }

  lemma NumberedInRange(g: Grid, coo: seq<Entry>)
    requires OfNodes(g, coo)
    ensures InRange(AllNumbered(g, coo), Nodes(g))
  {
    forall k | 0 <= k < |coo|
      ensures Index(g, coo[k].col) < Nodes(g)
    {
      IndexInRange(g, coo[k].col);
    }
  }

  lemma NumberedDistinct(g: Grid, coo: seq<Entry>)
    requires OfNodes(g, coo) && DistinctPlaces(coo)
    ensures !Repeats(AllNumbered(g, coo))
  {
    forall i, j | 0 <= i < j < |coo|
      ensures !SamePlace(Numbered(g, coo[i]), Numbered(g, coo[j]))
    {
      if SamePlace(Numbered(g, coo[i]), Numbered(g, coo[j])) {
        IndexInjective(g, coo[i].row, coo[j].row);
        IndexInjective(g, coo[i].col, coo[j].col);
      }
    }
  }

  method Number(g: Grid, coo: seq<Entry>) returns (cooX: array<int>, cooY: array<int>, cooV: array<real>)
    ensures cooX.Length == cooY.Length == cooV.Length == |coo| && fresh(cooX) && fresh(cooY) && fresh(cooV)
    ensures Entries(cooX[..], cooY[..], cooV[..]) == AllNumbered(g, coo)
  {
    cooX, cooY, cooV := new int[|coo|], new int[|coo|], new real[|coo|];
    for k := 0 to |coo|
      invariant forall i :: 0 <= i < k ==> Elem(cooX[i], cooY[i], cooV[i]) == Numbered(g, coo[i])
    {
      cooX[k], cooY[k], cooV[k] := Index(g, coo[k].row), Index(g, coo[k].col), coo[k].val;
    }
  }

  lemma LastIsOccupied(g: Grid, coo: seq<Entry>)
    requires Sound(g) && g.rows >= 2 && g.cols >= 2 && IsMatrix(g, coo)
    ensures Occupied(AllNumbered(g, coo), Nodes(g) - 1)
  {
    var k := DiagonalIn(g, coo, Extra(EXTRA - 1));
    assert AllNumbered(g, coo)[k].y == Index(g, Extra(EXTRA - 1));
  }

  lemma MatrixNumbers(g: Grid, coo: seq<Entry>)
    requires Sound(g) && g.rows >= 2 && g.cols >= 2 && IsMatrix(g, coo) && DistinctPlaces(coo)
    ensures InRange(AllNumbered(g, coo), Nodes(g)) && !Repeats(AllNumbered(g, coo))
    ensures Occupied(AllNumbered(g, coo), Nodes(g) - 1)
  {
    forall i | 0 <= i < |coo|
      ensures IsNode(g, coo[i].row) && IsNode(g, coo[i].col)
    {
      EntriesAreNodes(g, coo, i);
    }
    NumberedInRange(g, coo);
    NumberedDistinct(g, coo);
    LastIsOccupied(g, coo);
  }

  /** Matrix to columns: as many entries as allocated, no warning, and every column of the matrix
      has its slice, the last one ending with the entries. */
  method BuildColumns(g: Grid) returns (rowInd: array<int>, colPtr: array<int>, val: array<real>, warned: bool,
                                        ghost coo: seq<Entry>, ghost s: seq<Elem>)
    requires Sound(g) && g.rows >= 2 && g.cols >= 2
    ensures IsMatrix(g, coo) && !warned
    ensures rowInd.Length == val.Length == |s| == |coo| == Allocated(|g.layers|, g.rows, g.cols)
    ensures Sorted(s) && multiset(s) == multiset(AllNumbered(g, coo))
    ensures forall k :: 0 <= k < |s| ==> rowInd[k] == s[k].x && val[k] == s[k].val
    ensures colPtr.Length == Nodes(g) + 1 && colPtr[Nodes(g)] == |s|
    ensures forall c :: 0 <= c < Nodes(g) ==> IsSlice(s, c, colPtr[c], colPtr[c + 1])
  {
    var ok, entries := BuildMatrix(g);
    coo := entries;
    MatrixNumbers(g, coo);
    var cooX, cooY, cooV := Number(g, entries);
    rowInd, colPtr, val := new int[|entries|], new int[Nodes(g) + 1], new real[|entries|];
    s, warned := CooToCsc(Nodes(g), cooX, cooY, cooV, rowInd, colPtr, val);
  }
}
