/** The whole matrix with its right-hand side, and the agreement of the three forms of the heat
    balance: sweep, slope and matrix. */
module GridSystem {
  import opened GridNetwork
  import opened SweepRuns
  import opened NearBalance
  import opened GridMatrix
  import opened GridBuilder

  // ---------- rows of a list of entries ----------

  /** The entries of row a, in order. */
  function RowOf(coo: seq<Entry>, a: Node): seq<Entry> {
    if coo == [] then [] else RowOf(coo[..|coo| - 1], a) + if coo[|coo| - 1].row == a then [coo[|coo| - 1]] else []
  }

  ghost predicate AllInRow(es: seq<Entry>, b: Node) {
    forall i :: 0 <= i < |es| ==> es[i].row == b
  }

  lemma {:induction false} RowOfConcat(coo: seq<Entry>, es: seq<Entry>, a: Node, b: Node)
    requires AllInRow(es, b)
    ensures RowOf(coo + es, a) == RowOf(coo, a) + if a == b then es else []
    decreases |es|
  {
    if es == [] {
      assert coo + es == coo;
    } else {
      var n := |es| - 1;
      RowOfConcat(coo, es[..n], a, b);
      assert (coo + es)[..|coo + es| - 1] == coo + es[..n];
      assert es == es[..n] + [es[n]];
    }
  }

  lemma {:induction false} OffDiagonalInRow(a: Node, ls: seq<Link>)
    ensures AllInRow(OffDiagonal(a, ls), a)
    decreases |ls|
  {
    if ls != [] {
      OffDiagonalInRow(a, ls[..|ls| - 1]);
    }
  }

  // ---------- building ----------

  /** Rows, by name only. */
  type Rows = (Node, seq<Entry>) -> bool

  /** Columns of a row do not repeat. */
  ghost predicate DistinctColumns(es: seq<Entry>) {
    forall i, j :: 0 <= i < j < |es| ==> es[i].col != es[j].col
  }

  /** No two entries are at the same place. */
  ghost predicate DistinctPlaces(coo: seq<Entry>) {
    forall i, j :: 0 <= i < j < |coo| ==> coo[i].row != coo[j].row || coo[i].col != coo[j].col
  }

  ghost predicate GoodRow(a: Node, es: seq<Entry>, len: nat) {
    AllInRow(es, a) && DistinctColumns(es) && |es| == len
  }

  ghost predicate Rowed(g: Grid, rows: Rows, len: Node -> nat) {
    && (forall a, es {:trigger IsRow(g, a, es)} :: IsRow(g, a, es) ==> rows(a, es))
    && (forall a, es :: rows(a, es) ==> GoodRow(a, es, len(a)))
  }

  /** The rows of the done nodes are there and nothing else. */
  ghost predicate Built(g: Grid, rows: Rows, coo: seq<Entry>, done: Nodes) {
    && (forall a :: IsNode(g, a) ==> if done(a) then rows(a, RowOf(coo, a)) else RowOf(coo, a) == [])
    && (forall i :: 0 <= i < |coo| ==> IsNode(g, coo[i].row))
    && DistinctPlaces(coo)
  }

  lemma {:induction false} RowOfHas(coo: seq<Entry>, i: nat)
    requires i < |coo|
    ensures RowOf(coo, coo[i].row) != []
    decreases |coo|
  {
    if i < |coo| - 1 {
      RowOfHas(coo[..|coo| - 1], i);
    }
  }

  lemma PlacesStayDistinct(coo: seq<Entry>, es: seq<Entry>, a: Node)
    requires DistinctPlaces(coo) && RowOf(coo, a) == [] && AllInRow(es, a) && DistinctColumns(es)
    ensures DistinctPlaces(coo + es)
  {
    forall i | 0 <= i < |coo|
      ensures coo[i].row != a
    {
      RowOfHas(coo, i);
    }
  }

  lemma {:induction false} RowsStep(g: Grid, rows: Rows, coo: seq<Entry>, done: Nodes, done': Nodes, a: Node,
                                    es: seq<Entry>, b: Node)
    requires IsNode(g, b) && (if done(b) then rows(b, RowOf(coo, b)) else RowOf(coo, b) == [])
    requires AllInRow(es, a) && !done(a) && (done'(b) <==> done(b) || b == a) && rows(a, es)
    ensures if done'(b) then rows(b, RowOf(coo + es, b)) else RowOf(coo + es, b) == []
  {
    RowOfConcat(coo, es, b, a);
    assert [] + es == es && RowOf(coo, b) + [] == RowOf(coo, b);
  }

  lemma {:induction false} BuiltStep(g: Grid, rows: Rows, len: Node -> nat, coo: seq<Entry>, done: Nodes, done': Nodes,
                                     a: Node, es: seq<Entry>)
    requires Rowed(g, rows, len) && Built(g, rows, coo, done) && IsNode(g, a) && !done(a) && OneMore(g, done, done', a)
    requires rows(a, es)
    ensures Built(g, rows, coo + es, done') && |coo + es| == |coo| + len(a)
  {
    assert GoodRow(a, es, len(a));
    forall b | IsNode(g, b)
      ensures if done'(b) then rows(b, RowOf(coo + es, b)) else RowOf(coo + es, b) == []
    {
      RowsStep(g, rows, coo, done, done', a, es, b);
    }
    PlacesStayDistinct(coo, es, a);
  }

  lemma {:induction false} BuiltSame(g: Grid, rows: Rows, coo: seq<Entry>, done: Nodes, done': Nodes)
    requires Built(g, rows, coo, done) && forall a :: IsNode(g, a) ==> (done(a) <==> done'(a))
    ensures Built(g, rows, coo, done')
  {
  }

  /** Entries in the rows of the cells before (n, i, j). */
  ghost function CountCells(g: Grid, len: Node -> nat, n: nat, i: nat, j: nat): nat
    decreases n, i, j
  {
    if j > 0 then CountCells(g, len, n, i, j - 1) + len(Cell(n, i, j - 1))
    else if i > 0 then CountCells(g, len, n, i - 1, g.cols)
    else if n > 0 then CountCells(g, len, n - 1, g.rows, 0)
    else 0
  }

  /** Entries in the rows of all cells and the first m package nodes. */
  ghost function CountExtras(g: Grid, len: Node -> nat, m: nat): nat {
    if m > 0 then CountExtras(g, len, m - 1) + len(Extra(AtTurn(m - 1))) else CountCells(g, len, |g.layers|, 0, 0)
  }

  ghost predicate CellsBuilt(g: Grid, rows: Rows, len: Node -> nat, coo: seq<Entry>, n: nat, i: nat, j: nat) {
    Built(g, rows, coo, CellsBefore(n, i, j)) && |coo| == CountCells(g, len, n, i, j)
  }

  method BuildCell(g: Grid, coo: seq<Entry>, n: nat, i: nat, j: nat, ghost rows: Rows, ghost len: Node -> nat)
    returns (coo': seq<Entry>)
    requires Sound(g) && IsNode(g, Cell(n, i, j)) && g.rows >= 2 && g.cols >= 2 && Rowed(g, rows, len)
    requires CellsBuilt(g, rows, len, coo, n, i, j)
    ensures CellsBuilt(g, rows, len, coo', n, i, j + 1)
  {
    var row := CellRow(g, n, i, j);
    coo' := coo + row;
    NextCell(g, n, i, j);
    BuiltStep(g, rows, len, coo, CellsBefore(n, i, j), CellsBefore(n, i, j + 1), Cell(n, i, j), row);
  }

  method BuildRow(g: Grid, coo: seq<Entry>, n: nat, i: nat, ghost rows: Rows, ghost len: Node -> nat)
    returns (coo': seq<Entry>)
    requires Sound(g) && n < |g.layers| && i < g.rows && g.rows >= 2 && g.cols >= 2 && Rowed(g, rows, len)
    requires CellsBuilt(g, rows, len, coo, n, i, 0)
    ensures CellsBuilt(g, rows, len, coo', n, i + 1, 0)
  {
    coo' := coo;
    for j := 0 to g.cols
      invariant CellsBuilt(g, rows, len, coo', n, i, j)
    {
      coo' := BuildCell(g, coo', n, i, j, rows, len);
    }
    BuiltSame(g, rows, coo', CellsBefore(n, i, g.cols), CellsBefore(n, i + 1, 0));
  }

  method BuildCells(g: Grid, ghost rows: Rows, ghost len: Node -> nat) returns (coo: seq<Entry>)
    requires Sound(g) && g.rows >= 2 && g.cols >= 2 && Rowed(g, rows, len)
    ensures Built(g, rows, coo, ExtrasBefore(0)) && |coo| == CountExtras(g, len, 0)
  {
    coo := [];
    for n := 0 to |g.layers|
      invariant CellsBuilt(g, rows, len, coo, n, 0, 0)
    {
      for i := 0 to g.rows
        invariant CellsBuilt(g, rows, len, coo, n, i, 0)
      {
        coo := BuildRow(g, coo, n, i, rows, len);
      }
      BuiltSame(g, rows, coo, CellsBefore(n, g.rows, 0), CellsBefore(n + 1, 0, 0));
    }
    BuiltSame(g, rows, coo, CellsBefore(|g.layers|, 0, 0), ExtrasBefore(0));
  }

  method BuildExtra(g: Grid, coo: seq<Entry>, m: nat, ghost rows: Rows, ghost len: Node -> nat)
    returns (coo': seq<Entry>)
    requires Sound(g) && m < EXTRA && g.rows >= 2 && g.cols >= 2 && Rowed(g, rows, len)
    requires Built(g, rows, coo, ExtrasBefore(m)) && |coo| == CountExtras(g, len, m)
    ensures Built(g, rows, coo', ExtrasBefore(m + 1)) && |coo'| == CountExtras(g, len, m + 1)
  {
    NextExtra(g, m);
    var row := ExtraRow(g, AtTurn(m));
    coo' := coo + row;
    BuiltStep(g, rows, len, coo, ExtrasBefore(m), ExtrasBefore(m + 1), Extra(AtTurn(m)), row);
  }

  /** All rows: the cells layer by layer, then the package nodes. */
  method BuildRows(g: Grid, ghost rows: Rows, ghost len: Node -> nat) returns (coo: seq<Entry>)
    requires Sound(g) && g.rows >= 2 && g.cols >= 2 && Rowed(g, rows, len)
    ensures Built(g, rows, coo, All()) && |coo| == CountExtras(g, len, EXTRA)
  {
    coo := BuildCells(g, rows, len);
    for m := 0 to EXTRA
      invariant Built(g, rows, coo, ExtrasBefore(m)) && |coo| == CountExtras(g, len, m)
    {
      coo := BuildExtra(g, coo, m, rows, len);
    }
    BuiltSame(g, rows, coo, ExtrasBefore(EXTRA), All());
  }
}
