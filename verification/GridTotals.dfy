/** The number of entries that is allocated before the matrix is built is the number of entries
    that is built. */
module GridTotals {
  import opened GridNetwork
  import opened SweepRuns
  import opened GridSystem
  import opened GridCounts

  function EdgesBefore(j: nat, m: nat): nat {
    if j == 0 then 0 else if j < m then 1 else 2
  }

  /** Neighbours above and below. */
  function Vertical(layers: nat, n: nat): nat {
    One(n > 0) + One(n + 1 < layers)
  }

  lemma TimesNext(k: nat, c: int)
    ensures (k + 1) * c == k * c + c
  {
  }

  lemma LengthIs(g: Grid, n: nat, i: nat, j: nat)
    ensures LengthOf(g)(Cell(n, i, j)) as int
            == 5 + Vertical(|g.layers|, n)
              - (if n + 2 < |g.layers| then One(OnEdge(i, g.rows)) + One(OnEdge(j, g.cols)) else 0)
  {
  }

  /** Cells of a row that lie on no edge column have w entries. */
  lemma {:induction false} RowCount(g: Grid, n: nat, i: nat, j: nat, w: int)
    requires g.cols >= 2 && j <= g.cols
    requires w == 5 + Vertical(|g.layers|, n) - if n + 2 < |g.layers| then One(OnEdge(i, g.rows)) else 0
    ensures CountCells(g, LengthOf(g), n, i, j)
            == CountCells(g, LengthOf(g), n, i, 0) + j * w - if n + 2 < |g.layers| then EdgesBefore(j, g.cols) else 0
    decreases j
  {
    if j > 0 {
      RowCount(g, n, i, j - 1, w);
      LengthIs(g, n, i, j - 1);
      TimesNext(j - 1, w);
    }
  }

  lemma EdgeRow(cols: nat, v: int, e: nat, w: int, plain: bool)
    requires e <= 1 && w == 5 + v - if plain then e else 0
    ensures cols * w == cols * (5 + v) - if plain && e == 1 then cols else 0
  {
  }

  /** Rows of a layer that lie on no edge have u entries. */
  lemma {:induction false} LayerCount(g: Grid, n: nat, i: nat, u: int)
    requires g.cols >= 2 && g.rows >= 2 && i <= g.rows
    requires u == g.cols * (5 + Vertical(|g.layers|, n)) - if n + 2 < |g.layers| then 2 else 0
    ensures CountCells(g, LengthOf(g), n, i, 0)
            == CountCells(g, LengthOf(g), n, 0, 0) + i * u - if n + 2 < |g.layers| then EdgesBefore(i, g.rows) * g.cols
              else 0
    decreases i
  {
    if i > 0 {
      LayerCount(g, n, i - 1, u);
      TimesNext(i - 1, u);
      var e := One(OnEdge(i - 1, g.rows));
      var w := 5 + Vertical(|g.layers|, n) - if n + 2 < |g.layers| then e else 0;
      RowCount(g, n, i - 1, g.cols, w);
      EdgeRow(g.cols, Vertical(|g.layers|, n), e, w, n + 2 < |g.layers|);
      EdgesNext(i - 1, g.rows, g.cols);
    }
  }

  lemma EdgesNext(i: nat, rows: nat, cols: nat)
    requires rows >= 2 && i < rows
    ensures EdgesBefore(i + 1, rows) * cols == EdgesBefore(i, rows) * cols + if OnEdge(i, rows) then cols else 0
  {
  }

  /** Entries of a layer: five diagonals without what lies outside, the vertical neighbours, and
      beside package nodes also those. */
  function LayerSize(layers: nat, rows: nat, cols: nat, n: nat): int {
    rows * cols * (5 + Vertical(layers, n)) - if n + 2 < layers then 2 * (rows + cols) else 0
  }

  lemma LayerArea(rows: nat, cols: nat, v: int)
    ensures rows * (cols * v) == rows * cols * v && rows * (cols * v - 2) == rows * cols * v - 2 * rows
  {
  }

  lemma LayerTotal(g: Grid, n: nat)
    requires g.cols >= 2 && g.rows >= 2
    ensures CountCells(g, LengthOf(g), n + 1, 0, 0) ==
            CountCells(g, LengthOf(g), n, 0, 0) + LayerSize(|g.layers|, g.rows, g.cols, n)
  {
    var v := 5 + Vertical(|g.layers|, n);
    var u := g.cols * v - if n + 2 < |g.layers| then 2 else 0;
    LayerCount(g, n, g.rows, u);
    LayerArea(g.rows, g.cols, v);
    assert CountCells(g, LengthOf(g), n + 1, 0, 0) == CountCells(g, LengthOf(g), n, g.rows, 0);
  }

  /** Layers before n that are beside package nodes. */
  function Packed(layers: nat, n: nat): nat {
    if n + 2 <= layers then 0 else n + 2 - layers
  }

  function VerticalBefore(layers: nat, n: nat): nat {
    if n == 0 then 0 else if n < layers then 2 * n - 1 else 2 * n - 2
  }

  lemma SizeSplits(layers: nat, n: nat, area: int, border: int, v: nat)
    requires n < layers && layers >= 2 && v == Vertical(layers, n)
    ensures area * (5 + v) == 5 * area + v * area
    ensures VerticalBefore(layers, n + 1) * area == VerticalBefore(layers, n) * area + v * area
    ensures Packed(layers, n + 1) * border == Packed(layers, n) * border + if n + 2 < layers then 0 else border
  {
    assert VerticalBefore(layers, n + 1) == VerticalBefore(layers, n) + v;
    assert Packed(layers, n + 1) == Packed(layers, n) + if n + 2 < layers then 0 else 1;
  }

  lemma {:induction false} CellsTotal(g: Grid, n: nat, area: int, border: int)
    requires |g.layers| >= 2 && g.cols >= 2 && g.rows >= 2 && n <= |g.layers| && area == g.rows * g.cols
    requires border == 2 * (g.rows + g.cols)
    ensures CountCells(g, LengthOf(g), n, 0, 0)
            == n * (5 * area - border) + VerticalBefore(|g.layers|, n) * area + Packed(|g.layers|, n) * border
    decreases n
  {
    if n > 0 {
      CellsTotal(g, n - 1, area, border);
      LayerTotal(g, n - 1);
      SizeSplits(|g.layers|, n - 1, area, border, Vertical(|g.layers|, n - 1));
      TimesNext(n - 1, 5 * area - border);
    }
  }

  /** Four package nodes of one kind have rows of the cells along all sides and more entries each. */
  lemma FourExtras(g: Grid, m: nat)
    requires m == 0 || m == 4 || m == 8
    ensures CountExtras(g, LengthOf(g), m + 4) == CountExtras(g, LengthOf(g), m)
            + if m == 0 then 8 else 2 * (g.rows + g.cols) + if m == 4 then 12 else 8
  {
    assert CountExtras(g, LengthOf(g), m + 2) == CountExtras(g, LengthOf(g), m)
           + LengthOf(g)(Extra(AtTurn(m))) + LengthOf(g)(Extra(AtTurn(m + 1)));
  }

  /** What is allocated: five diagonals for every layer, the vertical neighbours, the borders of
      spreader and sink seen from both sides, and the package nodes among themselves. */
  function Allocated(layers: nat, rows: nat, cols: nat): int {
    (5 * rows * cols - 2 * (rows + cols)) * layers + 2 * (layers - 1) * rows * cols + 2 * 2 * 2 * (rows + cols)
      + (EXTRA + 16)
  }

  lemma AllocatedIs(layers: nat, rows: nat, cols: nat, area: int, border: int)
    requires layers >= 2 && area == rows * cols && border == 2 * (rows + cols)
    ensures Allocated(layers, rows, cols)
            == layers * (5 * area - border) + VerticalBefore(layers, layers) * area + Packed(layers, layers) * border
              + 2 * border + 28
  {
    assert 5 * rows * cols == 5 * area;
    assert 2 * (layers - 1) * rows * cols == (2 * (layers - 1)) * area;
  }

  /** As many entries as were allocated. */
  lemma CountIsAllocated(g: Grid)
    requires Sound(g) && g.rows >= 2 && g.cols >= 2
    ensures CountExtras(g, LengthOf(g), EXTRA) == Allocated(|g.layers|, g.rows, g.cols)
  {
    CellsTotal(g, |g.layers|, g.rows * g.cols, 2 * (g.rows + g.cols));
    FourExtras(g, 0);
    FourExtras(g, 4);
    FourExtras(g, 8);
    AllocatedIs(|g.layers|, g.rows, g.cols, g.rows * g.cols, 2 * (g.rows + g.cols));
  }
}
