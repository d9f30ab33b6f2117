/** Which blocks of a layer lie in which cells of the grid, and how much of each cell they occupy. */
module BlockGrid {
  import opened Shapes
  import opened Tilings
  import opened Extents
  import opened CellRanges

  /** Rows and columns of cells with the given width and height. */
  datatype Cells = Cells(rows: nat, cols: nat, cw: real, ch: real)

  predicate Proper(c: Cells) {
    c.rows >= 1 && c.cols >= 1 && c.cw > 0.0 && c.ch > 0.0
  }

  /** The chip that the cells make up. */
  function Outline(c: Cells): Rect {
    Rect(0.0, 0.0, Line(c.cols, c.cw), Line(c.rows, c.ch))
  }

  /** Dividing a chip into rows and columns. */
  lemma Divided(width: real, height: real, rows: nat, cols: nat)
    requires width > 0.0 && height > 0.0 && rows >= 1 && cols >= 1
    ensures var c := Cells(rows, cols, width / cols as real, height / rows as real);
            Proper(c) && Outline(c) == Rect(0.0, 0.0, width, height)
  {
    Quotient(width, cols as real);
    Quotient(height, rows as real);
    CellsMakeUp(cols, width);
    CellsMakeUp(rows, height);
  }

  predicate IsCell(c: Cells, i: int, j: int) {
    0 <= i < c.rows && 0 <= j < c.cols
  }

  /** Rows are counted from the top. */
  function CellRect(c: Cells, i: nat, j: nat): Rect
    requires IsCell(c, i, j)
  {
    Rect(Line(j, c.cw), Line(c.rows - 1 - i, c.ch), c.cw, c.ch)
  }

  function CellArea(c: Cells): real {
    c.ch * c.cw
  }

  /** Height and width that a block and a cell have in common. */
  function SharedHeight(c: Cells, u: Rect, i: nat): (h: real)
    requires i < c.rows
    ensures h >= 0.0
  {
    InCell(u.bottomy, Top(u), c.ch, c.rows - 1 - i)
  }

  function SharedWidth(c: Cells, u: Rect, j: nat): (w: real)
    ensures w >= 0.0
  {
    InCell(u.leftx, Right(u), c.cw, j)
  }

  function SharedArea(c: Cells, u: Rect, i: nat, j: nat): real
    requires IsCell(c, i, j)
  {
    SharedHeight(c, u, i) * SharedWidth(c, u, j)
  }

  lemma ProductSign(x: real, y: real)
    requires x >= 0.0 && y >= 0.0
    ensures x * y >= 0.0 && (x * y > 0.0 <==> x > 0.0 && y > 0.0)
  {
  }

  // ---------- the cells a block meets ----------

  datatype CellRange = CellRange(i1: int, i2: int, j1: int, j2: int)

  predicate InRange(r: CellRange, i: int, j: int) {
    r.i1 <= i < r.i2 && r.j1 <= j < r.j2
  }

  /** The range is that of the block in both axes. */
  ghost predicate IsRangeOf(c: Cells, u: Rect, r: CellRange) {
    && 0 <= r.i1 < r.i2 <= c.rows && 0 <= r.j1 < r.j2 <= c.cols
    && IsRange(u.leftx, Right(u), c.cw, r.j1, r.j2)
    && IsRange(u.bottomy, Top(u), c.ch, c.rows - r.i2, c.rows - r.i1)
  }

  lemma FloorNegative(x: real, w: real)
    requires w > 0.0 && x < 0.0
    ensures TolerantFloor(x / w) < 0
  {
    var q := x / w;
    Rounding(q);
    if q >= 0.0 {
      Quotient(x, w);
      ProductSign(w, q);
    }
  }

  lemma CeilBeyond(x: real, w: real, n: nat)
    requires w > 0.0 && x > Line(n, w)
    ensures TolerantCeil(x / w) > n
  {
    var q := x / w;
    Quotient(x, w);
    Rounding(q);
    LineIs(n, w);
    Exceeds(q, n as real, w, x, Line(n, w));
  }

  lemma Exceeds(q: real, n: real, w: real, x: real, y: real)
    requires w > 0.0 && w * q == x && y == n * w && x > y
    ensures q > n
  {
    if q <= n {
      TimesLess(q, n, w);
    }
  }

  /** In one axis the checks pass exactly when the stretch is within the grid. */
  lemma Refused(lo: real, hi: real, w: real, n: nat)
    requires lo < hi && w > 0.0
    ensures var a, b := TolerantFloor(lo / w), TolerantCeil(hi / w);
            if 0.0 <= lo && hi <= Line(n, w) then b <= n && IsRange(lo, hi, w, a, b) else a < 0 || b > n
  {
    if lo < 0.0 {
      FloorNegative(lo, w);
    } else if hi > Line(n, w) {
      CeilBeyond(hi, w, n);
    } else {
      RangeOf(lo, hi, w, n);
    }
  }

  /** Start and end cell of a block. It is refused exactly when it sticks out of the chip. */
  method FindRange(c: Cells, u: Rect) returns (ok: bool, r: CellRange)
    requires Proper(c) && PositiveRect(u)
    ensures ok <==> Inside(u, Outline(c))
    ensures ok ==> IsRangeOf(c, u, r)
  {
    var lu, ru, bu, tu := u.leftx, u.leftx + u.width, u.bottomy, u.bottomy + u.height;
    var i1, i2 := c.rows - TolerantCeil(tu / c.ch), c.rows - TolerantFloor(bu / c.ch);
    var j1, j2 := TolerantFloor(lu / c.cw), TolerantCeil(ru / c.cw);
    r := CellRange(i1, i2, j1, j2);
    Refused(lu, ru, c.cw, c.cols);
    Refused(bu, tu, c.ch, c.rows);
    if i1 < 0 || j1 < 0 {
      return false, r;
    }
    if i2 > c.rows || j2 > c.cols {
      return false, r;
    }
    if i1 >= i2 || j1 >= j2 {
      return false, r;
    }
    ok := true;
  }

  /** The range of a block holds exactly the cells it shares area with. */
  lemma RangeIsShared(c: Cells, u: Rect, r: CellRange, i: nat, j: nat)
    requires Proper(c) && PositiveRect(u) && IsRangeOf(c, u, r) && IsCell(c, i, j)
    ensures InRange(r, i, j) <==> SharedArea(c, u, i, j) > 0.0
  {
    var h, w := RangeMeets(c, u, r, i, j);
    ProductSign(h, w);
  }

  lemma RangeMeets(c: Cells, u: Rect, r: CellRange, i: nat, j: nat) returns (h: real, w: real)
    requires Proper(c) && PositiveRect(u) && IsRangeOf(c, u, r) && IsCell(c, i, j)
    ensures h == SharedHeight(c, u, i) >= 0.0 && w == SharedWidth(c, u, j) >= 0.0
    ensures (h > 0.0 <==> r.i1 <= i < r.i2) && (w > 0.0 <==> r.j1 <= j < r.j2)
  {
    RangeParts(u.leftx, Right(u), c.cw, r.j1, r.j2, j);
    RangeParts(u.bottomy, Top(u), c.ch, c.rows - r.i2, c.rows - r.i1, c.rows - 1 - i);
    h, w := SharedHeight(c, u, i), SharedWidth(c, u, j);
  }

  // ---------- occupancies ----------

  lemma {:induction false} LineSum(a: nat, b: nat, w: real)
    ensures Line(a + b, w) == Line(a, w) + Line(b, w)
    decreases b
  {
    if b > 0 {
      LineSum(a, b - 1, w);
    }
  }

  /** The lower end of a cell by multiplication. */
  method LineAt(k: nat, w: real) returns (x: real)
    ensures x == Line(k, w)
  {
    x := k as real * w;
    LineIs(k, w);
  }

  /** Row i from the top, when the cells make up the height. */
  lemma RowEnds(rows: nat, ch: real, i: nat)
    requires i < rows
    ensures Line(rows, ch) - Line(i, ch) == Line(rows - 1 - i, ch) + ch
    ensures Line(rows, ch) - Line(i + 1, ch) == Line(rows - 1 - i, ch)
  {
    LineSum(rows - 1 - i, i + 1, ch);
  }

  /** Values equal to nothing or to the whole cell are set to it. */
  function Snap(o: real, size: real): real
    requires size > 0.0
  {
    if o / size == 0.0 then 0.0 else if o / size == 1.0 then size else o
  }

  lemma SnapIs(o: real, size: real)
    requires size > 0.0
    ensures Snap(o, size) == o
  {
    Quotient(o, size);
  }

  /** o is the share of the cell that the block occupies. */
  ghost predicate Occupies(c: Cells, u: Rect, i: nat, j: nat, o: real)
    requires IsCell(c, i, j)
  {
    o * CellArea(c) == SharedArea(c, u, i, j)
  }

  /** The product of two overlaps over the cell; whether one of them is negative. */
  method ShareOfCell(oh: real, ow: real, ch: real, cw: real) returns (negative: bool, o: real)
    requires cw > 0.0 && ch > 0.0
    ensures o * (ch * cw) == oh * ow && negative == (oh < 0.0 || ow < 0.0)
  {
    SnapIs(oh, ch);
    SnapIs(ow, cw);
    var h, w := Snap(oh, ch), Snap(ow, cw);
    ProductSign(ch, cw);
    negative := h < 0.0 || w < 0.0;
    o := Divide(h * w, ch * cw);
  }

  method Divide(x: real, d: real) returns (q: real)
    requires d > 0.0
    ensures q * d == x
  {
    q := x / d;
    Quotient(x, d);
    assert q * d == d * q;
  }

  /** The plain difference of ends is the length shared. */
  ghost predicate IsPlain(lo: real, hi: real, a: real, b: real, shared: real) {
    Min(hi, b) - Max(lo, a) == shared > 0.0
  }

  lemma PlainIs(lo: real, hi: real, w: real, a: nat, b: nat, k: nat)
    requires lo < hi && w > 0.0 && IsRange(lo, hi, w, a, b) && a <= k < b
    ensures IsPlain(lo, hi, Line(k, w), Line(k, w) + w, InCell(lo, hi, w, k))
    ensures a < k < b - 1 ==> InCell(lo, hi, w, k) == w
  {
    RangeParts(lo, hi, w, a, b, k);
  }

  /** What block and cell share, in both axes. */
  ghost predicate Overlaps(c: Cells, u: Rect, r: CellRange, i: nat, j: nat, h: real, w: real) {
    && i < c.rows
    && IsPlain(u.leftx, Right(u), Line(j, c.cw), Line(j, c.cw) + c.cw, w)
    && IsPlain(u.bottomy, Top(u), Line(c.rows - 1 - i, c.ch), Line(c.rows - 1 - i, c.ch) + c.ch, h)
    && (r.j1 < j < r.j2 - 1 ==> w == c.cw) && (r.i1 < i < r.i2 - 1 ==> h == c.ch)
  }

  lemma OverlapsAre(c: Cells, u: Rect, r: CellRange, i: nat, j: nat) returns (h: real, w: real)
    requires Proper(c) && PositiveRect(u) && IsRangeOf(c, u, r) && InRange(r, i, j)
    ensures h == SharedHeight(c, u, i) && w == SharedWidth(c, u, j) && Overlaps(c, u, r, i, j, h, w)
  {
    PlainIs(u.leftx, Right(u), c.cw, r.j1, r.j2, j);
    PlainIs(u.bottomy, Top(u), c.ch, c.rows - r.i2, c.rows - r.i1, c.rows - 1 - i);
    h, w := SharedHeight(c, u, i), SharedWidth(c, u, j);
  }

  method MeasureShare(c: Cells, height: real, u: Rect, r: CellRange, i: nat, j: nat, ghost h: real, ghost w: real)
    returns (negative: bool, o: real)
    requires Proper(c) && height == Line(c.rows, c.ch) && Overlaps(c, u, r, i, j, h, w)
    ensures !negative && o * CellArea(c) == h * w
  {
    if r.i1 < i < r.i2 - 1 && r.j1 < j < r.j2 - 1 {
      return false, 1.0;
    }
    var ow := ColumnOverlap(c, u, j, w);
    var oh := RowOverlap(c, height, u, i, h);
    negative, o := ShareOfCell(oh, ow, c.ch, c.cw);
  }

  /** The occupancy of a cell in a block's range. No overlap is negative. */
  method Occupancy(c: Cells, height: real, u: Rect, r: CellRange, i: nat, j: nat) returns (negative: bool, o: real)
    requires Proper(c) && height == Line(c.rows, c.ch) && PositiveRect(u) && IsRangeOf(c, u, r) && InRange(r, i, j)
    ensures !negative && Occupies(c, u, i, j, o)
  {
    ghost var h, w;
    negative, o, h, w := FindShare(c, height, u, r, i, j);
    OccupiesIs(c, u, i, j, o, h, w);
  }

  lemma OccupiesIs(c: Cells, u: Rect, i: nat, j: nat, o: real, h: real, w: real)
    requires IsCell(c, i, j) && h == SharedHeight(c, u, i) && w == SharedWidth(c, u, j) && o * CellArea(c) == h * w
    ensures Occupies(c, u, i, j, o)
  {
  }

  method FindShare(c: Cells, height: real, u: Rect, r: CellRange, i: nat, j: nat)
    returns (negative: bool, o: real, ghost h: real, ghost w: real)
    requires Proper(c) && height == Line(c.rows, c.ch) && PositiveRect(u) && IsRangeOf(c, u, r) && InRange(r, i, j)
    ensures h == SharedHeight(c, u, i) && w == SharedWidth(c, u, j) && !negative && o * CellArea(c) == h * w
  {
    h, w := OverlapsAre(c, u, r, i, j);
    negative, o := MeasureShare(c, height, u, r, i, j, h, w);
  }

  method ColumnOverlap(c: Cells, u: Rect, j: nat, ghost shared: real) returns (ow: real)
    requires IsPlain(u.leftx, Right(u), Line(j, c.cw), Line(j, c.cw) + c.cw, shared)
    ensures ow == shared > 0.0
  {
    var lc := LineAt(j, c.cw);
    var rc := LineAt(j + 1, c.cw);
    ow := Min(u.leftx + u.width, rc) - Max(u.leftx, lc);
  }

  method RowOverlap(c: Cells, height: real, u: Rect, i: nat, ghost shared: real) returns (oh: real)
    requires i < c.rows && height == Line(c.rows, c.ch)
    requires IsPlain(u.bottomy, Top(u), Line(c.rows - 1 - i, c.ch), Line(c.rows - 1 - i, c.ch) + c.ch, shared)
    ensures oh == shared > 0.0
  {
    var above := LineAt(i, c.ch);
    var next := LineAt(i + 1, c.ch);
    var tc, bc := height - above, height - next;
    RowEnds(c.rows, c.ch, i);
    oh := Min(u.bottomy + u.height, tc) - Max(u.bottomy, bc);
  }
}
