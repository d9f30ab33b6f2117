/** Interpolation in place: blocks of four inside, then the boundary. */
module Prolongation {
  import opened GridNetwork
  import opened Multigrid

  /** d is twice as fine as s, and s holds t. */
  ghost predicate Finer(d: array3<real>, s: array3<real>, t: Field)
    reads s
  {
    && d != s && d.Length0 == s.Length0 && d.Length1 == 2 * s.Length1 && d.Length2 == 2 * s.Length2
    && forall n, i, j :: 0 <= n < s.Length0 && 0 <= i < s.Length1 && 0 <= j < s.Length2 ==>
         s[n, i, j] == t(Cell(n, i, j))
  }

  /** What belongs into a fine cell, by name only. */
  type Cells = (nat, nat, nat) -> real

  type Places = iset<(nat, nat, nat)>

  /** At all these places d has what belongs there. */
  ghost predicate Correct(d: array3<real>, f: Cells, done: Places)
    reads d
  {
    forall n, i, j :: 0 <= n < d.Length0 && 0 <= i < d.Length1 && 0 <= j < d.Length2 && (n, i, j) in done ==>
      d[n, i, j] == f(n, i, j)
  }

  /** A correct value spoils no other. */
  method Put(d: array3<real>, n: nat, i: nat, j: nat, x: real, ghost f: Cells, ghost done: Places)
    returns (ghost done': Places)
    requires n < d.Length0 && i < d.Length1 && j < d.Length2 && x == f(n, i, j) && Correct(d, f, done)
    modifies d
    ensures Correct(d, f, done') && done' == done + iset{(n, i, j)}
  {
    d[n, i, j] := x;
    done' := done + iset{(n, i, j)};
  }

  ghost function Blends(t: Field, rows: nat, cols: nat): Cells {
    (n: nat, i: nat, j: nat) => Blend(t, n, rows, cols, i, j)
  }

  /** Four values around the corner of coarse cells (i, j) and (i + 1, j + 1). */
  ghost predicate BlockIs(f: Cells, n: nat, i: nat, j: nat, a: real, b: real, c: real, d: real) {
    && f(n, 2 * i + 1, 2 * j + 1) == Weigh(a, b, c, d)
    && f(n, 2 * i + 2, 2 * j + 1) == Weigh(b, a, d, c)
    && f(n, 2 * i + 2, 2 * j + 2) == Weigh(d, c, b, a)
    && f(n, 2 * i + 1, 2 * j + 2) == Weigh(c, d, a, b)
  }

  lemma Halving(i: nat)
    ensures Near(2 * i + 1) == i && Next(2 * i + 1) == i + 1 && Near(2 * i + 2) == i + 1 && Next(2 * i + 2) == i
    ensures Near(2 * i) == i
  {
  }

  lemma BlockBlends(t: Field, rows: nat, cols: nat, n: nat, i: nat, j: nat)
    requires i + 1 < rows && j + 1 < cols
    ensures BlockIs(Blends(t, rows, cols), n, i, j, t(Cell(n, i, j)), t(Cell(n, i + 1, j)), t(Cell(n, i, j + 1)),
                    t(Cell(n, i + 1, j + 1)))
  {
    Halving(i);
    Halving(j);
    assert Inner(2 * i + 1, rows) && Inner(2 * i + 2, rows) && Inner(2 * j + 1, cols) && Inner(2 * j + 2, cols);
  }

  ghost predicate BlockIn(done: Places, n: nat, i: nat, j: nat) {
    && (n, 2 * i + 1, 2 * j + 1) in done && (n, 2 * i + 2, 2 * j + 1) in done
    && (n, 2 * i + 2, 2 * j + 2) in done && (n, 2 * i + 1, 2 * j + 2) in done
  }

  method PutBlock(d: array3<real>, n: nat, i: nat, j: nat, a: real, b: real, c: real, e: real, ghost f: Cells,
                  ghost done: Places)
    returns (ghost done': Places)
    requires n < d.Length0 && 2 * i + 2 < d.Length1 && 2 * j + 2 < d.Length2 && BlockIs(f, n, i, j, a, b, c, e)
    requires Correct(d, f, done)
    modifies d
    ensures Correct(d, f, done') && done <= done' && BlockIn(done', n, i, j)
  {
    done' := Put(d, n, 2 * i + 1, 2 * j + 1, Weigh(a, b, c, e), f, done);
    done' := Put(d, n, 2 * i + 2, 2 * j + 1, Weigh(b, a, e, c), f, done');
    done' := Put(d, n, 2 * i + 2, 2 * j + 2, Weigh(e, c, b, a), f, done');
    done' := Put(d, n, 2 * i + 1, 2 * j + 2, Weigh(c, e, a, b), f, done');
  }

  /** Boundary cells beside coarse row i, and beside coarse column j. */
  ghost predicate SideIs(f: Cells, rows: nat, cols: nat, n: nat, i: nat, west: real, east: real) {
    && cols >= 1
    && f(n, 2 * i, 0) == west && f(n, 2 * i + 1, 0) == west
    && f(n, 2 * i, 2 * cols - 1) == east && f(n, 2 * i + 1, 2 * cols - 1) == east
  }

  ghost predicate EndIs(f: Cells, rows: nat, cols: nat, n: nat, j: nat, north: real, south: real) {
    && rows >= 1
    && f(n, 0, 2 * j) == north && f(n, 0, 2 * j + 1) == north
    && f(n, 2 * rows - 1, 2 * j) == south && f(n, 2 * rows - 1, 2 * j + 1) == south
  }

  lemma SideBlends(t: Field, rows: nat, cols: nat, n: nat, i: nat)
    requires i < rows && cols >= 1
    ensures SideIs(Blends(t, rows, cols), rows, cols, n, i, t(Cell(n, i, 0)), t(Cell(n, i, cols - 1)))
  {
    Halving(i);
    Halving(cols - 1);
    assert !Inner(0, cols) && !Inner(2 * cols - 1, cols) && 2 * cols - 1 == 2 * (cols - 1) + 1;
  }

  lemma EndBlends(t: Field, rows: nat, cols: nat, n: nat, j: nat)
    requires j < cols && rows >= 1
    ensures EndIs(Blends(t, rows, cols), rows, cols, n, j, t(Cell(n, 0, j)), t(Cell(n, rows - 1, j)))
  {
    Halving(j);
    Halving(rows - 1);
    assert !Inner(0, rows) && !Inner(2 * rows - 1, rows) && 2 * rows - 1 == 2 * (rows - 1) + 1;
  }

  /** What the interpolation means, block by block and along the boundary. */
  ghost predicate Means(f: Cells, t: Field, rows: nat, cols: nat) {
    && rows >= 1 && cols >= 1
    && (forall n: nat, i: nat, j: nat {:trigger t(Cell(n, i + 1, j + 1))} :: i + 1 < rows && j + 1 < cols ==>
          BlockIs(f, n, i, j, t(Cell(n, i, j)), t(Cell(n, i + 1, j)), t(Cell(n, i, j + 1)), t(Cell(n, i + 1, j + 1))))
    && (forall n: nat, i: nat {:trigger t(Cell(n, i, 0))} ::
        i < rows ==> SideIs(f, rows, cols, n, i, t(Cell(n, i, 0)), t(Cell(n, i, cols - 1))))
    && (forall n: nat, j: nat {:trigger t(Cell(n, 0, j))} ::
        j < cols ==> EndIs(f, rows, cols, n, j, t(Cell(n, 0, j)), t(Cell(n, rows - 1, j))))
  }

  lemma BlendsMean(t: Field, rows: nat, cols: nat)
    requires rows >= 1 && cols >= 1
    ensures Means(Blends(t, rows, cols), t, rows, cols)
  {
    var f := Blends(t, rows, cols);
    forall n: nat, i: nat, j: nat | i + 1 < rows && j + 1 < cols
      ensures BlockIs(f, n, i, j, t(Cell(n, i, j)), t(Cell(n, i + 1, j)), t(Cell(n, i, j + 1)),
                      t(Cell(n, i + 1, j + 1)))
    {
      BlockBlends(t, rows, cols, n, i, j);
    }
    forall n: nat, i: nat | i < rows
      ensures SideIs(f, rows, cols, n, i, t(Cell(n, i, 0)), t(Cell(n, i, cols - 1)))
    {
      SideBlends(t, rows, cols, n, i);
    }
    forall n: nat, j: nat | j < cols
      ensures EndIs(f, rows, cols, n, j, t(Cell(n, 0, j)), t(Cell(n, rows - 1, j)))
    {
      EndBlends(t, rows, cols, n, j);
    }
  }

  // ---------- loops ----------

  ghost predicate RowIn(done: Places, n: nat, i: nat, m: int) {
    forall j :: 0 <= j < m ==> BlockIn(done, n, i, j)
  }

  ghost predicate LayerIn(done: Places, n: nat, m: int, last: int) {
    forall i :: 0 <= i < m ==> RowIn(done, n, i, last)
  }

  lemma RowGrows(done: Places, done': Places, n: nat, i: nat, m: int)
    requires done <= done' && RowIn(done, n, i, m)
    ensures RowIn(done', n, i, m)
  {
    forall j | 0 <= j < m
      ensures BlockIn(done', n, i, j)
    {
      assert BlockIn(done, n, i, j);
    }
  }

  lemma LayerGrows(done: Places, done': Places, n: nat, m: int, last: int)
    requires done <= done' && LayerIn(done, n, m, last)
    ensures LayerIn(done', n, m, last)
  {
    forall i | 0 <= i < m
      ensures RowIn(done', n, i, last)
    {
      assert RowIn(done, n, i, last);
      RowGrows(done, done', n, i, last);
    }
  }

  method ProlongRow(d: array3<real>, s: array3<real>, n: nat, i: nat, ghost t: Field, ghost f: Cells,
                    ghost done: Places)
    returns (ghost done': Places)
    requires Finer(d, s, t) && Means(f, t, s.Length1, s.Length2) && n < s.Length0 && i + 1 < s.Length1
    requires Correct(d, f, done)
    modifies d
    ensures Correct(d, f, done') && done <= done' && RowIn(done', n, i, s.Length2 - 1)
  {
    done' := done;
    for j := 0 to s.Length2 - 1
      invariant Finer(d, s, t) && Correct(d, f, done') && done <= done' && RowIn(done', n, i, j)
    {
      assert BlockIs(f, n, i, j, t(Cell(n, i, j)), t(Cell(n, i + 1, j)), t(Cell(n, i, j + 1)),
                     t(Cell(n, i + 1, j + 1)));
      ghost var before := done';
      done' := PutBlock(d, n, i, j, s[n, i, j], s[n, i + 1, j], s[n, i, j + 1], s[n, i + 1, j + 1], f, done');
      RowGrows(before, done', n, i, j);
    }
  }

  method ProlongLayer(d: array3<real>, s: array3<real>, n: nat, ghost t: Field, ghost f: Cells, ghost done: Places)
    returns (ghost done': Places)
    requires Finer(d, s, t) && Means(f, t, s.Length1, s.Length2) && n < s.Length0 && Correct(d, f, done)
    modifies d
    ensures Correct(d, f, done') && done <= done' && LayerIn(done', n, s.Length1 - 1, s.Length2 - 1)
  {
    done' := done;
    for i := 0 to s.Length1 - 1
      invariant Finer(d, s, t) && Correct(d, f, done') && done <= done' && LayerIn(done', n, i, s.Length2 - 1)
    {
      ghost var before := done';
      done' := ProlongRow(d, s, n, i, t, f, done');
      LayerGrows(before, done', n, i, s.Length2 - 1);
    }
  }

  // ---------- the boundary ----------

  ghost predicate SideIn(done: Places, n: nat, i: nat, cols: nat) {
    && cols >= 1 && (n, 2 * i, 0) in done && (n, 2 * i + 1, 0) in done
    && (n, 2 * i, 2 * cols - 1) in done && (n, 2 * i + 1, 2 * cols - 1) in done
  }

  ghost predicate EndIn(done: Places, n: nat, j: nat, rows: nat) {
    && rows >= 1 && (n, 0, 2 * j) in done && (n, 0, 2 * j + 1) in done
    && (n, 2 * rows - 1, 2 * j) in done && (n, 2 * rows - 1, 2 * j + 1) in done
  }

  ghost predicate SidesIn(done: Places, n: nat, m: nat, cols: nat) {
    forall i :: 0 <= i < m ==> SideIn(done, n, i, cols)
  }

  ghost predicate EndsIn(done: Places, n: nat, m: nat, rows: nat) {
    forall j :: 0 <= j < m ==> EndIn(done, n, j, rows)
  }

  ghost predicate BoundaryIn(done: Places, n: nat, rows: nat, cols: nat) {
    SidesIn(done, n, rows, cols) && EndsIn(done, n, cols, rows)
  }

  lemma SidesGrow(done: Places, done': Places, n: nat, m: nat, cols: nat)
    requires done <= done' && SidesIn(done, n, m, cols)
    ensures SidesIn(done', n, m, cols)
  {
    forall i | 0 <= i < m
      ensures SideIn(done', n, i, cols)
    {
      assert SideIn(done, n, i, cols);
    }
  }

  lemma EndsGrow(done: Places, done': Places, n: nat, m: nat, rows: nat)
    requires done <= done' && EndsIn(done, n, m, rows)
    ensures EndsIn(done', n, m, rows)
  {
    forall j | 0 <= j < m
      ensures EndIn(done', n, j, rows)
    {
      assert EndIn(done, n, j, rows);
    }
  }

  /** Both boundary columns of the fine rows of coarse row i. */
  method PutSide(d: array3<real>, n: nat, i: nat, rows: nat, nc: nat, west: real, east: real, ghost f: Cells,
                 ghost done: Places)
    returns (ghost done': Places)
    requires n < d.Length0 && i < rows && d.Length1 == 2 * rows && d.Length2 == 2 * nc
    requires SideIs(f, rows, nc, n, i, west, east)
    requires Correct(d, f, done)
    modifies d
    ensures Correct(d, f, done') && done <= done' && SideIn(done', n, i, nc)
  {
    done' := Put(d, n, 2 * i, 0, west, f, done);
    done' := Put(d, n, 2 * i + 1, 0, west, f, done');
    done' := Put(d, n, 2 * i, 2 * nc - 1, east, f, done');
    done' := Put(d, n, 2 * i + 1, 2 * nc - 1, east, f, done');
  }

  method PutEnd(d: array3<real>, n: nat, j: nat, nr: nat, cols: nat, north: real, south: real, ghost f: Cells,
                ghost done: Places)
    returns (ghost done': Places)
    requires n < d.Length0 && j < cols && d.Length1 == 2 * nr && d.Length2 == 2 * cols
    requires EndIs(f, nr, cols, n, j, north, south)
    requires Correct(d, f, done)
    modifies d
    ensures Correct(d, f, done') && done <= done' && EndIn(done', n, j, nr)
  {
    done' := Put(d, n, 0, 2 * j, north, f, done);
    done' := Put(d, n, 0, 2 * j + 1, north, f, done');
    done' := Put(d, n, 2 * nr - 1, 2 * j, south, f, done');
    done' := Put(d, n, 2 * nr - 1, 2 * j + 1, south, f, done');
  }

  method ProlongSides(d: array3<real>, s: array3<real>, n: nat, ghost t: Field, ghost f: Cells, ghost done: Places)
    returns (ghost done': Places)
    requires Finer(d, s, t) && Means(f, t, s.Length1, s.Length2) && n < s.Length0 && Correct(d, f, done)
    modifies d
    ensures Correct(d, f, done') && done <= done' && SidesIn(done', n, s.Length1, s.Length2)
  {
    var nc := s.Length2;
    done' := done;
    for i := 0 to s.Length1
      invariant Finer(d, s, t) && Correct(d, f, done') && done <= done' && SidesIn(done', n, i, nc)
    {
      assert SideIs(f, s.Length1, nc, n, i, t(Cell(n, i, 0)), t(Cell(n, i, nc - 1)));
      ghost var before := done';
      done' := PutSide(d, n, i, s.Length1, nc, s[n, i, 0], s[n, i, nc - 1], f, done');
      SidesGrow(before, done', n, i, nc);
    }
  }

  method ProlongEnds(d: array3<real>, s: array3<real>, n: nat, ghost t: Field, ghost f: Cells, ghost done: Places)
    returns (ghost done': Places)
    requires Finer(d, s, t) && Means(f, t, s.Length1, s.Length2) && n < s.Length0 && Correct(d, f, done)
    modifies d
    ensures Correct(d, f, done') && done <= done' && EndsIn(done', n, s.Length2, s.Length1)
  {
    var nr := s.Length1;
    done' := done;
    for j := 0 to s.Length2
      invariant Finer(d, s, t) && Correct(d, f, done') && done <= done' && EndsIn(done', n, j, nr)
    {
      assert EndIs(f, nr, s.Length2, n, j, t(Cell(n, 0, j)), t(Cell(n, nr - 1, j)));
      ghost var before := done';
      done' := PutEnd(d, n, j, nr, s.Length2, s[n, 0, j], s[n, nr - 1, j], f, done');
      EndsGrow(before, done', n, j, nr);
    }
  }

  // ---------- every cell is reached ----------

  /** The coarse corner whose block holds an inner fine cell. */
  lemma Reached(done: Places, n: nat, i: nat, j: nat, rows: nat, cols: nat)
    requires LayerIn(done, n, rows - 1, cols - 1) && BoundaryIn(done, n, rows, cols) && i < 2 * rows && j < 2 * cols
    ensures (n, i, j) in done
  {
    if Inner(i, rows) && Inner(j, cols) {
      var a, b := (i - 1) / 2, (j - 1) / 2;
      assert RowIn(done, n, a, cols - 1);
      assert BlockIn(done, n, a, b);
      assert (i == 2 * a + 1 || i == 2 * a + 2) && (j == 2 * b + 1 || j == 2 * b + 2);
    } else if Inner(i, rows) {
      ReachedSide(done, n, i, j, rows, cols);
    } else {
      ReachedEnd(done, n, i, j, rows, cols);
    }
  }

  lemma ReachedSide(done: Places, n: nat, i: nat, j: nat, rows: nat, cols: nat)
    requires BoundaryIn(done, n, rows, cols) && i < 2 * rows && j < 2 * cols && !Inner(j, cols)
    ensures (n, i, j) in done
  {
    assert SideIn(done, n, i / 2, cols);
    assert i == 2 * (i / 2) || i == 2 * (i / 2) + 1;
  }

  lemma ReachedEnd(done: Places, n: nat, i: nat, j: nat, rows: nat, cols: nat)
    requires BoundaryIn(done, n, rows, cols) && i < 2 * rows && j < 2 * cols && !Inner(i, rows)
    ensures (n, i, j) in done
  {
    assert EndIn(done, n, j / 2, rows);
    assert j == 2 * (j / 2) || j == 2 * (j / 2) + 1;
  }

  /** Interpolates all cells: inside from four, on the boundary from the nearest. */
  method ProlongCells(d: array3<real>, s: array3<real>, ghost t: Field)
    requires Finer(d, s, t) && s.Length1 >= 1 && s.Length2 >= 1
    modifies d
    ensures forall n, i, j :: 0 <= n < d.Length0 && 0 <= i < d.Length1 && 0 <= j < d.Length2
                              ==> d[n, i, j] == Blend(t, n, s.Length1, s.Length2, i, j)
  {
    ghost var f := Blends(t, s.Length1, s.Length2);
    BlendsMean(t, s.Length1, s.Length2);
    ghost var done := ProlongAll(d, s, t, f);
  }

  ghost predicate InnerIn(done: Places, m: nat, lastRow: int, last: int) {
    forall n :: 0 <= n < m ==> LayerIn(done, n, lastRow, last)
  }

  ghost predicate OuterIn(done: Places, m: nat, rows: nat, cols: nat) {
    forall n :: 0 <= n < m ==> BoundaryIn(done, n, rows, cols)
  }

  lemma InnerGrows(done: Places, done': Places, m: nat, lastRow: int, last: int)
    requires done <= done' && InnerIn(done, m, lastRow, last)
    ensures InnerIn(done', m, lastRow, last)
  {
    forall n | 0 <= n < m
      ensures LayerIn(done', n, lastRow, last)
    {
      LayerGrows(done, done', n, lastRow, last);
    }
  }

  lemma OuterGrows(done: Places, done': Places, m: nat, rows: nat, cols: nat)
    requires done <= done' && OuterIn(done, m, rows, cols)
    ensures OuterIn(done', m, rows, cols)
  {
    forall n | 0 <= n < m
      ensures BoundaryIn(done', n, rows, cols)
    {
      assert BoundaryIn(done, n, rows, cols);
      SidesGrow(done, done', n, rows, cols);
      EndsGrow(done, done', n, cols, rows);
    }
  }

  method ProlongInner(d: array3<real>, s: array3<real>, ghost t: Field, ghost f: Cells) returns (ghost done: Places)
    requires Finer(d, s, t) && Means(f, t, s.Length1, s.Length2)
    modifies d
    ensures Correct(d, f, done) && InnerIn(done, s.Length0, s.Length1 - 1, s.Length2 - 1)
  {
    done := iset{};
    for n := 0 to s.Length0
      invariant Finer(d, s, t) && Correct(d, f, done) && InnerIn(done, n, s.Length1 - 1, s.Length2 - 1)
    {
      ghost var before := done;
      done := ProlongLayer(d, s, n, t, f, done);
      InnerGrows(before, done, n, s.Length1 - 1, s.Length2 - 1);
    }
  }

  method ProlongOuter(d: array3<real>, s: array3<real>, ghost t: Field, ghost f: Cells, ghost done: Places)
    returns (ghost done': Places)
    requires Finer(d, s, t) && Means(f, t, s.Length1, s.Length2) && Correct(d, f, done)
    modifies d
    ensures Correct(d, f, done') && done <= done' && OuterIn(done', s.Length0, s.Length1, s.Length2)
  {
    done' := done;
    for n := 0 to s.Length0
      invariant Finer(d, s, t) && Correct(d, f, done') && done <= done' && OuterIn(done', n, s.Length1, s.Length2)
    {
      ghost var before := done';
      done' := ProlongSides(d, s, n, t, f, done');
      ghost var between := done';
      done' := ProlongEnds(d, s, n, t, f, done');
      SidesGrow(between, done', n, s.Length1, s.Length2);
      OuterGrows(before, done', n, s.Length1, s.Length2);
    }
  }

  method ProlongAll(d: array3<real>, s: array3<real>, ghost t: Field, ghost f: Cells) returns (ghost done: Places)
    requires Finer(d, s, t) && Means(f, t, s.Length1, s.Length2)
    modifies d
    ensures Correct(d, f, done)
    ensures forall n: nat, i: nat, j: nat :: n < d.Length0 && i < d.Length1 && j < d.Length2 ==> (n, i, j) in done
  {
    ghost var inner := ProlongInner(d, s, t, f);
    done := ProlongOuter(d, s, t, f, inner);
    InnerGrows(inner, done, s.Length0, s.Length1 - 1, s.Length2 - 1);
    forall n: nat, i: nat, j: nat | n < d.Length0 && i < d.Length1 && j < d.Length2
      ensures (n, i, j) in done
    {
      Reached(done, n, i, j, s.Length1, s.Length2);
    }
  }
}
