/** From a list of entries in any order to compressed columns. */
module SparseColumns {

  datatype Elem = Elem(x: int, y: int, val: real)

  /** By column, then by row. */
  predicate Before(a: Elem, b: Elem) {
    if a.y != b.y then a.y <= b.y else a.x <= b.x
  }

  predicate Sorted(s: seq<Elem>) {
    forall i, j :: 0 <= i < j < |s| ==> Before(s[i], s[j])
  }

  predicate SamePlace(a: Elem, b: Elem) {
    a.x == b.x && a.y == b.y
  }

  ghost predicate Repeats(s: seq<Elem>) {
    exists i, j :: 0 <= i < j < |s| && SamePlace(s[i], s[j])
  }

  // ---------- sorting ----------

  method Insert(s: seq<Elem>, e: Elem) returns (r: seq<Elem>)
    requires Sorted(s)
    ensures Sorted(r) && multiset(r) == multiset(s) + multiset{e}
  {
    var k := |s|;
    while k > 0 && !Before(s[k - 1], e)
      invariant 0 <= k <= |s| && forall i :: k <= i < |s| ==> Before(e, s[i])
    {
      k := k - 1;
    }
    r := s[..k] + [e] + s[k..];
    Inserted(s, k, e);
  }

  lemma Inserted(s: seq<Elem>, k: nat, e: Elem)
    requires Sorted(s) && k <= |s| && (k > 0 ==> Before(s[k - 1], e)) && forall i :: k <= i < |s| ==> Before(e, s[i])
    ensures Sorted(s[..k] + [e] + s[k..]) && multiset(s[..k] + [e] + s[k..]) == multiset(s) + multiset{e}
  {
    assert s == s[..k] + s[k..];
    InsertedSorted(s[..k], e, s[k..]);
  }

  lemma InsertedSorted(p: seq<Elem>, e: Elem, q: seq<Elem>)
    requires Sorted(p + q) && (p != [] ==> Before(p[|p| - 1], e)) && forall i :: 0 <= i < |q| ==> Before(e, q[i])
    ensures Sorted(p + [e] + q)
  {
    forall i | 0 <= i < |p|
      ensures Before(p[i], e)
    {
      assert i < |p| - 1 ==> Before((p + q)[i], (p + q)[|p| - 1]);
    }
    forall i, j | 0 <= i < j < |p + [e] + q|
      ensures Before((p + [e] + q)[i], (p + [e] + q)[j])
    {
      var i', j' := if i <= |p| then i else i - 1, if j <= |p| then j else j - 1;
      if i != |p| && j != |p| {
        assert Before((p + q)[i'], (p + q)[j']);
      }
    }
  }

  /** Any sort that is by column and row does: this one inserts one after another. */
  method Sort(es: seq<Elem>) returns (s: seq<Elem>)
    ensures Sorted(s) && multiset(s) == multiset(es)
  {
    s := [];
    for n := 0 to |es|
      invariant Sorted(s) && multiset(s) == multiset(es[..n])
    {
      s := Insert(s, es[n]);
      assert es[..n + 1] == es[..n] + [es[n]];
    }
    assert es[..|es|] == es;
  }

  lemma SameLength<T>(a: seq<T>, b: seq<T>)
    requires multiset(a) == multiset(b)
    ensures |a| == |b|
  {
    assert |multiset(a)| == |a| && |multiset(b)| == |b|;
  }

  // ---------- columns ----------

  /** Column c and all after it start at p. */
  ghost predicate Starts(s: seq<Elem>, c: int, p: int) {
    && 0 <= p <= |s|
    && (forall k :: 0 <= k < p ==> s[k].y < c)
    && (forall k :: p <= k < |s| ==> s[k].y >= c)
  }

  function LastColumn(s: seq<Elem>): int {
    if s == [] then -1 else s[|s| - 1].y
  }

  ghost predicate Columns(s: seq<Elem>, colPtr: seq<int>, j: int) {
    -1 <= j < |colPtr| && forall c :: 0 <= c <= j ==> Starts(s, c, colPtr[c])
  }

  lemma NextStarts(s: seq<Elem>, i: nat, j: int)
    requires Sorted(s) && i <= |s| && LastColumn(s[..i]) <= j && (i < |s| ==> j < s[i].y)
    ensures Starts(s, j + 1, i)
  {
    forall k | 0 <= k < i
      ensures s[k].y < j + 1
    {
      if k < i - 1 {
        assert Before(s[k], s[i - 1]);
      }
    }
    forall k | i <= k < |s|
      ensures s[k].y >= j + 1
    {
      if i < k {
        assert Before(s[i], s[k]);
      }
    }
  }

  /** Columns up to y that have no earlier entry start at i. */
  method StartColumns(ghost s: seq<Elem>, colPtr: array<int>, i: nat, j: int, y: int) returns (j': int)
    requires Sorted(s) && i < |s| && 0 <= y == s[i].y < colPtr.Length && j == LastColumn(s[..i])
    requires Columns(s, colPtr[..], j)
    modifies colPtr
    ensures j' == LastColumn(s[..i + 1]) && Columns(s, colPtr[..], j')
    ensures forall c :: j' < c < colPtr.Length ==> colPtr[c] == old(colPtr[c])
  {
    j' := j;
    while j' < y
      invariant j <= j' < colPtr.Length && (j' <= y || j' == j) && Columns(s, colPtr[..], j')
      invariant forall c :: j' < c < colPtr.Length ==> colPtr[c] == old(colPtr[c])
    {
      NextStarts(s, i, j');
      j' := j' + 1;
      colPtr[j'] := i;
    }
    if i > 0 {
      assert Before(s[i - 1], s[i]);
    }
  }

  lemma NoneBefore(s: seq<Elem>, n: nat)
    requires Sorted(s) && n < |s|
    ensures Repeats(s[..n + 1]) <==> Repeats(s[..n]) || (n > 0 && SamePlace(s[n - 1], s[n]))
  {
    if Repeats(s[..n]) {
      var i, j :| 0 <= i < j < n && SamePlace(s[..n][i], s[..n][j]);
      assert SamePlace(s[..n + 1][i], s[..n + 1][j]);
    }
    if n > 0 && SamePlace(s[n - 1], s[n]) {
      assert SamePlace(s[..n + 1][n - 1], s[..n + 1][n]);
    }
    if Repeats(s[..n + 1]) {
      var i, j :| 0 <= i < j < n + 1 && SamePlace(s[..n + 1][i], s[..n + 1][j]);
      if j < n {
        assert SamePlace(s[..n][i], s[..n][j]);
      } else if i < n - 1 {
        assert Before(s[i], s[n - 1]) && Before(s[n - 1], s[n]);
      }
    }
  }

  ghost predicate InRange(s: seq<Elem>, size: nat) {
    forall k :: 0 <= k < |s| ==> 0 <= s[k].x && 0 <= s[k].y < size
  }

  /** Rows and values in order, and where each column starts; whether a place repeats. */
  method CopyOut(size: nat, s: seq<Elem>, rowInd: array<int>, colPtr: array<int>, val: array<real>)
    returns (j: int, warned: bool)
    requires Sorted(s) && InRange(s, size) && rowInd.Length == val.Length == |s| && colPtr.Length == size + 1
    requires rowInd != colPtr
    modifies rowInd, colPtr, val
    ensures forall k :: 0 <= k < |s| ==> rowInd[k] == s[k].x && val[k] == s[k].val
    ensures j == LastColumn(s) < size && Columns(s, colPtr[..], j + 1)
    ensures forall c :: j + 1 < c <= size ==> colPtr[c] == old(colPtr[c])
    ensures warned <==> Repeats(s)
  {
    j, warned := -1, false;
    var prev := Elem(-1, -1, 0.0);
    var i := 0;
    while i < |s|
      invariant 0 <= i <= |s| && j == LastColumn(s[..i]) < size && Columns(s, colPtr[..], j)
      invariant forall k :: 0 <= k < i ==> rowInd[k] == s[k].x && val[k] == s[k].val
      invariant forall c :: j < c <= size ==> colPtr[c] == old(colPtr[c])
      invariant warned <==> Repeats(s[..i])
      invariant prev == if i == 0 then Elem(-1, -1, 0.0) else s[i - 1]
    {
      rowInd[i] := s[i].x;
      val[i] := s[i].val;
      j := StartColumns(s, colPtr, i, j, s[i].y);
      NoneBefore(s, i);
      warned := warned || SamePlace(s[i], prev);
      prev := s[i];
      i := i + 1;
    }
    assert s[..i] == s;
    NextStarts(s, i, j);
    colPtr[j + 1] := i;
  }

  // ---------- the whole conversion ----------

  /** The entries in the three given arrays. */
  ghost function Entries(cooX: seq<int>, cooY: seq<int>, cooV: seq<real>): seq<Elem>
    requires |cooX| == |cooY| == |cooV|
  {
    seq(|cooX|, k requires 0 <= k < |cooX| => Elem(cooX[k], cooY[k], cooV[k]))
  }

  method CopyIn(cooX: array<int>, cooY: array<int>, cooV: array<real>) returns (es: seq<Elem>)
    requires cooX.Length == cooY.Length == cooV.Length
    ensures es == Entries(cooX[..], cooY[..], cooV[..])
  {
    es := [];
    for k := 0 to cooX.Length
      invariant |es| == k && forall i :: 0 <= i < k ==> es[i] == Elem(cooX[i], cooY[i], cooV[i])
    {
      es := es + [Elem(cooX[k], cooY[k], cooV[k])];
    }
  }

  lemma Within(es: seq<Elem>, s: seq<Elem>, size: nat)
    requires multiset(es) == multiset(s) && InRange(es, size)
    ensures InRange(s, size) && |s| == |es|
  {
    SameLength(es, s);
    forall k | 0 <= k < |s|
      ensures 0 <= s[k].x && 0 <= s[k].y < size
    {
      assert s[k] in multiset(s);
      assert s[k] in es;
    }
  }

  /** The slice of column c: exactly its entries, in ascending order of their rows. */
  ghost predicate IsSlice(s: seq<Elem>, c: int, from: int, to: int) {
    && 0 <= from <= to <= |s|
    && (forall k :: 0 <= k < |s| ==> (from <= k < to <==> s[k].y == c))
    && (forall k, l :: from <= k < l < to ==> s[k].x <= s[l].x)
  }

  lemma SliceBetween(s: seq<Elem>, c: int, p: int, q: int)
    requires Sorted(s) && Starts(s, c, p) && Starts(s, c + 1, q)
    ensures IsSlice(s, c, p, q)
  {
    if q < |s| {
      assert s[q].y >= c + 1;
    }
    forall k, l | p <= k < l < q
      ensures s[k].x <= s[l].x
    {
      assert Before(s[k], s[l]);
    }
  }

  /** Whether some entry is in column c. */
  ghost predicate Occupied(es: seq<Elem>, c: int) {
    exists k :: 0 <= k < |es| && es[k].y == c
  }

  lemma LastOccupied(es: seq<Elem>, s: seq<Elem>, size: nat)
    requires Sorted(s) && multiset(es) == multiset(s) && InRange(es, size) && InRange(s, size) && size > 0
    ensures LastColumn(s) == size - 1 <==> Occupied(es, size - 1)
  {
    if LastColumn(s) == size - 1 {
      assert s[|s| - 1] in multiset(s);
      assert s[|s| - 1] in es;
    }
    if Occupied(es, size - 1) {
      var k :| 0 <= k < |es| && es[k].y == size - 1;
      assert es[k] in multiset(es);
      assert es[k] in s;
      var l :| 0 <= l < |s| && s[l] == es[k];
      if l < |s| - 1 {
        assert Before(s[l], s[|s| - 1]);
      }
    }
  }

  lemma SameRepeats(a: seq<Elem>, b: seq<Elem>)
    requires multiset(a) == multiset(b) && Repeats(a)
    ensures Repeats(b)
  {
    var i, j :| 0 <= i < j < |a| && SamePlace(a[i], a[j]);
    var k := Find(b, a[i], multiset(a));
    if a[i] == a[j] {
      TwiceIn(a, i, j);
      var p, q := FindTwo(b, a[i]);
      assert SamePlace(b[p], b[q]);
    } else {
      var l := Find(b, a[j], multiset(a));
      if k < l {
        assert SamePlace(b[k], b[l]);
      } else {
        assert SamePlace(b[l], b[k]);
      }
    }
  }

  lemma Find(b: seq<Elem>, e: Elem, m: multiset<Elem>) returns (k: nat)
    requires m == multiset(b) && e in m
    ensures k < |b| && b[k] == e
  {
    assert e in b;
    k :| 0 <= k < |b| && b[k] == e;
  }

  lemma TwiceIn(a: seq<Elem>, i: nat, j: nat)
    requires i < j < |a| && a[i] == a[j]
    ensures multiset(a)[a[i]] >= 2
  {
    assert a == a[..j] + [a[j]] + a[j + 1..];
    assert a[..j][i] in multiset(a[..j]);
  }

  lemma FindTwo(b: seq<Elem>, e: Elem) returns (p: nat, q: nat)
    requires multiset(b)[e] >= 2
    ensures p < q < |b| && b[p] == e && b[q] == e
  {
    var k := Find(b, e, multiset(b));
    var rest := b[..k] + b[k + 1..];
    assert b == b[..k] + [b[k]] + b[k + 1..];
    var l := Find(rest, e, multiset(rest));
    if l < k {
      p, q := l, k;
    } else {
      p, q := k, l + 1;
    }
  }

  /** The compressed columns of the given entries: a sorted arrangement s of them gives rows and
      values, and every column up to the last that is occupied has its slice. The end of the last
      column is written exactly when that column is occupied. */
  method CooToCsc(size: nat, cooX: array<int>, cooY: array<int>, cooV: array<real>,
                  rowInd: array<int>, colPtr: array<int>, val: array<real>)
    returns (ghost s: seq<Elem>, warned: bool)
    requires cooX.Length == cooY.Length == cooV.Length == rowInd.Length == val.Length && colPtr.Length == size + 1
    requires rowInd != colPtr && InRange(Entries(cooX[..], cooY[..], cooV[..]), size)
    modifies rowInd, colPtr, val
    ensures Sorted(s) && multiset(s) == multiset(old(Entries(cooX[..], cooY[..], cooV[..])))
    ensures |s| == rowInd.Length && forall k :: 0 <= k < |s| ==> rowInd[k] == s[k].x && val[k] == s[k].val
    ensures LastColumn(s) < size && forall c :: 0 <= c <= LastColumn(s) ==> IsSlice(s, c, colPtr[c], colPtr[c + 1])
    ensures size == 0 || Occupied(old(Entries(cooX[..], cooY[..], cooV[..])), size - 1) ==>
              LastColumn(s) == size - 1 && colPtr[size] == |s|
    ensures size > 0 && !Occupied(old(Entries(cooX[..], cooY[..], cooV[..])), size - 1) ==>
              colPtr[size] == old(colPtr[size])
    ensures warned <==> Repeats(old(Entries(cooX[..], cooY[..], cooV[..])))
  {
    var es := CopyIn(cooX, cooY, cooV);
    var a := Sort(es);
    s := a;
    Within(es, s, size);
    var j;
    j, warned := CopyOut(size, a, rowInd, colPtr, val);
    SlicesFrom(s, colPtr[..], j);
    if size > 0 {
      LastOccupied(es, s, size);
    }
    if Repeats(es) {
      SameRepeats(es, s);
    } else if Repeats(s) {
      SameRepeats(s, es);
    }
  }

  lemma SlicesFrom(s: seq<Elem>, colPtr: seq<int>, j: int)
    requires Sorted(s) && j == LastColumn(s) && Columns(s, colPtr, j + 1)
    ensures forall c :: 0 <= c <= j ==> IsSlice(s, c, colPtr[c], colPtr[c + 1])
    ensures j + 1 >= 0 ==> colPtr[j + 1] == |s|
  {
    forall c | 0 <= c <= j
      ensures IsSlice(s, c, colPtr[c], colPtr[c + 1])
    {
      SliceBetween(s, c, colPtr[c], colPtr[c + 1]);
    }
    if 0 <= j {
      assert Starts(s, j + 1, colPtr[j + 1]);
    }
  }

  /** Two columns, of which the second is empty: its end keeps whatever was there before. */
  method EmptyLastColumn(before: int) returns (end: int)
    ensures end == before
  {
    var cooX, cooY, cooV := new int[1], new int[1], new real[1];
    cooX[0], cooY[0], cooV[0] := 0, 0, 1.0;
    var rowInd, colPtr, val := new int[1], new int[3], new real[1];
    colPtr[2] := before;
    ghost var es := Entries(cooX[..], cooY[..], cooV[..]);
    assert !Occupied(es, 1);
    ghost var s;
    var warned;
    s, warned := CooToCsc(2, cooX, cooY, cooV, rowInd, colPtr, val);
    end := colPtr[2];
  }
}
