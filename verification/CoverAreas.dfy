/** Rectangles that hold every point of a rectangle exactly once, and no other point, have its area
    in all. The area is taken strip by strip between the heights of all edges. */
module CoverAreas {
  import opened Tilings
  import opened Extents
  import opened Intervals

  // ---------- along a horizontal line ----------

  /** Where the rectangles meet the line at height y. */
  function RowAt(rs: seq<Rect>, y: real): seq<Interval> {
    if rs == [] then [] else RowAt(rs[..|rs| - 1], y) + PieceAt(rs[|rs| - 1], y)
  }

  function PieceAt(r: Rect, y: real): seq<Interval> {
    if r.bottomy <= y < Top(r) && r.width > 0.0 then [Interval(r.leftx, r.width)] else []
  }

  lemma {:induction false} RowHits(rs: seq<Rect>, y: real, p: real)
    ensures Hits(RowAt(rs, y), p) == Cover(rs, p, y) && AllLong(RowAt(rs, y))
    decreases |rs|
  {
    if rs != [] {
      var r := rs[|rs| - 1];
      RowHits(rs[..|rs| - 1], y, p);
      if PieceAt(r, y) != [] {
        HitsLast(RowAt(rs[..|rs| - 1], y), Interval(r.leftx, r.width), p);
      } else {
        assert RowAt(rs, y) == RowAt(rs[..|rs| - 1], y);
      }
    }
  }

  ghost predicate Covers(rs: seq<Rect>, r: Rect) {
    && (forall i :: 0 <= i < |rs| ==> NonNegative(rs[i])) && NonNegative(r)
    && (forall px, py :: Cover(rs, px, py) == Indicator(r, px, py))
  }

  /** The line meets the width of what is covered, or nothing. */
  lemma RowLength(rs: seq<Rect>, r: Rect, y: real)
    requires Covers(rs, r)
    ensures Length(RowAt(rs, y)) == if r.bottomy <= y < Top(r) then r.width else 0.0
  {
    var within := r.bottomy <= y < Top(r);
    var b := if within then Right(r) else r.leftx;
    var row := RowAt(rs, y);
    forall p
      ensures Hits(row, p) == if r.leftx <= p < b then 1 else 0
    {
      RowHits(rs, y, p);
      assert Cover(rs, p, y) == Indicator(r, p, y);
    }
    RowHits(rs, y, 0.0);
    SpanLength(row, r.leftx, b);
  }

  // ---------- strips between cuts ----------

  predicate Ascending(cs: seq<real>) {
    forall i, j :: 0 <= i < j < |cs| ==> cs[i] <= cs[j]
  }

  /** Heights of the first m strips at whose lower cut the range lo to hi is met. */
  function Met(lo: real, hi: real, cs: seq<real>, m: nat): real
    requires m < |cs|
  {
    if m == 0 then 0.0 else Met(lo, hi, cs, m - 1) + if lo <= cs[m - 1] < hi then cs[m] - cs[m - 1] else 0.0
  }

  function Clamped(lo: real, hi: real, x: real): real {
    if x < lo then 0.0 else if x < hi then x - lo else hi - lo
  }

  lemma {:induction false} MetIs(lo: real, hi: real, cs: seq<real>, m: nat, i: nat, j: nat)
    requires Ascending(cs) && m < |cs| && lo <= hi && i < |cs| && j < |cs| && cs[i] == lo && cs[j] == hi
    ensures Met(lo, hi, cs, m) == Clamped(lo, hi, cs[m])
    decreases m
  {
    if m > 0 {
      MetIs(lo, hi, cs, m - 1, i, j);
      assert cs[m - 1] <= cs[m];
      assert i >= m ==> cs[m] <= cs[i];
      assert i < m ==> cs[i] <= cs[m - 1];
      assert j >= m ==> cs[m] <= cs[j];
      assert j < m ==> cs[j] <= cs[m - 1];
    } else {
      assert cs[0] <= cs[i];
    }
  }

  /** A range between two cuts is met over its whole height. */
  lemma MetWhole(lo: real, hi: real, cs: seq<real>)
    requires Ascending(cs) && cs != [] && lo <= hi && lo in cs && hi in cs
    ensures Met(lo, hi, cs, |cs| - 1) == hi - lo
  {
    var i :| 0 <= i < |cs| && cs[i] == lo;
    var j :| 0 <= j < |cs| && cs[j] == hi;
    MetIs(lo, hi, cs, |cs| - 1, i, j);
    assert cs[j] <= cs[|cs| - 1];
  }

  /** A function taken strip by strip, at the lower cuts. */
  function Stripped(f: real -> real, cs: seq<real>, m: nat): real
    requires m < |cs|
  {
    if m == 0 then 0.0 else Stripped(f, cs, m - 1) + (cs[m] - cs[m - 1]) * f(cs[m - 1])
  }

  lemma Distribute(d: real, x: real, y: real)
    ensures d * (x + y) == d * x + d * y
  {
  }

  lemma {:induction false} StrippedAdd(h: real -> real, f: real -> real, g: real -> real, cs: seq<real>, m: nat)
    requires m < |cs| && forall y :: h(y) == f(y) + g(y)
    ensures Stripped(h, cs, m) == Stripped(f, cs, m) + Stripped(g, cs, m)
    decreases m
  {
    if m > 0 {
      StrippedAdd(h, f, g, cs, m - 1);
      Distribute(cs[m] - cs[m - 1], f(cs[m - 1]), g(cs[m - 1]));
    }
  }

  /** Width w between lo and hi. */
  ghost predicate IsBox(g: real -> real, lo: real, hi: real, w: real) {
    forall y :: g(y) == if lo <= y < hi then w else 0.0
  }

  lemma BoxStep(s: real, w: real, m: real, d: real, met: bool)
    requires s == w * m
    ensures s + d * (if met then w else 0.0) == w * (m + if met then d else 0.0)
  {
    if met {
      Distribute(w, m, d);
    }
  }

  lemma {:induction false} StrippedBox(g: real -> real, lo: real, hi: real, w: real, cs: seq<real>, m: nat)
    requires m < |cs| && IsBox(g, lo, hi, w)
    ensures Stripped(g, cs, m) == w * Met(lo, hi, cs, m)
    decreases m
  {
    if m > 0 {
      StrippedBox(g, lo, hi, w, cs, m - 1);
      BoxStep(Stripped(g, cs, m - 1), w, Met(lo, hi, cs, m - 1), cs[m] - cs[m - 1], lo <= cs[m - 1] < hi);
    }
  }

  /** A box between two cuts has its area. */
  lemma StrippedWhole(g: real -> real, lo: real, hi: real, w: real, cs: seq<real>)
    requires Ascending(cs) && cs != [] && lo <= hi && lo in cs && hi in cs && IsBox(g, lo, hi, w)
    ensures Stripped(g, cs, |cs| - 1) == w * (hi - lo)
  {
    StrippedBox(g, lo, hi, w, cs, |cs| - 1);
    MetWhole(lo, hi, cs);
  }

  lemma LengthLast(rs: seq<Rect>, r: Rect, y: real)
    requires r.width >= 0.0
    ensures Length(RowAt(rs + [r], y)) == Length(RowAt(rs, y)) + if r.bottomy <= y < Top(r) then r.width else 0.0
  {
    assert (rs + [r])[..|rs|] == rs;
    if PieceAt(r, y) != [] {
      HitsLast(RowAt(rs, y), Interval(r.leftx, r.width), 0.0);
    } else {
      assert RowAt(rs + [r], y) == RowAt(rs, y);
    }
  }

  /** The cuts are at all lower and upper edges. */
  ghost predicate CutAll(rs: seq<Rect>, cs: seq<real>) {
    forall i :: 0 <= i < |rs| ==> rs[i].bottomy in cs && Top(rs[i]) in cs
  }

  /** f is the length met at each height. */
  ghost predicate IsRow(f: real -> real, rs: seq<Rect>) {
    forall y {:trigger RowAt(rs, y)} :: f(y) == Length(RowAt(rs, y))
  }

  lemma RowFunction(rs: seq<Rect>) returns (f: real -> real)
    ensures IsRow(f, rs)
  {
    f := (y: real) => Length(RowAt(rs, y));
  }

  lemma BoxFunction(lo: real, hi: real, w: real) returns (g: real -> real)
    ensures IsBox(g, lo, hi, w)
  {
    g := (y: real) => if lo <= y < hi then w else 0.0;
  }

  lemma NothingIsBox(h: real -> real)
    requires IsRow(h, [])
    ensures IsBox(h, 0.0, 0.0, 0.0)
  {
    forall y
      ensures h(y) == 0.0
    {
      assert RowAt([], y) == [];
    }
  }

  ghost predicate AddsUp(h: real -> real, f: real -> real, g: real -> real) {
    forall y :: h(y) == f(y) + g(y)
  }

  lemma RowSplits(h: real -> real, f: real -> real, g: real -> real, rs: seq<Rect>, r: Rect)
    requires IsRow(h, rs + [r]) && IsRow(f, rs) && IsBox(g, r.bottomy, Top(r), r.width) && r.width >= 0.0
    ensures AddsUp(h, f, g)
  {
    forall y
      ensures h(y) == f(y) + g(y)
    {
      LengthLast(rs, r, y);
    }
  }

  /** Taking a function strip by strip, by name only. */
  type Taking = (real -> real) -> real

  ghost predicate Additive(t: Taking) {
    forall h, f, g {:trigger AddsUp(h, f, g)} :: AddsUp(h, f, g) ==> t(h) == t(f) + t(g)
  }

  /** The box of a rectangle is taken as its area. */
  ghost predicate Measures(t: Taking, r: Rect) {
    forall g {:trigger IsBox(g, r.bottomy, Top(r), r.width)} ::
      IsBox(g, r.bottomy, Top(r), r.width) ==> t(g) == AreaOf(r)
  }

  ghost function Strips(cs: seq<real>): Taking
    requires cs != []
  {
    (f: real -> real) => Stripped(f, cs, |cs| - 1)
  }

  lemma StripsAdditive(cs: seq<real>)
    requires cs != []
    ensures Additive(Strips(cs))
  {
    forall h, f, g | AddsUp(h, f, g)
      ensures Strips(cs)(h) == Strips(cs)(f) + Strips(cs)(g)
    {
      StrippedAdd(h, f, g, cs, |cs| - 1);
    }
  }

  lemma StripsMeasure(cs: seq<real>, r: Rect)
    requires Ascending(cs) && cs != [] && r.bottomy in cs && Top(r) in cs && NonNegative(r)
    ensures Measures(Strips(cs), r)
  {
    forall g | IsBox(g, r.bottomy, Top(r), r.width)
      ensures Strips(cs)(g) == AreaOf(r)
    {
      StrippedWhole(g, r.bottomy, Top(r), r.width, cs);
      assert Top(r) - r.bottomy == r.height;
    }
  }

  lemma {:induction false} RowsMeasured(t: Taking, h: real -> real, rs: seq<Rect>)
    requires Additive(t) && IsRow(h, rs) && Measures(t, Rect(0.0, 0.0, 0.0, 0.0))
    requires forall i {:trigger Measures(t, rs[i])} :: 0 <= i < |rs| ==> NonNegative(rs[i]) && Measures(t, rs[i])
    ensures t(h) == TotalArea(rs)
    decreases |rs|
  {
    if rs == [] {
      NothingIsBox(h);
      assert IsBox(h, 0.0, Top(Rect(0.0, 0.0, 0.0, 0.0)), 0.0);
    } else {
      var n := |rs| - 1;
      var rest, r := rs[..n], rs[n];
      assert rs == rest + [r] && Measures(t, rs[n]);
      forall i | 0 <= i < |rest|
        ensures NonNegative(rest[i]) && Measures(t, rest[i])
      {
        assert Measures(t, rs[i]);
      }
      var f := RowFunction(rest);
      var g := BoxFunction(r.bottomy, Top(r), r.width);
      RowsMeasured(t, f, rest);
      RowSplits(h, f, g, rest, r);
    }
  }

  // ---------- cuts exist ----------

  lemma {:induction false} Cut(cs: seq<real>, v: real) returns (r: seq<real>)
    requires Ascending(cs)
    ensures Ascending(r) && v in r && forall x :: x in cs ==> x in r
  {
    var k: nat := |cs|;
    while k > 0 && cs[k - 1] > v
      invariant 0 <= k <= |cs| && forall i :: k <= i < |cs| ==> cs[i] > v
    {
      k := k - 1;
    }
    r := cs[..k] + [v] + cs[k..];
    assert r[k] == v;
    forall x | x in cs
      ensures x in r
    {
      var i :| 0 <= i < |cs| && cs[i] == x;
      assert r[if i < k then i else i + 1] == x;
    }
    forall i, j | 0 <= i < j < |r|
      ensures r[i] <= r[j]
    {
      assert i < k && k > 0 ==> r[i] == cs[i] && (i == k - 1 || cs[i] <= cs[k - 1]);
      assert i != k && j != k ==> r[i] == cs[if i < k then i else i - 1] && r[j] == cs[if j < k then j else j - 1];
    }
  }

  lemma {:induction false} Cuts(rs: seq<Rect>) returns (cs: seq<real>)
    ensures Ascending(cs) && CutAll(rs, cs)
    decreases |rs|
  {
    if rs == [] {
      cs := [];
    } else {
      var n := |rs| - 1;
      cs := Cuts(rs[..n]);
      var more := Cut(cs, rs[n].bottomy);
      cs := Cut(more, Top(rs[n]));
    }
  }

  /** A way of taking functions that measures all these rectangles. */
  lemma TakingFor(all: seq<Rect>) returns (t: Taking)
    requires all != [] && forall i :: 0 <= i < |all| ==> NonNegative(all[i])
    ensures Additive(t) && forall i {:trigger Measures(t, all[i])} :: 0 <= i < |all| ==> Measures(t, all[i])
  {
    var cs := Cuts(all);
    assert all[0].bottomy in cs;
    t := Strips(cs);
    StripsAdditive(cs);
    forall i | 0 <= i < |all|
      ensures Measures(Strips(cs), all[i])
    {
      StripsMeasure(cs, all[i]);
    }
  }

  /** Covering point by point is covering by area. */
  lemma CoverArea(rs: seq<Rect>, r: Rect)
    requires Covers(rs, r)
    ensures Tiles(rs, r)
  {
    var zero := Rect(0.0, 0.0, 0.0, 0.0);
    var all := rs + [r, zero];
    var t := TakingFor(all);
    assert Measures(t, all[|rs|]) && Measures(t, all[|rs| + 1]);
    forall i | 0 <= i < |rs|
      ensures Measures(t, rs[i])
    {
      assert Measures(t, all[i]);
    }
    SameMeasure(t, rs, r);
  }

  lemma SameMeasure(t: Taking, rs: seq<Rect>, r: Rect)
    requires Covers(rs, r) && Additive(t) && Measures(t, Rect(0.0, 0.0, 0.0, 0.0)) && Measures(t, r)
    requires forall i {:trigger Measures(t, rs[i])} :: 0 <= i < |rs| ==> Measures(t, rs[i])
    ensures TotalArea(rs) == AreaOf(r)
  {
    var f := RowFunction(rs);
    RowsMeasured(t, f, rs);
    RowIsBox(f, rs, r);
  }

  lemma RowIsBox(f: real -> real, rs: seq<Rect>, r: Rect)
    requires IsRow(f, rs) && Covers(rs, r)
    ensures IsBox(f, r.bottomy, Top(r), r.width)
  {
    forall y
      ensures f(y) == if r.bottomy <= y < Top(r) then r.width else 0.0
    {
      RowLength(rs, r, y);
      assert f(y) == Length(RowAt(rs, y));
    }
  }
}
