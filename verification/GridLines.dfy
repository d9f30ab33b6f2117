/** The lines along the edges of a floorplan's units, in one axis: what inserting all edges up to
    the tolerance leaves, and how many there can be. */
module GridLines {
  import opened Tilings
  import opened Extents
  import opened Adjacency
  import opened SortedLines
  import opened Permutations

  /** Lower and upper edge of a unit, in y if upright, else in x. */
  function Lo(r: Rect, upright: bool): real {
    if upright then r.bottomy else r.leftx
  }

  function Hi(r: Rect, upright: bool): real {
    if upright then Top(r) else Right(r)
  }

  predicate EdgeOf(r: Rect, upright: bool, v: real) {
    v == Lo(r, upright) || v == Hi(r, upright)
  }

  ghost predicate IsEdge(us: seq<Rect>, upright: bool, v: real) {
    exists i :: 0 <= i < |us| && EdgeOf(us[i], upright, v)
  }

  ghost predicate OnEdges(s: seq<real>, us: seq<Rect>, upright: bool) {
    forall k {:trigger IsEdge(us, upright, s[k])} :: 0 <= k < |s| ==> IsEdge(us, upright, s[k])
  }

  /** Both edges of a unit have a line near by. */
  ghost predicate Lined(s: seq<real>, r: Rect, upright: bool) {
    NearBy(s, Lo(r, upright)) && NearBy(s, Hi(r, upright))
  }

  /** Lines on edges, apart, with one near both edges of each of the first n units. */
  ghost predicate Lines(s: seq<real>, us: seq<Rect>, n: nat, upright: bool) {
    && n <= |us| && Spaced(s) && OnEdges(s, us, upright)
    && (forall i {:trigger Lined(s, us[i], upright)} :: 0 <= i < n ==> Lined(s, us[i], upright))
  }

  lemma NearByGrows(s: seq<real>, loc: nat, e: real, v: real)
    requires loc <= |s| && NearBy(s, v)
    ensures NearBy(Inserted(s, loc, e), v)
  {
    var k :| 0 <= k < |s| && Eq(s[k], v);
    var k' := if k < loc then k else k + 1;
    assert Inserted(s, loc, e)[k'] == s[k];
  }

  lemma InsertedNear(s: seq<real>, loc: nat, e: real)
    requires loc <= |s|
    ensures NearBy(Inserted(s, loc, e), e)
  {
    assert Eq(Inserted(s, loc, e)[loc], e);
  }

  lemma InsertedOnEdges(s: seq<real>, loc: nat, e: real, us: seq<Rect>, upright: bool)
    requires loc <= |s| && OnEdges(s, us, upright) && IsEdge(us, upright, e)
    ensures OnEdges(Inserted(s, loc, e), us, upright)
  {
    var r := Inserted(s, loc, e);
    forall k | 0 <= k < |r|
      ensures IsEdge(us, upright, r[k])
    {
      if k != loc {
        assert r[k] == s[if k < loc then k else k - 1];
      }
    }
  }

  /** What inserting an edge keeps and adds. */
  ghost predicate Gains(s: seq<real>, s': seq<real>, us: seq<Rect>, upright: bool, e: real) {
    && Spaced(s') && OnEdges(s', us, upright) && NearBy(s', e)
    && (forall v {:trigger NearBy(s, v)} :: NearBy(s, v) ==> NearBy(s', v))
  }

  lemma InsertedGains(s: seq<real>, loc: nat, e: real, us: seq<Rect>, upright: bool)
    requires loc <= |s| && Spaced(Inserted(s, loc, e)) && OnEdges(s, us, upright) && IsEdge(us, upright, e)
    ensures Gains(s, Inserted(s, loc, e), us, upright, e)
  {
    InsertedOnEdges(s, loc, e, us, upright);
    InsertedNear(s, loc, e);
    forall v | NearBy(s, v)
      ensures NearBy(Inserted(s, loc, e), v)
    {
      NearByGrows(s, loc, e, v);
    }
  }

  lemma WithLineGains(s: seq<real>, e: real, us: seq<Rect>, upright: bool)
    requires Spaced(s) && OnEdges(s, us, upright) && IsEdge(us, upright, e)
    ensures Gains(s, WithLine(s, e), us, upright, e)
  {
    if !NearBy(s, e) {
      var loc := Belongs(s, e);
      InsertedSpaced(s, loc, e);
      InsertedGains(s, loc, e, us, upright);
    }
  }

  lemma LinesGrow(s: seq<real>, s': seq<real>, us: seq<Rect>, n: nat, upright: bool, e: real)
    requires Lines(s, us, n, upright) && Gains(s, s', us, upright, e)
    ensures Lines(s', us, n, upright)
  {
    forall i | 0 <= i < n
      ensures Lined(s', us[i], upright)
    {
      assert Lined(s, us[i], upright);
    }
  }

  /** Both edges of one more unit. */
  lemma UnitLines(s: seq<real>, us: seq<Rect>, i: nat, upright: bool)
    requires i < |us| && Lines(s, us, i, upright)
    ensures var s1 := WithLine(s, Lo(us[i], upright));
            var s2 := WithLine(s1, Hi(us[i], upright));
            Spaced(s1) && |s| <= |s1| <= |s2| && Lines(s2, us, i + 1, upright)
  {
    var lo, hi := Lo(us[i], upright), Hi(us[i], upright);
    assert EdgeOf(us[i], upright, lo) && EdgeOf(us[i], upright, hi);
    var s1 := WithLine(s, lo);
    WithLineIs(s, lo);
    WithLineGains(s, lo, us, upright);
    LinesGrow(s, s1, us, i, upright, lo);
    WithLineIs(s1, hi);
    WithLineGains(s1, hi, us, upright);
    LinesGrow(s1, WithLine(s1, hi), us, i, upright, hi);
  }

  // ---------- one unit after another ----------

  /** Lines s, on edges of the units before unit i, become s'. */
  ghost predicate AddsUnit(us: seq<Rect>, upright: bool, i: nat, s: seq<real>, s': seq<real>) {
    && i < |us| && Lines(s, us, i, upright) && |s| <= |s'|
    && s' == WithLine(WithLine(s, Lo(us[i], upright)), Hi(us[i], upright))
  }

  /** l[i] are the lines that inserting the edges of the first i units in turn leaves. */
  ghost predicate LinedBy(us: seq<Rect>, upright: bool, l: seq<seq<real>>) {
    && |l| == |us| + 1 && l[0] == [] && Lines(l[|us|], us, |us|, upright)
    && forall i :: 0 <= i < |us| ==> AddsUnit(us, upright, i, l[i], l[i + 1])
  }

  lemma LiningOf(us: seq<Rect>, upright: bool) returns (l: seq<seq<real>>)
    ensures LinedBy(us, upright, l)
  {
    l := [[]];
    while |l| <= |us|
      invariant 0 < |l| <= |us| + 1 && l[0] == [] && Lines(l[|l| - 1], us, |l| - 1, upright)
      invariant forall i :: 0 <= i < |l| - 1 ==> AddsUnit(us, upright, i, l[i], l[i + 1])
    {
      var s' := NextLines(us, upright, |l| - 1, l[|l| - 1]);
      l := l + [s'];
    }
  }

  lemma NextLines(us: seq<Rect>, upright: bool, i: nat, s: seq<real>) returns (s': seq<real>)
    requires i < |us| && Lines(s, us, i, upright)
    ensures AddsUnit(us, upright, i, s, s') && Lines(s', us, i + 1, upright)
  {
    UnitLines(s, us, i, upright);
    s' := WithLine(WithLine(s, Lo(us[i], upright)), Hi(us[i], upright));
  }

  /** The units determine their lines. */
  lemma {:induction false} LiningUnique(us: seq<Rect>, upright: bool, l: seq<seq<real>>, k: seq<seq<real>>, i: nat)
    requires LinedBy(us, upright, l) && LinedBy(us, upright, k) && i <= |us|
    ensures l[i] == k[i]
  {
    if i > 0 {
      LiningUnique(us, upright, l, k, i - 1);
      assert AddsUnit(us, upright, i - 1, l[i - 1], l[i]) && AddsUnit(us, upright, i - 1, k[i - 1], k[i]);
    }
  }

  lemma {:induction false} LiningGrows(us: seq<Rect>, upright: bool, l: seq<seq<real>>, m: nat, n: nat)
    requires LinedBy(us, upright, l) && m <= n <= |us|
    ensures |l[m]| <= |l[n]|
    decreases n
  {
    if m < n {
      LiningGrows(us, upright, l, m, n - 1);
      assert AddsUnit(us, upright, n - 1, l[n - 1], l[n]);
    }
  }

  /** Inserts an edge unless a line is near. */
  method AddLine(arr: array<real>, n: nat, e: real) returns (n': nat, overrun: bool)
    requires n <= arr.Length && Spaced(arr[..n])
    modifies arr
    ensures overrun <==> |WithLine(old(arr[..n]), e)| > arr.Length
    ensures !overrun ==> n' <= arr.Length && arr[..n'] == WithLine(old(arr[..n]), e)
  {
    var inserted;
    inserted, overrun := BsearchInsert(arr, n, e);
    n' := if inserted then n + 1 else n;
    WithLineIs(old(arr[..n]), e);
  }

  /** Both edges of one more unit, as far as there is room. */
  method AddUnit(arr: array<real>, n: nat, ghost us: seq<Rect>, ghost i: nat, ghost upright: bool, lo: real, hi: real,
                 ghost s: seq<real>, ghost s': seq<real>)
    returns (n': nat, overrun: bool)
    requires AddsUnit(us, upright, i, s, s') && n <= arr.Length && arr[..n] == s
    requires lo == Lo(us[i], upright) && hi == Hi(us[i], upright)
    modifies arr
    ensures overrun <==> |s'| > arr.Length
    ensures !overrun ==> n' <= arr.Length && arr[..n'] == s'
  {
    UnitLines(s, us, i, upright);
    n', overrun := AddLine(arr, n, lo);
    if !overrun {
      n', overrun := AddLine(arr, n', hi);
    }
  }

  // ---------- how many lines there can be ----------

  /** The point with coordinate v in the axis and c across it. */
  predicate HoldsAt(r: Rect, upright: bool, v: real, c: real) {
    Holds(r, if upright then c else v, if upright then v else c)
  }

  /** In a tiling every edge but the outermost is a lower edge: of the unit beside it. */
  lemma LowerEdge(us: seq<Rect>, box: Rect, upright: bool, v: real) returns (j: nat)
    requires Tiles(us, box) && AllPositive(us) && IsEdge(us, upright, v) && v < Hi(box, upright)
    ensures j < |us| && Lo(us[j], upright) == v
  {
    var i :| 0 <= i < |us| && EdgeOf(us[i], upright, v);
    if v == Lo(us[i], upright) {
      return i;
    }
    TileInside(us, box, i);
    var c := Lo(us[i], !upright);
    assert HoldsAt(box, upright, v, c);
    j := BoxHeldByTile(us, box, if upright then c else v, if upright then v else c);
    if Lo(us[j], upright) < v {
      var q := if Lo(us[j], upright) < Lo(us[i], upright) then Lo(us[i], upright) else Lo(us[j], upright);
      assert HoldsAt(us[i], upright, q, c) && HoldsAt(us[j], upright, q, c);
      TilesMeans(us, box, if upright then c else q, if upright then q else c);
      assert false;
    }
  }

  /** The edges of n tiles make at most n + 1 lines. */
  lemma {:induction false} TilingLines(us: seq<Rect>, box: Rect, upright: bool, s: seq<real>)
    requires Tiles(us, box) && AllPositive(us) && Spaced(s) && OnEdges(s, us, upright)
    ensures |s| <= |us| + 1
  {
    if |s| > 1 {
      var m := |s| - 1;
      var last := IsInside(us, box, upright, s[m]);
      var idx: seq<nat> := [];
      while |idx| < m
        invariant |idx| <= m
        invariant forall k :: 0 <= k < |idx| ==> idx[k] < |us| && Lo(us[idx[k]], upright) == s[k]
      {
        var k := |idx|;
        assert s[k] + DELTA <= s[m];
        var j := LowerEdge(us, box, upright, s[k]);
        idx := idx + [j];
      }
      assert Distinct(idx) && Below(idx, |us|);
      Pigeonhole(idx, |us|);
    }
  }

  lemma IsInside(us: seq<Rect>, box: Rect, upright: bool, v: real) returns (i: nat)
    requires Tiles(us, box) && AllPositive(us) && IsEdge(us, upright, v)
    ensures i < |us| && Lo(box, upright) <= v <= Hi(box, upright)
  {
    i :| 0 <= i < |us| && EdgeOf(us[i], upright, v);
    TileInside(us, box, i);
  }

  /** n + 1 places are enough for the lines of n tiles. */
  lemma TilingFits(us: seq<Rect>, box: Rect, upright: bool, l: seq<seq<real>>)
    requires Tiles(us, box) && AllPositive(us) && LinedBy(us, upright, l)
    ensures |l[|us|]| <= |us| + 1
  {
    TilingLines(us, box, upright, l[|us|]);
  }
}
