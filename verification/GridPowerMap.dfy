/** Power from the units of a floorplan to the cells of its grid. */
module GridPowerMap {
  import opened Tilings
  import opened Extents
  import opened Adjacency
  import opened GridLines
  import opened GridPositions
  import opened GridFloorplan
  import opened GridTilings
  import opened GridPower

  /** A cell's share of a unit's power: the density is kept. */
  function Share(b: real, u: Rect, c: Rect): real
    requires PositiveRect(u)
  {
    b / (u.width * u.height) * c.width * c.height
  }

  function Sum(s: seq<real>): real {
    if s == [] then 0.0 else Sum(s[..|s| - 1]) + s[|s| - 1]
  }

  lemma {:induction false} SumConcat(a: seq<real>, b: seq<real>)
    ensures Sum(a + b) == Sum(a) + Sum(b)
    decreases |b|
  {
    if b == [] {
      assert a + b == a;
    } else {
      SumConcat(a, b[..|b| - 1]);
      assert (a + b)[..|a + b| - 1] == a + b[..|b| - 1];
    }
  }

  // ---------- one unit ----------

  /** Density times area. */
  ghost predicate Spread(gs: seq<real>, cs: seq<Rect>, d: real) {
    |gs| == |cs| && forall k :: 0 <= k < |cs| ==> gs[k] == d * AreaOf(cs[k])
  }

  lemma Distribute(d: real, x: real, y: real)
    ensures d * (x + y) == d * x + d * y
  {
  }

  lemma {:induction false} SpreadSum(gs: seq<real>, cs: seq<Rect>, d: real)
    requires Spread(gs, cs, d)
    ensures Sum(gs) == d * TotalArea(cs)
    decreases |cs|
  {
    if cs != [] {
      var n := |cs| - 1;
      SpreadSum(gs[..n], cs[..n], d);
      var x, y := TotalArea(cs[..n]), AreaOf(cs[n]);
      assert gs[n] == d * y;
      Distribute(d, x, y);
    }
  }

  ghost predicate IsRange(starts: seq<nat>, i: nat, n: nat) {
    i + 1 < |starts| && starts[i] <= starts[i + 1] <= n
  }

  /** What the cells of unit i get in all. */
  ghost function Delivered(us: seq<Rect>, starts: seq<nat>, cells: seq<Rect>, i: nat, b: real): real
    requires i < |us| && PositiveRect(us[i]) && IsRange(starts, i, |cells|)
  {
    b / AreaOf(us[i]) * TotalArea(Part(cells, starts, i))
  }

  lemma AreaPositive(r: Rect)
    requires PositiveRect(r)
    ensures AreaOf(r) > 0.0
  {
  }

  lemma Cancel(b: real, x: real, a: real)
    requires a > 0.0
    ensures x == a ==> b / a * x == b
    ensures b == 1.0 && b / a * x == b ==> x == a
  {
    assert (b / a) * a == b;
    if b == 1.0 && b / a * x == b {
      assert a * (1.0 / a * x) == (a * (1.0 / a)) * x;
    }
  }

  /** The map gives each unit a range of cells. */
  ghost predicate Ranged(us: seq<Rect>, starts: seq<nat>, cells: seq<Rect>) {
    && AllPositive(us) && |starts| == |us| + 1
    && forall i :: 0 <= i < |us| ==> IsRange(starts, i, |cells|)
  }

  /** All units together, up to n. */
  ghost function TotalDelivered(us: seq<Rect>, starts: seq<nat>, cells: seq<Rect>, b: seq<real>, n: nat): real
    requires Ranged(us, starts, cells) && n <= |us| == |b|
  {
    if n == 0 then 0.0 else TotalDelivered(us, starts, cells, b, n - 1) + Delivered(us, starts, cells, n - 1, b[n - 1])
  }

  /** The cells of a unit have its area in all. */
  ghost predicate SameArea(us: seq<Rect>, starts: seq<nat>, cells: seq<Rect>, i: nat)
    requires Ranged(us, starts, cells) && i < |us|
  {
    IsRange(starts, i, |cells|) && TotalArea(Part(cells, starts, i)) == AreaOf(us[i])
  }

  lemma {:induction false} SameAreaDelivers(us: seq<Rect>, starts: seq<nat>, cells: seq<Rect>, b: seq<real>, n: nat)
    requires Ranged(us, starts, cells) && n <= |us| == |b| && forall i :: 0 <= i < n ==> SameArea(us, starts, cells, i)
    ensures TotalDelivered(us, starts, cells, b, n) == Sum(b[..n])
    decreases n
  {
    if n > 0 {
      SameAreaDelivers(us, starts, cells, b, n - 1);
      assert SameArea(us, starts, cells, n - 1) && PositiveRect(us[n - 1]) && IsRange(starts, n - 1, |cells|);
      AreaPositive(us[n - 1]);
      Cancel(b[n - 1], TotalArea(Part(cells, starts, n - 1)), AreaOf(us[n - 1]));
      assert b[..n][..n - 1] == b[..n - 1];
    }
  }

  /** One watt in unit i and none elsewhere. */
  function OneAt(n: nat, i: nat): seq<real> {
    seq(n, k => if k == i then 1.0 else 0.0)
  }

  lemma {:induction false} OneAtSum(n: nat, i: nat, m: nat)
    requires i < n && m <= n
    ensures Sum(OneAt(n, i)[..m]) == if i < m then 1.0 else 0.0
    decreases m
  {
    if m > 0 {
      OneAtSum(n, i, m - 1);
      assert OneAt(n, i)[..m][..m - 1] == OneAt(n, i)[..m - 1];
    }
  }

  lemma {:induction false} OneAtDelivered(us: seq<Rect>, starts: seq<nat>, cells: seq<Rect>, i: nat, m: nat)
    requires Ranged(us, starts, cells) && i < |us| && m <= |us|
    ensures TotalDelivered(us, starts, cells, OneAt(|us|, i), m) == if i < m then Delivered(us, starts, cells, i, 1.0)
            else 0.0
    decreases m
  {
    if m > 0 {
      OneAtDelivered(us, starts, cells, i, m - 1);
      if i != m - 1 {
        assert IsRange(starts, m - 1, |cells|) && PositiveRect(us[m - 1]);
        NothingGiven(AreaOf(us[m - 1]), TotalArea(Part(cells, starts, m - 1)));
      }
    }
  }

  lemma NothingGiven(a: real, x: real)
    requires a != 0.0
    ensures 0.0 / a * x == 0.0
  {
  }

  ghost predicate Conserves(us: seq<Rect>, starts: seq<nat>, cells: seq<Rect>, b: seq<real>)
    requires Ranged(us, starts, cells) && |b| == |us|
  {
    TotalDelivered(us, starts, cells, b, |us|) == Sum(b)
  }

  lemma ConservedHasArea(us: seq<Rect>, starts: seq<nat>, cells: seq<Rect>, i: nat)
    requires Ranged(us, starts, cells) && i < |us| && Conserves(us, starts, cells, OneAt(|us|, i))
    ensures SameArea(us, starts, cells, i)
  {
    OneAtDelivered(us, starts, cells, i, |us|);
    OneAtSum(|us|, i, |us|);
    assert OneAt(|us|, i)[..|us|] == OneAt(|us|, i);
    assert PositiveRect(us[i]) && IsRange(starts, i, |cells|);
    AreaPositive(us[i]);
    Cancel(1.0, TotalArea(Part(cells, starts, i)), AreaOf(us[i]));
  }

  /** Power is conserved, whatever it is, exactly when the cells of each unit have its area. */
  lemma ConservedIff(us: seq<Rect>, starts: seq<nat>, cells: seq<Rect>)
    requires Ranged(us, starts, cells)
    ensures (forall b: seq<real> :: |b| == |us| ==> Conserves(us, starts, cells, b))
            <==> forall i :: 0 <= i < |us| ==> SameArea(us, starts, cells, i)
  {
    if forall b: seq<real> :: |b| == |us| ==> Conserves(us, starts, cells, b) {
      forall i | 0 <= i < |us|
        ensures SameArea(us, starts, cells, i)
      {
        assert Conserves(us, starts, cells, OneAt(|us|, i));
        ConservedHasArea(us, starts, cells, i);
      }
    }
    if forall i :: 0 <= i < |us| ==> SameArea(us, starts, cells, i) {
      forall b: seq<real> | |b| == |us|
        ensures Conserves(us, starts, cells, b)
      {
        SameAreaDelivers(us, starts, cells, b, |us|);
        assert b[..|us|] == b;
      }
    }
  }

  /** A resolved tiling floorplan conserves all power. */
  lemma ResolvedConserves(us: seq<Rect>, box: Rect, xs: seq<real>, ys: seq<real>, spans: seq<Span>, taken: seq<Pos>,
                          starts: seq<nat>, cells: seq<Rect>, b: seq<real>)
    requires us != [] && Tiles(us, box) && AllPositive(us) && IsGrid(us, xs, ys, spans, taken, starts, cells)
    requires AllResolved(us) && |b| == |us|
    ensures Ranged(us, starts, cells) && Conserves(us, starts, cells, b)
  {
    TiledIff(us, box, xs, ys, spans, taken, starts, cells);
    forall i | 0 <= i < |us|
      ensures IsRange(starts, i, |cells|) && TotalArea(Part(cells, starts, i)) == AreaOf(us[i])
    {
      assert IsTiled(us, starts, cells, i);
    }
    SameAreaDelivers(us, starts, cells, b, |us|);
    assert b[..|us|] == b;
  }

  // ---------- on the arrays ----------

  /** The cells of the first n units have their shares. */
  ghost predicate Shared(us: seq<Rect>, starts: seq<nat>, cells: seq<Rect>, b: seq<real>, g: seq<real>, n: nat)
    requires Ranged(us, starts, cells) && n <= |us| == |b| && |g| == |cells|
  {
    forall i :: 0 <= i < n ==> SharedBy(us, starts, cells, b, g, i)
  }

  ghost predicate SharedBy(us: seq<Rect>, starts: seq<nat>, cells: seq<Rect>, b: seq<real>, g: seq<real>, i: nat)
    requires Ranged(us, starts, cells) && i < |us| == |b| && |g| == |cells|
  {
    assert PositiveRect(us[i]) && IsRange(starts, i, |cells|);
    forall c :: starts[i] <= c < starts[i + 1] ==> g[c] == Share(b[i], us[i], cells[c])
  }

  /** Shares the power of one unit among its cells. */
  method ShareUnit(list: seq<nat>, u: Rect, b: real, cells: array<Rect>, gpower: array<real>, ghost from: nat,
                   ghost to: nat)
    requires PositiveRect(u) && gpower.Length == cells.Length && from <= to <= cells.Length && list == FromTo(from, to)
    modifies gpower
    ensures forall c :: from <= c < to ==> gpower[c] == Share(b, u, cells[c])
    ensures forall c :: 0 <= c < gpower.Length && !(from <= c < to) ==> gpower[c] == old(gpower[c])
  {
    for p := 0 to |list|
      invariant forall c :: from <= c < from + p ==> gpower[c] == Share(b, u, cells[c])
      invariant forall c :: 0 <= c < gpower.Length && !(from <= c < from + p) ==> gpower[c] == old(gpower[c])
    {
      var c := list[p];
      gpower[c] := b / (u.width * u.height) * cells[c].width * cells[c].height;
    }
  }

  lemma {:induction false} RangesAscend(us: seq<Rect>, starts: seq<nat>, cells: seq<Rect>, i: nat, j: nat)
    requires Ranged(us, starts, cells) && i <= j <= |us|
    ensures starts[i] <= starts[j]
    decreases j
  {
    if i < j {
      RangesAscend(us, starts, cells, i, j - 1);
      assert IsRange(starts, j - 1, |cells|);
    }
  }

  lemma SharedStays(us: seq<Rect>, starts: seq<nat>, cells: seq<Rect>, b: seq<real>, g: seq<real>, g': seq<real>,
                    n: nat)
    requires Ranged(us, starts, cells) && n <= |us| == |b| && |g| == |g'| == |cells|
    requires Shared(us, starts, cells, b, g, n)
    requires forall c :: 0 <= c < starts[n] && c < |g| ==> g'[c] == g[c]
    ensures Shared(us, starts, cells, b, g', n)
  {
    forall i | 0 <= i < n
      ensures SharedBy(us, starts, cells, b, g', i)
    {
      assert SharedBy(us, starts, cells, b, g, i);
      RangesAscend(us, starts, cells, i + 1, n);
    }
  }

  /** Shares the power of every unit among the cells it is mapped to. */
  method SharePower(units: array<Rect>, cells: array<Rect>, bpower: array<real>, gpower: array<real>,
                    blocks: seq<seq<nat>>, ghost starts: seq<nat>)
    requires Ranged(units[..], starts, cells[..]) && Mapped(blocks, starts) && |blocks| == units.Length == bpower.Length
    requires gpower.Length == cells.Length && gpower != bpower
    modifies gpower
    ensures Shared(units[..], starts, cells[..], bpower[..], gpower[..], units.Length)
    ensures starts[0] == 0 ==> starts[units.Length] <= gpower.Length
    ensures starts[0] == 0 ==>
              Sum(gpower[..starts[units.Length]]) ==
                TotalDelivered(units[..], starts, cells[..], bpower[..], units.Length)
  {
    for i := 0 to units.Length
      invariant Shared(units[..], starts, cells[..], bpower[..], gpower[..], i)
    {
      ghost var g := gpower[..];
      assert PositiveRect(units[..][i]) && IsRange(starts, i, |cells[..]|);
      ShareUnit(blocks[i], units[i], bpower[i], cells, gpower, starts[i], starts[i + 1]);
      SharedStays(units[..], starts, cells[..], bpower[..], g, gpower[..], i);
      assert SharedBy(units[..], starts, cells[..], bpower[..], gpower[..], i);
    }
    if starts[0] == 0 {
      SharedSum(units[..], starts, cells[..], bpower[..], gpower[..], units.Length);
      assert gpower[..][..starts[units.Length]] == gpower[..starts[units.Length]];
    }
  }

  lemma SharedIsSpread(us: seq<Rect>, starts: seq<nat>, cells: seq<Rect>, b: seq<real>, g: seq<real>, i: nat)
    requires Ranged(us, starts, cells) && i < |us| == |b| && |g| == |cells| && SharedBy(us, starts, cells, b, g, i)
    ensures IsRange(starts, i, |cells|) && PositiveRect(us[i])
    ensures Spread(Part(g, starts, i), Part(cells, starts, i), b[i] / AreaOf(us[i]))
  {
    assert PositiveRect(us[i]) && IsRange(starts, i, |cells|);
    var gs, cs, d := Part(g, starts, i), Part(cells, starts, i), b[i] / AreaOf(us[i]);
    forall k | 0 <= k < |cs|
      ensures gs[k] == d * AreaOf(cs[k])
    {
      assert gs[k] == Share(b[i], us[i], cells[starts[i] + k]);
      Associated(d, cs[k].width, cs[k].height);
    }
  }

  lemma Associated(d: real, w: real, h: real)
    ensures d * w * h == d * (w * h)
  {
  }

  lemma SharedIsDelivered(us: seq<Rect>, starts: seq<nat>, cells: seq<Rect>, b: seq<real>, g: seq<real>, i: nat)
    requires Ranged(us, starts, cells) && i < |us| == |b| && |g| == |cells| && SharedBy(us, starts, cells, b, g, i)
    ensures IsRange(starts, i, |cells|) && PositiveRect(us[i])
    ensures Sum(Part(g, starts, i)) == Delivered(us, starts, cells, i, b[i])
  {
    SharedIsSpread(us, starts, cells, b, g, i);
    SpreadSum(Part(g, starts, i), Part(cells, starts, i), b[i] / AreaOf(us[i]));
  }

  lemma PartSum(g: seq<real>, x: nat, y: nat)
    requires x <= y <= |g|
    ensures Sum(g[..y]) == Sum(g[..x]) + Sum(g[x..y])
  {
    assert g[..y] == g[..x] + g[x..y];
    SumConcat(g[..x], g[x..y]);
  }

  /** The cells of the first n units carry what is delivered to them. */
  lemma {:induction false} SharedSum(us: seq<Rect>, starts: seq<nat>, cells: seq<Rect>, b: seq<real>, g: seq<real>,
                                     n: nat)
    requires Ranged(us, starts, cells) && n <= |us| == |b| && |g| == |cells| && Shared(us, starts, cells, b, g, n)
    requires starts[0] == 0
    ensures starts[n] <= |g| && Sum(g[..starts[n]]) == TotalDelivered(us, starts, cells, b, n)
    decreases n
  {
    if n > 0 {
      SharedSum(us, starts, cells, b, g, n - 1);
      assert SharedBy(us, starts, cells, b, g, n - 1);
      SharedIsDelivered(us, starts, cells, b, g, n - 1);
      PartSum(g, starts[n - 1], starts[n]);
      StepDelivered(us, starts, cells, b, n);
    }
  }

  lemma StepDelivered(us: seq<Rect>, starts: seq<nat>, cells: seq<Rect>, b: seq<real>, n: nat)
    requires Ranged(us, starts, cells) && 0 < n <= |us| == |b| && PositiveRect(us[n - 1])
    requires IsRange(starts, n - 1, |cells|)
    ensures TotalDelivered(us, starts, cells, b, n)
            == TotalDelivered(us, starts, cells, b, n - 1) + Delivered(us, starts, cells, n - 1, b[n - 1])
  {
  }

  // ---------- a unit thinner than the tolerance ----------

  predicate Thin(r: Rect, upright: bool) {
    Hi(r, upright) - Lo(r, upright) < DELTA
  }

  /** Edges near those of a unit lie between them. */
  ghost predicate Alone(us: seq<Rect>, i: nat, upright: bool)
    requires i < |us|
  {
    forall v {:trigger IsEdge(us, upright, v)} ::
      IsEdge(us, upright, v) && (Eq(v, Lo(us[i], upright)) || Eq(v, Hi(us[i], upright))) ==>
        Lo(us[i], upright) <= v <= Hi(us[i], upright)
  }

  lemma FlatBlock(s: Span)
    requires s.x0 == s.x1 || s.y0 == s.y1
    ensures BlockOf(s) == []
  {
    BlockApart(s.x0, s.x1, s.y0, s.y1);
  }

  lemma SpanIsFlat(us: seq<Rect>, xs: seq<real>, ys: seq<real>, i: nat, s: Span, upright: bool)
    requires Lines(xs, us, |us|, false) && Lines(ys, us, |us|, true) && i < |us| && SpanOf(xs, ys, us[i], s)
    requires Thin(us[i], upright) && Alone(us, i, upright)
    ensures s.x0 == s.x1 || s.y0 == s.y1
  {
    if upright {
      assert IsEdge(us, true, ys[s.y0]) && IsEdge(us, true, ys[s.y1]);
    } else {
      assert IsEdge(us, false, xs[s.x0]) && IsEdge(us, false, xs[s.x1]);
    }
  }

  /** A unit thinner than the tolerance, with no other edges near, gets no cell: its power is lost. */
  lemma ThinIsLost(us: seq<Rect>, xs: seq<real>, ys: seq<real>, spans: seq<Span>, taken: seq<Pos>, starts: seq<nat>,
                   cells: seq<Rect>, i: nat, upright: bool, b: real)
    requires IsGrid(us, xs, ys, spans, taken, starts, cells) && i < |us| && PositiveRect(us[i])
    requires Thin(us[i], upright) && Alone(us, i, upright)
    ensures starts[i] == starts[i + 1] <= |cells| && Delivered(us, starts, cells, i, b) == 0.0
  {
    assert SpanOf(xs, ys, us[i], spans[i]);
    SpanIsFlat(us, xs, ys, i, spans[i], upright);
    FlatBlock(spans[i]);
    PartsOrdered(spans, taken, starts, i);
    assert StartsAt(spans, i, starts[i]) && StartsAt(spans, i + 1, starts[i + 1]);
    assert Part(cells, starts, i) == [];
  }

  /** If two different edges are near each other, some unit is thin and alone on its side. */
  ghost predicate OnlyThin(us: seq<Rect>, upright: bool) {
    forall v, w {:trigger IsEdge(us, upright, v), IsEdge(us, upright, w)} ::
      IsEdge(us, upright, v) && IsEdge(us, upright, w) && Eq(v, w) && v != w
      ==> exists i :: 0 <= i < |us| && Thin(us[i], upright) && Alone(us, i, upright)
  }

  lemma NoThinResolved(us: seq<Rect>, upright: bool)
    requires OnlyThin(us, upright) && forall i :: 0 <= i < |us| ==> !Thin(us[i], upright)
    ensures Resolved(us, upright)
  {
  }

  lemma ThinNotConserved(us: seq<Rect>, xs: seq<real>, ys: seq<real>, spans: seq<Span>, taken: seq<Pos>,
                         starts: seq<nat>, cells: seq<Rect>, i: nat, upright: bool)
    requires IsGrid(us, xs, ys, spans, taken, starts, cells) && Ranged(us, starts, cells) && i < |us|
    requires Thin(us[i], upright) && Alone(us, i, upright)
    ensures !Conserves(us, starts, cells, OneAt(|us|, i))
  {
    assert PositiveRect(us[i]);
    ThinIsLost(us, xs, ys, spans, taken, starts, cells, i, upright, 1.0);
    OneAtDelivered(us, starts, cells, i, |us|);
    OneAtSum(|us|, i, |us|);
    assert OneAt(|us|, i)[..|us|] == OneAt(|us|, i);
  }

  lemma ThinIsAlone(us: seq<Rect>, i: nat, upright: bool) returns (j: nat)
    requires AllPositive(us) && i < |us| && Thin(us[i], upright) && OnlyThin(us, upright)
    ensures j < |us| && Thin(us[j], upright) && Alone(us, j, upright)
  {
    EdgesOfUnit(us, i, upright);
    assert PositiveRect(us[i]);
    j :| 0 <= j < |us| && Thin(us[j], upright) && Alone(us, j, upright);
  }

  /** Where only the sides of thin units are near each other, all power is conserved exactly when no
      unit is thinner than the tolerance. */
  lemma ConservedIffNoThin(us: seq<Rect>, box: Rect, xs: seq<real>, ys: seq<real>, spans: seq<Span>, taken: seq<Pos>,
                           starts: seq<nat>, cells: seq<Rect>)
    requires us != [] && Tiles(us, box) && AllPositive(us) && IsGrid(us, xs, ys, spans, taken, starts, cells)
    requires Ranged(us, starts, cells)
    requires OnlyThin(us, false) && OnlyThin(us, true)
    ensures (forall b: seq<real> :: |b| == |us| ==> Conserves(us, starts, cells, b))
            <==> forall i :: 0 <= i < |us| ==> !Thin(us[i], false) && !Thin(us[i], true)
  {
    if forall i :: 0 <= i < |us| ==> !Thin(us[i], false) && !Thin(us[i], true) {
      NoThinResolved(us, false);
      NoThinResolved(us, true);
      forall b: seq<real> | |b| == |us|
        ensures Conserves(us, starts, cells, b)
      {
        ResolvedConserves(us, box, xs, ys, spans, taken, starts, cells, b);
      }
    } else {
      var i :| 0 <= i < |us| && (Thin(us[i], false) || Thin(us[i], true));
      var upright := !Thin(us[i], false);
      var j := ThinIsAlone(us, i, upright);
      ThinNotConserved(us, xs, ys, spans, taken, starts, cells, j, upright);
    }
  }

  /** Three units in a row, the middle one half as wide as the tolerance. */
  function ThinRow(): seq<Rect> {
    var d := DELTA / 2.0;
    [Rect(0.0, 0.0, 1.0, 1.0), Rect(1.0, 0.0, d, 1.0), Rect(1.0 + d, 0.0, 1.0 - d, 1.0)]
  }

  lemma ThinRowTiles()
    ensures Tiles(ThinRow(), Rect(0.0, 0.0, 2.0, 1.0)) && AllPositive(ThinRow()) && Alone(ThinRow(), 1, false)
  {
    var us := ThinRow();
    var box := Rect(0.0, 0.0, 2.0, 1.0);
    forall px, py
      ensures Cover(us, px, py) == Indicator(box, px, py)
    {
      CoverLast([], us[0], px, py);
      CoverLast([us[0]], us[1], px, py);
      CoverLast([us[0], us[1]], us[2], px, py);
      assert us == [us[0], us[1]] + [us[2]] && [us[0], us[1]] == [us[0]] + [us[1]] && [us[0]] == [] + [us[0]];
    }
    ThinRowArea(us, box);
  }

  lemma ThinRowArea(us: seq<Rect>, box: Rect)
    requires us == ThinRow() && box == Rect(0.0, 0.0, 2.0, 1.0)
    ensures TotalArea(us) == AreaOf(box)
  {
    assert us[..2] == [us[0], us[1]] && us[..2][..1] == [us[0]] && us[..2][..1][..0] == [];
    assert TotalArea(us[..2][..1]) == AreaOf(us[0]);
  }

  /** A tiling floorplan from whose grid power is lost. */
  lemma PowerCanBeLost(xs: seq<real>, ys: seq<real>, spans: seq<Span>, taken: seq<Pos>, starts: seq<nat>,
                       cells: seq<Rect>)
    requires IsGrid(ThinRow(), xs, ys, spans, taken, starts, cells) && Ranged(ThinRow(), starts, cells)
    ensures !Conserves(ThinRow(), starts, cells, [0.0, 1.0, 0.0])
  {
    var us := ThinRow();
    ThinRowTiles();
    ThinNotConserved(us, xs, ys, spans, taken, starts, cells, 1, false);
    assert OneAt(3, 1) == [0.0, 1.0, 0.0];
  }
}
