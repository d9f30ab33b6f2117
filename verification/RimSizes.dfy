/** Area and number of the rim strips. */
module RimSizes {
  import opened Tilings
  import opened Extents
  import opened Intervals
  import opened Rims

  datatype Side = WestSide | EastSide | NorthSide | SouthSide

  predicate OnSide(u: Rect, f: Frame, side: Side) {
    match side
    case WestSide => West(u, f)
    case EastSide => East(u, f)
    case NorthSide => North(u, f)
    case SouthSide => South(u, f)
  }

  /** What a unit covers of a vertical or horizontal border. */
  function Shadow(u: Rect, side: Side): Interval {
    if side.WestSide? || side.EastSide? then Interval(u.bottomy, u.height) else Interval(u.leftx, u.width)
  }

  function Shadows(us: seq<Rect>, f: Frame, side: Side): seq<Interval> {
    if us == [] then []
    else Shadows(us[..|us| - 1], f, side) + if OnSide(us[|us| - 1], f, side) then [Shadow(us[|us| - 1], side)] else []
  }

  /** The point of the core beside position p of a border. */
  function Beside(f: Frame, x: real, y: real, side: Side, p: real): (real, real) {
    match side
    case WestSide => (f.t, p)
    case EastSide => (x, p)
    case NorthSide => (p, y)
    case SouthSide => (p, f.t)
  }

  function One(c: bool): nat {
    if c then 1 else 0
  }

  lemma ShadowWhen(xs: seq<Interval>, c: bool, i: Interval, p: real)
    ensures Hits(xs + if c then [i] else [], p) == Hits(xs, p) + One(c && Has(i, p))
    ensures Length(xs + if c then [i] else []) == Length(xs) + if c then i.len else 0.0
  {
    if c {
      HitsLast(xs, i, p);
    } else {
      assert xs + [] == xs;
    }
  }

  lemma UnitShadow(u: Rect, f: Frame, x: real, y: real, side: Side, p: real)
    requires Proper(f) && InCore(u, f) && NearRight(u, f, x) && NearTop(u, f, y)
    requires f.t <= x < f.right && f.t <= y < f.top
    ensures One(OnSide(u, f, side) && Has(Shadow(u, side), p))
            == Indicator(u, Beside(f, x, y, side, p).0, Beside(f, x, y, side, p).1)
  {
  }

  lemma {:induction false} ShadowHits(us: seq<Rect>, f: Frame, x: real, y: real, side: Side, p: real, q: (real, real))
    requires Proper(f) && AllInCore(us, f) && Near(us, f, x, y) && q == Beside(f, x, y, side, p)
    ensures Hits(Shadows(us, f, side), p) == Cover(us, q.0, q.1)
    decreases |us|
  {
    if us != [] {
      var n := |us| - 1;
      var u := us[n];
      ShadowHits(us[..n], f, x, y, side, p, q);
      assert InCore(u, f) && NearRight(u, f, x) && NearTop(u, f, y);
      UnitShadow(u, f, x, y, side, p);
      ShadowWhen(Shadows(us[..n], f, side), OnSide(u, f, side), Shadow(u, side), p);
    }
  }

  lemma {:induction false} ShadowsLong(us: seq<Rect>, f: Frame, side: Side)
    requires AllInCore(us, f)
    ensures AllLong(Shadows(us, f, side))
    decreases |us|
  {
    if us != [] {
      ShadowsLong(us[..|us| - 1], f, side);
      assert InCore(us[|us| - 1], f);
    }
  }

  function Extent(f: Frame, side: Side): real {
    if side.WestSide? || side.EastSide? then f.top else f.right
  }

  /** The units on a border of a tiled core cover the whole of that border. */
  lemma BorderLength(us: seq<Rect>, f: Frame, x: real, y: real, side: Side)
    requires Proper(f) && AllInCore(us, f) && Near(us, f, x, y) && Tiles(us, CoreOf(f))
    ensures Length(Shadows(us, f, side)) == Extent(f, side) - f.t
  {
    var xs := Shadows(us, f, side);
    forall p
      ensures Hits(xs, p) == if f.t <= p < Extent(f, side) then 1 else 0
    {
      var q := Beside(f, x, y, side, p);
      ShadowHits(us, f, x, y, side, p, q);
      assert Cover(us, q.0, q.1) == Indicator(CoreOf(f), q.0, q.1);
    }
    ShadowsLong(us, f, side);
    SpanLength(xs, f.t, Extent(f, side));
  }

  // ---------- corners ----------

  /** Which of the four corners of the core a unit occupies. */
  function NorthWests(us: seq<Rect>, f: Frame): nat {
    if us == [] then 0 else var u := us[|us| - 1]; NorthWests(us[..|us| - 1], f) + One(West(u, f) && North(u, f))
  }

  function SouthWests(us: seq<Rect>, f: Frame): nat {
    if us == [] then 0 else var u := us[|us| - 1]; SouthWests(us[..|us| - 1], f) + One(West(u, f) && South(u, f))
  }

  function NorthEasts(us: seq<Rect>, f: Frame): nat {
    if us == [] then 0 else var u := us[|us| - 1]; NorthEasts(us[..|us| - 1], f) + One(East(u, f) && North(u, f))
  }

  function SouthEasts(us: seq<Rect>, f: Frame): nat {
    if us == [] then 0 else var u := us[|us| - 1]; SouthEasts(us[..|us| - 1], f) + One(East(u, f) && South(u, f))
  }

  lemma {:induction false} CornerCovers(us: seq<Rect>, f: Frame, x: real, y: real)
    requires Proper(f) && AllInCore(us, f) && Near(us, f, x, y)
    ensures NorthWests(us, f) == Cover(us, f.t, y)
    ensures SouthWests(us, f) == Cover(us, f.t, f.t)
    ensures NorthEasts(us, f) == Cover(us, x, y)
    ensures SouthEasts(us, f) == Cover(us, x, f.t)
    decreases |us|
  {
    if us != [] {
      var n := |us| - 1;
      CornerCovers(us[..n], f, x, y);
      assert InCore(us[n], f) && NearRight(us[n], f, x) && NearTop(us[n], f, y);
    }
  }

  /** Each corner of a tiled core belongs to exactly one unit. */
  lemma OnePerCorner(us: seq<Rect>, f: Frame, x: real, y: real)
    requires Proper(f) && AllInCore(us, f) && Near(us, f, x, y) && Tiles(us, CoreOf(f))
    ensures NorthWests(us, f) == SouthWests(us, f) == NorthEasts(us, f) == SouthEasts(us, f) == 1
  {
    CornerCovers(us, f, x, y);
    assert Cover(us, f.t, y) == Indicator(CoreOf(f), f.t, y);
    assert Cover(us, f.t, f.t) == Indicator(CoreOf(f), f.t, f.t);
    assert Cover(us, x, y) == Indicator(CoreOf(f), x, y);
    assert Cover(us, x, f.t) == Indicator(CoreOf(f), x, f.t);
  }

  // ---------- area ----------

  function Edge(us: seq<Rect>, f: Frame): real {
    Length(Shadows(us, f, WestSide)) + Length(Shadows(us, f, EastSide))
    + Length(Shadows(us, f, NorthSide)) + Length(Shadows(us, f, SouthSide))
  }

  function Corners(us: seq<Rect>, f: Frame): nat {
    NorthWests(us, f) + SouthWests(us, f) + NorthEasts(us, f) + SouthEasts(us, f)
  }

  function EdgeOf(u: Rect, f: Frame): real {
    (if West(u, f) then u.height else 0.0) + (if East(u, f) then u.height else 0.0)
    + (if North(u, f) then u.width else 0.0) + (if South(u, f) then u.width else 0.0)
  }

  function CornersOf(u: Rect, f: Frame): nat {
    One(West(u, f) && North(u, f)) + One(West(u, f) && South(u, f))
    + One(East(u, f) && North(u, f)) + One(East(u, f) && South(u, f))
  }

  lemma EdgeGrows(us: seq<Rect>, f: Frame)
    requires us != []
    ensures Edge(us, f) == Edge(us[..|us| - 1], f) + EdgeOf(us[|us| - 1], f)
    ensures Corners(us, f) == Corners(us[..|us| - 1], f) + CornersOf(us[|us| - 1], f)
  {
    var rest, u := us[..|us| - 1], us[|us| - 1];
    ShadowWhen(Shadows(rest, f, WestSide), West(u, f), Shadow(u, WestSide), 0.0);
    ShadowWhen(Shadows(rest, f, EastSide), East(u, f), Shadow(u, EastSide), 0.0);
    ShadowWhen(Shadows(rest, f, NorthSide), North(u, f), Shadow(u, NorthSide), 0.0);
    ShadowWhen(Shadows(rest, f, SouthSide), South(u, f), Shadow(u, SouthSide), 0.0);
  }

  function StripArea(t: real, edge: real, corners: nat): real {
    t * edge + (t * t) * corners as real
  }

  lemma StripAreaAdds(t: real, a: real, b: real, m: nat, n: nat)
    ensures StripArea(t, a + b, m + n) == StripArea(t, a, m) + StripArea(t, b, n)
  {
    assert (t * t) * ((m + n) as real) == (t * t) * (m as real) + (t * t) * (n as real);
  }

  lemma OneStrip(a: Rect, b: Rect, t: real, len: real, corner: bool)
    requires (a.width == t && a.height == len + if corner then t else 0.0)
             || (a.height == t && a.width == len + if corner then t else 0.0)
    ensures AreaOf(a) == StripArea(t, len, One(corner))
  {
  }

  lemma UnitRimArea(u: Rect, f: Frame)
    ensures TotalArea(RimOf(u, f)) == StripArea(f.t, EdgeOf(u, f), CornersOf(u, f))
  {
    RimOfCover(u, f, 0.0, 0.0);
    var w, e, n, s := West(u, f), East(u, f), North(u, f), South(u, f);
    OneStrip(WestStrip(u, f), u, f.t, u.height, n);
    OneStrip(EastStrip(u, f), u, f.t, u.height, s);
    OneStrip(NorthStrip(u, f), u, f.t, u.width, e);
    OneStrip(SouthStrip(u, f), u, f.t, u.width, w);
    var hw, he := if w then u.height else 0.0, if e then u.height else 0.0;
    var wn, ws := if n then u.width else 0.0, if s then u.width else 0.0;
    StripAreaAdds(f.t, hw, he, One(w && n), One(e && s));
    StripAreaAdds(f.t, hw + he, wn, One(w && n) + One(e && s), One(e && n));
    StripAreaAdds(f.t, hw + he + wn, ws, One(w && n) + One(e && s) + One(e && n), One(w && s));
  }

  lemma {:induction false} RimArea(us: seq<Rect>, f: Frame)
    ensures TotalArea(Rim(us, f)) == StripArea(f.t, Edge(us, f), Corners(us, f))
    decreases |us|
  {
    if us != [] {
      var n := |us| - 1;
      RimArea(us[..n], f);
      UnitRimArea(us[n], f);
      CoverConcat(Rim(us[..n], f), RimOf(us[n], f), 0.0, 0.0);
      EdgeGrows(us, f);
      StripAreaAdds(f.t, Edge(us[..n], f), EdgeOf(us[n], f), Corners(us[..n], f), CornersOf(us[n], f));
    }
  }

  lemma FrameArea(f: Frame)
    ensures AreaOf(CoreOf(f)) + StripArea(f.t, 2.0 * (f.top - f.t) + 2.0 * (f.right - f.t), 4) == AreaOf(WholeOf(f))
  {
    var w, h, t := f.right - f.t, f.top - f.t, f.t;
    assert (w + 2.0 * t) * (h + 2.0 * t) == w * h + 2.0 * (t * h) + 2.0 * (t * w) + 4.0 * (t * t);
    assert AreaOf(WholeOf(f)) == (w + 2.0 * t) * (h + 2.0 * t);
  }

  lemma UnitRimPositive(u: Rect, f: Frame)
    requires Proper(f) && InCore(u, f)
    ensures AllPositive(RimOf(u, f))
  {
    assert PositiveRect(WestStrip(u, f)) && PositiveRect(EastStrip(u, f));
    assert PositiveRect(NorthStrip(u, f)) && PositiveRect(SouthStrip(u, f));
  }

  lemma BothPositive(a: seq<Rect>, b: seq<Rect>)
    requires AllPositive(a) && AllPositive(b)
    ensures AllPositive(a + b)
  {
  }

  lemma {:induction false} RimPositive(us: seq<Rect>, f: Frame)
    requires Proper(f) && AllInCore(us, f)
    ensures AllPositive(Rim(us, f))
    decreases |us|
  {
    if us != [] {
      var n := |us| - 1;
      RimPositive(us[..n], f);
      UnitRimPositive(us[n], f);
      BothPositive(Rim(us[..n], f), RimOf(us[n], f));
    }
  }

  lemma TiledInCore(us: seq<Rect>, f: Frame)
    requires Tiles(us, CoreOf(f)) && AllPositive(us)
    ensures AllInCore(us, f)
  {
    forall i | 0 <= i < |us|
      ensures InCore(us[i], f)
    {
      TileInside(us, CoreOf(f), i);
    }
  }

  /** The rim strips tile the frame around a tiled core. */
  lemma RimTiles(us: seq<Rect>, f: Frame)
    requires Proper(f) && Tiles(us, CoreOf(f)) && AllPositive(us)
    ensures Tiles(us + Rim(us, f), WholeOf(f)) && AllPositive(us + Rim(us, f))
  {
    TiledInCore(us, f);
    forall px, py
      ensures Cover(us + Rim(us, f), px, py) == Indicator(WholeOf(f), px, py)
    {
      RimFills(us, f, px, py);
    }
    RimPositive(us, f);
    RimTotal(us, f);
  }

  lemma RimTotal(us: seq<Rect>, f: Frame)
    requires Proper(f) && Tiles(us, CoreOf(f)) && AllInCore(us, f)
    ensures TotalArea(us + Rim(us, f)) == AreaOf(WholeOf(f))
  {
    var x, y := NearCorner(us, f);
    BorderLength(us, f, x, y, WestSide);
    BorderLength(us, f, x, y, EastSide);
    BorderLength(us, f, x, y, NorthSide);
    BorderLength(us, f, x, y, SouthSide);
    OnePerCorner(us, f, x, y);
    RimArea(us, f);
    FrameArea(f);
    CoverConcat(us, Rim(us, f), 0.0, 0.0);
  }

  // ---------- number ----------

  lemma RimOfCount(u: Rect, f: Frame)
    ensures |RimOf(u, f)| == One(West(u, f)) + One(East(u, f)) + One(North(u, f)) + One(South(u, f))
  {
  }

  ghost predicate NoneSpansUp(us: seq<Rect>, f: Frame) {
    forall i :: 0 <= i < |us| ==> !(North(us[i], f) && South(us[i], f))
  }

  ghost predicate NoneSpansAcross(us: seq<Rect>, f: Frame) {
    forall i :: 0 <= i < |us| ==> !(West(us[i], f) && East(us[i], f))
  }

  lemma {:induction false} CountUp(us: seq<Rect>, f: Frame)
    requires NoneSpansUp(us, f)
    ensures |Rim(us, f)| <= 2 * |us| + NorthWests(us, f) + SouthWests(us, f)
    decreases |us|
  {
    if us != [] {
      CountUp(us[..|us| - 1], f);
      RimOfCount(us[|us| - 1], f);
    }
  }

  lemma {:induction false} CountAcross(us: seq<Rect>, f: Frame)
    requires NoneSpansAcross(us, f)
    ensures |Rim(us, f)| <= 2 * |us| + NorthWests(us, f) + NorthEasts(us, f)
    decreases |us|
  {
    if us != [] {
      CountAcross(us[..|us| - 1], f);
      RimOfCount(us[|us| - 1], f);
    }
  }

  /** A unit spanning the core upwards and one spanning it across are the same one, and alone. */
  lemma SpansAlone(us: seq<Rect>, f: Frame, i: nat, j: nat)
    requires Proper(f) && Tiles(us, CoreOf(f)) && AllInCore(us, f)
    requires i < |us| && North(us[i], f) && South(us[i], f)
    requires j < |us| && West(us[j], f) && East(us[j], f)
    ensures |us| == 1
  {
    assert InCore(us[i], f) && InCore(us[j], f);
    TilesMeans(us, CoreOf(f), us[i].leftx, us[j].bottomy);
    assert i == j;
    if |us| > 1 {
      var k := if i == 0 then 1 else 0;
      assert InCore(us[k], f);
      TilesMeans(us, CoreOf(f), us[k].leftx, us[k].bottomy);
      assert false;
    }
  }

  /** At most 2n + 2 strips, so 3n + 2 slots hold core and rim. */
  lemma RimCount(us: seq<Rect>, f: Frame)
    requires Proper(f) && Tiles(us, CoreOf(f)) && AllPositive(us)
    ensures |Rim(us, f)| <= 2 * |us| + 2
  {
    TiledInCore(us, f);
    var x, y := NearCorner(us, f);
    OnePerCorner(us, f, x, y);
    if NoneSpansUp(us, f) {
      CountUp(us, f);
    } else if NoneSpansAcross(us, f) {
      CountAcross(us, f);
    } else {
      var i :| 0 <= i < |us| && North(us[i], f) && South(us[i], f);
      var j :| 0 <= j < |us| && West(us[j], f) && East(us[j], f);
      SpansAlone(us, f, i, j);
      assert us[..0] == [];
      RimOfCount(us[0], f);
    }
  }

  // ---------- the bound is attained ----------

  /** k widths. */
  function Widths(k: nat, w: real): real {
    if k == 0 then 0.0 else Widths(k - 1, w) + w
  }

  lemma {:induction false} WidthsAscend(j: nat, k: nat, w: real)
    requires j < k && w > 0.0
    ensures 0.0 <= Widths(j, w) && Widths(j, w) + w <= Widths(k, w)
    decreases k
  {
    if j < k - 1 {
      WidthsAscend(j, k - 1, w);
    } else if j > 0 {
      WidthsAscend(j - 1, j, w);
    }
  }

  /** The k-th of n blocks side by side, each spanning the core upwards. */
  function RowUnit(k: nat, f: Frame, w: real): Rect {
    Rect(f.t + Widths(k, w), f.t, w, f.top - f.t)
  }

  function Row(n: nat, f: Frame, w: real): (us: seq<Rect>)
    ensures |us| == n && forall k :: 0 <= k < n ==> us[k] == RowUnit(k, f, w)
  {
    if n == 0 then [] else Row(n - 1, f, w) + [RowUnit(n - 1, f, w)]
  }

  lemma RowUnitCount(k: nat, m: nat, f: Frame, w: real)
    requires k < m && w > 0.0 && f.right == f.t + Widths(m, w)
    ensures |RimOf(RowUnit(k, f, w), f)| == 2 + One(k == 0) + One(k == m - 1)
  {
    var u := RowUnit(k, f, w);
    RimOfCount(u, f);
    if k > 0 {
      WidthsAscend(0, k, w);
    }
    if k < m - 1 {
      WidthsAscend(k, m - 1, w);
      WidthsAscend(m - 1, m, w);
    }
  }

  lemma {:induction false} CountEach(us: seq<Rect>, m: nat, f: Frame)
    requires |us| <= m
    requires forall k :: 0 <= k < |us| ==> |RimOf(us[k], f)| == 2 + One(k == 0) + One(k == m - 1)
    ensures |Rim(us, f)| == 2 * |us| + One(|us| > 0) + One(|us| == m && m > 0)
    decreases |us|
  {
    if us != [] {
      CountEach(us[..|us| - 1], m, f);
    }
  }

  lemma Extend(us: seq<Rect>, x: real, y: real, a: real, w: real, h: real)
    requires Tiles(us, Rect(x, y, a, h)) && a >= 0.0 && w > 0.0 && h > 0.0
    ensures Tiles(us + [Rect(x + a, y, w, h)], Rect(x, y, a + w, h))
  {
    var all := us + [Rect(x + a, y, w, h)];
    forall px, py
      ensures Cover(all, px, py) == Indicator(Rect(x, y, a + w, h), px, py)
    {
      CoverLast(us, Rect(x + a, y, w, h), px, py);
      assert Cover(us, px, py) == Indicator(Rect(x, y, a, h), px, py);
    }
    CoverLast(us, Rect(x + a, y, w, h), 0.0, 0.0);
  }

  lemma NothingTiles(r: Rect)
    requires r.width == 0.0
    ensures Tiles([], r)
  {
  }

  /** Blocks lined up side by side tile the core ... */
  lemma {:induction false} RowTiles(n: nat, f: Frame, w: real, box: Rect)
    requires w > 0.0 && Proper(f) && box == Rect(f.t, f.t, Widths(n, w), f.top - f.t)
    ensures Tiles(Row(n, f, w), box)
  {
    if n > 0 {
      var a, h := Widths(n - 1, w), f.top - f.t;
      RowTiles(n - 1, f, w, Rect(f.t, f.t, a, h));
      WidthsAscend(n - 1, n, w);
      Extend(Row(n - 1, f, w), f.t, f.t, a, w, h);
    } else {
      NothingTiles(box);
    }
  }

  /** ... and have exactly 2n + 2 strips. */
  lemma RowAttains(m: nat, f: Frame, w: real)
    requires m > 0 && w > 0.0 && f.right == f.t + Widths(m, w) && Proper(f)
    ensures |Rim(Row(m, f, w), f)| == 2 * m + 2 && Tiles(Row(m, f, w), CoreOf(f))
  {
    var us := Row(m, f, w);
    RowTiles(m, f, w, CoreOf(f));
    forall k | 0 <= k < m
      ensures |RimOf(us[k], f)| == 2 + One(k == 0) + One(k == m - 1)
    {
      RowUnitCount(k, m, f, w);
    }
    CountEach(us, m, f);
  }
}
