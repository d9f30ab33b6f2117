/** Rim strips around a tiled core: every block on the border of the core gets a strip of the
    rim's thickness beside it, and at each corner one of the two strips that meet there is
    extended, clockwise. */
module Rims {
  import opened Shapes
  import opened Tilings
  import opened Extents

  /** The core spans from t to right and from t to top; the rim is t thick. */
  datatype Frame = Frame(t: real, right: real, top: real)

  predicate Proper(f: Frame) {
    0.0 < f.t < f.right && f.t < f.top
  }

  function CoreOf(f: Frame): Rect {
    Rect(f.t, f.t, f.right - f.t, f.top - f.t)
  }

  function WholeOf(f: Frame): Rect {
    Rect(0.0, 0.0, f.right + f.t, f.top + f.t)
  }

  predicate West(u: Rect, f: Frame) { u.leftx == f.t }

  predicate East(u: Rect, f: Frame) { Right(u) == f.right }

  predicate North(u: Rect, f: Frame) { Top(u) == f.top }

  predicate South(u: Rect, f: Frame) { u.bottomy == f.t }

  function WestStrip(u: Rect, f: Frame): Rect {
    Rect(0.0, u.bottomy, f.t, u.height + if North(u, f) then f.t else 0.0)
  }

  function EastStrip(u: Rect, f: Frame): Rect {
    if South(u, f) then Rect(Right(u), 0.0, f.t, u.height + f.t) else Rect(Right(u), u.bottomy, f.t, u.height)
  }

  function NorthStrip(u: Rect, f: Frame): Rect {
    Rect(u.leftx, Top(u), u.width + (if East(u, f) then f.t else 0.0), f.t)
  }

  function SouthStrip(u: Rect, f: Frame): Rect {
    if West(u, f) then Rect(0.0, 0.0, u.width + f.t, f.t) else Rect(u.leftx, 0.0, u.width, f.t)
  }

  function When(c: bool, r: Rect): seq<Rect> {
    if c then [r] else []
  }

  function RimOf(u: Rect, f: Frame): seq<Rect> {
    When(West(u, f), WestStrip(u, f)) + When(East(u, f), EastStrip(u, f))
    + When(North(u, f), NorthStrip(u, f)) + When(South(u, f), SouthStrip(u, f))
  }

  /** The strips of all units, in the units' order. */
  function Rim(us: seq<Rect>, f: Frame): seq<Rect> {
    if us == [] then [] else Rim(us[..|us| - 1], f) + RimOf(us[|us| - 1], f)
  }

  // ---------- which point of the core stands for a point of the rim ----------

  /** x is so close to the right border that only units reaching that border pass it. */
  predicate NearRight(u: Rect, f: Frame, x: real) {
    u.leftx <= x && (Right(u) < f.right ==> Right(u) <= x)
  }

  predicate NearTop(u: Rect, f: Frame, y: real) {
    u.bottomy <= y && (Top(u) < f.top ==> Top(u) <= y)
  }

  ghost predicate Near(us: seq<Rect>, f: Frame, x: real, y: real) {
    && f.t <= x < f.right && f.t <= y < f.top
    && forall i :: 0 <= i < |us| ==> NearRight(us[i], f, x) && NearTop(us[i], f, y)
  }

  predicate InCore(u: Rect, f: Frame) {
    PositiveRect(u) && Inside(u, CoreOf(f))
  }

  ghost predicate AllInCore(us: seq<Rect>, f: Frame) {
    forall i :: 0 <= i < |us| ==> InCore(us[i], f)
  }

  lemma {:induction false} NearCorner(us: seq<Rect>, f: Frame) returns (x: real, y: real)
    requires AllInCore(us, f) && Proper(f)
    ensures Near(us, f, x, y)
    decreases |us|
  {
    x, y := f.t, f.t;
    if us != [] {
      var u := us[|us| - 1];
      x, y := NearCorner(us[..|us| - 1], f);
      assert InCore(u, f);
      x := Max(x, if Right(u) < f.right then Right(u) else u.leftx);
      y := Max(y, if Top(u) < f.top then Top(u) else u.bottomy);
      forall i | 0 <= i < |us|
        ensures NearRight(us[i], f, x) && NearTop(us[i], f, y)
      {
        if i < |us| - 1 {
          assert us[..|us| - 1][i] == us[i];
        }
      }
    }
  }

  function Clip(p: real, lo: real, hi: real, near: real): real {
    if p < lo then lo else if p >= hi then near else p
  }

  predicate InFrame(f: Frame, px: real, py: real) {
    Holds(WholeOf(f), px, py) && !Holds(CoreOf(f), px, py)
  }

  lemma CoverWhen(c: bool, r: Rect, px: real, py: real)
    ensures Cover(When(c, r), px, py) == if c then Indicator(r, px, py) else 0
    ensures TotalArea(When(c, r)) == if c then AreaOf(r) else 0.0
  {
    if c {
      CoverLast([], r, px, py);
      assert [] + [r] == [r];
    }
  }

  lemma RimOfCover(u: Rect, f: Frame, px: real, py: real)
    ensures Cover(RimOf(u, f), px, py)
            == (if West(u, f) then Indicator(WestStrip(u, f), px, py) else 0)
               + (if East(u, f) then Indicator(EastStrip(u, f), px, py) else 0)
               + (if North(u, f) then Indicator(NorthStrip(u, f), px, py) else 0)
               + (if South(u, f) then Indicator(SouthStrip(u, f), px, py) else 0)
    ensures TotalArea(RimOf(u, f))
            == (if West(u, f) then AreaOf(WestStrip(u, f)) else 0.0)
               + (if East(u, f) then AreaOf(EastStrip(u, f)) else 0.0)
               + (if North(u, f) then AreaOf(NorthStrip(u, f)) else 0.0)
               + (if South(u, f) then AreaOf(SouthStrip(u, f)) else 0.0)
  {
    var w, e := When(West(u, f), WestStrip(u, f)), When(East(u, f), EastStrip(u, f));
    var n, s := When(North(u, f), NorthStrip(u, f)), When(South(u, f), SouthStrip(u, f));
    CoverConcat(w + e + n, s, px, py);
    CoverConcat(w + e, n, px, py);
    CoverConcat(w, e, px, py);
    CoverWhen(West(u, f), WestStrip(u, f), px, py);
    CoverWhen(East(u, f), EastStrip(u, f), px, py);
    CoverWhen(North(u, f), NorthStrip(u, f), px, py);
    CoverWhen(South(u, f), SouthStrip(u, f), px, py);
  }

  /** A unit's strips hold a point of the frame once if the unit holds the point of the core
      that stands for it, and not at all otherwise. */
  lemma UnitRim(u: Rect, f: Frame, x: real, y: real, px: real, py: real)
    requires Proper(f) && InCore(u, f) && NearRight(u, f, x) && NearTop(u, f, y)
    requires f.t <= x < f.right && f.t <= y < f.top
    ensures Cover(RimOf(u, f), px, py)
            == if InFrame(f, px, py)
               then Indicator(u, Clip(px, f.t, f.right, x), Clip(py, f.t, f.top, y)) else 0
  {
    RimOfCover(u, f, px, py);
  }

  lemma {:induction false} RimCover(us: seq<Rect>, f: Frame, x: real, y: real, px: real, py: real)
    requires Proper(f) && AllInCore(us, f) && Near(us, f, x, y)
    ensures Cover(Rim(us, f), px, py)
            == if InFrame(f, px, py)
               then Cover(us, Clip(px, f.t, f.right, x), Clip(py, f.t, f.top, y)) else 0
    decreases |us|
  {
    if us != [] {
      var n := |us| - 1;
      RimCover(us[..n], f, x, y, px, py);
      assert InCore(us[n], f) && NearRight(us[n], f, x) && NearTop(us[n], f, y);
      UnitRim(us[n], f, x, y, px, py);
      CoverConcat(Rim(us[..n], f), RimOf(us[n], f), px, py);
    }
  }

  /** Core and rim together hold every point of the enlarged rectangle exactly once. */
  lemma RimFills(us: seq<Rect>, f: Frame, px: real, py: real)
    requires Proper(f) && AllInCore(us, f) && Tiles(us, CoreOf(f))
    ensures Cover(us + Rim(us, f), px, py) == Indicator(WholeOf(f), px, py)
  {
    var x, y := NearCorner(us, f);
    RimCover(us, f, x, y, px, py);
    CoverConcat(us, Rim(us, f), px, py);
    var qx, qy := Clip(px, f.t, f.right, x), Clip(py, f.t, f.top, y);
    assert Cover(us, qx, qy) == Indicator(CoreOf(f), qx, qy);
    assert Cover(us, px, py) == Indicator(CoreOf(f), px, py);
  }
}
