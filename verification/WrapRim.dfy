/** Wrapping rim strips around a placed floorplan, in place. */
module WrapRim {
  import opened Tilings
  import opened Sizing
  import opened Extents
  import opened Rims
  import opened RimSizes

  method Place(units: array<Rect>, at: nat, r: Rect)
    requires at < units.Length
    modifies units
    ensures units[..at + 1] == old(units[..at]) + [r]
  {
    units[at] := r;
  }

  /** Writes a unit's west and east strips behind the first `at` units. */
  method PlaceSides(units: array<Rect>, at: nat, u: Rect, t: real, width: real, height: real) returns (j: nat)
    requires at + One(u.leftx == t) + One(Right(u) == width - t) <= units.Length
    modifies units
    ensures j == One(u.leftx == t) + One(Right(u) == width - t)
    ensures var f := Frame(t, width - t, height - t);
            units[..at + j]
            == old(units[..at]) + (When(West(u, f), WestStrip(u, f)) + When(East(u, f), EastStrip(u, f)))
  {
    j := 0;
    if u.leftx == t {
      var r := Rect(0.0, u.bottomy, t, u.height);
      if u.bottomy + u.height == height - t {
        r := r.(height := r.height + t);
      }
      Place(units, at + j, r);
      j := j + 1;
    }
    if u.leftx + u.width == width - t {
      var r := Rect(u.leftx + u.width, u.bottomy, t, u.height);
      if u.bottomy == t {
        r := r.(height := r.height + t, bottomy := 0.0);
      }
      Place(units, at + j, r);
      j := j + 1;
    }
  }

  method PlaceEnds(units: array<Rect>, at: nat, u: Rect, t: real, width: real, height: real) returns (j: nat)
    requires at + One(Top(u) == height - t) + One(u.bottomy == t) <= units.Length
    modifies units
    ensures j == One(Top(u) == height - t) + One(u.bottomy == t)
    ensures var f := Frame(t, width - t, height - t);
            units[..at + j]
            == old(units[..at]) + (When(North(u, f), NorthStrip(u, f)) + When(South(u, f), SouthStrip(u, f)))
  {
    j := 0;
    if u.bottomy + u.height == height - t {
      var r := Rect(u.leftx, u.bottomy + u.height, u.width, t);
      if u.leftx + u.width == width - t {
        r := r.(width := r.width + t);
      }
      Place(units, at + j, r);
      j := j + 1;
    }
    if u.bottomy == t {
      var r := Rect(u.leftx, 0.0, u.width, t);
      if u.leftx == t {
        r := r.(width := r.width + t, leftx := 0.0);
      }
      Place(units, at + j, r);
      j := j + 1;
    }
  }

  /** Writes all of a unit's strips. */
  method PlaceRim(units: array<Rect>, at: nat, u: Rect, t: real, width: real, height: real, ghost f: Frame)
    returns (j: nat)
    requires f == Frame(t, width - t, height - t) && at + |RimOf(u, f)| <= units.Length
    modifies units
    ensures j == |RimOf(u, f)|
    ensures units[..at + j] == old(units[..at]) + RimOf(u, f)
  {
    RimOfCount(u, f);
    var i := PlaceSides(units, at, u, t, width, height);
    var k := PlaceEnds(units, at + i, u, t, width, height);
    j := i + k;
  }

  lemma {:induction false} RimGrows(us: seq<Rect>, i: nat, f: Frame)
    requires i <= |us|
    ensures |Rim(us[..i], f)| <= |Rim(us, f)|
    decreases |us| - i
  {
    if i < |us| {
      RimGrows(us, i + 1, f);
      assert us[..i + 1][..i] == us[..i];
    } else {
      assert us[..i] == us;
    }
  }

  /** Strips of the first i units, then those of unit i. */
  ghost predicate Grows(done: seq<Rect>, next: seq<Rect>, us: seq<Rect>, i: nat, f: Frame, most: nat)
    requires i < |us|
  {
    next == done + RimOf(us[i], f) && |next| <= most
  }

  lemma RimNext(us: seq<Rect>, i: nat, f: Frame)
    requires i < |us|
    ensures Grows(Rim(us[..i], f), Rim(us[..i + 1], f), us, i, f, |Rim(us, f)|)
  {
    RimGrows(us, i + 1, f);
    RimSplits(us[..i + 1], us[..i], us[i], f);
  }

  lemma RimSplits(us: seq<Rect>, rest: seq<Rect>, u: Rect, f: Frame)
    requires us != [] && rest == us[..|us| - 1] && u == us[|us| - 1]
    ensures Rim(us, f) == Rim(rest, f) + RimOf(u, f)
  {
  }

  lemma AppendOnce<T>(a: seq<T>, b: seq<T>, c: seq<T>, next: seq<T>)
    requires next == b + c
    ensures (a + b) + c == a + next
  {
  }

  /** Writes the strips of unit i behind those already there. */
  method PlaceNext(units: array<Rect>, i: nat, at: nat, t: real, width: real, height: real,
                   ghost f: Frame, ghost us: seq<Rect>, ghost done: seq<Rect>, ghost next: seq<Rect>)
    returns (k: nat)
    requires f == Frame(t, width - t, height - t) && i < |us|
    requires |us| <= at <= units.Length && units[..at] == us + done
    requires Grows(done, next, us, i, f, units.Length - |us|)
    modifies units
    ensures at + k == |us| + |next| && units[..at + k] == us + next
  {
    assert units[..at][i] == us[i];
    ghost var u := us[i];
    k := PlaceRim(units, at, units[i], t, width, height, f);
    AppendOnce(us, done, RimOf(u, f), next);
  }

  /** What has been written before each unit's turn. */
  ghost predicate Stages(stages: seq<seq<Rect>>, us: seq<Rect>, f: Frame, most: nat) {
    && |stages| == |us| + 1 && stages[0] == []
    && forall i :: 0 <= i < |us| ==> Grows(stages[i], stages[i + 1], us, i, f, most)
  }

  lemma RimStages(us: seq<Rect>, f: Frame, most: nat) returns (stages: seq<seq<Rect>>)
    requires |Rim(us, f)| <= most
    ensures Stages(stages, us, f, most) && stages[|us|] == Rim(us, f)
  {
    stages := seq(|us| + 1, i requires 0 <= i <= |us| => Rim(us[..i], f));
    assert us[..0] == [] && us[..|us|] == us;
    forall i | 0 <= i < |us|
      ensures Grows(stages[i], stages[i + 1], us, i, f, most)
    {
      RimNext(us, i, f);
    }
  }

  method PlaceRims(units: array<Rect>, n: nat, t: real, width: real, height: real,
                   ghost f: Frame, ghost us: seq<Rect>, ghost stages: seq<seq<Rect>>)
    returns (j: nat)
    requires n <= units.Length && us == units[..n] && f == Frame(t, width - t, height - t)
    requires Stages(stages, us, f, units.Length - n)
    modifies units
    ensures j == |stages[n]| && n + j <= units.Length && units[..n + j] == us + stages[n]
  {
    j := 0;
    for i := 0 to n
      invariant j == |stages[i]| && n + j <= units.Length
      invariant units[..n + j] == us + stages[i]
    {
      assert Grows(stages[i], stages[i + 1], us, i, f, units.Length - n);
      var k := PlaceNext(units, i, n + j, t, width, height, f, us, stages[i], stages[i + 1]);
      j := j + k;
    }
  }

  /** The core moved inside the rim, then all strips. */
  function Framed(core: seq<Rect>, box: Rect, t: real): seq<Rect> {
    var us := Shifted(core, t - box.leftx, t - box.bottomy);
    us + Rim(us, Frame(t, box.width + t, box.height + t))
  }

  /** Moves the core by the rim's thickness and puts the strips around it. */
  method WrapAround(flp: Floorplan, t: real, ghost box: Rect) returns (j: nat)
    requires t > 0.0 && 3 * flp.nUnits + 2 <= flp.units.Length
    requires Tiles(flp.units[..flp.nUnits], box) && AllPositive(flp.units[..flp.nUnits]) && PositiveRect(box)
    modifies flp, flp.units
    ensures j <= 2 * old(flp.nUnits) + 2 && flp.nUnits == old(flp.nUnits) + j <= flp.units.Length
    ensures Tiles(flp.units[..flp.nUnits], Rect(0.0, 0.0, box.width + 2.0 * t, box.height + 2.0 * t))
    ensures AllPositive(flp.units[..flp.nUnits])
    ensures flp.units[..flp.nUnits] == Framed(old(flp.units[..flp.nUnits]), box, t)
  {
    var n := flp.nUnits;
    ghost var core := flp.units[..n];
    var width, height := MoveInside(flp.units, n, t, box);
    j := PlaceFrame(flp.units, n, t, width, height, core, box);
    ghost var all := flp.units[..n + j];
    flp.nUnits := flp.nUnits + j;
    assert flp.units[..flp.nUnits] == all;
  }

  method PlaceFrame(units: array<Rect>, n: nat, t: real, width: real, height: real, ghost core: seq<Rect>,
                    ghost box: Rect)
    returns (j: nat)
    requires t > 0.0 && width == box.width + 2.0 * t && height == box.height + 2.0 * t
    requires Tiles(core, box) && AllPositive(core) && PositiveRect(box)
    requires |core| == n && 3 * n + 2 <= units.Length && units[..n] == Shifted(core, t - box.leftx, t - box.bottomy)
    modifies units
    ensures j <= 2 * n + 2 && AllPositive(units[..n + j]) && units[..n + j] == Framed(core, box, t)
    ensures Tiles(units[..n + j], Rect(0.0, 0.0, box.width + 2.0 * t, box.height + 2.0 * t))
  {
    ghost var us, f := units[..n], Frame(t, width - t, height - t);
    CoreFramed(core, box, f, us);
    ghost var stages := RimStages(us, f, units.Length - n);
    j := PlaceRims(units, n, t, width, height, f, us, stages);
  }

  /** Measures a tiled floorplan with its rim and moves it to where the rim leaves off. */
  method MoveInside(units: array<Rect>, n: nat, t: real, ghost box: Rect) returns (width: real, height: real)
    requires n <= units.Length && Tiles(units[..n], box) && AllPositive(units[..n]) && PositiveRect(box)
    modifies units
    ensures width == box.width + 2.0 * t && height == box.height + 2.0 * t
    ensures units[..n] == Shifted(old(units[..n]), t - box.leftx, t - box.bottomy)
  {
    TilingExtents(units[..n], box);
    width := TotalWidth(units, n);
    width := width + 2.0 * t;
    height := TotalHeight(units, n);
    height := height + 2.0 * t;
    Translate(units, n, t, t);
  }

  lemma CoreFramed(core: seq<Rect>, box: Rect, f: Frame, us: seq<Rect>)
    requires Tiles(core, box) && AllPositive(core) && PositiveRect(box)
    requires f.t > 0.0 && f.right == box.width + f.t && f.top == box.height + f.t
    requires us == Shifted(core, f.t - box.leftx, f.t - box.bottomy)
    ensures |Rim(us, f)| <= 2 * |us| + 2
    ensures us + Rim(us, f) == Framed(core, box, f.t)
    ensures Tiles(us + Rim(us, f), Rect(0.0, 0.0, box.width + 2.0 * f.t, box.height + 2.0 * f.t))
    ensures AllPositive(us + Rim(us, f))
  {
    assert Shift(box, f.t - box.leftx, f.t - box.bottomy) == CoreOf(f);
    assert WholeOf(f) == Rect(0.0, 0.0, box.width + 2.0 * f.t, box.height + 2.0 * f.t);
    FramedIs(core, box, f, us);
    FramedTiles(core, box, f, us);
    RimTiles(us, f);
    RimCount(us, f);
  }

  lemma FramedIs(core: seq<Rect>, box: Rect, f: Frame, us: seq<Rect>)
    requires f.right == box.width + f.t && f.top == box.height + f.t
    requires us == Shifted(core, f.t - box.leftx, f.t - box.bottomy)
    ensures us + Rim(us, f) == Framed(core, box, f.t)
  {
    assert f == Frame(f.t, box.width + f.t, box.height + f.t);
  }

  lemma FramedTiles(core: seq<Rect>, box: Rect, f: Frame, us: seq<Rect>)
    requires Tiles(core, box) && AllPositive(core)
    requires Shift(box, f.t - box.leftx, f.t - box.bottomy) == CoreOf(f)
    requires us == Shifted(core, f.t - box.leftx, f.t - box.bottomy)
    ensures Tiles(us, CoreOf(f)) && AllPositive(us)
  {
    ShiftedTiles(core, box, f.t - box.leftx, f.t - box.bottomy);
    assert forall i :: 0 <= i < |core| ==> PositiveRect(core[i]) && PositiveRect(us[i]);
  }
}
