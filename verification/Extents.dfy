/** Extents of a placed floorplan: total width and height, and moving it to a new origin. */
module Extents {
  import opened Shapes
  import opened Tilings

  function Right(r: Rect): real {
    r.leftx + r.width
  }

  function Top(r: Rect): real {
    r.bottomy + r.height
  }

  predicate PositiveRect(r: Rect) {
    r.width > 0.0 && r.height > 0.0
  }

  ghost predicate AllPositive(rs: seq<Rect>) {
    forall i :: 0 <= i < |rs| ==> PositiveRect(rs[i])
  }

  predicate Inside(r: Rect, box: Rect) {
    box.leftx <= r.leftx && Right(r) <= Right(box) && box.bottomy <= r.bottomy && Top(r) <= Top(box)
  }

  function MinLeft(rs: seq<Rect>): real
    requires rs != []
  {
    if |rs| == 1 then rs[0].leftx else Min(MinLeft(rs[..|rs| - 1]), rs[|rs| - 1].leftx)
  }

  function MaxRight(rs: seq<Rect>): real
    requires rs != []
  {
    if |rs| == 1 then Right(rs[0]) else Max(MaxRight(rs[..|rs| - 1]), Right(rs[|rs| - 1]))
  }

  function MinBottom(rs: seq<Rect>): real
    requires rs != []
  {
    if |rs| == 1 then rs[0].bottomy else Min(MinBottom(rs[..|rs| - 1]), rs[|rs| - 1].bottomy)
  }

  function MaxTop(rs: seq<Rect>): real
    requires rs != []
  {
    if |rs| == 1 then Top(rs[0]) else Max(MaxTop(rs[..|rs| - 1]), Top(rs[|rs| - 1]))
  }

  lemma {:induction false} ExtentBounds(rs: seq<Rect>, i: nat)
    requires i < |rs|
    ensures MinLeft(rs) <= rs[i].leftx && Right(rs[i]) <= MaxRight(rs)
    ensures MinBottom(rs) <= rs[i].bottomy && Top(rs[i]) <= MaxTop(rs)
    decreases |rs|
  {
    if i < |rs| - 1 {
      ExtentBounds(rs[..|rs| - 1], i);
    }
  }

  lemma {:induction false} ExtentsAttained(rs: seq<Rect>) returns (l: nat, r: nat, b: nat, t: nat)
    requires rs != []
    ensures l < |rs| && rs[l].leftx == MinLeft(rs)
    ensures r < |rs| && Right(rs[r]) == MaxRight(rs)
    ensures b < |rs| && rs[b].bottomy == MinBottom(rs)
    ensures t < |rs| && Top(rs[t]) == MaxTop(rs)
    decreases |rs|
  {
    if |rs| == 1 {
      l, r, b, t := 0, 0, 0, 0;
    } else {
      var n := |rs| - 1;
      l, r, b, t := ExtentsAttained(rs[..n]);
      if rs[n].leftx == MinLeft(rs) { l := n; }
      if Right(rs[n]) == MaxRight(rs) { r := n; }
      if rs[n].bottomy == MinBottom(rs) { b := n; }
      if Top(rs[n]) == MaxTop(rs) { t := n; }
    }
  }

  /** A tile with positive sides lies inside what is tiled. */
  lemma TileInside(rs: seq<Rect>, box: Rect, i: nat)
    requires Tiles(rs, box) && i < |rs| && PositiveRect(rs[i])
    ensures Inside(rs[i], box)
  {
    var r := rs[i];
    HeldInBox(rs, box, i, r.leftx, r.bottomy);
    HeldInBox(rs, box, i, Max(r.leftx, Right(box)), r.bottomy);
    HeldInBox(rs, box, i, r.leftx, Max(r.bottomy, Top(box)));
  }

  lemma HeldInBox(rs: seq<Rect>, box: Rect, i: nat, px: real, py: real)
    requires Tiles(rs, box) && i < |rs|
    ensures Holds(rs[i], px, py) ==> Holds(box, px, py)
  {
    TilesMeans(rs, box, px, py);
  }

  lemma BoxHeldByTile(rs: seq<Rect>, box: Rect, px: real, py: real) returns (i: nat)
    requires Tiles(rs, box) && Holds(box, px, py)
    ensures i < |rs| && Holds(rs[i], px, py)
  {
    TilesMeans(rs, box, px, py);
    i :| 0 <= i < |rs| && Holds(rs[i], px, py);
  }

  /** The extents of a tiling by positive tiles are those of the box. */
  lemma TilingExtents(rs: seq<Rect>, box: Rect)
    requires Tiles(rs, box) && AllPositive(rs) && PositiveRect(box)
    ensures rs != []
    ensures MinLeft(rs) == box.leftx && MaxRight(rs) == Right(box)
    ensures MinBottom(rs) == box.bottomy && MaxTop(rs) == Top(box)
  {
    var k := BoxHeldByTile(rs, box, box.leftx, box.bottomy);
    var l, r, b, t := ExtentsAttained(rs);
    TileInside(rs, box, l);
    TileInside(rs, box, r);
    TileInside(rs, box, b);
    TileInside(rs, box, t);
    ExtentBounds(rs, k);
    if MaxRight(rs) < Right(box) {
      var j := BoxHeldByTile(rs, box, Max(box.leftx, MaxRight(rs)), box.bottomy);
      ExtentBounds(rs, j);
    }
    if MaxTop(rs) < Top(box) {
      var j := BoxHeldByTile(rs, box, box.leftx, Max(box.bottomy, MaxTop(rs)));
      ExtentBounds(rs, j);
    }
  }

  // ---------- the queries, as loops ----------

  method TotalWidth(units: array<Rect>, n: nat) returns (w: real)
    requires 0 < n <= units.Length
    ensures w == MaxRight(units[..n]) - MinLeft(units[..n])
  {
    var lo, hi := units[0].leftx, units[0].leftx + units[0].width;
    for i := 1 to n
      invariant lo == MinLeft(units[..i]) && hi == MaxRight(units[..i])
    {
      assert units[..i + 1][..i] == units[..i];
      if units[i].leftx < lo {
        lo := units[i].leftx;
      }
      if units[i].leftx + units[i].width > hi {
        hi := units[i].leftx + units[i].width;
      }
    }
    w := hi - lo;
  }

  method TotalHeight(units: array<Rect>, n: nat) returns (h: real)
    requires 0 < n <= units.Length
    ensures h == MaxTop(units[..n]) - MinBottom(units[..n])
  {
    var lo, hi := units[0].bottomy, units[0].bottomy + units[0].height;
    for i := 1 to n
      invariant lo == MinBottom(units[..i]) && hi == MaxTop(units[..i])
    {
      assert units[..i + 1][..i] == units[..i];
      if units[i].bottomy < lo {
        lo := units[i].bottomy;
      }
      if units[i].bottomy + units[i].height > hi {
        hi := units[i].bottomy + units[i].height;
      }
    }
    h := hi - lo;
  }

  method SumArea(units: array<Rect>, n: nat) returns (area: real)
    requires n <= units.Length
    ensures area == TotalArea(units[..n])
  {
    area := 0.0;
    for i := 0 to n
      invariant area == TotalArea(units[..i])
    {
      assert units[..i + 1][..i] == units[..i];
      area := area + units[i].width * units[i].height;
    }
  }

  // ---------- translation ----------

  function Shift(r: Rect, dx: real, dy: real): Rect {
    Rect(r.leftx + dx, r.bottomy + dy, r.width, r.height)
  }

  function Shifted(rs: seq<Rect>, dx: real, dy: real): (r: seq<Rect>)
    ensures |r| == |rs|
    ensures forall i :: 0 <= i < |rs| ==> r[i] == Shift(rs[i], dx, dy)
  {
    seq(|rs|, i requires 0 <= i < |rs| => Shift(rs[i], dx, dy))
  }

  lemma {:induction false} ShiftedCover(rs: seq<Rect>, dx: real, dy: real, px: real, py: real)
    ensures Cover(Shifted(rs, dx, dy), px, py) == Cover(rs, px - dx, py - dy)
    ensures TotalArea(Shifted(rs, dx, dy)) == TotalArea(rs)
    decreases |rs|
  {
    if rs != [] {
      var n := |rs| - 1;
      ShiftedCover(rs[..n], dx, dy, px, py);
      assert Shifted(rs, dx, dy)[..n] == Shifted(rs[..n], dx, dy);
    }
  }

  /** A translated tiling tiles the translated box. */
  lemma ShiftedTiles(rs: seq<Rect>, box: Rect, dx: real, dy: real)
    requires Tiles(rs, box)
    ensures Tiles(Shifted(rs, dx, dy), Shift(box, dx, dy))
  {
    forall px, py
      ensures Cover(Shifted(rs, dx, dy), px, py) == Indicator(Shift(box, dx, dy), px, py)
    {
      ShiftedCover(rs, dx, dy, px, py);
      ShiftedIndicator(box, dx, dy, px, py);
      assert Cover(rs, px - dx, py - dy) == Indicator(box, px - dx, py - dy);
    }
    ShiftedCover(rs, dx, dy, 0.0, 0.0);
  }

  lemma ShiftedIndicator(r: Rect, dx: real, dy: real, px: real, py: real)
    ensures Indicator(Shift(r, dx, dy), px, py) == Indicator(r, px - dx, py - dy)
  {
  }

  /** Moves the first n units so that the least left and bottom coordinates become x and y. */
  method Translate(units: array<Rect>, n: nat, x: real, y: real)
    requires 0 < n <= units.Length
    modifies units
    ensures units[..n] == Shifted(old(units[..n]), x - MinLeft(old(units[..n])), y - MinBottom(old(units[..n])))
    ensures units[n..] == old(units[n..])
  {
    var minx, miny := units[0].leftx, units[0].bottomy;
    for i := 1 to n
      invariant minx == MinLeft(units[..i]) && miny == MinBottom(units[..i])
      invariant units[..] == old(units[..])
    {
      assert units[..i + 1][..i] == units[..i];
      if minx > units[i].leftx {
        minx := units[i].leftx;
      }
      if miny > units[i].bottomy {
        miny := units[i].bottomy;
      }
    }
    for i := 0 to n
      invariant forall k :: 0 <= k < i ==> units[k] == Shift(old(units[k]), x - minx, y - miny)
      invariant forall k :: i <= k < units.Length ==> units[k] == old(units[k])
    {
      units[i] := units[i].(leftx := units[i].leftx + (x - minx), bottomy := units[i].bottomy + (y - miny));
    }
  }
}
