/** Wrapping the L2 cache around the core: a base below it and an arm on either side.
    Square roots are an input with the defining equation of a non-negative root. */
module WrapL2 {
  import opened Tilings
  import opened Sizing
  import opened Extents

  const L2_ARMS: nat := 2
  const L2_LEFT: nat := 0
  const L2_RIGHT: nat := 1
  const WRAP_L2_RATIO: real := 5.0

  ghost predicate IsSqrt(sqrt: real -> real) {
    forall x :: x >= 0.0 ==> IsRoot(sqrt(x), x)
  }

  ghost predicate IsRoot(r: real, x: real) {
    r >= 0.0 && r * r == x
  }

  /** Arm width, base height and base width. */
  datatype L2Size = L2Size(arm: real, base: real, side: real)

  /** The two sizes fit the area: the wrapped chip has the core's area plus the L2's. */
  ghost predicate Fits(s: L2Size, cw: real, ch: real, l2: real) {
    && s.arm > 0.0 && s.base > 0.0
    && s.side == 2.0 * s.arm + cw
    && s.side * (s.base + ch) == l2 + cw * ch
  }

  function QuadraticRoot(sqrt: real -> real, sum: real, l2: real): real {
    (sqrt(sum * sum + 8.0 * WRAP_L2_RATIO * l2) - sum) / (4.0 * WRAP_L2_RATIO)
  }

  /** Base and arms in ratio 5 to 1 around a wide core, 1 to 5 around a tall one. */
  function RatioSize(sqrt: real -> real, cw: real, ch: real, l2: real): L2Size {
    if cw >= ch then
      var x := QuadraticRoot(sqrt, WRAP_L2_RATIO * cw + 2.0 * ch, l2);
      L2Size(x, WRAP_L2_RATIO * x, 2.0 * x + cw)
    else
      var y := QuadraticRoot(sqrt, cw + 2.0 * WRAP_L2_RATIO * ch, l2);
      L2Size(WRAP_L2_RATIO * y, y, 2.0 * (WRAP_L2_RATIO * y) + cw)
  }

  function L2SizeOf(sqrt: real -> real, coreArea: real, cw: real, ch: real, l2: real): L2Size {
    var side := sqrt(coreArea + l2);
    if side > cw && side > ch then L2Size((side - cw) / 2.0, side - ch, side) else RatioSize(sqrt, cw, ch, l2)
  }

  method RatioSizes(sqrt: real -> real, cw: real, ch: real, l2: real) returns (x: real, y: real)
    requires IsSqrt(sqrt) && cw > 0.0 && ch > 0.0 && l2 > 0.0
    ensures Fits(L2Size(x, y, 2.0 * x + cw), cw, ch, l2)
    ensures L2Size(x, y, 2.0 * x + cw) == RatioSize(sqrt, cw, ch, l2)
    ensures if cw >= ch then y == WRAP_L2_RATIO * x else x == WRAP_L2_RATIO * y
  {
    if cw >= ch {
      var sum := WRAP_L2_RATIO * cw + 2.0 * ch;
      x := Quadratic(sqrt, sum, l2);
      y := WRAP_L2_RATIO * x;
      WideFits(x, cw, ch, l2);
    } else {
      var sum := cw + 2.0 * WRAP_L2_RATIO * ch;
      y := Quadratic(sqrt, sum, l2);
      x := WRAP_L2_RATIO * y;
      TallFits(y, cw, ch, l2);
    }
  }

  /** Square chip when that leaves room on all sides, else the base five times as deep as the arms
      are wide around a wide core, and the arms five times as wide around a tall one. */
  method L2Sizes(sqrt: real -> real, coreArea: real, cw: real, ch: real, l2: real) returns (s: L2Size)
    requires IsSqrt(sqrt) && cw > 0.0 && ch > 0.0 && l2 > 0.0 && coreArea == cw * ch
    ensures Fits(s, cw, ch, l2) && s == L2SizeOf(sqrt, coreArea, cw, ch, l2)
    ensures if coreArea + l2 > cw * cw && coreArea + l2 > ch * ch then s.base + ch == s.side
            else if cw >= ch then s.base == WRAP_L2_RATIO * s.arm
            else s.arm == WRAP_L2_RATIO * s.base
  {
    ProductPositive(cw, ch);
    assert IsRoot(sqrt(coreArea + l2), coreArea + l2);
    var side := sqrt(coreArea + l2);
    RootOrder(side, cw, coreArea + l2);
    RootOrder(side, ch, coreArea + l2);
    var x, y := (side - cw) / 2.0, side - ch;
    if x <= 0.0 || y <= 0.0 {
      x, y := RatioSizes(sqrt, cw, ch, l2);
      side := 2.0 * x + cw;
    }
    s := L2Size(x, y, side);
  }

  lemma RootOrder(root: real, a: real, square: real)
    requires IsRoot(root, square) && a > 0.0
    ensures root > a <==> square > a * a
  {
    if root > a {
      ProductPositive(root - a, root + a);
    } else if root > 0.0 {
      ProductPositive(a, a);
      assert root * root <= root * a <= a * a;
    }
  }

  lemma ProductPositive(a: real, b: real)
    requires a > 0.0 && b > 0.0
    ensures a * b > 0.0
  {
  }

  ghost predicate Solves(z: real, sum: real, l2: real) {
    z > 0.0 && 10.0 * (z * z) + sum * z == l2
  }

  /** The positive solution of 10 z^2 + sum z = l2. */
  method Quadratic(sqrt: real -> real, sum: real, l2: real) returns (z: real)
    requires IsSqrt(sqrt) && sum > 0.0 && l2 > 0.0
    ensures Solves(z, sum, l2)
    ensures z == QuadraticRoot(sqrt, sum, l2)
  {
    ProductPositive(sum, sum);
    var arg := sum * sum + 8.0 * WRAP_L2_RATIO * l2;
    assert IsRoot(sqrt(arg), arg);
    var root := sqrt(arg);
    RootExceeds(root, sum, arg);
    z := (root - sum) / (4.0 * WRAP_L2_RATIO);
    QuadraticSolved(root, sum, l2, z);
  }

  lemma RootExceeds(root: real, sum: real, arg: real)
    requires root >= 0.0 && sum > 0.0 && root * root == arg && arg > sum * sum
    ensures root > sum
  {
    if root <= sum {
      SquareMonotone(root, sum);
    }
  }

  lemma SquareMonotone(a: real, b: real)
    requires 0.0 <= a <= b
    ensures a * a <= b * b
  {
    assert a * a <= a * b <= b * b;
  }

  lemma QuadraticSolved(root: real, sum: real, l2: real, z: real)
    requires root * root == sum * sum + 40.0 * l2 && 20.0 * z == root - sum
    ensures 10.0 * (z * z) + sum * z == l2
  {
    var d := root - sum;
    assert d * d == root * root - 2.0 * (root * sum) + sum * sum;
    assert d * sum == root * sum - sum * sum;
    assert (20.0 * z) * (20.0 * z) == d * d;
    assert (20.0 * z) * sum == d * sum;
  }

  lemma WideFits(x: real, cw: real, ch: real, l2: real)
    requires Solves(x, WRAP_L2_RATIO * cw + 2.0 * ch, l2)
    ensures Fits(L2Size(x, WRAP_L2_RATIO * x, 2.0 * x + cw), cw, ch, l2)
  {
    assert (2.0 * x + cw) * (5.0 * x + ch) == 10.0 * (x * x) + 2.0 * (x * ch) + 5.0 * (cw * x) + cw * ch;
    assert (5.0 * cw + 2.0 * ch) * x == 5.0 * (cw * x) + 2.0 * (x * ch);
  }

  lemma TallFits(y: real, cw: real, ch: real, l2: real)
    requires Solves(y, cw + 2.0 * WRAP_L2_RATIO * ch, l2)
    ensures Fits(L2Size(WRAP_L2_RATIO * y, y, 2.0 * (WRAP_L2_RATIO * y) + cw), cw, ch, l2)
  {
    assert (10.0 * y + cw) * (y + ch) == 10.0 * (y * y) + 10.0 * (y * ch) + cw * y + cw * ch;
    assert (cw + 10.0 * ch) * y == cw * y + 10.0 * (y * ch);
  }

  // ---------- base, arms and core ----------

  function BaseRect(s: L2Size): Rect {
    Rect(0.0, 0.0, s.side, s.base)
  }

  function LeftArm(s: L2Size, ch: real): Rect {
    Rect(0.0, s.base, s.arm, ch)
  }

  function RightArm(s: L2Size, cw: real, ch: real): Rect {
    Rect(s.arm + cw, s.base, s.arm, ch)
  }

  function Chip(s: L2Size, ch: real): Rect {
    Rect(0.0, 0.0, s.side, s.base + ch)
  }

  /** Base and arms have exactly the L2's area. */
  lemma L2AreaExact(s: L2Size, cw: real, ch: real, l2: real)
    requires Fits(s, cw, ch, l2)
    ensures AreaOf(BaseRect(s)) + AreaOf(LeftArm(s, ch)) + AreaOf(RightArm(s, cw, ch)) == l2
  {
    assert s.side * (s.base + ch) == s.side * s.base + s.side * ch;
    assert s.side * ch == 2.0 * (s.arm * ch) + cw * ch;
  }

  /** Around a tiled core they tile the whole chip. */
  lemma WrappedTiles(core: seq<Rect>, s: L2Size, cw: real, ch: real, l2: real)
    requires Fits(s, cw, ch, l2) && cw > 0.0 && ch > 0.0
    requires Tiles(core, Rect(s.arm, s.base, cw, ch))
    ensures Tiles(core + [BaseRect(s)] + [LeftArm(s, ch)] + [RightArm(s, cw, ch)], Chip(s, ch))
  {
    var all := core + [BaseRect(s)] + [LeftArm(s, ch)] + [RightArm(s, cw, ch)];
    forall px, py
      ensures Cover(all, px, py) == Indicator(Chip(s, ch), px, py)
    {
      assert Cover(core, px, py) == Indicator(Rect(s.arm, s.base, cw, ch), px, py);
      CoverLast(core, BaseRect(s), px, py);
      CoverLast(core + [BaseRect(s)], LeftArm(s, ch), px, py);
      CoverLast(core + [BaseRect(s)] + [LeftArm(s, ch)], RightArm(s, cw, ch), px, py);
    }
    CoverLast(core, BaseRect(s), 0.0, 0.0);
    CoverLast(core + [BaseRect(s)], LeftArm(s, ch), 0.0, 0.0);
    CoverLast(core + [BaseRect(s)] + [LeftArm(s, ch)], RightArm(s, cw, ch), 0.0, 0.0);
    L2AreaExact(s, cw, ch, l2);
  }

  /** Area, width and height of a tiled floorplan. */
  method Measure(flp: Floorplan, ghost box: Rect) returns (area: real, width: real, height: real)
    requires flp.nUnits <= flp.units.Length
    requires Tiles(flp.units[..flp.nUnits], box) && AllPositive(flp.units[..flp.nUnits]) && PositiveRect(box)
    ensures flp.nUnits > 0 && width == box.width && height == box.height && area == AreaOf(box)
    ensures MinLeft(flp.units[..flp.nUnits]) == box.leftx && MinBottom(flp.units[..flp.nUnits]) == box.bottomy
  {
    TilingExtents(flp.units[..flp.nUnits], box);
    area := SumArea(flp.units, flp.nUnits);
    width := TotalWidth(flp.units, flp.nUnits);
    height := TotalHeight(flp.units, flp.nUnits);
  }

  lemma BoxArea(box: Rect, w: real, h: real)
    requires w == box.width && h == box.height
    ensures AreaOf(box) == w * h
  {
  }

  /** Appends base and arms behind the units in use. */
  method AppendL2(flp: Floorplan, s: L2Size, cw: real, ch: real)
    requires flp.nUnits + L2_ARMS + 1 <= flp.units.Length
    modifies flp, flp.units
    ensures flp.nUnits == old(flp.nUnits) + L2_ARMS + 1
    ensures flp.units[..flp.nUnits]
            == old(flp.units[..flp.nUnits]) + [BaseRect(s)] + [LeftArm(s, ch)] + [RightArm(s, cw, ch)]
  {
    flp.nUnits := flp.nUnits + L2_ARMS + 1;
    flp.units[flp.nUnits - 1 - L2_ARMS] := Rect(0.0, 0.0, s.side, s.base);
    flp.units[flp.nUnits - L2_ARMS + L2_LEFT] := Rect(0.0, s.base, s.arm, ch);
    flp.units[flp.nUnits - L2_ARMS + L2_RIGHT] := Rect(s.arm + cw, s.base, s.arm, ch);
  }

  /** The core moved to its place, then base and arms. */
  function Wrapped(core: seq<Rect>, box: Rect, s: L2Size): seq<Rect> {
    Shifted(core, s.arm - box.leftx, s.base - box.bottomy) + [BaseRect(s)] + [LeftArm(s, box.height)]
    + [RightArm(s, box.width, box.height)]
  }

  lemma WrappedPositive(core: seq<Rect>, dx: real, dy: real, s: L2Size, cw: real, ch: real, l2: real)
    requires AllPositive(core) && Fits(s, cw, ch, l2) && cw > 0.0 && ch > 0.0
    ensures AllPositive(Shifted(core, dx, dy) + [BaseRect(s)] + [LeftArm(s, ch)] + [RightArm(s, cw, ch)])
  {
    var moved := Shifted(core, dx, dy);
    assert forall i :: 0 <= i < |core| ==> PositiveRect(core[i]) && PositiveRect(moved[i]);
  }

  /** Moves the core up and right and puts base and arms around it. */
  method WrapAround(sqrt: real -> real, flp: Floorplan, l2: real, ghost box: Rect) returns (s: L2Size)
    requires IsSqrt(sqrt) && l2 > 0.0
    requires flp.nUnits + L2_ARMS + 1 <= flp.units.Length
    requires Tiles(flp.units[..flp.nUnits], box) && AllPositive(flp.units[..flp.nUnits]) && PositiveRect(box)
    modifies flp, flp.units
    ensures flp.nUnits == old(flp.nUnits) + L2_ARMS + 1
    ensures Fits(s, box.width, box.height, l2) && s == L2SizeOf(sqrt, AreaOf(box), box.width, box.height, l2)
    ensures flp.units[..flp.nUnits] == Wrapped(old(flp.units[..flp.nUnits]), box, s)
    ensures Tiles(flp.units[..flp.nUnits], Chip(s, box.height)) && AllPositive(flp.units[..flp.nUnits])
  {
    ghost var core := flp.units[..flp.nUnits];
    var coreArea, cw, ch := Measure(flp, box);
    BoxArea(box, cw, ch);
    s := L2Sizes(sqrt, coreArea, cw, ch, l2);
    Translate(flp.units, flp.nUnits, s.arm, s.base);
    ghost var dx, dy := s.arm - box.leftx, s.base - box.bottomy;
    assert flp.units[..flp.nUnits] == Shifted(core, dx, dy);
    AppendL2(flp, s, cw, ch);
    CoreWrapped(core, box, s, l2);
  }

  lemma CoreWrapped(core: seq<Rect>, box: Rect, s: L2Size, l2: real)
    requires Tiles(core, box) && AllPositive(core) && PositiveRect(box) && Fits(s, box.width, box.height, l2)
    ensures Tiles(Wrapped(core, box, s), Chip(s, box.height)) && AllPositive(Wrapped(core, box, s))
  {
    var dx, dy := s.arm - box.leftx, s.base - box.bottomy;
    ShiftedTiles(core, box, dx, dy);
    assert Shift(box, dx, dy) == Rect(s.arm, s.base, box.width, box.height);
    WrappedTiles(Shifted(core, dx, dy), s, box.width, box.height, l2);
    WrappedPositive(core, dx, dy, s, box.width, box.height, l2);
  }
}
