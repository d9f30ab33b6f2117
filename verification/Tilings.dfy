/** Placed rectangles and what it means for a list of them to tile a rectangle exactly. */
module Tilings {

  datatype Rect = Rect(leftx: real, bottomy: real, width: real, height: real)

  /** Half-open: a point on a shared edge belongs to the right or upper rectangle only. */
  predicate Holds(r: Rect, px: real, py: real) {
    r.leftx <= px < r.leftx + r.width && r.bottomy <= py < r.bottomy + r.height
  }

  function Indicator(r: Rect, px: real, py: real): nat {
    if Holds(r, px, py) then 1 else 0
  }

  /** How many of the rectangles hold the point. */
  function Cover(rs: seq<Rect>, px: real, py: real): nat {
    if rs == [] then 0 else Cover(rs[..|rs| - 1], px, py) + Indicator(rs[|rs| - 1], px, py)
  }

  function AreaOf(r: Rect): real {
    r.width * r.height
  }

  function TotalArea(rs: seq<Rect>): real {
    if rs == [] then 0.0 else TotalArea(rs[..|rs| - 1]) + AreaOf(rs[|rs| - 1])
  }

  predicate NonNegative(r: Rect) {
    r.width >= 0.0 && r.height >= 0.0
  }

  /** Every point of r lies in exactly one of the rectangles, no other point lies in any,
      and the areas add up. */
  ghost predicate Tiles(rs: seq<Rect>, r: Rect) {
    && (forall i :: 0 <= i < |rs| ==> NonNegative(rs[i]))
    && (forall px, py :: Cover(rs, px, py) == Indicator(r, px, py))
    && TotalArea(rs) == AreaOf(r)
  }

  lemma CoverLast(rs: seq<Rect>, r: Rect, px: real, py: real)
    ensures Cover(rs + [r], px, py) == Cover(rs, px, py) + Indicator(r, px, py)
    ensures TotalArea(rs + [r]) == TotalArea(rs) + AreaOf(r)
  {
    assert (rs + [r])[..|rs|] == rs;
  }

  lemma {:induction false} CoverConcat(a: seq<Rect>, b: seq<Rect>, px: real, py: real)
    ensures Cover(a + b, px, py) == Cover(a, px, py) + Cover(b, px, py)
    ensures TotalArea(a + b) == TotalArea(a) + TotalArea(b)
    decreases |b|
  {
    if b == [] {
      assert a + b == a;
    } else {
      var c, r := b[..|b| - 1], b[|b| - 1];
      CoverConcat(a, c, px, py);
      assert a + b == (a + c) + [r];
      CoverLast(a + c, r, px, py);
      CoverLast(c, r, px, py);
      assert b == c + [r];
    }
  }

  /** A rectangle in the list that holds the point is counted. */
  lemma {:induction false} CoverAtLeast(rs: seq<Rect>, i: nat, px: real, py: real)
    requires i < |rs| && Holds(rs[i], px, py)
    ensures Cover(rs, px, py) >= 1
  {
    if i < |rs| - 1 {
      CoverAtLeast(rs[..|rs| - 1], i, px, py);
    }
  }

  lemma {:induction false} CoverAtLeastTwo(rs: seq<Rect>, i: nat, j: nat, px: real, py: real)
    requires i < j < |rs| && Holds(rs[i], px, py) && Holds(rs[j], px, py)
    ensures Cover(rs, px, py) >= 2
  {
    if j < |rs| - 1 {
      CoverAtLeastTwo(rs[..|rs| - 1], i, j, px, py);
    } else {
      CoverAtLeast(rs[..|rs| - 1], i, px, py);
    }
  }

  lemma {:induction false} CoverSome(rs: seq<Rect>, px: real, py: real) returns (i: nat)
    requires Cover(rs, px, py) >= 1
    ensures i < |rs| && Holds(rs[i], px, py)
  {
    if Holds(rs[|rs| - 1], px, py) {
      i := |rs| - 1;
    } else {
      i := CoverSome(rs[..|rs| - 1], px, py);
    }
  }

  /** Tiles do not overlap and do not stick out; together they leave no gap. */
  lemma TilesMeans(rs: seq<Rect>, r: Rect, px: real, py: real)
    requires Tiles(rs, r)
    ensures Holds(r, px, py) <==> exists i :: 0 <= i < |rs| && Holds(rs[i], px, py)
    ensures forall i, j :: 0 <= i < j < |rs| ==> !(Holds(rs[i], px, py) && Holds(rs[j], px, py))
  {
    assert Cover(rs, px, py) == Indicator(r, px, py);
    if Holds(r, px, py) {
      var i := CoverSome(rs, px, py);
    }
    forall i | 0 <= i < |rs| && Holds(rs[i], px, py) ensures Holds(r, px, py) {
      CoverAtLeast(rs, i, px, py);
    }
    forall i, j | 0 <= i < j < |rs| ensures !(Holds(rs[i], px, py) && Holds(rs[j], px, py)) {
      if Holds(rs[i], px, py) && Holds(rs[j], px, py) {
        CoverAtLeastTwo(rs, i, j, px, py);
      }
    }
  }

  // ---------- order does not matter ----------

  lemma CoverRemove(rs: seq<Rect>, i: nat, px: real, py: real)
    requires i < |rs|
    ensures Cover(rs, px, py) == Cover(rs[..i] + rs[i + 1..], px, py) + Indicator(rs[i], px, py)
    ensures TotalArea(rs) == TotalArea(rs[..i] + rs[i + 1..]) + AreaOf(rs[i])
    ensures multiset(rs[..i] + rs[i + 1..]) == multiset(rs) - multiset{rs[i]}
  {
    var a, r, b := rs[..i], rs[i], rs[i + 1..];
    assert rs == a + [r] + b;
    CoverConcat(a + [r], b, px, py);
    CoverLast(a, r, px, py);
    CoverConcat(a, b, px, py);
  }

  lemma {:induction false} CoverPermutation(a: seq<Rect>, b: seq<Rect>, px: real, py: real)
    requires multiset(a) == multiset(b)
    ensures Cover(a, px, py) == Cover(b, px, py)
    ensures TotalArea(a) == TotalArea(b)
    decreases |a|
  {
    if a == [] {
      assert |multiset(b)| == 0;
      assert b == [];
    } else {
      var r := a[|a| - 1];
      assert r in multiset(a);
      assert r in b;
      var i :| 0 <= i < |b| && b[i] == r;
      var c, d := a[..|a| - 1], b[..i] + b[i + 1..];
      assert a == c + [r];
      CoverRemove(b, i, px, py);
      CoverLast(c, r, px, py);
      assert multiset(c) == multiset(d) by { assert multiset(a) == multiset(c) + multiset{r}; }
      CoverPermutation(c, d, px, py);
    }
  }

  /** A tiling stays one when its members are reordered. */
  lemma TilesPermutation(a: seq<Rect>, b: seq<Rect>, r: Rect)
    requires Tiles(a, r) && multiset(a) == multiset(b)
    ensures Tiles(b, r)
  {
    forall px, py
      ensures Cover(b, px, py) == Indicator(r, px, py)
    {
      CoverPermutation(a, b, px, py);
    }
    CoverPermutation(a, b, 0.0, 0.0);
    forall i | 0 <= i < |b|
      ensures NonNegative(b[i])
    {
      assert b[i] in multiset(b);
      assert b[i] in a;
    }
  }
}
