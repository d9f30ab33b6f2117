/** Which blocks of a floorplan touch, and along what length. Coordinates closer than DELTA
    count as equal. */
module Adjacency {
  import opened Shapes
  import opened Tilings
  import opened Extents

  const DELTA: real := 0.000001

  predicate Eq(x: real, y: real) {
    -DELTA < x - y < DELTA
  }

  /** The two meet only at a corner. */
  predicate Diagonal(a: Rect, b: Rect) {
    || (Eq(Right(a), b.leftx) && Eq(Top(a), b.bottomy))
    || (Eq(a.leftx, Right(b)) && Eq(a.bottomy, Top(b)))
    || (Eq(Right(a), b.leftx) && Eq(a.bottomy, Top(b)))
    || (Eq(a.leftx, Right(b)) && Eq(Top(a), b.bottomy))
  }

  /** One end of either closed interval lies in the other. */
  predicate Overlap(lo1: real, hi1: real, lo2: real, hi2: real) {
    lo1 <= lo2 <= hi1 || lo1 <= hi2 <= hi1 || lo2 <= lo1 <= hi2 || lo2 <= hi1 <= hi2
  }

  predicate HorizontallyAdjacent(us: seq<Rect>, i: nat, j: nat)
    requires i < |us| && j < |us|
  {
    var a, b := us[i], us[j];
    && i != j && !Diagonal(a, b)
    && (Eq(a.leftx, Right(b)) || Eq(Right(a), b.leftx))
    && Overlap(a.bottomy, Top(a), b.bottomy, Top(b))
  }

  predicate VerticallyAdjacent(us: seq<Rect>, i: nat, j: nat)
    requires i < |us| && j < |us|
  {
    var a, b := us[i], us[j];
    && i != j && !Diagonal(a, b)
    && (Eq(a.bottomy, Top(b)) || Eq(Top(a), b.bottomy))
    && Overlap(a.leftx, Right(a), b.leftx, Right(b))
  }

  /** Length of the edge two blocks share; 0 where they are not adjacent. */
  function SharedLength(us: seq<Rect>, i: nat, j: nat): real
    requires i < |us| && j < |us|
  {
    var a, b := us[i], us[j];
    if i == j then 0.0
    else if VerticallyAdjacent(us, i, j) then Min(Right(a), Right(b)) - Max(a.leftx, b.leftx)
    else if HorizontallyAdjacent(us, i, j) then Min(Top(a), Top(b)) - Max(a.bottomy, b.bottomy)
    else 0.0
  }

  lemma AdjacencyIsSymmetric(us: seq<Rect>, i: nat, j: nat)
    requires i < |us| && j < |us|
    ensures HorizontallyAdjacent(us, i, j) == HorizontallyAdjacent(us, j, i)
    ensures VerticallyAdjacent(us, i, j) == VerticallyAdjacent(us, j, i)
    ensures SharedLength(us, i, j) == SharedLength(us, j, i)
  {
    assert Diagonal(us[i], us[j]) == Diagonal(us[j], us[i]);
  }

  /** No two blocks are adjacent both ways. */
  lemma AdjacencyIsExclusive(us: seq<Rect>, i: nat, j: nat)
    requires i < |us| && j < |us|
    ensures !(HorizontallyAdjacent(us, i, j) && VerticallyAdjacent(us, i, j))
  {
  }

  /** Side by side: an edge within DELTA of the other's, and heights that share DELTA or more. Then the
      shared length is that of the heights in common. */
  lemma HorizontallyAdjacentIff(us: seq<Rect>, i: nat, j: nat)
    requires i < |us| && j < |us| && PositiveRect(us[i]) && PositiveRect(us[j])
    ensures HorizontallyAdjacent(us, i, j) <==>
            var a, b := us[i], us[j];
            && i != j && (Eq(a.leftx, Right(b)) || Eq(Right(a), b.leftx))
            && Top(a) - b.bottomy >= DELTA && Top(b) - a.bottomy >= DELTA
    ensures HorizontallyAdjacent(us, i, j) ==>
              exists lo :: IsCommon(us[i].bottomy, Top(us[i]), us[j].bottomy, Top(us[j]), lo, SharedLength(us, i, j))
  {
    if HorizontallyAdjacent(us, i, j) {
      AdjacencyIsExclusive(us, i, j);
      var a, b := us[i], us[j];
      assert IsCommon(a.bottomy, Top(a), b.bottomy, Top(b), Max(a.bottomy, b.bottomy), SharedLength(us, i, j));
    }
  }

  /** One above the other, likewise. */
  lemma VerticallyAdjacentIff(us: seq<Rect>, i: nat, j: nat)
    requires i < |us| && j < |us| && PositiveRect(us[i]) && PositiveRect(us[j])
    ensures VerticallyAdjacent(us, i, j) <==>
            var a, b := us[i], us[j];
            && i != j && (Eq(a.bottomy, Top(b)) || Eq(Top(a), b.bottomy))
            && Right(a) - b.leftx >= DELTA && Right(b) - a.leftx >= DELTA
    ensures VerticallyAdjacent(us, i, j) ==>
              exists lo :: IsCommon(us[i].leftx, Right(us[i]), us[j].leftx, Right(us[j]), lo, SharedLength(us, i, j))
  {
    if VerticallyAdjacent(us, i, j) {
      var a, b := us[i], us[j];
      assert IsCommon(a.leftx, Right(a), b.leftx, Right(b), Max(a.leftx, b.leftx), SharedLength(us, i, j));
    }
  }

  /** From lo on, len of two intervals is common to both. */
  ghost predicate IsCommon(lo1: real, hi1: real, lo2: real, hi2: real, lo: real, len: real) {
    forall x :: InBoth(lo1, hi1, lo2, hi2, x) <==> lo <= x <= lo + len
  }

  predicate InBoth(lo1: real, hi1: real, lo2: real, hi2: real, x: real) {
    lo1 <= x <= hi1 && lo2 <= x <= hi2
  }

  /** Adjacent blocks share an edge of positive length, and others share none. */
  lemma SharedLengthPositive(us: seq<Rect>, i: nat, j: nat)
    requires i < |us| && j < |us| && PositiveRect(us[i]) && PositiveRect(us[j])
    ensures SharedLength(us, i, j) >= 0.0
    ensures SharedLength(us, i, j) > 0.0 <==> HorizontallyAdjacent(us, i, j) || VerticallyAdjacent(us, i, j)
  {
    AdjacencyIsExclusive(us, i, j);
  }
}
