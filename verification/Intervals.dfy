/** Half-open intervals on a line: if they hold every point of a range exactly once and no
    other point, their lengths add up to the length of the range. */
module Intervals {

  datatype Interval = Interval(lo: real, len: real)

  predicate Has(i: Interval, p: real) {
    i.lo <= p < i.lo + i.len
  }

  function Hits(xs: seq<Interval>, p: real): nat {
    if xs == [] then 0 else Hits(xs[..|xs| - 1], p) + if Has(xs[|xs| - 1], p) then 1 else 0
  }

  function Length(xs: seq<Interval>): real {
    if xs == [] then 0.0 else Length(xs[..|xs| - 1]) + xs[|xs| - 1].len
  }

  ghost predicate Spans(xs: seq<Interval>, a: real, b: real) {
    forall p :: Hits(xs, p) == if a <= p < b then 1 else 0
  }

  lemma HitsLast(xs: seq<Interval>, i: Interval, p: real)
    ensures Hits(xs + [i], p) == Hits(xs, p) + (if Has(i, p) then 1 else 0)
    ensures Length(xs + [i]) == Length(xs) + i.len
  {
    assert (xs + [i])[..|xs|] == xs;
  }

  lemma {:induction false} HitsWithout(xs: seq<Interval>, k: nat, p: real)
    requires k < |xs|
    ensures Hits(xs, p) == Hits(xs[..k] + xs[k + 1..], p) + (if Has(xs[k], p) then 1 else 0)
    ensures Length(xs) == Length(xs[..k] + xs[k + 1..]) + xs[k].len
    decreases |xs|
  {
    var n := |xs| - 1;
    if k == n {
      assert xs[..k] + xs[k + 1..] == xs[..n];
    } else {
      HitsWithout(xs[..n], k, p);
      var rest := xs[..n][..k] + xs[..n][k + 1..];
      assert xs[..k] + xs[k + 1..] == rest + [xs[n]];
      HitsLast(rest, xs[n], p);
    }
  }

  lemma {:induction false} HitBy(xs: seq<Interval>, p: real) returns (k: nat)
    requires Hits(xs, p) >= 1
    ensures k < |xs| && Has(xs[k], p)
  {
    if Has(xs[|xs| - 1], p) {
      k := |xs| - 1;
    } else {
      k := HitBy(xs[..|xs| - 1], p);
    }
  }

  lemma HitCounts(xs: seq<Interval>, k: nat, p: real)
    requires k < |xs| && Has(xs[k], p)
    ensures Hits(xs, p) >= 1
  {
    HitsWithout(xs, k, p);
  }

  ghost predicate AllLong(xs: seq<Interval>) {
    forall i :: 0 <= i < |xs| ==> xs[i].len > 0.0
  }

  /** Something starts at the lower end of the range, and it does not pass the upper end. */
  lemma FirstInterval(xs: seq<Interval>, a: real, b: real) returns (k: nat)
    requires Spans(xs, a, b) && AllLong(xs) && a < b
    ensures k < |xs| && xs[k].lo == a && a + xs[k].len <= b
  {
    assert Hits(xs, a) == 1;
    k := HitBy(xs, a);
    HitCounts(xs, k, xs[k].lo);
    assert Hits(xs, xs[k].lo) >= 1;
    if b < xs[k].lo + xs[k].len {
      HitCounts(xs, k, b);
    }
  }

  lemma {:induction false} SpanLength(xs: seq<Interval>, a: real, b: real)
    requires Spans(xs, a, b) && AllLong(xs) && a <= b
    ensures Length(xs) == b - a
    decreases |xs|
  {
    if a < b {
      var k := FirstInterval(xs, a, b);
      var rest, mid := xs[..k] + xs[k + 1..], a + xs[k].len;
      HitsWithout(xs, k, a);
      forall p
        ensures Hits(rest, p) == if mid <= p < b then 1 else 0
      {
        HitsWithout(xs, k, p);
        assert Hits(xs, p) == if a <= p < b then 1 else 0;
      }
      SpanLength(rest, mid, b);
    } else if xs != [] {
      HitCounts(xs, 0, xs[0].lo);
    }
  }
}
