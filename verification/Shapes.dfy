/** Shape curves: the list of bounding boxes a block or a group of blocks can take,
    ordered by growing width and shrinking height, and their addition across a cut. */
module Shapes {
  import opened PolishExpressions

  /** One curve. leftPos, rightPos and median are empty for the curve of a single unit. */
  datatype Curve = Curve(x: seq<real>, y: seq<real>,
                         leftPos: seq<nat>, rightPos: seq<nat>, median: seq<real>)

  function Max(a: real, b: real): real {
    if a > b then a else b
  }

  function Min(a: real, b: real): real {
    if a < b then a else b
  }

  /** Non-empty, widths not decreasing, heights not increasing. */
  ghost predicate Staircase(c: Curve) {
    && 0 < |c.x| == |c.y|
    && (forall i, j :: 0 <= i <= j < |c.x| ==> c.x[i] <= c.x[j])
    && (forall i, j :: 0 <= i <= j < |c.y| ==> c.y[i] >= c.y[j])
  }

  ghost predicate Positive(c: Curve) {
    && (forall i :: 0 <= i < |c.x| ==> c.x[i] > 0.0)
    && (forall i :: 0 <= i < |c.y| ==> c.y[i] > 0.0)
  }

  function Area(c: Curve, i: nat): real
    requires i < |c.x| == |c.y|
  {
    c.x[i] * c.y[i]
  }

  // ---------- the walk that addition makes ----------

  /** The larger of the two keys steps forward, the first on a tie. */
  predicate FirstSteps(a: seq<real>, b: seq<real>, i: nat, j: nat)
    requires i < |a| && j < |b|
  {
    a[i] >= b[j]
  }

  /** The index pairs visited from (i, j) on, until one list is used up. */
  function Walk(a: seq<real>, b: seq<real>, i: nat, j: nat): (w: seq<(nat, nat)>)
    requires i <= |a| && j <= |b|
    ensures |w| == 0 <==> i == |a| || j == |b|
    ensures forall k :: 0 <= k < |w| ==> i <= w[k].0 < |a| && j <= w[k].1 < |b|
    decreases |a| - i + |b| - j
  {
    if i == |a| || j == |b| then []
    else
      var f := FirstSteps(a, b, i, j);
      [(i, j)] + Walk(a, b, if f then i + 1 else i, if f then j else j + 1)
  }

  function Reversed<T>(s: seq<T>): (r: seq<T>)
    ensures |r| == |s|
    ensures forall k :: 0 <= k < |s| ==> r[k] == s[|s| - 1 - k]
  {
    seq(|s|, k requires 0 <= k < |s| => s[|s| - 1 - k])
  }

  /** The pair (i, j) counted from the other ends of lists of lengths m and n. */
  function FromEnds(p: (nat, nat), m: nat, n: nat): (nat, nat)
    requires p.0 < m && p.1 < n
  {
    (m - 1 - p.0, n - 1 - p.1)
  }

  /** A walk over reversed lists, turned back to front. */
  function Mirrored(w: seq<(nat, nat)>, m: nat, n: nat): (r: seq<(nat, nat)>)
    requires forall k :: 0 <= k < |w| ==> w[k].0 < m && w[k].1 < n
    ensures |r| == |w|
    ensures forall k :: 0 <= k < |w| ==> r[k] == FromEnds(w[|w| - 1 - k], m, n)
  {
    if w == [] then [] else Mirrored(w[1..], m, n) + [FromEnds(w[0], m, n)]
  }

  /** Pairs of operand positions behind each entry of the sum, in the sum's own order. */
  function Pairs(c1: Curve, c2: Curve, cut: int): (ps: seq<(nat, nat)>)
    requires |c1.x| == |c1.y| && |c2.x| == |c2.y|
    ensures forall k :: 0 <= k < |ps| ==> ps[k].0 < |c1.x| && ps[k].1 < |c2.x|
  {
    if cut == CUT_VERTICAL then Walk(c1.y, c2.y, 0, 0)
    else Mirrored(Walk(Reversed(c1.x), Reversed(c2.x), 0, 0), |c1.x|, |c2.x|)
  }

  /** Width and height of two boxes put together at a cut. */
  function JoinedWidth(w1: real, w2: real, cut: int): real {
    if cut == CUT_VERTICAL then w1 + w2 else Max(w1, w2)
  }

  function JoinedHeight(h1: real, h2: real, cut: int): real {
    if cut == CUT_VERTICAL then Max(h1, h2) else h1 + h2
  }

  function Widths(x1: seq<real>, x2: seq<real>, cut: int, ps: seq<(nat, nat)>): (r: seq<real>)
    requires forall k :: 0 <= k < |ps| ==> ps[k].0 < |x1| && ps[k].1 < |x2|
    ensures |r| == |ps|
    ensures forall k :: 0 <= k < |r| ==> r[k] == JoinedWidth(x1[ps[k].0], x2[ps[k].1], cut)
  {
    if ps == [] then [] else [JoinedWidth(x1[ps[0].0], x2[ps[0].1], cut)] + Widths(x1, x2, cut, ps[1..])
  }

  function Heights(y1: seq<real>, y2: seq<real>, cut: int, ps: seq<(nat, nat)>): (r: seq<real>)
    requires forall k :: 0 <= k < |ps| ==> ps[k].0 < |y1| && ps[k].1 < |y2|
    ensures |r| == |ps|
    ensures forall k :: 0 <= k < |r| ==> r[k] == JoinedHeight(y1[ps[k].0], y2[ps[k].1], cut)
  {
    if ps == [] then [] else [JoinedHeight(y1[ps[0].0], y2[ps[0].1], cut)] + Heights(y1, y2, cut, ps[1..])
  }

  function Firsts(ps: seq<(nat, nat)>): (r: seq<nat>)
    ensures |r| == |ps|
    ensures forall k :: 0 <= k < |r| ==> r[k] == ps[k].0
  {
    if ps == [] then [] else [ps[0].0] + Firsts(ps[1..])
  }

  function Seconds(ps: seq<(nat, nat)>): (r: seq<nat>)
    ensures |r| == |ps|
    ensures forall k :: 0 <= k < |r| ==> r[k] == ps[k].1
  {
    if ps == [] then [] else [ps[0].1] + Seconds(ps[1..])
  }

  /** Where each entry puts the boundary between its two parts. */
  function Medians(v: seq<real>, ps: seq<(nat, nat)>): (r: seq<real>)
    requires forall k :: 0 <= k < |ps| ==> ps[k].0 < |v|
    ensures |r| == |ps|
    ensures forall k :: 0 <= k < |r| ==> r[k] == v[ps[k].0]
  {
    if ps == [] then [] else [v[ps[0].0]] + Medians(v, ps[1..])
  }

  /** The sum of two curves at a cut. */
  function Sum(c1: Curve, c2: Curve, cut: int): (s: Curve)
    requires |c1.x| == |c1.y| && |c2.x| == |c2.y|
    ensures |s.x| == |s.y| == |s.leftPos| == |s.rightPos| == |s.median| == |Pairs(c1, c2, cut)|
  {
    var ps := Pairs(c1, c2, cut);
    Curve(Widths(c1.x, c2.x, cut, ps), Heights(c1.y, c2.y, cut, ps), Firsts(ps), Seconds(ps),
          Medians(if cut == CUT_VERTICAL then c1.x else c1.y, ps))
  }

  /** Entry k of s is the join of the two operand entries it points at. */
  ghost predicate EntryJoins(s: Curve, k: int, c1: Curve, c2: Curve, cut: int) {
    && |c1.x| == |c1.y| && |c2.x| == |c2.y|
    && 0 <= k < |s.x| && k < |s.y| && k < |s.leftPos| && k < |s.rightPos| && k < |s.median|
    && s.leftPos[k] < |c1.x| && s.rightPos[k] < |c2.x|
    && s.x[k] == JoinedWidth(c1.x[s.leftPos[k]], c2.x[s.rightPos[k]], cut)
    && s.y[k] == JoinedHeight(c1.y[s.leftPos[k]], c2.y[s.rightPos[k]], cut)
    && s.median[k] == if cut == CUT_VERTICAL then c1.x[s.leftPos[k]] else c1.y[s.leftPos[k]]
  }

  /** Some entry of s is no wider and no taller than the join of entries p and q. */
  ghost predicate JoinCovered(s: Curve, c1: Curve, c2: Curve, cut: int, p: int, q: int) {
    && |s.x| == |s.y|
    && 0 <= p < |c1.x| && p < |c1.y| && 0 <= q < |c2.x| && q < |c2.y|
    && exists k :: 0 <= k < |s.x| && s.x[k] <= JoinedWidth(c1.x[p], c2.x[q], cut)
                   && s.y[k] <= JoinedHeight(c1.y[p], c2.y[q], cut)
  }

  /** s has an entry for nothing but joins. */
  ghost predicate OnlyJoins(s: Curve, c1: Curve, c2: Curve, cut: int) {
    && 0 < |s.x| == |s.y|
    && forall k :: 0 <= k < |s.x| ==> EntryJoins(s, k, c1, c2, cut)
  }

  /** No join beats every entry of s. */
  ghost predicate AllJoinsCovered(s: Curve, c1: Curve, c2: Curve, cut: int) {
    forall p, q :: 0 <= p < |c1.x| && 0 <= q < |c2.x| ==> JoinCovered(s, c1, c2, cut, p, q)
  }

  lemma SumEntry(c1: Curve, c2: Curve, cut: int, k: nat)
    requires |c1.x| == |c1.y| && |c2.x| == |c2.y|
    requires k < |Sum(c1, c2, cut).x|
    ensures EntryJoins(Sum(c1, c2, cut), k, c1, c2, cut)
    ensures Sum(c1, c2, cut).leftPos[k] == Pairs(c1, c2, cut)[k].0
    ensures Sum(c1, c2, cut).rightPos[k] == Pairs(c1, c2, cut)[k].1
  {
  }

  // ---------- the walk leaves nothing better behind ----------

  /** For any pair (p, q) the walk visits a pair no further along in either list whose
      larger key is no larger. */
  lemma {:induction false} WalkDominates(a: seq<real>, b: seq<real>, i: nat, j: nat, p: nat, q: nat) returns (k: nat)
    requires i <= p < |a| && j <= q < |b|
    ensures k < |Walk(a, b, i, j)|
    ensures var (i', j') := Walk(a, b, i, j)[k];
            i' <= p && j' <= q && Max(a[i'], b[j']) <= Max(a[p], b[q])
    decreases p - i + q - j
  {
    if Max(a[i], b[j]) <= Max(a[p], b[q]) {
      k := 0;
    } else {
      var f := FirstSteps(a, b, i, j);
      var rest := WalkDominates(a, b, if f then i + 1 else i, if f then j else j + 1, p, q);
      k := rest + 1;
    }
  }

  /** Along the walk neither index goes back. */
  lemma {:induction false} WalkAscends(a: seq<real>, b: seq<real>, i: nat, j: nat, k: nat, l: nat)
    requires i <= |a| && j <= |b| && k <= l < |Walk(a, b, i, j)|
    ensures Walk(a, b, i, j)[k].0 <= Walk(a, b, i, j)[l].0
    ensures Walk(a, b, i, j)[k].1 <= Walk(a, b, i, j)[l].1
    decreases k
  {
    if k > 0 {
      var f := FirstSteps(a, b, i, j);
      WalkAscends(a, b, if f then i + 1 else i, if f then j else j + 1, k - 1, l - 1);
    }
  }

  lemma PairsOrdered(c1: Curve, c2: Curve, cut: int, k: nat, l: nat)
    requires |c1.x| == |c1.y| && |c2.x| == |c2.y|
    requires k <= l < |Pairs(c1, c2, cut)|
    ensures Pairs(c1, c2, cut)[k].0 <= Pairs(c1, c2, cut)[l].0
    ensures Pairs(c1, c2, cut)[k].1 <= Pairs(c1, c2, cut)[l].1
  {
    if cut == CUT_VERTICAL {
      WalkAscends(c1.y, c2.y, 0, 0, k, l);
    } else {
      var a, b := Reversed(c1.x), Reversed(c2.x);
      var w := Walk(a, b, 0, 0);
      WalkAscends(a, b, 0, 0, |w| - 1 - l, |w| - 1 - k);
      MirroredOrdered(w, |a|, |b|, k, l);
    }
  }

  lemma MirroredOrdered(w: seq<(nat, nat)>, m: nat, n: nat, k: nat, l: nat)
    requires forall i :: 0 <= i < |w| ==> w[i].0 < m && w[i].1 < n
    requires k <= l < |w|
    requires w[|w| - 1 - l].0 <= w[|w| - 1 - k].0 && w[|w| - 1 - l].1 <= w[|w| - 1 - k].1
    ensures Mirrored(w, m, n)[k].0 <= Mirrored(w, m, n)[l].0
    ensures Mirrored(w, m, n)[k].1 <= Mirrored(w, m, n)[l].1
  {
  }

  lemma SumOrdered(c1: Curve, c2: Curve, cut: int, k: nat, l: nat)
    requires Staircase(c1) && Staircase(c2)
    requires k <= l < |Sum(c1, c2, cut).x|
    ensures Sum(c1, c2, cut).x[k] <= Sum(c1, c2, cut).x[l]
    ensures Sum(c1, c2, cut).y[k] >= Sum(c1, c2, cut).y[l]
  {
    PairsOrdered(c1, c2, cut, k, l);
    SumEntry(c1, c2, cut, k);
    SumEntry(c1, c2, cut, l);
    JoinsOrdered(Sum(c1, c2, cut), c1, c2, cut, k, l);
  }

  lemma JoinsOrdered(s: Curve, c1: Curve, c2: Curve, cut: int, k: nat, l: nat)
    requires Staircase(c1) && Staircase(c2)
    requires EntryJoins(s, k, c1, c2, cut) && EntryJoins(s, l, c1, c2, cut)
    requires s.leftPos[k] <= s.leftPos[l] && s.rightPos[k] <= s.rightPos[l]
    ensures s.x[k] <= s.x[l] && s.y[k] >= s.y[l]
  {
  }

  lemma PairsNonEmpty(c1: Curve, c2: Curve, cut: int)
    requires 0 < |c1.x| == |c1.y| && 0 < |c2.x| == |c2.y|
    ensures |Pairs(c1, c2, cut)| > 0
  {
  }

  /** The sum of two staircases is a staircase. */
  lemma SumIsStaircase(c1: Curve, c2: Curve, cut: int)
    requires Staircase(c1) && Staircase(c2)
    ensures Staircase(Sum(c1, c2, cut))
  {
    var s := Sum(c1, c2, cut);
    PairsNonEmpty(c1, c2, cut);
    forall k, l | 0 <= k <= l < |s.x|
      ensures s.x[k] <= s.x[l] && s.y[k] >= s.y[l]
    {
      SumOrdered(c1, c2, cut, k, l);
    }
  }

  lemma JoinsArePositive(s: Curve, c1: Curve, c2: Curve, cut: int)
    requires OnlyJoins(s, c1, c2, cut) && Positive(c1) && Positive(c2)
    ensures Positive(s)
  {
    forall k | 0 <= k < |s.x|
      ensures s.x[k] > 0.0 && s.y[k] > 0.0
    {
      assert EntryJoins(s, k, c1, c2, cut);
    }
  }

  lemma VerticalPairsDominate(c1: Curve, c2: Curve, p: nat, q: nat) returns (k: nat)
    requires |c1.x| == |c1.y| && |c2.x| == |c2.y| && p < |c1.x| && q < |c2.x|
    ensures k < |Pairs(c1, c2, CUT_VERTICAL)|
    ensures var (i, j) := Pairs(c1, c2, CUT_VERTICAL)[k];
            i <= p && j <= q && Max(c1.y[i], c2.y[j]) <= Max(c1.y[p], c2.y[q])
  {
    k := WalkDominates(c1.y, c2.y, 0, 0, p, q);
  }

  lemma HorizontalPairsDominate(c1: Curve, c2: Curve, cut: int, p: nat, q: nat) returns (k: nat)
    requires |c1.x| == |c1.y| && |c2.x| == |c2.y| && p < |c1.x| && q < |c2.x|
    requires cut != CUT_VERTICAL
    ensures k < |Pairs(c1, c2, cut)|
    ensures var (i, j) := Pairs(c1, c2, cut)[k];
            i >= p && j >= q && Max(c1.x[i], c2.x[j]) <= Max(c1.x[p], c2.x[q])
  {
    var m, n := |c1.x|, |c2.x|;
    var a, b := Reversed(c1.x), Reversed(c2.x);
    var l := WalkDominates(a, b, 0, 0, m - 1 - p, n - 1 - q);
    assert a[m - 1 - p] == c1.x[p] && b[n - 1 - q] == c2.x[q];
    k := |Walk(a, b, 0, 0)| - 1 - l;
  }

  /** Whatever two entries are joined, some entry of the sum is at least as narrow and as low. */
  lemma SumDominates(c1: Curve, c2: Curve, cut: int, p: nat, q: nat) returns (k: nat)
    requires Staircase(c1) && Staircase(c2)
    requires p < |c1.x| && q < |c2.x|
    ensures var s := Sum(c1, c2, cut);
            && k < |s.x|
            && s.x[k] <= JoinedWidth(c1.x[p], c2.x[q], cut)
            && s.y[k] <= JoinedHeight(c1.y[p], c2.y[q], cut)
  {
    if cut == CUT_VERTICAL {
      k := VerticalPairsDominate(c1, c2, p, q);
    } else {
      k := HorizontalPairsDominate(c1, c2, cut, p, q);
    }
    SumEntry(c1, c2, cut, k);
  }

  /** The sum holds joins only, and at least one as good as each. */
  lemma SumIsSound(c1: Curve, c2: Curve, cut: int)
    requires 0 < |c1.x| == |c1.y| && 0 < |c2.x| == |c2.y|
    ensures OnlyJoins(Sum(c1, c2, cut), c1, c2, cut)
  {
    PairsNonEmpty(c1, c2, cut);
    forall k | 0 <= k < |Sum(c1, c2, cut).x|
      ensures EntryJoins(Sum(c1, c2, cut), k, c1, c2, cut)
    {
      SumEntry(c1, c2, cut, k);
    }
  }

  lemma SumIsComplete(c1: Curve, c2: Curve, cut: int)
    requires Staircase(c1) && Staircase(c2)
    ensures AllJoinsCovered(Sum(c1, c2, cut), c1, c2, cut)
  {
    forall p, q | 0 <= p < |c1.x| && 0 <= q < |c2.x|
      ensures JoinCovered(Sum(c1, c2, cut), c1, c2, cut, p, q)
    {
      var k := SumDominates(c1, c2, cut, p, q);
    }
  }
}
