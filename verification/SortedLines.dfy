/** Coordinates kept sorted and apart in an array: searching up to a tolerance, and inserting what
    is not there yet. */
module SortedLines {
  import opened Adjacency

  predicate Ordered(s: seq<real>) {
    forall i, j :: 0 <= i < j < |s| ==> s[i] <= s[j]
  }

  /** Any two differ by at least the tolerance. */
  predicate Spaced(s: seq<real>) {
    forall i, j :: 0 <= i < j < |s| ==> s[i] + DELTA <= s[j]
  }

  /** Some element is equal to e up to the tolerance. */
  ghost predicate NearBy(s: seq<real>, e: real) {
    exists k :: 0 <= k < |s| && Eq(s[k], e)
  }

  /** loc splits the window: all before it are clearly below e, all from it on clearly above. */
  ghost predicate Splits(s: seq<real>, loc: nat, e: real) {
    && loc <= |s|
    && (forall k :: 0 <= k < loc ==> s[k] + DELTA <= e)
    && (forall k :: loc <= k < |s| ==> e + DELTA <= s[k])
  }

  lemma SplitsMeansNone(s: seq<real>, loc: nat, e: real)
    requires Splits(s, loc, e)
    ensures !NearBy(s, e)
  {
  }

  lemma SplitsRight(s: seq<real>, mid: nat, loc: nat, e: real)
    requires Ordered(s) && mid < |s| && s[mid] + DELTA <= e && Splits(s[mid + 1..], loc, e)
    ensures Splits(s, mid + 1 + loc, e)
  {
    forall k | 0 <= k < mid + 1 + loc
      ensures s[k] + DELTA <= e
    {
      if k < mid {
        assert s[k] <= s[mid];
      } else if k > mid {
        assert s[k] == s[mid + 1..][k - mid - 1];
      }
    }
    forall k | mid + 1 + loc <= k < |s|
      ensures e + DELTA <= s[k]
    {
      assert s[k] == s[mid + 1..][k - mid - 1];
    }
  }

  lemma SplitsLeft(s: seq<real>, mid: nat, loc: nat, e: real)
    requires Ordered(s) && mid < |s| && e + DELTA <= s[mid] && Splits(s[..mid], loc, e)
    ensures Splits(s, loc, e)
  {
    forall k | loc <= k < |s|
      ensures e + DELTA <= s[k]
    {
      if k < mid {
        assert s[k] == s[..mid][k];
      } else if k > mid {
        assert s[mid] <= s[k];
      }
    }
    forall k | 0 <= k < loc
      ensures s[k] + DELTA <= e
    {
      assert s[k] == s[..mid][k];
    }
  }

  lemma SpacedIsOrdered(s: seq<real>)
    requires Spaced(s)
    ensures Ordered(s)
  {
  }

  // ---------- searching ----------

  /** Whether something near a value is found in a sequence, and where it is or belongs. */
  type Finder = (seq<real>, real) -> (bool, nat)

  /** What find does with s and v: look in the middle, then in one of the halves. */
  ghost predicate HalvesAt(find: Finder, s: seq<real>, v: real) {
    var mid := |s| / 2;
    if s == [] then find(s, v) == (false, 0)
    else if Eq(s[mid], v) then find(s, v) == (true, mid)
    else if s[mid] < v then
      var r := find(s[mid + 1..], v);
      find(s, v) == (r.0, mid + 1 + r.1)
    else find(s, v) == find(s[..mid], v)
  }

  ghost predicate Halves(find: Finder) {
    forall s, v :: HalvesAt(find, s, v)
  }

  function Search(s: seq<real>, v: real): (bool, nat)
    decreases |s|
  {
    var mid := |s| / 2;
    if s == [] then (false, 0)
    else if Eq(s[mid], v) then (true, mid)
    else if s[mid] < v then
      var r := Search(s[mid + 1..], v);
      (r.0, mid + 1 + r.1)
    else Search(s[..mid], v)
  }

  lemma TheFinder() returns (find: Finder)
    ensures Halves(find)
  {
    find := (s: seq<real>, v: real) => Search(s, v);
  }

  /** What is found is near; if nothing is found, nothing is near and v belongs at the index. */
  lemma {:induction false} FinderIs(find: Finder, s: seq<real>, v: real)
    requires Halves(find) && Ordered(s)
    ensures find(s, v).1 <= |s|
    ensures find(s, v).0 ==> find(s, v).1 < |s| && Eq(s[find(s, v).1], v)
    ensures !find(s, v).0 ==> Splits(s, find(s, v).1, v)
    decreases |s|
  {
    assert HalvesAt(find, s, v);
    var mid := |s| / 2;
    if s != [] && !Eq(s[mid], v) {
      if s[mid] < v {
        FinderIs(find, s[mid + 1..], v);
        if !find(s, v).0 {
          SplitsRight(s, mid, find(s[mid + 1..], v).1, v);
        }
      } else {
        FinderIs(find, s[..mid], v);
        if !find(s, v).0 {
          SplitsLeft(s, mid, find(s[..mid], v).1, v);
        }
      }
    }
  }

  lemma {:induction false} FinderBound(find: Finder, s: seq<real>, v: real)
    requires Halves(find)
    ensures find(s, v).1 <= |s|
    decreases |s|
  {
    assert HalvesAt(find, s, v);
    if s != [] {
      FinderBound(find, s[|s| / 2 + 1..], v);
      FinderBound(find, s[..|s| / 2], v);
    }
  }

  /** Though what is found need not be the nearest, a larger value is never found further down. */
  lemma {:induction false} FinderMonotone(find: Finder, s: seq<real>, v: real, w: real)
    requires Halves(find) && v <= w
    ensures find(s, v).1 <= find(s, w).1
    decreases |s|
  {
    assert HalvesAt(find, s, v) && HalvesAt(find, s, w);
    if s != [] {
      var mid := |s| / 2;
      FinderMonotone(find, s[mid + 1..], v, w);
      FinderMonotone(find, s[..mid], v, w);
      FinderBound(find, s[..mid], v);
    }
  }

  /** Something near is found. */
  lemma FinderFinds(find: Finder, s: seq<real>, v: real)
    requires Halves(find) && Spaced(s) && NearBy(s, v)
    ensures find(s, v).0 && find(s, v).1 < |s| && Eq(s[find(s, v).1], v)
  {
    SpacedIsOrdered(s);
    FinderIs(find, s, v);
    if !find(s, v).0 {
      SplitsMeansNone(s, find(s, v).1, v);
    }
  }

  /** An element finds itself. */
  lemma FindsItself(find: Finder, s: seq<real>, k: nat)
    requires Halves(find) && Spaced(s) && k < |s|
    ensures find(s, s[k]) == (true, k)
  {
    assert Eq(s[k], s[k]);
    FinderFinds(find, s, s[k]);
  }

  /** Searches the n elements s from lo on. */
  method Bsearch(arr: array<real>, lo: nat, n: nat, ele: real, ghost s: seq<real>, ghost find: Finder)
    returns (found: bool, loc: nat)
    requires lo + n <= arr.Length && s == arr[lo..lo + n] && Halves(find)
    ensures lo <= loc && (found, loc - lo) == find(s, ele)
    decreases n
  {
    assert HalvesAt(find, s, ele);
    if n == 0 {
      return false, lo;
    }
    var mid := n / 2;
    if Eq(arr[lo + mid], ele) {
      return true, lo + mid;
    } else if arr[lo + mid] < ele {
      var rest := (n - 1) / 2;
      assert lo + mid + 1 + rest == lo + n;
      found, loc := Bsearch(arr, lo + mid + 1, rest, ele, s[mid + 1..], find);
    } else {
      found, loc := Bsearch(arr, lo, mid, ele, s[..mid], find);
    }
  }

  // ---------- inserting ----------

  function Inserted(s: seq<real>, loc: nat, e: real): seq<real>
    requires loc <= |s|
  {
    s[..loc] + [e] + s[loc..]
  }

  lemma InsertedSpaced(s: seq<real>, loc: nat, e: real)
    requires Spaced(s) && Splits(s, loc, e)
    ensures Spaced(Inserted(s, loc, e))
  {
    var r := Inserted(s, loc, e);
    forall i, j | 0 <= i < j < |r|
      ensures r[i] + DELTA <= r[j]
    {
      assert i != loc ==> r[i] == s[if i < loc then i else i - 1];
      assert j != loc ==> r[j] == s[if j < loc then j else j - 1];
    }
  }

  /** Moves the elements from loc on one up. */
  method ShiftUp(arr: array<real>, n: nat, loc: nat)
    requires loc <= n < arr.Length
    modifies arr
    ensures forall k :: 0 <= k < arr.Length && !(loc < k <= n) ==> arr[k] == old(arr[k])
    ensures forall k :: loc < k <= n ==> arr[k] == old(arr[k - 1])
  {
    var i := n;
    while i > loc
      invariant loc <= i <= n
      invariant forall k :: 0 <= k < arr.Length && !(i < k <= n) ==> arr[k] == old(arr[k])
      invariant forall k :: i < k <= n ==> arr[k] == old(arr[k - 1])
    {
      arr[i] := arr[i - 1];
      i := i - 1;
    }
  }

  /** e in its place among ascending elements. */
  function Placed(s: seq<real>, e: real): seq<real> {
    if s == [] || e < s[0] then [e] + s else [s[0]] + Placed(s[1..], e)
  }

  /** The elements and e, unless one is near. */
  ghost function WithLine(s: seq<real>, e: real): seq<real> {
    if NearBy(s, e) then s else Placed(s, e)
  }

  lemma {:induction false} PlacedIs(s: seq<real>, e: real, loc: nat)
    requires Splits(s, loc, e)
    ensures Placed(s, e) == Inserted(s, loc, e)
    decreases |s|
  {
    if loc == 0 {
      assert Inserted(s, loc, e) == [e] + s;
    } else {
      var t := s[1..];
      assert Splits(t, loc - 1, e);
      PlacedIs(t, e, loc - 1);
      assert Inserted(s, loc, e) == [s[0]] + Inserted(t, loc - 1, e);
    }
  }

  /** Where an element belongs that is near none. */
  lemma {:induction false} Belongs(s: seq<real>, e: real) returns (loc: nat)
    requires Spaced(s) && !NearBy(s, e)
    ensures Splits(s, loc, e) && WithLine(s, e) == Inserted(s, loc, e)
    decreases |s|
  {
    loc := |s|;
    while loc > 0 && s[loc - 1] > e
      invariant loc <= |s| && forall k :: loc <= k < |s| ==> s[k] > e
    {
      loc := loc - 1;
    }
    forall k | 0 <= k < |s|
      ensures !Eq(s[k], e)
    {
    }
    forall k | 0 <= k < loc
      ensures s[k] + DELTA <= e
    {
      assert k < loc - 1 ==> s[k] + DELTA <= s[loc - 1];
    }
    PlacedIs(s, e, loc);
  }

  lemma WithLineIs(s: seq<real>, e: real)
    requires Spaced(s)
    ensures Spaced(WithLine(s, e)) && |WithLine(s, e)| == if NearBy(s, e) then |s| else |s| + 1
  {
    if !NearBy(s, e) {
      var loc := Belongs(s, e);
      InsertedSpaced(s, loc, e);
    }
  }

  /** What the search says about inserting. */
  lemma FinderPlaces(find: Finder, s: seq<real>, e: real) returns (w: seq<real>)
    requires Halves(find) && Spaced(s)
    ensures w == WithLine(s, e) && (find(s, e).0 <==> NearBy(s, e)) && find(s, e).1 <= |s|
    ensures if find(s, e).0 then w == s else w == Inserted(s, find(s, e).1, e)
  {
    SpacedIsOrdered(s);
    FinderIs(find, s, e);
    var r := find(s, e);
    if r.0 {
      assert Eq(s[r.1], e);
    } else {
      SplitsMeansNone(s, r.1, e);
      PlacedIs(s, e, r.1);
    }
    w := WithLine(s, e);
  }

  method InsertAt(arr: array<real>, n: nat, loc: nat, ele: real)
    requires loc <= n < arr.Length
    modifies arr
    ensures arr[..n + 1] == Inserted(old(arr[..n]), loc, ele)
  {
    ghost var s := arr[..n];
    ShiftUp(arr, n, loc);
    arr[loc] := ele;
    assert arr[..n + 1] == Inserted(s, loc, ele);
  }

  /** Inserts an element unless one is near; the elements stay sorted and apart. With no place left
      for it, the original writes behind the array. */
  method BsearchInsert(arr: array<real>, n: nat, ele: real) returns (inserted: bool, overrun: bool)
    requires n <= arr.Length && Spaced(arr[..n])
    modifies arr
    ensures inserted <==> !NearBy(old(arr[..n]), ele)
    ensures overrun <==> |WithLine(old(arr[..n]), ele)| > arr.Length
    ensures inserted && !overrun ==> n < arr.Length && arr[..n + 1] == WithLine(old(arr[..n]), ele)
    ensures !inserted ==> arr[..] == old(arr[..]) && arr[..n] == WithLine(old(arr[..n]), ele)
  {
    ghost var s := arr[..n];
    ghost var find := TheFinder();
    ghost var w := FinderPlaces(find, s, ele);
    var found, loc := Bsearch(arr, 0, n, ele, s, find);
    inserted := !found;
    overrun := inserted && n == arr.Length;
    if inserted && n < arr.Length {
      InsertAt(arr, n, loc, ele);
    }
  }
}
