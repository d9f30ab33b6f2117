/** n distinct numbers below n: each number below n is one of them. */
module Permutations {

  predicate Distinct(us: seq<nat>) {
    forall i, j :: 0 <= i < j < |us| ==> us[i] != us[j]
  }

  predicate Below(us: seq<nat>, n: nat) {
    forall i :: 0 <= i < |us| ==> us[i] < n
  }

  function Without(us: seq<nat>, k: nat): (r: seq<nat>)
    requires k < |us|
    ensures |r| == |us| - 1
    ensures forall i :: 0 <= i < |r| ==> r[i] == us[if i < k then i else i + 1]
  {
    us[..k] + us[k + 1..]
  }

  lemma WithoutDistinct(us: seq<nat>, k: nat, n: nat)
    requires k < |us| && Distinct(us) && Below(us, n) && n >= 1 && us[k] == n - 1
    ensures Distinct(Without(us, k)) && Below(Without(us, k), n - 1)
  {
  }

  /** At most n distinct numbers lie below n. */
  lemma {:induction false} Pigeonhole(us: seq<nat>, n: nat)
    requires Distinct(us) && Below(us, n)
    ensures |us| <= n
    decreases n
  {
    if |us| > 0 {
      assert us[0] < n;
      if k :| 0 <= k < |us| && us[k] == n - 1 {
        WithoutDistinct(us, k, n);
        Pigeonhole(Without(us, k), n - 1);
      } else {
        Pigeonhole(us, n - 1);
      }
    }
  }

  /** Among n distinct numbers below n is n - 1. */
  lemma LastIsThere(us: seq<nat>, n: nat) returns (k: nat)
    requires Distinct(us) && Below(us, n) && |us| == n >= 1
    ensures k < |us| && us[k] == n - 1
  {
    if forall i :: 0 <= i < |us| ==> us[i] != n - 1 {
      Pigeonhole(us, n - 1);
    }
    k :| 0 <= k < |us| && us[k] == n - 1;
  }

  lemma SlotOf(us: seq<nat>, n: nat, k: nat) returns (i: nat)
    requires Distinct(us) && Below(us, n) && |us| == n && k < n
    ensures i < |us| && us[i] == k
    decreases n
  {
    i := LastIsThere(us, n);
    if k < n - 1 {
      WithoutDistinct(us, i, n);
      var j := SlotOf(Without(us, i), n - 1, k);
      i := if j < i then j else j + 1;
    }
  }
}
