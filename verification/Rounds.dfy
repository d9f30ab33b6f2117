/** How the candidates of an annealing run fall into rounds, one for each temperature, and when a
    round and the whole run are over. */
module Rounds {
  /** How a trial turned out: whether it cost less than the candidate in force, and whether it was
      turned down. */
  datatype Kind = Kind(down: bool, rejected: bool)

  /** The cooling schedule: first and last temperature, cooling ratio, tries per temperature,
      ratio of rejects at which to stop, and the largest number of temperatures. */
  datatype Schedule = Schedule(hot: real, cold: real, cool: real, kmoves: real, rreject: real, nmax: int)

  /** Number of tries per temperature: kmoves for each unit, truncated as an int conversion does. */
  function Tries(kmoves: real, units: nat): (n: int)
    ensures var x := kmoves * units as real;
            if x >= 0.0 then n >= 0 && n as real <= x < n as real + 1.0 else n <= 0 && n as real - 1.0 < x <= n as real
  {
    var x := kmoves * units as real;
    if x >= 0.0 then x.Floor else -((-x).Floor)
  }

  // ---------- one round ----------

  /** Number of downhill trials from lo up to hi. */
  ghost function Downs(kinds: seq<Kind>, lo: nat, hi: nat): nat
    requires lo <= hi <= |kinds|
  {
    if lo == hi then 0 else Downs(kinds, lo, hi - 1) + if kinds[hi - 1].down then 1 else 0
  }

  /** Number of rejected trials from lo up to hi. */
  ghost function Rejects(kinds: seq<Kind>, lo: nat, hi: nat): nat
    requires lo <= hi <= |kinds|
  {
    if lo == hi then 0 else Rejects(kinds, lo, hi - 1) + if kinds[hi - 1].rejected then 1 else 0
  }

  /** 2n tries, or n of them downhill. */
  ghost predicate Enough(kinds: seq<Kind>, lo: nat, hi: nat, n: int)
    requires 0 < lo <= hi <= |kinds|
  {
    hi - lo >= 2 * n || Downs(kinds, lo, hi) >= n
  }

  /** Not enough tries from lo on, however far one looks before hi. */
  ghost predicate ShortUpTo(kinds: seq<Kind>, lo: nat, hi: nat, n: int) {
    0 < lo <= hi <= |kinds| + 1 && forall j :: lo <= j < hi ==> !Enough(kinds, lo, j, n)
  }

  /** Just enough tries from lo up to hi. */
  ghost predicate IsRound(kinds: seq<Kind>, lo: nat, hi: nat, n: int) {
    0 < lo <= hi <= |kinds| && Enough(kinds, lo, hi, n) && ShortUpTo(kinds, lo, hi, n)
  }

  lemma {:induction false} DownsStay(kinds: seq<Kind>, all: seq<Kind>, lo: nat, hi: nat)
    requires 0 < lo <= hi <= |kinds| && kinds <= all
    ensures Downs(all, lo, hi) == Downs(kinds, lo, hi)
    decreases hi
  {
    if lo < hi {
      DownsStay(kinds, all, lo, hi - 1);
    }
  }

  lemma {:induction false} RejectsStay(kinds: seq<Kind>, all: seq<Kind>, lo: nat, hi: nat)
    requires lo <= hi <= |kinds| && kinds <= all
    ensures Rejects(all, lo, hi) == Rejects(kinds, lo, hi)
    decreases hi
  {
    if lo < hi {
      RejectsStay(kinds, all, lo, hi - 1);
    }
  }

  lemma ShortStays(kinds: seq<Kind>, all: seq<Kind>, lo: nat, hi: nat, n: int)
    requires ShortUpTo(kinds, lo, hi, n) && kinds <= all
    ensures ShortUpTo(all, lo, hi, n)
  {
    forall j | lo <= j < hi
      ensures !Enough(all, lo, j, n)
    {
      assert !Enough(kinds, lo, j, n);
      DownsStay(kinds, all, lo, j);
    }
  }

  lemma RoundStays(kinds: seq<Kind>, all: seq<Kind>, lo: nat, hi: nat, n: int)
    requires IsRound(kinds, lo, hi, n) && kinds <= all
    ensures IsRound(all, lo, hi, n) && Rejects(all, lo, hi) == Rejects(kinds, lo, hi)
  {
    ShortStays(kinds, all, lo, hi, n);
    DownsStay(kinds, all, lo, hi);
    RejectsStay(kinds, all, lo, hi);
  }

  /** How far a round has come that began after the first lo trials. */
  ghost predicate Counted(kinds: seq<Kind>, lo: nat, n: int, tries: nat, downs: nat, rejects: nat) {
    && 0 < lo && |kinds| == lo + tries && ShortUpTo(kinds, lo, |kinds|, n)
    && downs == Downs(kinds, lo, |kinds|) && rejects == Rejects(kinds, lo, |kinds|)
  }

  lemma CountedNext(kinds: seq<Kind>, all: seq<Kind>, lo: nat, n: int, tries: nat, downs: nat, rejects: nat,
                    last: Kind)
    requires Counted(kinds, lo, n, tries, downs, rejects) && tries < 2 * n && downs < n
    requires all == kinds + [last]
    ensures Counted(all, lo, n, tries + 1, if last.down then downs + 1 else downs,
                    if last.rejected then rejects + 1 else rejects)
  {
    var hi := |kinds|;
    assert ShortUpTo(kinds, lo, hi + 1, n);
    ShortStays(kinds, all, lo, hi + 1, n);
    DownsStay(kinds, all, lo, hi);
    RejectsStay(kinds, all, lo, hi);
  }

  /** What a round has added to the trials: just enough tries when it is done, else too few. */
  ghost predicate RoundRan(done: bool, kinds: seq<Kind>, all: seq<Kind>, n: int, tries: nat, rejects: nat) {
    && kinds <= all && |all| == |kinds| + tries && rejects == Rejects(all, |kinds|, |all|)
    && if done then IsRound(all, |kinds|, |all|, n) else ShortUpTo(all, |kinds|, |all| + 1, n)
  }

  lemma RoundStops(done: bool, kinds: seq<Kind>, all: seq<Kind>, n: int, tries: nat, downs: nat, rejects: nat)
    requires kinds <= all && Counted(all, |kinds|, n, tries, downs, rejects)
    requires done <==> !(tries < 2 * n && downs < n)
    ensures RoundRan(done, kinds, all, n, tries, rejects)
  {
  }

  // ---------- the whole run ----------

  /** The temperature after i coolings. */
  ghost function Temperature(plan: Schedule, i: nat): real {
    if i == 0 then plan.hot else Temperature(plan, i - 1) * plan.cool
  }

  /** More than the allowed share of the tries from lo up to hi was rejected. */
  ghost predicate Frozen(kinds: seq<Kind>, lo: nat, hi: nat, rreject: real)
    requires lo <= hi <= |kinds|
  {
    lo < hi && Rejects(kinds, lo, hi) as real > rreject * (hi - lo) as real
  }

  /** Round i ends at cuts[i + 1], begins in the heat, and is one of the first nmax. */
  ghost predicate RoundAt(plan: Schedule, kinds: seq<Kind>, cuts: seq<nat>, n: int, i: nat)
    requires i + 1 < |cuts|
  {
    IsRound(kinds, cuts[i], cuts[i + 1], n) && Temperature(plan, i) >= plan.cold && i < plan.nmax
  }

  ghost predicate FrozenAt(plan: Schedule, kinds: seq<Kind>, cuts: seq<nat>, i: nat) {
    && i + 1 < |cuts| && cuts[i] <= cuts[i + 1] <= |kinds|
    && Frozen(kinds, cuts[i], cuts[i + 1], plan.rreject)
  }

  /** After the first trial the trials fall into rounds, and none before the last froze the run. */
  ghost predicate InRounds(plan: Schedule, kinds: seq<Kind>, cuts: seq<nat>, n: int) {
    && |cuts| > 0 && cuts[0] == 1 && cuts[|cuts| - 1] == |kinds|
    && (forall i :: 0 <= i < |cuts| - 1 ==> RoundAt(plan, kinds, cuts, n, i))
    && (forall i :: 0 <= i < |cuts| - 2 ==> !FrozenAt(plan, kinds, cuts, i))
  }

  /** It is cold, there have been nmax rounds, or the last round froze the run. */
  ghost predicate Over(plan: Schedule, kinds: seq<Kind>, cuts: seq<nat>)
    requires |cuts| > 0
  {
    var k := |cuts| - 1;
    Temperature(plan, k) < plan.cold || k >= plan.nmax || (k > 0 && FrozenAt(plan, kinds, cuts, k - 1))
  }

  /** The rounds of a run that came to its end, and no sooner. */
  ghost predicate Complete(plan: Schedule, kinds: seq<Kind>, cuts: seq<nat>, n: int) {
    InRounds(plan, kinds, cuts, n) && Over(plan, kinds, cuts)
  }

  /** The rounds of a run that is still going, and the beginning of one more. */
  ghost predicate Underway(plan: Schedule, kinds: seq<Kind>, cuts: seq<nat>, n: int) {
    && |cuts| > 0 && cuts[|cuts| - 1] <= |kinds|
    && InRounds(plan, kinds[..cuts[|cuts| - 1]], cuts, n) && !Over(plan, kinds[..cuts[|cuts| - 1]], cuts)
    && ShortUpTo(kinds, cuts[|cuts| - 1], |kinds| + 1, n)
  }

  ghost predicate Ended(done: bool, plan: Schedule, kinds: seq<Kind>, cuts: seq<nat>, n: int) {
    if done then Complete(plan, kinds, cuts, n) else Underway(plan, kinds, cuts, n)
  }

  lemma NoRounds(plan: Schedule, kinds: seq<Kind>, n: int)
    requires |kinds| == 1
    ensures Cooled(plan, kinds, [1], n, plan.hot, 0)
  {
  }

  lemma FrozenStays(plan: Schedule, kinds: seq<Kind>, all: seq<Kind>, cuts: seq<nat>, i: nat, end: nat)
    requires i + 1 < |cuts| && kinds <= all && cuts[i] <= cuts[i + 1] <= |kinds|
    ensures FrozenAt(plan, all, cuts + [end], i) <==> FrozenAt(plan, kinds, cuts, i)
  {
    RejectsStay(kinds, all, cuts[i], cuts[i + 1]);
  }

  /** One more round. */
  lemma RoundAdded(plan: Schedule, kinds: seq<Kind>, all: seq<Kind>, cuts: seq<nat>, n: int)
    requires InRounds(plan, kinds, cuts, n) && !Over(plan, kinds, cuts)
    requires kinds <= all && IsRound(all, |kinds|, |all|, n)
    ensures InRounds(plan, all, cuts + [|all|], n)
  {
    var cuts' := cuts + [|all|];
    forall i | 0 <= i < |cuts'| - 1
      ensures RoundAt(plan, all, cuts', n, i)
    {
      if i < |cuts| - 1 {
        assert RoundAt(plan, kinds, cuts, n, i);
        RoundStays(kinds, all, cuts[i], cuts[i + 1], n);
      }
    }
    forall i | 0 <= i < |cuts'| - 2
      ensures !FrozenAt(plan, all, cuts', i)
    {
      assert RoundAt(plan, kinds, cuts, n, i);
      FrozenStays(plan, kinds, all, cuts, i, |all|);
    }
  }

  lemma ShareOfTries(rejects: nat, tries: nat, rreject: real)
    requires tries > 0
    ensures rejects as real / tries as real > rreject <==> rejects as real > rreject * tries as real
  {
    var m, q := tries as real, rejects as real / tries as real;
    assert rejects as real == q * m;
    if q > rreject {
      assert (q - rreject) * m > 0.0;
    } else {
      assert (rreject - q) * m >= 0.0;
    }
  }

  /** The test after a round tells whether it froze the run. */
  lemma FrozenTest(plan: Schedule, all: seq<Kind>, cuts: seq<nat>, lo: nat, tries: nat, rejects: nat)
    requires |cuts| > 0 && cuts[|cuts| - 1] == lo && |all| == lo + tries && rejects == Rejects(all, lo, |all|)
    ensures FrozenAt(plan, all, cuts + [|all|], |cuts| - 1) <==>
            tries > 0 && rejects as real / tries as real > plan.rreject
  {
    if tries > 0 {
      ShareOfTries(rejects, tries, plan.rreject);
    }
  }

  // ---------- the cooling loop ----------

  /** The loop is between two rounds and none has frozen the run. */
  ghost predicate Cooled(plan: Schedule, kinds: seq<Kind>, cuts: seq<nat>, n: int, temperature: real, steps: nat) {
    && InRounds(plan, kinds, cuts, n) && |cuts| == steps + 1 && temperature == Temperature(plan, steps)
    && (steps > 0 ==> !FrozenAt(plan, kinds, cuts, steps - 1))
  }

  lemma StillUnderway(plan: Schedule, kinds: seq<Kind>, all: seq<Kind>, cuts: seq<nat>, n: int, temperature: real,
                      steps: nat, tries: nat, rejects: nat)
    requires Cooled(plan, kinds, cuts, n, temperature, steps) && temperature >= plan.cold && steps < plan.nmax
    requires RoundRan(false, kinds, all, n, tries, rejects)
    ensures Underway(plan, all, cuts, n)
  {
    assert all[..|kinds|] == kinds;
  }

  /** Where the loop stands when the next round has ended, too early or not. */
  ghost predicate AfterRound(done: bool, frozen: bool, plan: Schedule, kinds: seq<Kind>, cuts: seq<nat>, n: int,
                             temperature: real, steps: nat)
  {
    if !done || frozen then Ended(done, plan, kinds, cuts, n)
    else Cooled(plan, kinds, cuts, n, temperature * plan.cool, steps + 1)
  }

  lemma LoopEnds(plan: Schedule, kinds: seq<Kind>, cuts: seq<nat>, n: int, temperature: real, steps: nat)
    requires Cooled(plan, kinds, cuts, n, temperature, steps) && !(temperature >= plan.cold && steps < plan.nmax)
    ensures Ended(true, plan, kinds, cuts, n)
  {
  }

  lemma RoundTold(done: bool, plan: Schedule, kinds: seq<Kind>, all: seq<Kind>, cuts: seq<nat>, n: int,
                  temperature: real, steps: nat, tries: nat, rejects: nat)
    returns (cuts': seq<nat>)
    requires Cooled(plan, kinds, cuts, n, temperature, steps) && temperature >= plan.cold && steps < plan.nmax
    requires RoundRan(done, kinds, all, n, tries, rejects)
    ensures AfterRound(done, tries > 0 && rejects as real / tries as real > plan.rreject, plan, all, cuts', n,
                       temperature, steps)
  {
    if done {
      RoundMade(plan, kinds, all, cuts, n, temperature, steps, tries, rejects);
      cuts' := cuts + [|all|];
    } else {
      StillUnderway(plan, kinds, all, cuts, n, temperature, steps, tries, rejects);
      cuts' := cuts;
    }
  }

  lemma RoundMade(plan: Schedule, kinds: seq<Kind>, all: seq<Kind>, cuts: seq<nat>, n: int, temperature: real,
                  steps: nat, tries: nat, rejects: nat)
    requires Cooled(plan, kinds, cuts, n, temperature, steps) && temperature >= plan.cold && steps < plan.nmax
    requires RoundRan(true, kinds, all, n, tries, rejects)
    ensures if tries > 0 && rejects as real / tries as real > plan.rreject
            then Complete(plan, all, cuts + [|all|], n)
            else Cooled(plan, all, cuts + [|all|], n, temperature * plan.cool, steps + 1)
  {
    RoundAdded(plan, kinds, all, cuts, n);
    FrozenTest(plan, all, cuts, |kinds|, tries, rejects);
  }

  // ---------- how many candidates a run tries ----------

  lemma {:induction false} DownsBounded(kinds: seq<Kind>, lo: nat, hi: nat)
    requires lo <= hi <= |kinds|
    ensures Downs(kinds, lo, hi) <= hi - lo
    decreases hi
  {
    if lo < hi {
      DownsBounded(kinds, lo, hi - 1);
    }
  }

  /** A round takes from n to 2n tries. */
  lemma RoundLength(kinds: seq<Kind>, lo: nat, hi: nat, n: nat)
    requires IsRound(kinds, lo, hi, n)
    ensures n <= hi - lo <= 2 * n
  {
    DownsBounded(kinds, lo, hi);
    assert lo < hi ==> !Enough(kinds, lo, hi - 1, n);
  }

  lemma {:induction false} CutBetween(plan: Schedule, kinds: seq<Kind>, cuts: seq<nat>, n: nat, i: nat)
    requires InRounds(plan, kinds, cuts, n) && i < |cuts|
    ensures 1 + i * n <= cuts[i] <= 1 + 2 * (i * n)
    decreases i
  {
    if i > 0 {
      CutBetween(plan, kinds, cuts, n, i - 1);
      assert RoundAt(plan, kinds, cuts, n, i - 1);
      RoundLength(kinds, cuts[i - 1], cuts[i], n);
      assert i * n == (i - 1) * n + n;
    }
  }

  /** A run that ended by itself has made a round if it began in the heat with any allowed, and after
      k rounds it has tried from k * n to twice as many candidates. */
  lemma RunLength(plan: Schedule, kinds: seq<Kind>, cuts: seq<nat>, n: nat)
    requires Complete(plan, kinds, cuts, n)
    ensures plan.hot >= plan.cold && plan.nmax >= 1 ==> |cuts| >= 2
    ensures var k := |cuts| - 1; k * n <= |kinds| - 1 <= 2 * (k * n)
  {
    CutBetween(plan, kinds, cuts, n, |cuts| - 1);
  }
}
