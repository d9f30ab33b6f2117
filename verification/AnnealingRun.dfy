/** A run of the annealer: which candidates it evaluates and what it keeps. */
module AnnealingRun {
  import opened PolishExpressions
  import opened NpeModel
  import opened RandomMove
  import opened TreeBuilder
  import opened Tilings
  import opened Sizing
  import opened Placements
  import opened Annealing
  import opened Rounds

  /** One evaluated candidate. */
  datatype Trial = Trial(expr: seq<int>, move: Move, units: seq<Rect>, cost: real, accepted: bool)

  /** The accepted candidate in force after the first k trials. */
  ghost function Current(trials: seq<Trial>, k: nat): (c: nat)
    requires 0 < k <= |trials|
    ensures c < k
  {
    if k == 1 || trials[k - 1].accepted then k - 1 else Current(trials, k - 1)
  }

  lemma {:induction false} CurrentStays(trials: seq<Trial>, all: seq<Trial>, k: nat)
    requires 0 < k <= |trials| && trials <= all
    ensures Current(all, k) == Current(trials, k)
  {
    if !(k == 1 || trials[k - 1].accepted) {
      CurrentStays(trials, all, k - 1);
    }
  }

  /** A candidate's floorplan and cost are those of its expression, and its tree fits the stack. */
  ghost predicate Evaluated(job: Job, rel: Relations, t: Trial) {
    rel.done(t.expr, t.units) && t.cost == job.metric(t.units) && ShallowUpTo(t.expr, |t.expr|)
  }

  /** t is one move away from the expression e of cost c; it is accepted if it is cheaper or
      by luck. */
  ghost predicate Tried(e: seq<int>, c: real, luck: bool, t: Trial) {
    Moved(e, t.move, t.expr) && (t.accepted <==> t.cost < c || luck)
  }

  ghost predicate TriedAt(trials: seq<Trial>, luck: nat -> bool, k: nat)
    requires 0 < k < |trials|
  {
    var c := trials[Current(trials, k)];
    Tried(c.expr, c.cost, luck(k), trials[k])
  }

  /** The candidates of a run, in order, from the initial expression. */
  ghost predicate IsTrail(job: Job, rel: Relations, luck: nat -> bool, trials: seq<Trial>) {
    && |trials| > 0 && |job.shapes| >= 1
    && trials[0].expr == Initial(|job.shapes|) && trials[0].accepted
    && (forall k :: 0 <= k < |trials| ==> Evaluated(job, rel, trials[k]))
    && (forall k :: 0 < k < |trials| ==> TriedAt(trials, luck, k))
  }

  /** Trial b is accepted and none is cheaper. */
  ghost predicate Best(trials: seq<Trial>, b: nat) {
    && b < |trials| && trials[b].accepted
    && forall k :: 0 <= k < |trials| ==> trials[b].cost <= trials[k].cost
  }

  /** What the annealer holds: the current and the best expression with their costs. */
  ghost predicate Holds(trials: seq<Trial>, b: nat, expr: seq<int>, cost: real, best: seq<int>, bestCost: real) {
    && |trials| > 0 && Best(trials, b)
    && trials[Current(trials, |trials|)].expr == expr && trials[Current(trials, |trials|)].cost == cost
    && trials[b].expr == best && trials[b].cost == bestCost
  }

  lemma {:induction false} TrailGrows(job: Job, rel: Relations, luck: nat -> bool, trials: seq<Trial>, t: Trial)
    requires IsTrail(job, rel, luck, trials) && Evaluated(job, rel, t)
    requires var c := trials[Current(trials, |trials|)]; Tried(c.expr, c.cost, luck(|trials|), t)
    ensures IsTrail(job, rel, luck, trials + [t])
  {
    var all := trials + [t];
    forall k | 0 < k < |all|
      ensures TriedAt(all, luck, k)
    {
      CurrentStays(trials, all, k);
      if k < |trials| {
        assert TriedAt(trials, luck, k);
      }
    }
  }

  /** Keeping the cheaper of the best so far and each accepted downhill candidate keeps the
      cheapest candidate of all, including the rejected ones. */
  lemma {:induction false} HoldsAfter(trials: seq<Trial>, b: nat, expr: seq<int>, cost: real, best: seq<int>,
                                      bestCost: real, t: Trial)
    requires Holds(trials, b, expr, cost, best, bestCost) && (t.cost < cost ==> t.accepted)
    ensures !t.accepted ==> Holds(trials + [t], b, expr, cost, best, bestCost)
    ensures t.accepted && t.cost < cost && t.cost < bestCost
            ==> Holds(trials + [t], |trials|, t.expr, t.cost, t.expr, t.cost)
    ensures t.accepted && !(t.cost < cost && t.cost < bestCost)
            ==> Holds(trials + [t], b, t.expr, t.cost, best, bestCost)
  {
    CurrentStays(trials, trials + [t], |trials|);
    assert bestCost <= cost;
  }

  /** Trial k makes the move that its draws ask for. It is downhill from the candidate in force before
      it, and rejected, just as its kind says. */
  ghost predicate KindAt(trials: seq<Trial>, kinds: seq<Kind>, draws: (nat, nat) -> nat, k: nat)
    requires 0 < k < |trials| == |kinds|
  {
    && AskedFor(trials[Current(trials, k)].expr, j => draws(k, j), trials[k].move)
    && (kinds[k].down <==> trials[k].cost < trials[Current(trials, k)].cost)
    && (kinds[k].rejected <==> !trials[k].accepted)
  }

  ghost predicate KindsOf(trials: seq<Trial>, kinds: seq<Kind>, draws: (nat, nat) -> nat) {
    |kinds| == |trials| && forall k :: 0 < k < |trials| ==> KindAt(trials, kinds, draws, k)
  }

  /** One more trial, and what kind it is. */
  ghost predicate NextTrial(trials: seq<Trial>, all: seq<Trial>, kind: Kind, draws: (nat, nat) -> nat) {
    && |trials| > 0 && |all| == |trials| + 1 && trials <= all
    && AskedFor(trials[Current(trials, |trials|)].expr, j => draws(|trials|, j), all[|trials|].move)
    && (kind.down <==> all[|trials|].cost < trials[Current(trials, |trials|)].cost)
    && (kind.rejected <==> !all[|trials|].accepted)
  }

  lemma {:induction false} KindsGrow(trials: seq<Trial>, all: seq<Trial>, kinds: seq<Kind>, kind: Kind,
                                     draws: (nat, nat) -> nat)
    requires KindsOf(trials, kinds, draws) && NextTrial(trials, all, kind, draws)
    ensures KindsOf(all, kinds + [kind], draws)
  {
    forall k | 0 < k < |all|
      ensures KindAt(all, kinds + [kind], draws, k)
    {
      CurrentStays(trials, all, k);
      if k < |trials| {
        assert KindAt(trials, kinds, draws, k);
      }
    }
  }

  lemma {:induction false} RunExtends(s: seq<int>, ms: seq<Move>, m: Move)
    requires IsRun(s, ms) && Enabled(RunEnd(s, ms), m)
    ensures IsRun(s, ms + [m]) && RunEnd(s, ms + [m]) == Apply(RunEnd(s, ms), m)
    decreases |ms|
  {
    if ms == [] {
      assert (ms + [m])[1..] == [];
    } else {
      RunExtends(Apply(s, ms[0]), ms[1..], m);
      assert (ms + [m])[1..] == ms[1..] + [m];
    }
  }

  /** Every candidate is reached from the initial expression by legal moves. */
  lemma {:induction false} TrialReached(job: Job, rel: Relations, luck: nat -> bool, trials: seq<Trial>, k: nat)
    returns (ms: seq<Move>)
    requires IsTrail(job, rel, luck, trials) && k < |trials|
    ensures IsRun(Initial(|job.shapes|), ms) && RunEnd(Initial(|job.shapes|), ms) == trials[k].expr
    decreases k
  {
    if k == 0 {
      ms := [];
    } else {
      assert TriedAt(trials, luck, k);
      ms := TrialReached(job, rel, luck, trials, Current(trials, k));
      RunExtends(Initial(|job.shapes|), ms, trials[k].move);
      ms := ms + [trials[k].move];
    }
  }

  datatype Halt = Running | NoMove | Overflow

  /** The n units and n - 1 dead blocks are in use, and there is room for the wrapping. */
  ghost predicate Tidy(job: Job, flp: Floorplan, stack: NodeStack)
    reads flp, stack
  {
    && |job.shapes| >= 1 && flp.nUnits == 2 * |job.shapes| - 1 && Slots(|job.shapes|, job.wrapping) <= flp.units.Length
    && stack.Valid() && stack.top == 0
  }

  ghost predicate Related(job: Job, rel: Relations) {
    Places(job, rel) && Wraps(job, rel) && Composes(rel)
  }

  /** s has no move to offer within the allowed number of rounds. */
  ghost predicate Stuck(s: seq<int>, draws: nat -> nat) {
    |FlipPositions(s, |s|)| > 0 && GivesUp(s, draws)
  }

  /** m is the move that the draws ask for. */
  ghost predicate AskedFor(s: seq<int>, draws: nat -> nat, m: Move) {
    |FlipPositions(s, |s|)| > 0 && Drawn(s, draws, m)
  }

  method RandomNeighbour(e: Npe, ghost s: seq<int>, draws: nat -> nat, ghost n: nat, ghost others: set<object>)
    returns (ok: bool, next: Npe, ghost t: seq<int>, ghost m: Move)
    requires n >= 2 && e.Allocated(n) && e.Valid(n) && s == e.elements[..]
    ensures fresh(Buffers(next)) && others !! Buffers(next)
    ensures next.Allocated(n) && next.Valid(n) && t == next.elements[..]
    ensures ok <==> !Stuck(s, draws)
    ensures ok ==> Moved(s, m, t) && AskedFor(s, draws, m)
  {
    ok, next, m := MakeRandomMove(e, n, draws);
    t := next.elements[..];
  }

  /** e is one move away from s, and its tree is too deep for the stack. */
  ghost predicate TooDeep(s: seq<int>, m: Move, e: seq<int>) {
    Moved(s, m, e) && !ShallowUpTo(e, |e|)
  }

  /** Why nothing came of s: it is out of moves, or the candidate made from it is too deep. */
  ghost predicate ExcusedAt(halt: Halt, n: nat, s: seq<int>, draws: nat -> nat) {
    match halt
    case Running => true
    case Overflow => n > MAX_STACK && exists m, e :: TooDeep(s, m, e)
    case NoMove => Stuck(s, draws)
  }

  /** Makes a random move on a copy and evaluates the result. The floorplan is back to n units
      and n - 1 dead blocks afterwards. */
  method TryCandidate(job: Job, flp: Floorplan, stack: NodeStack, e: Npe, ghost s: seq<int>, draws: nat -> nat,
                      ghost rel: Relations, ghost n: nat, ghost others: set<object>)
    returns (halt: Halt, next: Npe, cost: real, ghost t: seq<int>, ghost m: Move, ghost units: seq<Rect>)
    requires Doable(job) && Related(job, rel) && Tidy(job, flp, stack)
    requires n == |job.shapes| && e.Allocated(n) && e.Valid(n) && s == e.elements[..]
    modifies flp, flp.units, stack, stack.cells
    ensures fresh(Buffers(next)) && others !! Buffers(next)
    ensures next.Allocated(n) && next.Valid(n) && t == next.elements[..]
    ensures (halt == NoMove <==> Stuck(s, draws)) && ExcusedAt(halt, n, s, draws)
    ensures halt == Running ==> Tidy(job, flp, stack) && Moved(s, m, t) && AskedFor(s, draws, m)
    ensures halt == Running ==> rel.done(t, units) && cost == job.metric(units) && ShallowUpTo(t, |t|)
  {
    var ok;
    ok, next, t, m := RandomNeighbour(e, s, draws, n, others);
    cost, units := 0.0, [];
    if !ok {
      return NoMove, next, cost, t, m, units;
    }
    ok, cost, units := Evaluate(job, flp, stack, next.elements[..], rel);
    if !ok {
      if n <= MAX_STACK {
        FewUnitsFit(t, n);
      }
      assert TooDeep(s, m, t);
      return Overflow, next, cost, t, m, units;
    }
    halt := Running;
  }

  // ---------- the annealer ----------

  /** Current and best expression with their costs. */
  datatype State = State(expr: Npe, best: Npe, cost: real, bestCost: real)

  /** Both expressions are well formed with up-to-date caches. */
  ghost predicate WellFormed(st: State, n: nat)
    reads Buffers(st.expr), Buffers(st.best)
  {
    st.expr.Allocated(n) && st.expr.Valid(n) && st.best.Allocated(n) && st.best.Valid(n)
  }

  /** The state belongs to a run whose candidates so far are the given trials. */
  ghost predicate Reached(job: Job, rel: Relations, luck: nat -> bool, st: State, trials: seq<Trial>, b: nat)
    reads st.expr.elements, st.best.elements
  {
    && IsTrail(job, rel, luck, trials)
    && Holds(trials, b, st.expr.elements[..], st.cost, st.best.elements[..], st.bestCost)
  }

  /** Why a run with these trials stopped early. */
  ghost predicate Excused(halt: Halt, job: Job, rel: Relations, luck: nat -> bool, trials: seq<Trial>,
                          draws: (nat, nat) -> nat)
  {
    halt != Running ==>
      && IsTrail(job, rel, luck, trials)
      && ExcusedAt(halt, |job.shapes|, trials[Current(trials, |trials|)].expr, j => draws(|trials|, j))
  }

  lemma ExcusedFrom(halt: Halt, job: Job, rel: Relations, luck: nat -> bool, trials: seq<Trial>,
                    draws: (nat, nat) -> nat, s: seq<int>, k: nat)
    requires IsTrail(job, rel, luck, trials) && trials[Current(trials, |trials|)].expr == s && k == |trials|
    requires ExcusedAt(halt, |job.shapes|, s, j => draws(k, j))
    ensures Excused(halt, job, rel, luck, trials, draws)
  {
  }

  /** Accepts or rejects an evaluated candidate. */
  method Decide(st: State, next: Npe, newCost: real, lucky: bool, ghost n: nat, ghost job: Job, ghost rel: Relations,
                ghost luck: nat -> bool, ghost trials: seq<Trial>, ghost b: nat, ghost t: Trial,
                ghost others: set<object>)
    returns (st': State, down: bool, rejected: bool, ghost b': nat)
    requires WellFormed(st, n) && Reached(job, rel, luck, st, trials, b)
    requires next.Allocated(n) && next.Valid(n)
    requires Evaluated(job, rel, t) && Tried(st.expr.elements[..], st.cost, lucky, t) && lucky == luck(|trials|)
    requires t.expr == next.elements[..] && t.cost == newCost
    requires others !! Buffers(st.expr) && others !! Buffers(st.best) && others !! Buffers(next)
    ensures WellFormed(st', n) && Reached(job, rel, luck, st', trials + [t], b')
    ensures others !! Buffers(st'.expr) && others !! Buffers(st'.best)
    ensures (down <==> newCost < st.cost) && (rejected <==> !t.accepted)
  {
    TrailGrows(job, rel, luck, trials, t);
    HoldsAfter(trials, b, st.expr.elements[..], st.cost, st.best.elements[..], st.bestCost, t);
    down := newCost < st.cost;
    rejected := !(down || lucky);
    st', b' := st, b;
    if down || lucky {
      st' := st'.(expr := next, cost := newCost);
      if down && newCost < st.bestCost {
        var copy := Separate(next, n, others);
        st', b' := st'.(best := copy, bestCost := newCost), |trials|;
      }
    }
  }

  /** Everything a try needs and leaves. */
  ghost predicate Going(job: Job, flp: Floorplan, stack: NodeStack, luck: nat -> bool, st: State, k: nat,
                        rel: Relations, trials: seq<Trial>, b: nat)
    reads flp, stack, Buffers(st.expr), Buffers(st.best)
  {
    && Doable(job) && Related(job, rel) && Tidy(job, flp, stack) && k == |trials|
    && WellFormed(st, |job.shapes|) && Reached(job, rel, luck, st, trials, b)
  }

  /** The floorplan and the stack share nothing with the expressions. */
  ghost predicate Apart(flp: Floorplan, stack: NodeStack, st: State) {
    var others := {flp, flp.units, stack, stack.cells};
    others !! Buffers(st.expr) && others !! Buffers(st.best)
  }

  /** A candidate that has been evaluated from the current state. */
  ghost predicate IsCandidate(job: Job, rel: Relations, st: State, lucky: bool, next: Npe, cost: real, t: Trial, n: nat,
                              others: set<object>)
    reads st.expr.elements, Buffers(next)
  {
    && next.Allocated(n) && next.Valid(n) && others !! Buffers(next)
    && Evaluated(job, rel, t) && Tried(st.expr.elements[..], st.cost, lucky, t) && t.expr == next.elements[..]
    && t.cost == cost
  }

  /** Makes and evaluates a candidate; the state of the run is untouched. */
  method MakeCandidate(job: Job, flp: Floorplan, stack: NodeStack, st: State, luck: nat -> bool,
                       draws: (nat, nat) -> nat, k: nat, ghost rel: Relations, ghost trials: seq<Trial>, ghost b: nat)
    returns (halt: Halt, next: Npe, cost: real, ghost t: Trial)
    requires Going(job, flp, stack, luck, st, k, rel, trials, b) && Apart(flp, stack, st)
    modifies flp, flp.units, stack, stack.cells
    ensures Excused(halt, job, rel, luck, trials, draws)
    ensures halt == Running ==> Going(job, flp, stack, luck, st, k, rel, trials, b) && Apart(flp, stack, st)
    ensures halt == Running ==>
              IsCandidate(job, rel, st, luck(k), next, cost, t, |job.shapes|, {flp, flp.units, stack, stack.cells})
    ensures halt == Running ==> AskedFor(st.expr.elements[..], j => draws(k, j), t.move)
  {
    ghost var s, e, m, units;
    s := st.expr.elements[..];
    halt, next, cost, e, m, units :=
      TryCandidate(job, flp, stack, st.expr, s, j => draws(k, j), rel, |job.shapes|,
                   {flp, flp.units, stack, stack.cells});
    ExcusedFrom(halt, job, rel, luck, trials, draws, s, k);
    t := Trial(e, m, units, cost, cost < st.cost || luck(k));
  }

  /** One try: a candidate is made, evaluated, and accepted or rejected. */
  method TryOnce(job: Job, flp: Floorplan, stack: NodeStack, st: State, luck: nat -> bool, draws: (nat, nat) -> nat,
                 k: nat, ghost rel: Relations, ghost trials: seq<Trial>, ghost b: nat)
    returns (halt: Halt, st': State, down: bool, rejected: bool, ghost trials': seq<Trial>, ghost b': nat)
    requires Going(job, flp, stack, luck, st, k, rel, trials, b) && Apart(flp, stack, st)
    modifies flp, flp.units, stack, stack.cells
    ensures Excused(halt, job, rel, luck, trials', draws)
    ensures halt == Running ==> Going(job, flp, stack, luck, st', k + 1, rel, trials', b') && Apart(flp, stack, st')
    ensures if halt == Running then NextTrial(trials, trials', Kind(down, rejected), draws) else trials' == trials
  {
    var next, newCost;
    ghost var t;
    halt, next, newCost, t := MakeCandidate(job, flp, stack, st, luck, draws, k, rel, trials, b);
    if halt != Running {
      return halt, st, false, false, trials, b;
    }
    st', down, rejected, b' := Decide(st, next, newCost, luck(k), |job.shapes|, job, rel, luck, trials, b, t,
                                      {flp, flp.units, stack, stack.cells});
    trials' := trials + [t];
  }

  /** All tries at one temperature: until there are 2n of them or n downhill, and no longer. */
  method TryMany(job: Job, flp: Floorplan, stack: NodeStack, st: State, luck: nat -> bool, draws: (nat, nat) -> nat,
                 k: nat, n: int, ghost rel: Relations, ghost trials: seq<Trial>, ghost b: nat, ghost kinds: seq<Kind>)
    returns (halt: Halt, st': State, k': nat, tries: nat, rejects: nat, ghost trials': seq<Trial>, ghost b': nat,
             ghost kinds': seq<Kind>)
    requires Going(job, flp, stack, luck, st, k, rel, trials, b) && Apart(flp, stack, st)
    requires KindsOf(trials, kinds, draws)
    modifies flp, flp.units, stack, stack.cells
    ensures Excused(halt, job, rel, luck, trials', draws)
    ensures halt == Running ==> Going(job, flp, stack, luck, st', k', rel, trials', b')
    ensures halt == Running ==> Apart(flp, stack, st')
    ensures KindsOf(trials', kinds', draws) && RoundRan(halt == Running, kinds, kinds', n, tries, rejects)
  {
    halt, st', k', tries, rejects := Running, st, k, 0, 0;
    trials', b', kinds' := trials, b, kinds;
    var downs := 0;
    while tries < 2 * n && downs < n
      invariant Going(job, flp, stack, luck, st', k', rel, trials', b')
      invariant Apart(flp, stack, st')
      invariant halt == Running && kinds <= kinds' && KindsOf(trials', kinds', draws)
      invariant Counted(kinds', |kinds|, n, tries, downs, rejects)
      decreases 2 * n - tries
    {
      ghost var before := trials';
      var down, rejected;
      halt, st', down, rejected, trials', b' := TryOnce(job, flp, stack, st', luck, draws, k', rel, trials', b');
      if halt != Running {
        RoundStops(false, kinds, kinds', n, tries, downs, rejects);
        return;
      }
      KindsGrow(before, trials', kinds', Kind(down, rejected), draws);
      CountedNext(kinds', kinds' + [Kind(down, rejected)], |kinds|, n, tries, downs, rejects, Kind(down, rejected));
      kinds' := kinds' + [Kind(down, rejected)];
      k' := k' + 1;
      downs := if down then downs + 1 else downs;
      rejects := if rejected then rejects + 1 else rejects;
      tries := tries + 1;
    }
    RoundStops(true, kinds, kinds', n, tries, downs, rejects);
  }

  /** Tries per temperature: kmoves for each of the n units and n - 1 dead blocks. */
  function TriesPerRound(job: Job, plan: Schedule): int
    requires |job.shapes| >= 1
  {
    Tries(plan.kmoves, 2 * |job.shapes| - 1)
  }

  /** The trials of a run that ended by itself make up its rounds, and those of one that stopped
      early the rounds so far and the beginning of one more. */
  ghost predicate Ran(halt: Halt, job: Job, plan: Schedule, trials: seq<Trial>, kinds: seq<Kind>, cuts: seq<nat>,
                      draws: (nat, nat) -> nat)
  {
    && |job.shapes| >= 1
    && KindsOf(trials, kinds, draws) && Ended(halt == Running, plan, kinds, cuts, TriesPerRound(job, plan))
  }

  /** The tries at one temperature, and whether too many of them were rejected. */
  method CoolOnce(job: Job, flp: Floorplan, stack: NodeStack, st: State, luck: nat -> bool, draws: (nat, nat) -> nat,
                  plan: Schedule, k: nat, ghost temperature: real, ghost steps: nat, ghost rel: Relations,
                  ghost trials: seq<Trial>, ghost b: nat, ghost kinds: seq<Kind>, ghost cuts: seq<nat>, ghost n: int)
    returns (halt: Halt, st': State, k': nat, frozen: bool, ghost trials': seq<Trial>, ghost b': nat,
             ghost kinds': seq<Kind>, ghost cuts': seq<nat>)
    requires Going(job, flp, stack, luck, st, k, rel, trials, b) && Apart(flp, stack, st)
    requires KindsOf(trials, kinds, draws)
    requires n == TriesPerRound(job, plan) && Cooled(plan, kinds, cuts, n, temperature, steps)
    requires temperature >= plan.cold && steps < plan.nmax
    modifies flp, flp.units, stack, stack.cells
    ensures Excused(halt, job, rel, luck, trials', draws) && KindsOf(trials', kinds', draws)
    ensures halt == Running ==> Going(job, flp, stack, luck, st', k', rel, trials', b') && Apart(flp, stack, st')
    ensures AfterRound(halt == Running, frozen, plan, kinds', cuts', n, temperature, steps)
  {
    var tries, rejects;
    halt, st', k', tries, rejects, trials', b', kinds' :=
      TryMany(job, flp, stack, st, luck, draws, k, Tries(plan.kmoves, flp.nUnits), rel, trials, b, kinds);
    // 0 / 0 compares false in the original
    frozen := tries > 0 && rejects as real / tries as real > plan.rreject;
    cuts' := RoundTold(halt == Running, plan, kinds, kinds', cuts, n, temperature, steps, tries, rejects);
  }

  /** Cools down until it is cold, has run long enough or rejects too much. */
  method Cool(job: Job, flp: Floorplan, stack: NodeStack, st: State, luck: nat -> bool, draws: (nat, nat) -> nat,
              plan: Schedule, ghost rel: Relations, ghost trials: seq<Trial>, ghost b: nat, ghost n: int)
    returns (halt: Halt, st': State, ghost trials': seq<Trial>, ghost b': nat, ghost kinds: seq<Kind>,
             ghost cuts: seq<nat>)
    requires Going(job, flp, stack, luck, st, 1, rel, trials, b)
    requires Apart(flp, stack, st) && n == TriesPerRound(job, plan)
    modifies flp, flp.units, stack, stack.cells
    ensures Excused(halt, job, rel, luck, trials', draws)
    ensures halt == Running ==> Going(job, flp, stack, luck, st', |trials'|, rel, trials', b')
    ensures KindsOf(trials', kinds, draws) && Ended(halt == Running, plan, kinds, cuts, n)
  {
    halt, st', trials', b', kinds, cuts := Running, st, trials, b, [Kind(false, false)], [1];
    var temperature, steps, k := plan.hot, 0, 1;
    NoRounds(plan, kinds, n);
    while temperature >= plan.cold && steps < plan.nmax
      invariant Going(job, flp, stack, luck, st', k, rel, trials', b') && halt == Running
      invariant Apart(flp, stack, st')
      invariant KindsOf(trials', kinds, draws) && Cooled(plan, kinds, cuts, n, temperature, steps)
      decreases plan.nmax - steps
    {
      var frozen;
      halt, st', k, frozen, trials', b', kinds, cuts :=
        CoolOnce(job, flp, stack, st', luck, draws, plan, k, temperature, steps, rel, trials', b', kinds, cuts, n);
      if halt != Running {
        return;
      }
      if frozen {
        return;
      }
      temperature := temperature * plan.cool;
      steps := steps + 1;
    }
    LoopEnds(plan, kinds, cuts, n, temperature, steps);
  }

  // ---------- the whole run ----------

  /** Allocates all units a run can need and puts them all in use. */
  method Placeholder(n: nat, w: Wrapping) returns (flp: Floorplan)
    requires n >= 1
    ensures fresh(flp) && fresh(flp.units) && flp.nUnits == flp.units.Length == Slots(n, w)
  {
    var dead := n - 1;
    var count := n + dead;
    if w.l2.Some? {
      count := count + (WrapL2.L2_ARMS + 1);
    }
    if w.rim.Some? {
      count := count + (2 * count + 2);
    }
    flp := new Floorplan(count);
  }

  /** Hides the rim's and the L2's units from the slicing tree. */
  method HideWrapping(flp: Floorplan, n: nat, w: Wrapping)
    requires n >= 1 && flp.nUnits == Slots(n, w)
    modifies flp
    ensures flp.nUnits == 2 * n - 1
  {
    if w.rim.Some? {
      flp.nUnits := (flp.nUnits - 2) / 3;
    }
    if w.l2.Some? {
      flp.nUnits := flp.nUnits - (WrapL2.L2_ARMS + 1);
    }
  }

  lemma FirstTrial(job: Job, rel: Relations, luck: nat -> bool, t: Trial)
    requires |job.shapes| >= 1 && Evaluated(job, rel, t) && t.expr == Initial(|job.shapes|) && t.accepted
    ensures IsTrail(job, rel, luck, [t]) && Holds([t], 0, t.expr, t.cost, t.expr, t.cost)
  {
  }

  /** A copy that shares nothing with the given objects. */
  method Separate(e: Npe, ghost n: nat, ghost others: set<object>) returns (c: Npe)
    requires e.Allocated(n) && e.Valid(n)
    ensures others !! Buffers(c) && c.Allocated(n) && c.Valid(n) && c.elements[..] == e.elements[..]
  {
    c := Duplicate(e, n);
  }

  method SeparateInitial(n: nat, ghost others: set<object>) returns (e: Npe, ghost s: seq<int>)
    requires n >= 1
    ensures others !! Buffers(e) && e.Allocated(n) && e.Valid(n) && e.elements[..] == s == Initial(n)
  {
    e := GetInitial(n);
    s := e.elements[..];
  }

  /** Evaluates the initial expression, which never overflows the stack. */
  method Start(job: Job, flp: Floorplan, stack: NodeStack, ghost luck: nat -> bool, ghost rel: Relations)
    returns (st: State, ghost trials: seq<Trial>)
    requires Doable(job) && Related(job, rel) && Tidy(job, flp, stack)
    modifies flp, flp.units, stack, stack.cells
    ensures Going(job, flp, stack, luck, st, 1, rel, trials, 0) && Apart(flp, stack, st)
  {
    var n := |job.shapes|;
    ghost var others: set<object> := {flp, flp.units, stack, stack.cells};
    var expr;
    ghost var s;
    expr, s := SeparateInitial(n, others);
    InitialIsShallow(n);
    var ok, cost;
    ghost var units;
    ok, cost, units := Evaluate(job, flp, stack, expr.elements[..], rel);
    var best := Separate(expr, n, others);
    st := State(expr, best, cost, cost);
    ghost var t := Trial(s, SwapUnits(0), units, cost, true);
    FirstTrial(job, rel, luck, t);
    trials := [t];
  }

  /** The floorplan placed at the end is that of trial b, and no candidate that was evaluated,
      accepted or rejected, costs less. */
  ghost predicate Delivers(job: Job, luck: nat -> bool, trials: seq<Trial>, b: nat, units: seq<Rect>) {
    && IsTrail(job, RelationsOf(job), luck, trials) && Best(trials, b)
    && IsFinished(job, trials[b].expr, units) && job.metric(units) == trials[b].cost
  }

  lemma {:induction false} BestDelivers(job: Job, luck: nat -> bool, trials: seq<Trial>, b: nat, units: seq<Rect>)
    requires IsTrail(job, RelationsOf(job), luck, trials) && Best(trials, b)
    requires RelationsOf(job).done(trials[b].expr, units)
    ensures Delivers(job, luck, trials, b, units)
  {
    assert Evaluated(job, RelationsOf(job), trials[b]);
    FinishedUnique(job, trials[b].expr, units, trials[b].units);
  }

  /** Places the best expression for good. Its tree was built before, so this cannot fail. */
  method PlaceBest(job: Job, flp: Floorplan, stack: NodeStack, st: State, ghost luck: nat -> bool, ghost k: nat,
                   ghost rel: Relations, ghost trials: seq<Trial>, ghost b: nat)
    returns (ghost outer: Rect)
    requires Going(job, flp, stack, luck, st, k, rel, trials, b)
    modifies flp, flp.units, stack, stack.cells
    ensures flp.nUnits <= Slots(|job.shapes|, job.wrapping) && flp.nUnits <= flp.units.Length
    ensures Best(trials, b) && rel.done(trials[b].expr, flp.units[..flp.nUnits])
    ensures Tiles(flp.units[..flp.nUnits], outer)
  {
    ghost var s := trials[b].expr;
    assert Evaluated(job, rel, trials[b]);
    var ok, compacted, rimBlocks;
    ok, compacted, rimBlocks, outer := FinishExpression(job, flp, stack, st.best.elements[..], rel);
  }

  method Begin(job: Job, flp: Floorplan, ghost luck: nat -> bool, ghost rel: Relations)
    returns (stack: NodeStack, st: State, ghost trials: seq<Trial>)
    requires Doable(job) && Related(job, rel) && flp.nUnits == flp.units.Length == Slots(|job.shapes|, job.wrapping)
    modifies flp, flp.units
    ensures fresh(stack) && fresh(stack.cells)
    ensures Going(job, flp, stack, luck, st, 1, rel, trials, 0) && Apart(flp, stack, st)
  {
    HideWrapping(flp, |job.shapes|, job.wrapping);
    stack := new NodeStack();
    st, trials := Start(job, flp, stack, luck, rel);
  }

  method Anneal(job: Job, flp: Floorplan, plan: Schedule, luck: nat -> bool, draws: (nat, nat) -> nat,
                ghost rel: Relations)
    returns (halt: Halt, ghost trials: seq<Trial>, ghost b: nat, ghost outer: Rect, ghost kinds: seq<Kind>,
             ghost cuts: seq<nat>)
    requires Doable(job) && Related(job, rel) && flp.nUnits == flp.units.Length == Slots(|job.shapes|, job.wrapping)
    modifies flp, flp.units
    ensures Excused(halt, job, rel, luck, trials, draws)
    ensures halt == Running ==> flp.nUnits <= flp.units.Length && Tiles(flp.units[..flp.nUnits], outer)
    ensures halt == Running ==> IsTrail(job, rel, luck, trials) && Best(trials, b)
    ensures halt == Running ==> rel.done(trials[b].expr, flp.units[..flp.nUnits])
    ensures Ran(halt, job, plan, trials, kinds, cuts, draws)
  {
    var stack, st;
    stack, st, trials := Begin(job, flp, luck, rel);
    outer := Rect(0.0, 0.0, 0.0, 0.0);
    halt, st, trials, b, kinds, cuts :=
      Cool(job, flp, stack, st, luck, draws, plan, rel, trials, 0, TriesPerRound(job, plan));
    if halt != Running {
      return;
    }
    outer := PlaceBest(job, flp, stack, st, luck, |trials|, rel, trials, b);
  }

  lemma RelationsRelate(job: Job)
    ensures Related(job, RelationsOf(job))
  {
    RelationsHold(job);
  }

  /** The annealing floorplanner. Returns by how many units the floorplan ended up smaller. */
  method AnnealFloorplan(job: Job, flp: Floorplan, plan: Schedule, luck: nat -> bool, draws: (nat, nat) -> nat)
    returns (halt: Halt, removed: int, ghost trials: seq<Trial>, ghost b: nat, ghost outer: Rect,
             ghost kinds: seq<Kind>, ghost cuts: seq<nat>)
    requires Doable(job) && flp.nUnits == flp.units.Length == Slots(|job.shapes|, job.wrapping)
    modifies flp, flp.units
    ensures Excused(halt, job, RelationsOf(job), luck, trials, draws)
    ensures halt == Running ==> flp.nUnits <= flp.units.Length && Tiles(flp.units[..flp.nUnits], outer)
    ensures halt == Running ==> Delivers(job, luck, trials, b, flp.units[..flp.nUnits])
    ensures Ran(halt, job, plan, trials, kinds, cuts, draws)
    ensures removed == old(flp.nUnits) - flp.nUnits && (halt == Running ==> removed >= 0)
  {
    var original := flp.nUnits;
    RelationsRelate(job);
    halt, trials, b, outer, kinds, cuts := Anneal(job, flp, plan, luck, draws, RelationsOf(job));
    removed := original - flp.nUnits;
    if halt == Running {
      BestDelivers(job, luck, trials, b, flp.units[..flp.nUnits]);
    }
  }
}
