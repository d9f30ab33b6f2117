/** Energy in the grid: what flows between nodes cancels, and so a field in balance gives the whole
    power to ambient. */
module GridEnergy {
  import opened GridNetwork
  import opened GridLinks
  import opened GridSlope

  // ---------- sums over all nodes ----------

  /** Every node of the grid, once. */
  ghost predicate Enumerates(g: Grid, ns: seq<Node>) {
    && (forall i :: 0 <= i < |ns| ==> IsNode(g, ns[i]))
    && (forall i, j :: 0 <= i < j < |ns| ==> ns[i] != ns[j])
    && forall a :: IsNode(g, a) ==> a in ns
  }

  ghost function Total(f: Field, ns: seq<Node>): real {
    if ns == [] then 0.0 else Total(f, ns[..|ns| - 1]) + f(ns[|ns| - 1])
  }

  lemma TotalNext(f: Field, ns: seq<Node>, m: nat)
    requires m < |ns|
    ensures Total(f, ns[..m + 1]) == Total(f, ns[..m]) + f(ns[m])
  {
    assert ns[..m + 1][..m] == ns[..m];
  }

  lemma {:induction false} TotalAdds(f: Field, h: Field, k: Field, ns: seq<Node>, m: nat)
    requires m <= |ns| && forall i :: 0 <= i < |ns| ==> k(ns[i]) == f(ns[i]) + h(ns[i])
    ensures Total(k, ns[..m]) == Total(f, ns[..m]) + Total(h, ns[..m])
    decreases m
  {
    if m > 0 {
      TotalAdds(f, h, k, ns, m - 1);
      TotalNext(f, ns, m - 1);
      TotalNext(h, ns, m - 1);
      TotalNext(k, ns, m - 1);
      assert k(ns[m - 1]) == f(ns[m - 1]) + h(ns[m - 1]);
    }
  }

  /** h differs from f at b only, by d. */
  lemma {:induction false} TotalChanges(f: Field, h: Field, ns: seq<Node>, m: nat, b: Node, d: real)
    requires m <= |ns| && (forall i, j :: 0 <= i < j < |ns| ==> ns[i] != ns[j])
    requires forall i :: 0 <= i < |ns| ==> h(ns[i]) == if ns[i] == b then f(ns[i]) + d else f(ns[i])
    ensures Total(h, ns[..m]) == Total(f, ns[..m]) + if b in ns[..m] then d else 0.0
    decreases m
  {
    if m > 0 {
      TotalChanges(f, h, ns, m - 1, b, d);
      TotalNext(f, ns, m - 1);
      TotalNext(h, ns, m - 1);
      assert ns[..m] == ns[..m - 1] + [ns[m - 1]];
    }
  }

  // ---------- flows by node ----------

  /** What comes over the links from ambient, into a node at temperature x. */
  function FromAmbient(g: Grid, ls: seq<Link>, x: real): real {
    if ls == [] then 0.0
    else FromAmbient(g, ls[..|ls| - 1], x) + if ls[|ls| - 1].src.Ambient? then ls[|ls| - 1].c * (g.ambient - x) else 0.0
  }

  /** What comes over the links from each node, into a node at temperature x. */
  ghost function FlowFrom(t: Field, ls: seq<Link>, x: real): Field {
    b => SumTo(ls, b) * (t(b) - x)
  }

  /** What a link brings from a node, for a node at temperature x. */
  function Brings(t: Field, l: Link, x: real): real {
    if l.src.From? then l.c * (t(l.src.node) - x) else 0.0
  }

  lemma FlowGrows(t: Field, ls: seq<Link>, x: real, b: Node)
    requires ls != []
    ensures FlowFrom(t, ls, x)(b)
            == FlowFrom(t, ls[..|ls| - 1], x)(b)
               + if ls[|ls| - 1].src == From(b) then Brings(t, ls[|ls| - 1], x) else 0.0
  {
    Distribute(SumTo(ls[..|ls| - 1], b), ls[|ls| - 1].c, t(b) - x);
  }

  lemma Distribute(s: real, c: real, y: real)
    ensures (s + c) * y == s * y + c * y
  {
  }

  /** The flows over the links are those from the nodes and from ambient. */
  lemma {:induction false} FlowsByNode(g: Grid, t: Field, ls: seq<Link>, x: real, ns: seq<Node>)
    requires Enumerates(g, ns) && SoundLinks(g, ls)
    ensures SumP(g, t, ls, x) == Total(FlowFrom(t, ls, x), ns) + FromAmbient(g, ls, x)
    decreases |ls|
  {
    if ls == [] {
      assert ns[..|ns|] == ns;
      NoFlow(t, x, ns, |ns|);
    } else {
      FlowsByNode(g, t, ls[..|ls| - 1], x, ns);
      assert SoundLink(g, ls[|ls| - 1]);
      OneMoreFlow(g, t, ls, x, ns);
    }
  }

  lemma {:induction false} NoFlow(t: Field, x: real, ns: seq<Node>, m: nat)
    requires m <= |ns|
    ensures Total(FlowFrom(t, [], x), ns[..m]) == 0.0
    decreases m
  {
    if m > 0 {
      NoFlow(t, x, ns, m - 1);
      TotalNext(FlowFrom(t, [], x), ns, m - 1);
    }
  }

  lemma OneMoreFlow(g: Grid, t: Field, ls: seq<Link>, x: real, ns: seq<Node>)
    requires Enumerates(g, ns) && ls != [] && SoundLink(g, ls[|ls| - 1])
    ensures Total(FlowFrom(t, ls, x), ns)
            == Total(FlowFrom(t, ls[..|ls| - 1], x), ns) + Brings(t, ls[|ls| - 1], x)
  {
    var l := ls[|ls| - 1];
    var b, d := if l.src.From? then l.src.node else Extra(0), Brings(t, l, x);
    forall i | 0 <= i < |ns|
      ensures FlowFrom(t, ls, x)(ns[i]) ==
              if ns[i] == b then FlowFrom(t, ls[..|ls| - 1], x)(ns[i]) + d else FlowFrom(t, ls[..|ls| - 1], x)(ns[i])
    {
      FlowGrows(t, ls, x, ns[i]);
    }
    AllChanged(FlowFrom(t, ls[..|ls| - 1], x), FlowFrom(t, ls, x), ns, b, d);
  }

  lemma AllChanged(f: Field, h: Field, ns: seq<Node>, b: Node, d: real)
    requires (forall i, j :: 0 <= i < j < |ns| ==> ns[i] != ns[j]) && b in ns
    requires forall i :: 0 <= i < |ns| ==> h(ns[i]) == if ns[i] == b then f(ns[i]) + d else f(ns[i])
    ensures Total(h, ns) == Total(f, ns) + d
  {
    TotalChanges(f, h, ns, |ns|, b, d);
    assert ns[..|ns|] == ns;
  }

  // ---------- flows between nodes cancel ----------

  type Flow = (Node, Node) -> real

  ghost predicate Opposite(w: Flow, ns: seq<Node>) {
    forall i, j :: 0 <= i < |ns| && 0 <= j < |ns| ==> w(ns[i], ns[j]) == -w(ns[j], ns[i])
  }

  ghost function Into(w: Flow, a: Node): Field {
    b => w(a, b)
  }

  /** What flows into each node from the first m. */
  ghost function Inflow(w: Flow, ns: seq<Node>, m: nat): Field
    requires m <= |ns|
  {
    a => Total(Into(w, a), ns[..m])
  }

  ghost function OutOf(w: Flow, b: Node): Field {
    a => w(a, b)
  }

  lemma {:induction false} OppositeTotals(w: Flow, ns: seq<Node>, b: nat, m: nat)
    requires Opposite(w, ns) && b < |ns| && m <= |ns|
    ensures Total(OutOf(w, ns[b]), ns[..m]) == -Total(Into(w, ns[b]), ns[..m])
    decreases m
  {
    if m > 0 {
      OppositeTotals(w, ns, b, m - 1);
      TotalNext(OutOf(w, ns[b]), ns, m - 1);
      TotalNext(Into(w, ns[b]), ns, m - 1);
    }
  }

  lemma InflowNext(w: Flow, ns: seq<Node>, m: nat, k: nat)
    requires m < |ns| && k <= |ns|
    ensures Total(Inflow(w, ns, m + 1), ns[..k]) == Total(Inflow(w, ns, m), ns[..k]) + Total(OutOf(w, ns[m]), ns[..k])
  {
    forall i | 0 <= i < |ns|
      ensures Inflow(w, ns, m + 1)(ns[i]) == Inflow(w, ns, m)(ns[i]) + OutOf(w, ns[m])(ns[i])
    {
      TotalNext(Into(w, ns[i]), ns, m);
    }
    TotalAdds(Inflow(w, ns, m), OutOf(w, ns[m]), Inflow(w, ns, m + 1), ns, k);
  }

  lemma {:induction false} FlowsCancel(w: Flow, ns: seq<Node>, m: nat)
    requires Opposite(w, ns) && m <= |ns|
    ensures Total(Inflow(w, ns, m), ns[..m]) == 0.0
    decreases m
  {
    if m > 0 {
      FlowsCancel(w, ns, m - 1);
      InflowNext(w, ns, m - 1, m - 1);
      OppositeTotals(w, ns, m - 1, m - 1);
      TotalNext(Inflow(w, ns, m), ns, m - 1);
      TotalNext(Into(w, ns[m - 1]), ns, m - 1);
      assert w(ns[m - 1], ns[m - 1]) == -w(ns[m - 1], ns[m - 1]);
    }
  }

  // ---------- the grid in balance ----------

  /** What flows into a from b. */
  ghost function FlowBetween(g: Grid, t: Field): Flow
    requires Sound(g)
  {
    (a, b) => if IsNode(g, a) && IsNode(g, b) then Between(g, a, b) * (t(b) - t(a)) else 0.0
  }

  lemma FlowsAreOpposite(g: Grid, t: Field, ns: seq<Node>)
    requires Sound(g) && Enumerates(g, ns)
    ensures Opposite(FlowBetween(g, t), ns)
  {
    forall i, j | 0 <= i < |ns| && 0 <= j < |ns|
      ensures FlowBetween(g, t)(ns[i], ns[j]) == -FlowBetween(g, t)(ns[j], ns[i])
    {
      BetweenIsSymmetric(g, ns[i], ns[j]);
      BackAndForth(Between(g, ns[i], ns[j]), t(ns[i]), t(ns[j]));
    }
  }

  lemma BackAndForth(c: real, x: real, y: real)
    ensures c * (y - x) == -(c * (x - y))
  {
  }

  /** What node a gives to ambient. */
  ghost function ToAmbient(g: Grid, t: Field): Field
    requires Sound(g)
  {
    a => if IsNode(g, a) then -FromAmbient(g, LinksOf(g, a), t(a)) else 0.0
  }

  lemma {:induction false} SameTotals(f: Field, h: Field, ns: seq<Node>)
    requires forall i :: 0 <= i < |ns| ==> f(ns[i]) == h(ns[i])
    ensures Total(f, ns) == Total(h, ns)
    decreases |ns|
  {
    if ns != [] {
      assert forall i :: 0 <= i < |ns| - 1 ==> ns[..|ns| - 1][i] == ns[i];
      SameTotals(f, h, ns[..|ns| - 1]);
    }
  }

  /** The links of a node bring what flows between it and the others, and what comes from ambient. */
  lemma InflowOf(g: Grid, t: Field, ns: seq<Node>, a: Node)
    requires Sound(g) && Enumerates(g, ns) && IsNode(g, a)
    ensures SumP(g, t, LinksOf(g, a), t(a)) == Inflow(FlowBetween(g, t), ns, |ns|)(a) - ToAmbient(g, t)(a)
  {
    LinksSound(g, a);
    FlowsByNode(g, t, LinksOf(g, a), t(a), ns);
    LinksLeadEverywhere(g, a, ns);
    FlowsFromNodes(g, t, ns, a, LinksOf(g, a));
    assert ns[..|ns|] == ns;
  }

  /** The links of a lead to each node with the conductance between the two. */
  ghost predicate LeadEverywhere(g: Grid, a: Node, ls: seq<Link>, ns: seq<Node>)
    requires Sound(g) && Enumerates(g, ns) && IsNode(g, a)
  {
    forall i :: 0 <= i < |ns| ==> SumTo(ls, ns[i]) == Between(g, a, ns[i])
  }

  lemma LinksLeadEverywhere(g: Grid, a: Node, ns: seq<Node>)
    requires Sound(g) && Enumerates(g, ns) && IsNode(g, a)
    ensures LeadEverywhere(g, a, LinksOf(g, a), ns)
  {
    forall i | 0 <= i < |ns|
      ensures SumTo(LinksOf(g, a), ns[i]) == Between(g, a, ns[i])
    {
      LinksLead(g, a, ns[i]);
    }
  }

  lemma FlowsFromNodes(g: Grid, t: Field, ns: seq<Node>, a: Node, ls: seq<Link>)
    requires Sound(g) && Enumerates(g, ns) && IsNode(g, a) && LeadEverywhere(g, a, ls, ns)
    ensures Total(FlowFrom(t, ls, t(a)), ns) == Total(Into(FlowBetween(g, t), a), ns)
  {
    forall i | 0 <= i < |ns|
      ensures FlowFrom(t, ls, t(a))(ns[i]) == Into(FlowBetween(g, t), a)(ns[i])
    {
      assert SumTo(ls, ns[i]) == Between(g, a, ns[i]);
    }
    SameTotals(FlowFrom(t, ls, t(a)), Into(FlowBetween(g, t), a), ns);
  }

  /** In balance, all the power that goes in leaves to ambient. */
  lemma PowerLeaves(g: Grid, t: Field, power: Field, ns: seq<Node>)
    requires Sound(g) && Enumerates(g, ns)
    requires forall a :: IsNode(g, a) ==> Balanced(g, NetOf(g), t, power, a)
    ensures Total(ToAmbient(g, t), ns) == Total(power, ns)
  {
    var w := FlowBetween(g, t);
    FlowsAreOpposite(g, t, ns);
    FlowsCancel(w, ns, |ns|);
    forall i | 0 <= i < |ns|
      ensures ToAmbient(g, t)(ns[i]) == power(ns[i]) + Inflow(w, ns, |ns|)(ns[i])
    {
      assert Balanced(g, NetOf(g), t, power, ns[i]);
      InflowOf(g, t, ns, ns[i]);
    }
    TotalAdds(power, Inflow(w, ns, |ns|), ToAmbient(g, t), ns, |ns|);
    assert ns[..|ns|] == ns;
  }

  /** What a node stores in a unit of time when its temperature changes at the given rate. */
  ghost function Stored(g: Grid, d: Field): Field
    requires Sound(g)
  {
    a => if IsNode(g, a) then Capacity(g, a) * d(a) else 0.0
  }

  /** The power that is left when each node takes what it stores. */
  ghost function Left(g: Grid, power: Field, d: Field): Field
    requires Sound(g)
  {
    a => power(a) - Stored(g, d)(a)
  }

  lemma LeftBalances(g: Grid, t: Field, power: Field, d: Field, a: Node)
    requires IsSlope(g, t, power, a, d(a))
    ensures Balanced(g, NetOf(g), t, Left(g, power, d), a)
  {
    QuotientTimes(power(a) + SumP(g, t, LinksOf(g, a), t(a)), Capacity(g, a), d(a));
  }

  lemma QuotientTimes(y: real, c: real, d: real)
    requires c > 0.0 && d == y / c
    ensures c * d == y
  {
  }

  /** At every moment the heat stored is the power that goes in, less what leaves to ambient. */
  lemma HeatStored(g: Grid, t: Field, power: Field, d: Field, ns: seq<Node>)
    requires Sound(g) && Enumerates(g, ns) && forall a :: IsNode(g, a) ==> IsSlope(g, t, power, a, d(a))
    ensures Total(Stored(g, d), ns) + Total(ToAmbient(g, t), ns) == Total(power, ns)
  {
    forall a | IsNode(g, a)
      ensures Balanced(g, NetOf(g), t, Left(g, power, d), a)
    {
      LeftBalances(g, t, power, d, a);
    }
    PowerLeaves(g, t, Left(g, power, d), ns);
    TotalAdds(Stored(g, d), Left(g, power, d), power, ns, |ns|);
    assert ns[..|ns|] == ns;
  }

  // ---------- there is such an order of the nodes ----------

  /** All cells of layer n up to row i, and of that row the first j, after all layers before. */
  ghost predicate CellsUpTo(g: Grid, ns: seq<Node>, n: nat, i: nat, j: nat) {
    && (forall k :: 0 <= k < |ns| ==> ns[k].Cell? && IsNode(g, ns[k]))
    && (forall k, l :: 0 <= k < l < |ns| ==> ns[k] != ns[l])
    && forall a :: IsNode(g, a) && a.Cell? ==>
                     (a in ns <==> a.n < n || (a.n == n && (a.i < i || (a.i == i && a.j < j))))
  }

  lemma EnumerateRow(g: Grid, ns: seq<Node>, n: nat, i: nat) returns (ms: seq<Node>)
    requires n < |g.layers| && i < g.rows && CellsUpTo(g, ns, n, i, 0)
    ensures CellsUpTo(g, ms, n, i + 1, 0)
  {
    ms := ns;
    for j := 0 to g.cols
      invariant CellsUpTo(g, ms, n, i, j)
    {
      assert Cell(n, i, j) !in ms;
      ms := ms + [Cell(n, i, j)];
    }
  }

  lemma EnumerateLayer(g: Grid, ns: seq<Node>, n: nat) returns (ms: seq<Node>)
    requires n < |g.layers| && CellsUpTo(g, ns, n, 0, 0)
    ensures CellsUpTo(g, ms, n + 1, 0, 0)
  {
    ms := ns;
    for i := 0 to g.rows
      invariant CellsUpTo(g, ms, n, i, 0)
    {
      ms := EnumerateRow(g, ms, n, i);
    }
  }

  lemma EnumerateNodes(g: Grid) returns (ns: seq<Node>)
    ensures Enumerates(g, ns)
  {
    ns := [];
    for n := 0 to |g.layers|
      invariant CellsUpTo(g, ns, n, 0, 0)
    {
      ns := EnumerateLayer(g, ns, n);
    }
    ghost var cells := ns;
    for k := 0 to EXTRA
      invariant |ns| == |cells| + k && cells <= ns
      invariant forall i :: |cells| <= i < |ns| ==> ns[i] == Extra(i - |cells|)
    {
      ns := ns + [Extra(k)];
    }
    forall a | IsNode(g, a)
      ensures a in ns
    {
      if a.Extra? {
        assert ns[|cells| + a.k] == a;
      } else {
        assert a in cells;
      }
    }
  }
}
