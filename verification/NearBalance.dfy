/** How far from balance a sweep leaves a node: each later change of a neighbour disturbs it by at
    most the conductance between them times the change. */
module NearBalance {
  import opened GridNetwork

  function Magnitude(x: real): real {
    if x < 0.0 then -x else x
  }

  function Larger(x: real, y: real): real {
    if x < y then y else x
  }

  /** Power and flows into a node; 0 if it is balanced. */
  function Excess(g: Grid, net: Net, t: Field, power: Field, a: Node): real {
    power(a) + SumP(g, t, net(a), t(a))
  }

  /** Conductance of the links that lead to a node. */
  function GTo(ls: seq<Link>, a: Node): real {
    if ls == [] then 0.0
    else GTo(ls[..|ls| - 1], a) + if ls[|ls| - 1].src == From(a) then ls[|ls| - 1].c else 0.0
  }

  /** Conductance of the links that lead to nodes already done. */
  function GDone(ls: seq<Link>, done: Node -> bool): real {
    if ls == [] then 0.0
    else
      GDone(ls[..|ls| - 1], done)
      + if ls[|ls| - 1].src.From? && done(ls[|ls| - 1].src.node) then ls[|ls| - 1].c else 0.0
  }

  lemma {:induction false} GBounds(g: Grid, ls: seq<Link>, done: Node -> bool, a: Node)
    requires SoundLinks(g, ls)
    ensures 0.0 <= GDone(ls, done) <= SumG(ls) && GTo(ls, a) >= 0.0
    decreases |ls|
  {
    if ls != [] {
      assert SoundLink(g, ls[|ls| - 1]);
      GBounds(g, ls[..|ls| - 1], done, a);
    }
  }

  /** done' are the done nodes and a. */
  ghost predicate OneMore(g: Grid, done: Node -> bool, done': Node -> bool, a: Node) {
    forall b :: IsNode(g, b) ==> (done'(b) <==> done(b) || b == a)
  }

  lemma {:induction false} DoneGrows(g: Grid, ls: seq<Link>, done: Node -> bool, done': Node -> bool, a: Node)
    requires SoundLinks(g, ls) && IsNode(g, a) && !done(a) && OneMore(g, done, done', a)
    ensures GDone(ls, done') == GDone(ls, done) + GTo(ls, a)
    decreases |ls|
  {
    if ls != [] {
      assert SoundLink(g, ls[|ls| - 1]);
      DoneGrows(g, ls[..|ls| - 1], done, done', a);
    }
  }

  lemma MoreG(s: real, c: real, d: real)
    ensures (s + c) * d == s * d + c * d
  {
  }

  lemma MovedTerm(c: real, y: real, d: real)
    ensures c * (y + d) == c * y + c * d
  {
  }

  /** A weighted sum without its last link, which is all that is left to add. */
  lemma LastOfSums(g: Grid, t: Field, ls: seq<Link>, a: Node) returns (w: real, y: real, s: real)
    requires ls != []
    ensures w == SumW(g, t, ls[..|ls| - 1]) && y == Temp(g, t, ls[|ls| - 1].src) && s == GTo(ls[..|ls| - 1], a)
    ensures SumW(g, t, ls) == w + ls[|ls| - 1].c * y
    ensures GTo(ls, a) == s + if ls[|ls| - 1].src == From(a) then ls[|ls| - 1].c else 0.0
  {
    w, y, s := SumW(g, t, ls[..|ls| - 1]), Temp(g, t, ls[|ls| - 1].src), GTo(ls[..|ls| - 1], a);
  }

  lemma LastMoves(w: real, w': real, c: real, y: real, y': real, s: real, d: real, moved: bool)
    requires w' == w + s * d && y' == if moved then y + d else y
    ensures w' + c * y' == w + c * y + (s + if moved then c else 0.0) * d
  {
    if moved {
      MovedTerm(c, y, d);
      MoreG(s, c, d);
    } else {
      assert s + 0.0 == s;
    }
  }

  /** Changing one temperature moves a weighted sum by the conductance to its node times the change. */
  lemma {:induction false} SumMoves(g: Grid, t: Field, t': Field, ls: seq<Link>, a: Node, d: real)
    requires t'(a) == t(a) + d && forall b :: b != a ==> t'(b) == t(b)
    ensures SumW(g, t', ls) == SumW(g, t, ls) + GTo(ls, a) * d
    decreases |ls|
  {
    if ls != [] {
      var l := ls[|ls| - 1];
      SumMoves(g, t, t', ls[..|ls| - 1], a, d);
      var w, y, s := LastOfSums(g, t, ls, a);
      var w', y', _ := LastOfSums(g, t', ls, a);
      LastMoves(w, w', l.c, y, y', s, d, l.src == From(a));
    }
  }

  /** Imbalance and conductance to the nodes done, by name only. */
  datatype Gauge = Gauge(excess: (Field, Node) -> real, load: (Node, Node -> bool) -> real)

  ghost predicate Gauges(q: Gauge, g: Grid, net: Net, power: Field) {
    && (forall t: Field, a {:trigger Excess(g, net, t, power, a)} :: q.excess(t, a) == Excess(g, net, t, power, a))
    && (forall a, done: Node -> bool {:trigger GDone(net(a), done)} :: q.load(a, done) == GDone(net(a), done))
  }

  lemma GaugeOf(g: Grid, net: Net, power: Field) returns (q: Gauge)
    ensures Gauges(q, g, net, power)
  {
    q := Gauge((t: Field, a: Node) => Excess(g, net, t, power, a),
               (a: Node, done: Node -> bool) => GDone(net(a), done));
  }

  /** The imbalance of a is at most max times the conductance to the nodes done. */
  ghost predicate CloseAt(q: Gauge, t: Field, a: Node, done: Node -> bool, max: real) {
    Magnitude(q.excess(t, a)) <= max * q.load(a, done)
  }

  ghost predicate Close(g: Grid, q: Gauge, t: Field, done: Node -> bool, max: real) {
    forall a :: IsNode(g, a) && done(a) ==> CloseAt(q, t, a, done, max)
  }

  lemma ProductOrder(x: real, y: real, c: real)
    requires x <= y && c >= 0.0
    ensures x * c <= y * c
  {
    assert (y - x) * c == y * c - x * c;
  }

  lemma ProductBound(c: real, d: real, m: real)
    requires c >= 0.0 && Magnitude(d) <= m
    ensures Magnitude(c * d) <= m * c
  {
    ProductOrder(d, m, c);
    ProductOrder(-d, m, c);
    assert d * c == c * d && -d * c == -(c * d);
  }

  lemma Bounded(e: real, p: real, r: real, q: real)
    requires Magnitude(e) <= r && Magnitude(p) <= q
    ensures Magnitude(e + p) <= r + q
  {
  }

  /** A disturbance of c times d adds at most c times the larger change. */
  lemma Disturbed(e: real, max: real, max': real, s: real, c: real, d: real)
    requires Magnitude(e) <= max * s && s >= 0.0 && c >= 0.0 && max <= max' && Magnitude(d) <= max'
    ensures Magnitude(e + c * d) <= max' * (s + c)
  {
    ProductOrder(max, max', s);
    ProductBound(c, d, max');
    Bounded(e, c * d, max' * s, max' * c);
    MovedTerm(max', s, c);
  }

  /** t' is t with a change of d at a. */
  ghost predicate Shifted(t: Field, t': Field, a: Node, d: real) {
    t'(a) == t(a) + d && forall b :: b != a ==> t'(b) == t(b)
  }

  /** What a change of d at a does to the imbalance of another node. */
  lemma ExcessMoves(g: Grid, net: Net, power: Field, q: Gauge, t: Field, t': Field, a: Node, d: real, b: Node)
    returns (c: real)
    requires Gauges(q, g, net, power) && a != b && Shifted(t, t', a, d)
    ensures c == GTo(net(b), a) && q.excess(t', b) == q.excess(t, b) + c * d
  {
    var w, own := ExcessSplit(g, net, power, q, t, b);
    var w', own' := ExcessSplit(g, net, power, q, t', b);
    SumMoves(g, t, t', net(b), a, d);
    c := GTo(net(b), a);
  }

  lemma ExcessSplit(g: Grid, net: Net, power: Field, q: Gauge, t: Field, b: Node) returns (w: real, own: real)
    requires Gauges(q, g, net, power)
    ensures w == SumW(g, t, net(b)) && own == t(b) * SumG(net(b)) && q.excess(t, b) == power(b) + w - own
  {
    FlowsSplit(g, t, net(b), t(b));
    assert q.excess(t, b) == Excess(g, net, t, power, b);
    w, own := SumW(g, t, net(b)), t(b) * SumG(net(b));
  }

  /** What is left at a itself after it has been relaxed: nothing but what links to itself make. */
  lemma ExcessRelaxed(g: Grid, net: Net, power: Field, q: Gauge, t: Field, t': Field, a: Node, d: real)
    returns (c: real)
    requires Gauges(q, g, net, power) && Shifted(t, t', a, d) && Relaxed(g, net, t, power, a, t'(a))
    ensures c == GTo(net(a), a) && q.excess(t', a) == 0.0 + c * d
  {
    var w', own' := ExcessSplit(g, net, power, q, t', a);
    SumMoves(g, t, t', net(a), a, d);
    c := GTo(net(a), a);
  }

  lemma MoreDone(g: Grid, net: Net, power: Field, q: Gauge, b: Node, done: Node -> bool, done': Node -> bool, a: Node)
    requires Gauges(q, g, net, power) && SoundLinks(g, net(b)) && IsNode(g, a) && !done(a)
    requires OneMore(g, done, done', a)
    ensures q.load(b, done) >= 0.0 && GTo(net(b), a) >= 0.0
    ensures q.load(b, done') == q.load(b, done) + GTo(net(b), a)
  {
    GBounds(g, net(b), done, a);
    DoneGrows(g, net(b), done, done', a);
  }

  lemma ZeroBound(m: real, s: real)
    requires m >= 0.0 && s >= 0.0
    ensures Magnitude(0.0) <= m * s
  {
    ProductOrder(0.0, m, s);
  }

  /** A disturbance of c times d keeps a node close if c is added to its load. */
  lemma StaysClose(q: Gauge, t: Field, t': Field, b: Node, done: Node -> bool, done': Node -> bool, e: real, max: real,
                   max': real, c: real, d: real)
    requires Magnitude(e) <= max * q.load(b, done) && q.excess(t', b) == e + c * d
    requires q.load(b, done) >= 0.0 && c >= 0.0 && q.load(b, done') == q.load(b, done) + c
    requires max <= max' && Magnitude(d) <= max'
    ensures CloseAt(q, t', b, done', max')
  {
    Disturbed(e, max, max', q.load(b, done), c, d);
  }

  /** Relaxing one more node. */
  lemma {:induction false} CloseStep(g: Grid, net: Net, power: Field, q: Gauge, t: Field, t': Field,
                                     done: Node -> bool, done': Node -> bool, max: real, a: Node, d: real, max': real)
    requires Gauges(q, g, net, power) && SoundNet(g, net) && IsNode(g, a) && !done(a) && OneMore(g, done, done', a)
    requires Close(g, q, t, done, max) && Shifted(t, t', a, d) && Relaxed(g, net, t, power, a, t'(a))
    requires 0.0 <= max <= max' && Magnitude(d) <= max'
    ensures Close(g, q, t', done', max')
  {
    forall b | IsNode(g, b) && done'(b)
      ensures CloseAt(q, t', b, done', max')
    {
      MoreDone(g, net, power, q, b, done, done', a);
      if b == a {
        var c := ExcessRelaxed(g, net, power, q, t, t', a, d);
        ZeroBound(max', q.load(b, done));
        StaysClose(q, t, t', b, done, done', 0.0, max', max', c, d);
      } else {
        assert CloseAt(q, t, b, done, max);
        var c := ExcessMoves(g, net, power, q, t, t', a, d, b);
        StaysClose(q, t, t', b, done, done', q.excess(t, b), max, max', c, d);
      }
    }
  }

  lemma {:induction false} DoneSame(g: Grid, ls: seq<Link>, done: Node -> bool, done': Node -> bool)
    requires SoundLinks(g, ls) && forall a :: IsNode(g, a) ==> (done(a) <==> done'(a))
    ensures GDone(ls, done) == GDone(ls, done')
    decreases |ls|
  {
    if ls != [] {
      assert SoundLink(g, ls[|ls| - 1]);
      DoneSame(g, ls[..|ls| - 1], done, done');
    }
  }

  lemma {:induction false} CloseSame(g: Grid, net: Net, power: Field, q: Gauge, t: Field, done: Node -> bool,
                                     done': Node -> bool, max: real)
    requires Gauges(q, g, net, power) && SoundNet(g, net) && Close(g, q, t, done, max)
    requires forall a :: IsNode(g, a) ==> (done(a) <==> done'(a))
    ensures Close(g, q, t, done', max)
  {
    forall a | IsNode(g, a) && done'(a)
      ensures CloseAt(q, t, a, done', max)
    {
      DoneSame(g, net(a), done, done');
      assert q.load(a, done) == GDone(net(a), done) && q.load(a, done') == GDone(net(a), done');
      assert CloseAt(q, t, a, done, max);
    }
  }

  /** No node is out of balance by more than d times its conductance. */
  ghost predicate WithinAt(g: Grid, net: Net, t: Field, power: Field, d: real, a: Node) {
    Magnitude(Excess(g, net, t, power, a)) <= d * SumG(net(a))
  }

  ghost predicate Within(g: Grid, net: Net, t: Field, power: Field, d: real) {
    forall a :: IsNode(g, a) ==> WithinAt(g, net, t, power, d, a)
  }

  lemma WiderBound(e: real, max: real, s: real, s': real)
    requires Magnitude(e) <= max * s && s <= s' && max >= 0.0
    ensures Magnitude(e) <= max * s'
  {
    ProductOrder(s, s', max);
    Commutes(s, max);
    Commutes(s', max);
  }

  lemma CloseAtIsWithin(g: Grid, net: Net, power: Field, q: Gauge, t: Field, done: Node -> bool, max: real, a: Node)
    requires Gauges(q, g, net, power) && SoundLinks(g, net(a)) && CloseAt(q, t, a, done, max) && max >= 0.0
    ensures WithinAt(g, net, t, power, max, a)
  {
    assert q.load(a, done) == GDone(net(a), done);
    GBounds(g, net(a), done, a);
    WiderBound(q.excess(t, a), max, q.load(a, done), SumG(net(a)));
    assert q.excess(t, a) == Excess(g, net, t, power, a);
  }

  lemma {:induction false} CloseIsWithin(g: Grid, net: Net, power: Field, q: Gauge, t: Field, done: Node -> bool,
                                         max: real)
    requires Gauges(q, g, net, power) && SoundNet(g, net) && Close(g, q, t, done, max)
    requires max >= 0.0 && forall a :: IsNode(g, a) ==> done(a)
    ensures Within(g, net, t, power, max)
  {
    forall a | IsNode(g, a)
      ensures WithinAt(g, net, t, power, max, a)
    {
      assert CloseAt(q, t, a, done, max);
      CloseAtIsWithin(g, net, power, q, t, done, max, a);
    }
  }

  lemma Commutes(x: real, y: real)
    ensures x * y == y * x
  {
  }

  lemma WithinNothingAt(g: Grid, net: Net, t: Field, power: Field, a: Node)
    ensures WithinAt(g, net, t, power, 0.0, a) <==> Balanced(g, net, t, power, a)
  {
    assert 0.0 * SumG(net(a)) == 0.0;
  }

  /** Within nothing is balance. */
  lemma WithinNothing(g: Grid, net: Net, t: Field, power: Field)
    ensures Within(g, net, t, power, 0.0) <==> forall a :: IsNode(g, a) ==> Balanced(g, net, t, power, a)
  {
    forall a | IsNode(g, a)
      ensures WithinAt(g, net, t, power, 0.0, a) <==> Balanced(g, net, t, power, a)
    {
      WithinNothingAt(g, net, t, power, a);
    }
  }

  /** A smaller bound implies a larger one. */
  lemma WithinMore(g: Grid, net: Net, t: Field, power: Field, d: real, d': real)
    requires SoundNet(g, net) && Within(g, net, t, power, d) && d <= d'
    ensures Within(g, net, t, power, d')
  {
    forall a | IsNode(g, a)
      ensures WithinAt(g, net, t, power, d', a)
    {
      assert WithinAt(g, net, t, power, d, a);
      ConductancePositive(g, net(a));
      ProductOrder(d, d', SumG(net(a)));
    }
  }
}
