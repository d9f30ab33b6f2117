/** A sweep node by node: each in its turn is set to what balances it with the values its neighbours
    have by then. */
module SweepTurns {
  import opened GridNetwork
  import opened GridSweep
  import opened NearBalance

  /** Node a is relaxed, and changes by d. */
  ghost predicate Turn(g: Grid, net: Net, power: Field, t: Field, t': Field, a: Node, d: real) {
    exists x :: TurnTo(g, net, power, t, t', a, d, x)
  }

  ghost predicate TurnTo(g: Grid, net: Net, power: Field, t: Field, t': Field, a: Node, d: real, x: real) {
    Relaxed(g, net, t, power, a, x) && t' == Set(t, a, x) && d == Magnitude(t(a) - x)
  }

  /** The nodes in the order of their turns, the field before and after each, and the changes. */
  datatype Log = Log(nodes: seq<Node>, fields: seq<Field>, changes: seq<real>)

  ghost predicate AreTurns(g: Grid, net: Net, power: Field, l: Log) {
    && |l.fields| == |l.nodes| + 1 && |l.changes| == |l.nodes|
    && forall i :: 0 <= i < |l.nodes| ==>
                     Turn(g, net, power, l.fields[i], l.fields[i + 1], l.nodes[i], l.changes[i])
  }

  /** Each of the given nodes has had one turn. */
  ghost predicate OneTurnEach(g: Grid, nodes: seq<Node>, done: Node -> bool) {
    && (forall i, j :: 0 <= i < j < |nodes| ==> nodes[i] != nodes[j])
    && (forall i :: 0 <= i < |nodes| ==> IsNode(g, nodes[i]))
    && forall a :: IsNode(g, a) ==> (done(a) <==> a in nodes)
  }

  ghost predicate Largest(changes: seq<real>, max: real) {
    && (forall i :: 0 <= i < |changes| ==> changes[i] <= max)
    && if changes == [] then max == 0.0 else max in changes
  }

  ghost predicate Logged(g: Grid, net: Net, power: Field, t0: Field, t: Field, done: Node -> bool, max: real, l: Log) {
    && AreTurns(g, net, power, l) && l.fields[0] == t0 && l.fields[|l.nodes|] == t
    && OneTurnEach(g, l.nodes, done) && Largest(l.changes, max)
  }

  /** From t0 the done nodes have been relaxed in turn, giving t, and max is the largest change. */
  ghost predicate InTurn(g: Grid, net: Net, power: Field, t0: Field, t: Field, done: Node -> bool, max: real) {
    exists l :: Logged(g, net, power, t0, t, done, max, l)
  }

  lemma NoTurns(g: Grid, net: Net, power: Field, t: Field, none: Node -> bool)
    requires forall a :: IsNode(g, a) ==> !none(a)
    ensures InTurn(g, net, power, t, t, none, 0.0)
  {
    assert Logged(g, net, power, t, t, none, 0.0, Log([], [t], []));
  }

  lemma SameTurns(g: Grid, net: Net, power: Field, t0: Field, t: Field, done: Node -> bool, done': Node -> bool,
                  max: real)
    requires InTurn(g, net, power, t0, t, done, max) && forall a :: IsNode(g, a) ==> (done(a) <==> done'(a))
    ensures InTurn(g, net, power, t0, t, done', max)
  {
    var l :| Logged(g, net, power, t0, t, done, max, l);
    assert Logged(g, net, power, t0, t, done', max, l);
  }

  lemma LargestGrows(changes: seq<real>, max: real, d: real)
    requires Largest(changes, max) && d >= 0.0
    ensures Largest(changes + [d], Larger(max, d))
  {
    var more := changes + [d];
    assert more[|changes|] == d;
    assert forall i :: 0 <= i < |changes| ==> more[i] == changes[i];
    if changes != [] && max >= d {
      var i :| 0 <= i < |changes| && changes[i] == max;
      assert more[i] == max;
    }
  }

  lemma TurnsGrow(g: Grid, net: Net, power: Field, l: Log, a: Node, t': Field, d: real)
    requires AreTurns(g, net, power, l) && Turn(g, net, power, l.fields[|l.nodes|], t', a, d)
    ensures AreTurns(g, net, power, Log(l.nodes + [a], l.fields + [t'], l.changes + [d]))
  {
    var m := Log(l.nodes + [a], l.fields + [t'], l.changes + [d]);
    forall i | 0 <= i < |m.nodes|
      ensures Turn(g, net, power, m.fields[i], m.fields[i + 1], m.nodes[i], m.changes[i])
    {
      if i < |l.nodes| {
        assert Turn(g, net, power, l.fields[i], l.fields[i + 1], l.nodes[i], l.changes[i]);
      }
    }
  }

  lemma EachGrows(g: Grid, nodes: seq<Node>, done: Node -> bool, done': Node -> bool, a: Node)
    requires OneTurnEach(g, nodes, done) && IsNode(g, a) && !done(a) && OneMore(g, done, done', a)
    ensures OneTurnEach(g, nodes + [a], done')
  {
    assert a !in nodes;
  }

  /** One more node has its turn. */
  lemma NextTurn(g: Grid, net: Net, power: Field, t0: Field, t: Field, done: Node -> bool, done': Node -> bool,
                 max: real, a: Node, x: real)
    requires InTurn(g, net, power, t0, t, done, max)
    requires IsNode(g, a) && !done(a) && OneMore(g, done, done', a) && Relaxed(g, net, t, power, a, x)
    ensures InTurn(g, net, power, t0, Set(t, a, x), done', Larger(max, Magnitude(t(a) - x)))
  {
    var l :| Logged(g, net, power, t0, t, done, max, l);
    var t', d := Set(t, a, x), Magnitude(t(a) - x);
    assert TurnTo(g, net, power, t, t', a, d, x);
    TurnsGrow(g, net, power, l, a, t', d);
    EachGrows(g, l.nodes, done, done', a);
    LargestGrows(l.changes, max, d);
    assert Logged(g, net, power, t0, t', done', Larger(max, d), Log(l.nodes + [a], l.fields + [t'], l.changes + [d]));
  }
}
