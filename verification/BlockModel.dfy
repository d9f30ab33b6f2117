/** The block thermal model: conductance matrix, its decomposition and the steady state. */
module BlockModel {
  import opened Vectors
  import opened Elimination
  import opened LinearSystems
  import opened Lup
  import opened LupSolve
  import opened Networks
  import opened ChipConductances
  import opened BlockNetwork
  import opened BlockMatrix

  // ---------- the links form a grounded network ----------

  ghost predicate Conducts(ls: Links, n: nat) {
    && (forall l, i, j :: 0 <= l < NL && 0 <= i < n && 0 <= j < n ==> ls.lateral(l, i, j) >= 0.0)
    && (forall l, i :: 0 <= l < HSINK && 0 <= i < n ==> ls.vertical(l, i) > 0.0)
    && (forall l, k, i :: HSP <= l <= HSINK && 0 <= k < 4 && 0 <= i < n ==> ls.package(l, k, i) >= 0.0)
    && (forall k :: 0 <= k < 4 ==> ls.down(k) > 0.0)
    && (forall k :: 0 <= k < 4 ==> ls.outward(k) > 0.0)
    && (forall i :: 0 <= i < n ==> ls.blockAmb(i) > 0.0)
    && (forall k :: 0 <= k < 4 ==> ls.innerAmb(k) > 0.0)
    && ls.outerAmb > 0.0
  }

  lemma ConductanceNonNegative(ls: Links, n: nat, a: Node, b: Node)
    requires Conducts(ls, n) && IsNode(n, a) && IsNode(n, b)
    ensures Conductance(ls, a, b) >= 0.0
  {
  }

  /** The next node on the way down to ambient. */
  function NextDown(a: Node): Node {
    if a.Block? then if a.layer < HSINK then Block(a.layer + 1, a.unit) else a
    else if a.k < SINK_C then Extra(a.k + 4) else a
  }

  function Height(a: Node): nat {
    if a.Block? then if a.layer < HSINK then HSINK - a.layer else 0
    else if a.k < SINK_C then 1 else 0
  }

  lemma WayDown(ls: Links, n: nat, a: Node)
    requires Conducts(ls, n) && IsNode(n, a)
    ensures IsNode(n, NextDown(a)) && ToAmbient(ls, a) >= 0.0
    ensures ToAmbient(ls, a) > 0.0
            || (Conductance(ls, a, NextDown(a)) > 0.0 && Conductance(ls, NextDown(a), a) > 0.0
                && Height(NextDown(a)) < Height(a) && NextDown(a) != a)
  {
  }

  ghost function AmbientVector(ls: Links, n: nat): (v: Vec)
    ensures |v| == Nodes(n) && forall r :: 0 <= r < Nodes(n) ==> v[r] == ToAmbient(ls, NodeAt(n, r))
  {
    seq(Nodes(n), r requires 0 <= r < Nodes(n) => ToAmbient(ls, NodeAt(n, r)))
  }

  ghost function Heights(n: nat): (v: seq<nat>)
    ensures |v| == Nodes(n) && forall r :: 0 <= r < Nodes(n) ==> v[r] == Height(NodeAt(n, r))
  {
    seq(Nodes(n), r requires 0 <= r < Nodes(n) => Height(NodeAt(n, r)))
  }

  ghost function Hops(n: nat): (v: seq<nat>)
    ensures |v| == Nodes(n)
    ensures forall r :: 0 <= r < Nodes(n) && IsNode(n, NextDown(NodeAt(n, r))) ==>
              v[r] == IndexOf(n, NextDown(NodeAt(n, r)))
  {
    seq(Nodes(n), r requires 0 <= r < Nodes(n) => if IsNode(n, NextDown(NodeAt(n, r))) then
        IndexOf(n, NextDown(NodeAt(n, r))) else 0)
  }

  /** b has the links between the conductances g, and its rows sum up to amb. */
  ghost predicate IsB(b: seq<Vec>, g: seq<Vec>, amb: Vec, m: nat) {
    && Square(b, m) && Square(g, m) && |amb| == m && NonNegativeEntries(g, m)
    && (forall i, j :: 0 <= i < m && 0 <= j < m && i != j ==> b[i][j] == Link(g, m, i, j))
    && (forall i :: 0 <= i < m ==> Sum(b[i], m) == amb[i])
  }

  ghost predicate IsG(g: seq<Vec>, ls: Links, n: nat) {
    && Square(g, Nodes(n))
    && forall r, c :: 0 <= r < Nodes(n) && 0 <= c < Nodes(n) ==> g[r][c] == Conductance(ls, NodeAt(n, r), NodeAt(n, c))
  }

  lemma EntriesNonNegative(g: seq<Vec>, ls: Links, n: nat)
    requires Conducts(ls, n) && IsG(g, ls, n)
    ensures NonNegativeEntries(g, Nodes(n))
  {
    forall r, c | 0 <= r < Nodes(n) && 0 <= c < Nodes(n)
      ensures g[r][c] >= 0.0
    {
      NodesAndIndices(n, Extra(0), r);
      NodesAndIndices(n, Extra(0), c);
      ConductanceNonNegative(ls, n, NodeAt(n, r), NodeAt(n, c));
    }
  }

  lemma AmbientNonNegative(ls: Links, n: nat, r: nat)
    requires Conducts(ls, n) && r < Nodes(n)
    ensures AmbientVector(ls, n)[r] >= 0.0
  {
    NodesAndIndices(n, Extra(0), r);
    WayDown(ls, n, NodeAt(n, r));
  }

  lemma BIsNetwork(b: seq<Vec>, g: seq<Vec>, ls: Links, n: nat)
    requires Conducts(ls, n) && IsB(b, g, AmbientVector(ls, n), Nodes(n))
    ensures IsNetwork(b, AmbientVector(ls, n), Nodes(n))
  {
    forall r | 0 <= r < Nodes(n)
      ensures AmbientVector(ls, n)[r] >= 0.0
    {
      AmbientNonNegative(ls, n, r);
    }
  }

  lemma OneHop(b: seq<Vec>, g: seq<Vec>, ls: Links, n: nat, r: nat)
    requires Conducts(ls, n) && IsB(b, g, AmbientVector(ls, n), Nodes(n)) && IsG(g, ls, n) && r < Nodes(n)
    ensures Hops(n)[r] < Nodes(n) && Hop(b, AmbientVector(ls, n), Nodes(n), Heights(n), r, Hops(n)[r])
  {
    var a := NodeAt(n, r);
    NodesAndIndices(n, a, r);
    WayDown(ls, n, a);
    NodesAndIndices(n, NextDown(a), r);
    var c := Hops(n)[r];
    if ToAmbient(ls, a) <= 0.0 {
      assert g[r][c] > 0.0 && g[c][r] > 0.0;
      assert b[r][c] == Link(g, Nodes(n), r, c);
    }
  }

  /** From every node heat finds its way to ambient: silicon to interface to spreader to sink. */
  lemma BIsGrounded(b: seq<Vec>, g: seq<Vec>, ls: Links, n: nat)
    requires Conducts(ls, n) && IsB(b, g, AmbientVector(ls, n), Nodes(n)) && IsG(g, ls, n)
    ensures Grounded(b, AmbientVector(ls, n), Nodes(n), Heights(n), Hops(n))
  {
    forall r | 0 <= r < Nodes(n)
      ensures Hops(n)[r] < Nodes(n) && Hop(b, AmbientVector(ls, n), Nodes(n), Heights(n), r, Hops(n)[r])
    {
      OneHop(b, g, ls, n, r);
    }
  }

  // ---------- the links of a chip ----------

  /** All conductances of a chip, by name. */
  function LinksOf(c: Chip): Links
    requires Sane(c)
  {
    var n := |c.units|;
    Links((l: nat, i: nat, j: nat) => if l < NL && i < n && j < n then Lateral(c, l, i, j) else 0.0,
          (l: nat, i: nat) => if l < HSINK && i < n then Vertical(c, l, i) else 0.0,
          (l: nat, k: nat, i: nat) => if (l == HSP || l == HSINK) && i < n then ToPackage(c, l, k, i) else 0.0,
          (k: nat) => SpreaderToSink(c, k),
          (k: nat) => SinkToOuter(c, k),
          (i: nat) => if i < n then BlockToAmbient(c, i) else 0.0,
          (k: nat) => InnerToAmbient(c, k),
          OuterToAmbient(c))
  }

  lemma ChipConducts(c: Chip)
    requires Sane(c)
    ensures Conducts(LinksOf(c), |c.units|)
  {
  }

  // ---------- the model ----------

  class Model {
    const g: array2<real>
    const b: array2<real>
    const lu: array2<real>
    const gAmb: array<real>
    const p: array<nat>

    /** The buffers are separate and sized for n blocks. */
    ghost predicate Allocated(n: nat) {
      && Sized(g, n) && Sized(b, n) && Sized(lu, n) && g != b && g != lu && b != lu
      && gAmb.Length == n + EXTRA && p.Length == Nodes(n)
    }

    constructor (n: nat)
      ensures Allocated(n) && fresh(g) && fresh(b) && fresh(lu) && fresh(gAmb) && fresh(p)
    {
      g := new real[Nodes(n), Nodes(n)];
      b := new real[Nodes(n), Nodes(n)];
      lu := new real[Nodes(n), Nodes(n)];
      gAmb := new real[n + EXTRA];
      p := new nat[Nodes(n)];
    }
  }

  method FillDiagonal(b: array2<real>, gAmb: array<real>, ls: Links, n: nat, ghost g: seq<Vec>)
    requires Sized(b, n) && Ambients(gAmb, ls, n) && Square(g, Nodes(n)) && NonNegativeEntries(g, Nodes(n))
    requires Linked(b, g, Nodes(n), Nodes(n))
    modifies b
    ensures IsB(Rows(b), g, AmbientVector(ls, n), Nodes(n))
  {
    ghost var amb := AmbientVector(ls, n);
    for i := 0 to Nodes(n)
      invariant Linked(b, g, Nodes(n), Nodes(n))
      invariant forall r :: 0 <= r < i ==> Sum(Rows(b)[r], Nodes(n)) == amb[r]
    {
      var x := AmbientAt(gAmb, ls, n, i);
      ghost var before := Rows(b);
      SumLinks(b, i, x);
      assert forall r :: 0 <= r < i ==> Rows(b)[r] == before[r];
    }
  }

  method CopyMatrix(to: array2<real>, from: array2<real>)
    requires IsSquare(to) && IsSquare(from) && to.Length0 == from.Length0 && to != from
    modifies to
    ensures Rows(to) == Rows(from)
  {
    for i := 0 to to.Length0
      invariant forall r, c :: 0 <= r < i && 0 <= c < to.Length0 ==> to[r, c] == from[r, c]
    {
      for j := 0 to to.Length0
        invariant forall r, c :: 0 <= r < i && 0 <= c < to.Length0 ==> to[r, c] == from[r, c]
        invariant forall c :: 0 <= c < j ==> to[i, c] == from[i, c]
      {
        to[i, j] := from[i, j];
      }
    }
    SameRows(to, Rows(from));
  }

  /** Matrix b of the network with the given links. */
  method FillB(g: array2<real>, b: array2<real>, gAmb: array<real>, ls: Links, n: nat) returns (ghost m: seq<Vec>)
    requires Sized(g, n) && Sized(b, n) && g != b && gAmb.Length == n + EXTRA && Conducts(ls, n)
    modifies g, b, gAmb
    ensures Ambients(gAmb, ls, n) && IsG(m, ls, n) && IsB(Rows(b), m, AmbientVector(ls, n), Nodes(n))
  {
    FillConductances(g, ls, n);
    FillAmbients(gAmb, ls, n);
    m := Rows(g);
    assert IsG(m, ls, n);
    EntriesNonNegative(m, ls, n);
    LinkAll(b, g, m, Nodes(n));
    FillDiagonal(b, gAmb, ls, n, m);
  }

  /** A decomposition of o with nonzero pivots. */
  ghost predicate Solvable(o: seq<Vec>, lu: array2<real>, p: array<nat>, m: nat)
    reads lu, p
  {
    && IsSquare(lu) && lu.Length0 == p.Length == m
    && Stage(o, p[..], Rows(lu), m, m) && NonzeroPivots(Rows(lu), m, m)
  }

  /** The decomposition of a regular matrix never runs out of pivots. */
  method DecomposeRegular(lu: array2<real>, p: array<nat>, b: array2<real>, ghost o: seq<Vec>)
    requires IsSquare(lu) && IsSquare(b) && lu.Length0 == b.Length0 == p.Length > 0 && lu != b
    requires o == Rows(b) && TrivialKernel(o, p.Length)
    modifies lu, p
    ensures Solvable(o, lu, p, p.Length)
  {
    CopyMatrix(lu, b);
    RegularIsIndependent(o, p.Length);
    var ok := Decompose(lu, p);
    AllPivots(Rows(lu), p.Length);
  }

  /** b is the network's matrix and lu with p its decomposition. */
  ghost predicate Prepared(model: Model, ls: Links, n: nat, g: seq<Vec>)
    requires model.Allocated(n)
    reads model.b, model.lu, model.gAmb, model.p
  {
    && Ambients(model.gAmb, ls, n) && IsG(g, ls, n) && IsB(Rows(model.b), g, AmbientVector(ls, n), Nodes(n))
    && Solvable(Rows(model.b), model.lu, model.p, Nodes(n))
  }

  lemma BIsRegular(b: seq<Vec>, g: seq<Vec>, ls: Links, n: nat)
    requires Conducts(ls, n) && IsB(b, g, AmbientVector(ls, n), Nodes(n)) && IsG(g, ls, n)
    ensures TrivialKernel(b, Nodes(n))
  {
    BIsNetwork(b, g, ls, n);
    BIsGrounded(b, g, ls, n);
    NetworkIsRegular(b, AmbientVector(ls, n), Nodes(n), Heights(n), Hops(n));
  }

  /** Fills and decomposes the matrix. It cannot fail: the matrix is regular. */
  method Populate(model: Model, ls: Links, n: nat) returns (ghost g: seq<Vec>)
    requires model.Allocated(n) && Conducts(ls, n)
    modifies model.g, model.b, model.lu, model.gAmb, model.p
    ensures Prepared(model, ls, n, g)
  {
    g := FillB(model.g, model.b, model.gAmb, ls, n);
    ghost var o := Rows(model.b);
    BIsRegular(o, g, ls, n);
    DecomposeRegular(model.lu, model.p, model.b, o);
  }
}
