/** Filling the conductance matrix g of the block model. */
module BlockNetwork {
  import opened ChipConductances

  /** The conductances by name: laterally in a layer, down from a layer, from a layer to a
      side's package node, from spreader to inner sink and on to the outer sink on each side,
      and to ambient. */
  datatype Links = Links(lateral: (nat, nat, nat) -> real, vertical: (nat, nat) -> real,
                         package: (nat, nat, nat) -> real, down: nat -> real, outward: nat -> real,
                         blockAmb: nat -> real, innerAmb: nat -> real, outerAmb: real)

  datatype Node = Block(layer: nat, unit: nat) | Extra(k: nat)

  function Nodes(n: nat): nat {
    NL * n + EXTRA
  }

  function NodeAt(n: nat, r: nat): Node {
    if r < n then Block(0, r) else if r < 2 * n then Block(IFACE, r - n)
    else if r < 3 * n then Block(HSP, r - 2 * n) else if r < 4 * n then Block(HSINK, r - 3 * n)
    else Extra(r - 4 * n)
  }

  /** g between two nodes, as seen from the first. */
  function Conductance(ls: Links, a: Node, b: Node): real {
    if a.Block? && b.Block? then
      if a.layer == b.layer then ls.lateral(a.layer, a.unit, b.unit)
      else if a.unit == b.unit && b.layer == a.layer + 1 then ls.vertical(a.layer, a.unit)
      else if a.unit == b.unit && a.layer == b.layer + 1 then ls.vertical(b.layer, a.unit)
      else 0.0
    else if a.Block? then BlockToExtra(ls, a, b.k)
    else if b.Block? then BlockToExtra(ls, b, a.k)
    else if b.k == a.k + 4 then ExtraToExtra(ls, a.k)
    else if a.k == b.k + 4 then ExtraToExtra(ls, b.k)
    else 0.0
  }

  function BlockToExtra(ls: Links, a: Node, k: nat): real
    requires a.Block?
  {
    if a.layer == HSP && k < SINK_C then ls.package(HSP, k, a.unit)
    else if a.layer == HSINK && SINK_C <= k < SINK then ls.package(HSINK, k - SINK_C, a.unit)
    else 0.0
  }

  /** Spreader node k down to the inner sink, or inner sink node k out to the outer sink. */
  function ExtraToExtra(ls: Links, k: nat): real {
    if k < SINK_C then ls.down(k) else if k < SINK then ls.outward(k - SINK_C) else 0.0
  }

  predicate IsNode(n: nat, a: Node) {
    if a.Block? then a.layer < NL && a.unit < n else a.k < EXTRA
  }

  function IndexOf(n: nat, a: Node): nat
    requires IsNode(n, a)
  {
    if a.Extra? then NL * n + a.k
    else if a.layer == 0 then a.unit
    else if a.layer == IFACE then IFACE * n + a.unit
    else if a.layer == HSP then HSP * n + a.unit
    else HSINK * n + a.unit
  }

  lemma NodesAndIndices(n: nat, a: Node, r: nat)
    requires IsNode(n, a) && r < Nodes(n)
    ensures IndexOf(n, a) < Nodes(n) && NodeAt(n, IndexOf(n, a)) == a
    ensures IsNode(n, NodeAt(n, r)) && IndexOf(n, NodeAt(n, r)) == r
  {
  }

  ghost predicate Sized(g: array2<real>, n: nat) {
    g.Length0 == g.Length1 == Nodes(n)
  }

  // ---------- which entries have been written ----------

  /** How far filling has come: the blocks before i are done and block i's lateral entries
      (up to block j, and there up to layer l), its vertical entries up to layer l, the first m
      of its package entries; or all blocks and the first m links between package nodes. */
  datatype Part =
    | Laterals(i: nat, j: nat, l: nat)
    | Verticals(i: nat, l: nat)
    | Packages(i: nat, m: nat)
    | Sides(m: nat)

  /** Sides are written north, south, east, west. */
  function Turn(side: nat): nat {
    if side == NORTH then 0 else if side == SOUTH then 1 else if side == EAST then 2 else 3
  }

  function SideOf(turn: nat): nat {
    if turn == 0 then NORTH else if turn == 1 then SOUTH else if turn == 2 then EAST else WEST
  }

  predicate Owned(a: Node, b: Node, i: nat) {
    if a.Block? then a.unit < i else b.Block? && b.unit < i
  }

  predicate IsLateral(a: Node, b: Node, i: nat) {
    a.Block? && b.Block? && a.layer == b.layer && a.unit == i
  }

  predicate IsVertical(a: Node, b: Node, i: nat, l: nat) {
    && a.Block? && b.Block? && a.unit == b.unit == i
    && ((b.layer == a.layer + 1 && a.layer < l) || (a.layer == b.layer + 1 && b.layer < l))
  }

  /** a is a block with a package entry at extra node k among the first m. */
  predicate IsPackage(a: Node, k: nat, i: nat, m: nat) {
    && a.Block? && a.unit == i
    && ((a.layer == HSP && k < SINK_C && Turn(k) < m)
        || (a.layer == HSINK && SINK_C <= k < SINK && 4 + Turn(k - SINK_C) < m))
  }

  predicate IsSide(j: nat, k: nat, m: nat) {
    k == j + 4 && ((j < SINK_C && Turn(j) < m) || (SINK_C <= j < SINK && 4 + Turn(j - SINK_C) < m))
  }

  predicate Written(p: Part, a: Node, b: Node) {
    match p
    case Laterals(i, j, l) => Owned(a, b, i) || (IsLateral(a, b, i) && (b.unit < j || (b.unit == j && b.layer < l)))
    case Verticals(i, l) => Owned(a, b, i) || IsLateral(a, b, i) || IsVertical(a, b, i, l)
    case Packages(i, m) =>
      || Owned(a, b, i) || IsLateral(a, b, i) || IsVertical(a, b, i, HSINK)
      || (b.Extra? && IsPackage(a, b.k, i, m)) || (a.Extra? && IsPackage(b, a.k, i, m))
    case Sides(m) => a.Block? || b.Block? || IsSide(a.k, b.k, m) || IsSide(b.k, a.k, m)
  }

  function Value(ls: Links, p: Part, a: Node, b: Node): real {
    if Written(p, a, b) then Conductance(ls, a, b) else 0.0
  }

  /** The written entries hold their conductance and all others are 0. */
  ghost function Values(ls: Links, p: Part): (Node, Node) -> real {
    (a, b) => Value(ls, p, a, b)
  }

  ghost predicate Filled(g: array2<real>, n: nat, v: (Node, Node) -> real)
    requires Sized(g, n)
    reads g
  {
    forall r, c :: 0 <= r < Nodes(n) && 0 <= c < Nodes(n) ==> g[r, c] == v(NodeAt(n, r), NodeAt(n, c))
  }

  /** v and w differ only between a and b. */
  ghost predicate OnlyBetween(n: nat, v: (Node, Node) -> real, w: (Node, Node) -> real, a: Node, b: Node) {
    forall x, y :: IsNode(n, x) && IsNode(n, y) && !(x == a && y == b) && !(x == b && y == a) ==> v(x, y) == w(x, y)
  }

  /** Writes a conductance between two nodes in both directions. */
  method Connect(g: array2<real>, n: nat, a: Node, b: Node, x: real, ghost v: (Node, Node) -> real,
                 ghost w: (Node, Node) -> real)
    requires Sized(g, n) && IsNode(n, a) && IsNode(n, b) && Filled(g, n, v) && OnlyBetween(n, v, w, a, b)
    requires w(a, b) == x && w(b, a) == x
    modifies g
    ensures Filled(g, n, w)
  {
    var r, c := IndexOf(n, a), IndexOf(n, b);
    NodesAndIndices(n, a, r);
    NodesAndIndices(n, b, c);
    g[r, c], g[c, r] := x, x;
    forall r', c' | 0 <= r' < Nodes(n) && 0 <= c' < Nodes(n)
      ensures g[r', c'] == w(NodeAt(n, r'), NodeAt(n, c'))
    {
      NodesAndIndices(n, a, r');
      NodesAndIndices(n, a, c');
    }
  }

  /** The same in one direction. */
  method Put(g: array2<real>, n: nat, a: Node, b: Node, x: real, ghost v: (Node, Node) -> real,
             ghost w: (Node, Node) -> real)
    requires Sized(g, n) && IsNode(n, a) && IsNode(n, b) && Filled(g, n, v)
    requires w(a, b) == x
    requires forall x, y :: IsNode(n, x) && IsNode(n, y) && !(x == a && y == b) ==> v(x, y) == w(x, y)
    modifies g
    ensures Filled(g, n, w)
  {
    var r, c := IndexOf(n, a), IndexOf(n, b);
    NodesAndIndices(n, a, r);
    NodesAndIndices(n, b, c);
    g[r, c] := x;
    forall r', c' | 0 <= r' < Nodes(n) && 0 <= c' < Nodes(n)
      ensures g[r', c'] == w(NodeAt(n, r'), NodeAt(n, c'))
    {
      NodesAndIndices(n, a, r');
      NodesAndIndices(n, a, c');
    }
  }

  // ---------- filling ----------

  /** Block i's lateral entry to block j in one layer. */
  method FillLateral(g: array2<real>, ls: Links, n: nat, i: nat, j: nat, l: nat)
    requires Sized(g, n) && i < n && j < n && l < NL && Filled(g, n, Values(ls, Laterals(i, j, l)))
    modifies g
    ensures Filled(g, n, Values(ls, Laterals(i, j, l + 1)))
  {
    Put(g, n, Block(l, i), Block(l, j), ls.lateral(l, i, j), Values(ls, Laterals(i, j, l)),
        Values(ls, Laterals(i, j, l + 1)));
  }

  /** Between block i's nodes in layers l and l + 1. */
  method FillVertical(g: array2<real>, ls: Links, n: nat, i: nat, l: nat)
    requires Sized(g, n) && i < n && l < HSINK && Filled(g, n, Values(ls, Verticals(i, l)))
    modifies g
    ensures Filled(g, n, Values(ls, Verticals(i, l + 1)))
  {
    Connect(g, n, Block(l, i), Block(l + 1, i), ls.vertical(l, i), Values(ls, Verticals(i, l)),
            Values(ls, Verticals(i, l + 1)));
  }

  /** Between block i in the spreader and the package node on the side whose turn it is. */
  method FillSpreader(g: array2<real>, ls: Links, n: nat, i: nat, m: nat)
    requires Sized(g, n) && i < n && m < 4 && Filled(g, n, Values(ls, Packages(i, m)))
    modifies g
    ensures Filled(g, n, Values(ls, Packages(i, m + 1)))
  {
    Connect(g, n, Block(HSP, i), Extra(SP + SideOf(m)), ls.package(HSP, SideOf(m), i),
            Values(ls, Packages(i, m)), Values(ls, Packages(i, m + 1)));
  }

  method FillSink(g: array2<real>, ls: Links, n: nat, i: nat, m: nat)
    requires Sized(g, n) && i < n && m < 4 && Filled(g, n, Values(ls, Packages(i, 4 + m)))
    modifies g
    ensures Filled(g, n, Values(ls, Packages(i, 4 + m + 1)))
  {
    Connect(g, n, Block(HSINK, i), Extra(SINK_C + SideOf(m)), ls.package(HSINK, SideOf(m), i),
            Values(ls, Packages(i, 4 + m)), Values(ls, Packages(i, 4 + m + 1)));
  }

  method FillDown(g: array2<real>, ls: Links, n: nat, m: nat)
    requires Sized(g, n) && m < 4 && Filled(g, n, Values(ls, Sides(m)))
    modifies g
    ensures Filled(g, n, Values(ls, Sides(m + 1)))
  {
    Connect(g, n, Extra(SP + SideOf(m)), Extra(SINK_C + SideOf(m)), ls.down(SideOf(m)),
            Values(ls, Sides(m)), Values(ls, Sides(m + 1)));
  }

  method FillOutward(g: array2<real>, ls: Links, n: nat, m: nat)
    requires Sized(g, n) && m < 4 && Filled(g, n, Values(ls, Sides(4 + m)))
    modifies g
    ensures Filled(g, n, Values(ls, Sides(4 + m + 1)))
  {
    Connect(g, n, Extra(SINK_C + SideOf(m)), Extra(SINK + SideOf(m)), ls.outward(SideOf(m)),
            Values(ls, Sides(4 + m)), Values(ls, Sides(4 + m + 1)));
  }

  // ---------- one part ends where the next begins ----------

  ghost predicate SameValues(n: nat, v: (Node, Node) -> real, w: (Node, Node) -> real) {
    forall x, y :: IsNode(n, x) && IsNode(n, y) ==> v(x, y) == w(x, y)
  }

  lemma FilledSame(g: array2<real>, n: nat, v: (Node, Node) -> real, w: (Node, Node) -> real)
    requires Sized(g, n) && Filled(g, n, v) && SameValues(n, v, w)
    ensures Filled(g, n, w)
  {
    forall r, c | 0 <= r < Nodes(n) && 0 <= c < Nodes(n)
      ensures g[r, c] == w(NodeAt(n, r), NodeAt(n, c))
    {
      NodesAndIndices(n, Extra(0), r);
      NodesAndIndices(n, Extra(0), c);
    }
  }

  lemma NextBlock(ls: Links, n: nat, i: nat, j: nat)
    ensures SameValues(n, Values(ls, Laterals(i, j, NL)), Values(ls, Laterals(i, j + 1, 0)))
  {
  }

  lemma LateralsDone(ls: Links, n: nat, i: nat)
    ensures SameValues(n, Values(ls, Laterals(i, n, 0)), Values(ls, Verticals(i, 0)))
  {
  }

  lemma VerticalsDone(ls: Links, n: nat, i: nat)
    ensures SameValues(n, Values(ls, Verticals(i, HSINK)), Values(ls, Packages(i, 0)))
  {
  }

  lemma PackagesDone(ls: Links, n: nat, i: nat)
    ensures SameValues(n, Values(ls, Packages(i, 8)), Values(ls, Laterals(i + 1, 0, 0)))
  {
  }

  lemma UnitsDone(ls: Links, n: nat)
    ensures SameValues(n, Values(ls, Laterals(n, 0, 0)), Values(ls, Sides(0)))
  {
  }

  ghost function Conductances(ls: Links): (Node, Node) -> real {
    (a, b) => Conductance(ls, a, b)
  }

  lemma SidesDone(ls: Links, n: nat)
    ensures SameValues(n, Values(ls, Sides(8)), Conductances(ls))
  {
  }

  // ---------- the whole matrix ----------

  /** Block i's lateral entries to block j in all layers. */
  method FillPair(g: array2<real>, ls: Links, n: nat, i: nat, j: nat)
    requires Sized(g, n) && i < n && j < n && Filled(g, n, Values(ls, Laterals(i, j, 0)))
    modifies g
    ensures Filled(g, n, Values(ls, Laterals(i, j + 1, 0)))
  {
    FillLateral(g, ls, n, i, j, 0);
    FillLateral(g, ls, n, i, j, IFACE);
    FillLateral(g, ls, n, i, j, HSP);
    FillLateral(g, ls, n, i, j, HSINK);
    NextBlock(ls, n, i, j);
    FilledSame(g, n, Values(ls, Laterals(i, j, NL)), Values(ls, Laterals(i, j + 1, 0)));
  }

  method FillVerticals(g: array2<real>, ls: Links, n: nat, i: nat)
    requires Sized(g, n) && i < n && Filled(g, n, Values(ls, Laterals(i, n, 0)))
    modifies g
    ensures Filled(g, n, Values(ls, Packages(i, 0)))
  {
    LateralsDone(ls, n, i);
    FilledSame(g, n, Values(ls, Laterals(i, n, 0)), Values(ls, Verticals(i, 0)));
    FillVertical(g, ls, n, i, 0);
    FillVertical(g, ls, n, i, IFACE);
    FillVertical(g, ls, n, i, HSP);
    VerticalsDone(ls, n, i);
    FilledSame(g, n, Values(ls, Verticals(i, HSINK)), Values(ls, Packages(i, 0)));
  }

  method FillSpreaders(g: array2<real>, ls: Links, n: nat, i: nat)
    requires Sized(g, n) && i < n && Filled(g, n, Values(ls, Packages(i, 0)))
    modifies g
    ensures Filled(g, n, Values(ls, Packages(i, 4)))
  {
    FillSpreader(g, ls, n, i, 0);
    FillSpreader(g, ls, n, i, 1);
    FillSpreader(g, ls, n, i, 2);
    FillSpreader(g, ls, n, i, 3);
  }

  method FillSinks(g: array2<real>, ls: Links, n: nat, i: nat)
    requires Sized(g, n) && i < n && Filled(g, n, Values(ls, Packages(i, 4)))
    modifies g
    ensures Filled(g, n, Values(ls, Laterals(i + 1, 0, 0)))
  {
    FillSink(g, ls, n, i, 0);
    FillSink(g, ls, n, i, 1);
    FillSink(g, ls, n, i, 2);
    FillSink(g, ls, n, i, 3);
    PackagesDone(ls, n, i);
    FilledSame(g, n, Values(ls, Packages(i, 8)), Values(ls, Laterals(i + 1, 0, 0)));
  }

  method FillUnit(g: array2<real>, ls: Links, n: nat, i: nat)
    requires Sized(g, n) && i < n && Filled(g, n, Values(ls, Laterals(i, 0, 0)))
    modifies g
    ensures Filled(g, n, Values(ls, Laterals(i + 1, 0, 0)))
  {
    for j := 0 to n
      invariant Filled(g, n, Values(ls, Laterals(i, j, 0)))
    {
      FillPair(g, ls, n, i, j);
    }
    FillVerticals(g, ls, n, i);
    FillSpreaders(g, ls, n, i);
    FillSinks(g, ls, n, i);
  }

  method FillSides(g: array2<real>, ls: Links, n: nat)
    requires Sized(g, n) && Filled(g, n, Values(ls, Laterals(n, 0, 0)))
    modifies g
    ensures Filled(g, n, Conductances(ls))
  {
    UnitsDone(ls, n);
    FilledSame(g, n, Values(ls, Laterals(n, 0, 0)), Values(ls, Sides(0)));
    FillDown(g, ls, n, 0);
    FillDown(g, ls, n, 1);
    FillDown(g, ls, n, 2);
    FillDown(g, ls, n, 3);
    FillOutward(g, ls, n, 0);
    FillOutward(g, ls, n, 1);
    FillOutward(g, ls, n, 2);
    FillOutward(g, ls, n, 3);
    SidesDone(ls, n);
    FilledSame(g, n, Values(ls, Sides(8)), Conductances(ls));
  }

  method Clear(g: array2<real>)
    modifies g
    ensures forall r, c :: 0 <= r < g.Length0 && 0 <= c < g.Length1 ==> g[r, c] == 0.0
  {
    for r := 0 to g.Length0
      invariant forall x, c :: 0 <= x < r && 0 <= c < g.Length1 ==> g[x, c] == 0.0
    {
      for c := 0 to g.Length1
        invariant forall x, y :: 0 <= x < r && 0 <= y < g.Length1 ==> g[x, y] == 0.0
        invariant forall y :: 0 <= y < c ==> g[r, y] == 0.0
      {
        g[r, c] := 0.0;
      }
    }
  }

  /** Every entry of g is the conductance between its nodes. */
  method FillConductances(g: array2<real>, ls: Links, n: nat)
    requires Sized(g, n)
    modifies g
    ensures Filled(g, n, Conductances(ls))
  {
    Clear(g);
    for i := 0 to n
      invariant Filled(g, n, Values(ls, Laterals(i, 0, 0)))
    {
      FillUnit(g, ls, n, i);
    }
    FillSides(g, ls, n);
  }
}
