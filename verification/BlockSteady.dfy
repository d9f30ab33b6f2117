/** The steady state of the block model, and what is true of its temperatures. */
module BlockSteady {
  import opened Tilings
  import opened Sizing
  import opened Extents
  import opened Vectors
  import opened LinearSystems
  import opened Lup
  import opened LupSolve
  import opened Networks
  import opened ChipConductances
  import opened BlockNetwork
  import opened BlockMatrix
  import opened BlockModel
  import opened ChipLaws

  /** Block powers on the silicon nodes; everywhere else what holds the node's link to ambient
      at the ambient temperature. */
  ghost predicate IsPower(power: Vec, chip: Vec, ls: Links, n: nat, ambient: real) {
    && |power| == Nodes(n) && |chip| == n
    && (forall i :: 0 <= i < n ==> power[i] == chip[i])
    && (forall r :: n <= r < Nodes(n) ==> power[r] == ambient * ToAmbient(ls, NodeAt(n, r)))
  }

  lemma PackagePower(gAmb: array<real>, ls: Links, n: nat, ambient: real, r: nat)
    requires Ambients(gAmb, ls, n) && HSINK * n <= r < Nodes(n)
    ensures gAmb[r - HSINK * n] == ToAmbient(ls, NodeAt(n, r))
  {
    if r >= NL * n {
      assert gAmb[n + (r - NL * n)] == ToAmbient(ls, Extra(r - NL * n));
    }
  }

  method ZeroVector(v: array<real>, from: nat, count: nat)
    requires from + count <= v.Length
    modifies v
    ensures forall r :: 0 <= r < v.Length ==> v[r] == if from <= r < from + count then 0.0 else old(v[r])
  {
    for i := 0 to count
      invariant forall r :: 0 <= r < v.Length ==> v[r] == if from <= r < from + i then 0.0 else old(v[r])
    {
      v[from + i] := 0.0;
    }
  }

  method SetInternalPower(power: array<real>, gAmb: array<real>, ambient: real, ghost ls: Links, n: nat)
    requires power.Length == Nodes(n) && Ambients(gAmb, ls, n) && power != gAmb
    modifies power
    ensures IsPower(power[..], old(power[..n]), ls, n, ambient)
  {
    ZeroVector(power, IFACE * n, n);
    ZeroVector(power, HSP * n, n);
    var base := HSINK * n;
    for i := 0 to n + EXTRA
      invariant forall r :: 0 <= r < n ==> power[r] == old(power[r])
      invariant forall r :: n <= r < base ==> power[r] == 0.0
      invariant forall r :: base <= r < base + i ==> power[r] == ambient * gAmb[r - base]
    {
      power[base + i] := ambient * gAmb[i];
    }
    forall r | n <= r < Nodes(n)
      ensures power[r] == ambient * ToAmbient(ls, NodeAt(n, r))
    {
      if r >= base {
        PackagePower(gAmb, ls, n, ambient, r);
      }
    }
  }

  // ---------- physics ----------

  lemma PowerHeats(power: Vec, chip: Vec, ls: Links, n: nat, ambient: real)
    requires IsPower(power, chip, ls, n, ambient) && forall i :: 0 <= i < n ==> chip[i] >= 0.0
    ensures Heated(power, AmbientVector(ls, n), ambient, Nodes(n))
  {
    var amb := AmbientVector(ls, n);
    forall r | 0 <= r < Nodes(n)
      ensures power[r] >= amb[r] * ambient
    {
      if r < n {
        assert amb[r] == 0.0;
      }
    }
  }

  /** With non-negative block powers no node is below ambient. */
  lemma TemperaturesAboveAmbient(b: seq<Vec>, g: seq<Vec>, ls: Links, n: nat, t: Vec, power: Vec, chip: Vec,
                                 ambient: real, r: nat)
    requires Conducts(ls, n) && IsG(g, ls, n) && IsB(b, g, AmbientVector(ls, n), Nodes(n))
    requires IsPower(power, chip, ls, n, ambient) && forall i :: 0 <= i < n ==> chip[i] >= 0.0
    requires |t| == Nodes(n) && Solves(b, t, power, Nodes(n)) && r < Nodes(n)
    ensures t[r] >= ambient
  {
    BIsNetwork(b, g, ls, n);
    BIsGrounded(b, g, ls, n);
    PowerHeats(power, chip, ls, n, ambient);
    NoneBelowAmbient(b, AmbientVector(ls, n), Nodes(n), Heights(n), Hops(n), t, power, ambient, r);
  }

  function Excess(t: Vec, ambient: real): (d: Vec)
    ensures |d| == |t| && forall i :: 0 <= i < |t| ==> d[i] == t[i] - ambient
  {
    seq(|t|, i requires 0 <= i < |t| => t[i] - ambient)
  }

  lemma {:induction false} DotExcess(amb: Vec, t: Vec, ambient: real, k: nat)
    requires |amb| == |t| && k <= |t|
    ensures Dot(amb, Excess(t, ambient), k) == Dot(amb, t, k) - ambient * Sum(amb, k)
  {
    if k > 0 {
      DotExcess(amb, t, ambient, k - 1);
      var c, x, s := amb[k - 1], t[k - 1], Sum(amb, k - 1);
      assert c * (x - ambient) == c * x - ambient * c;
      assert ambient * (s + c) == ambient * s + ambient * c;
    }
  }

  /** The same in terms of the vector of conductances to ambient. */
  ghost predicate Powers(power: Vec, chip: Vec, amb: Vec, n: nat, ambient: real) {
    && |power| == |amb| && |chip| == n <= |amb|
    && (forall i :: 0 <= i < n ==> power[i] == chip[i] && amb[i] == 0.0)
    && (forall r :: n <= r < |amb| ==> power[r] == ambient * amb[r])
  }

  lemma {:induction false} BlockPowerSum(power: Vec, chip: Vec, amb: Vec, n: nat, ambient: real, k: nat)
    requires Powers(power, chip, amb, n, ambient) && k <= n
    ensures Sum(power, k) == Sum(chip, k) && Sum(amb, k) == 0.0
  {
    if k > 0 {
      BlockPowerSum(power, chip, amb, n, ambient, k - 1);
    }
  }

  lemma Distribute(x: real, s: real, c: real)
    ensures x * (s + c) == x * s + x * c
  {
  }

  lemma {:induction false} PowerSum(power: Vec, chip: Vec, amb: Vec, n: nat, ambient: real, k: nat)
    requires Powers(power, chip, amb, n, ambient) && n <= k <= |amb|
    ensures Sum(power, k) == Sum(chip, n) + ambient * Sum(amb, k)
  {
    if k == n {
      BlockPowerSum(power, chip, amb, n, ambient, n);
    } else {
      PowerSum(power, chip, amb, n, ambient, k - 1);
      Distribute(ambient, Sum(amb, k - 1), amb[k - 1]);
    }
  }

  lemma HeatLeaves(b: seq<Vec>, amb: Vec, m: nat, n: nat, t: Vec, power: Vec, chip: Vec, ambient: real)
    requires IsNetwork(b, amb, m) && |t| == m && |power| == m && Solves(b, t, power, m)
    requires Powers(power, chip, amb, n, ambient)
    ensures Sum(chip, n) == Dot(amb, Excess(t, ambient), m)
  {
    EnergyConserved(b, amb, m, t, power);
    PowerSum(power, chip, amb, n, ambient, m);
    DotExcess(amb, t, ambient, m);
  }

  /** All power put into the chip leaves to ambient through the sink. */
  lemma ChipPowerLeaves(b: seq<Vec>, g: seq<Vec>, ls: Links, n: nat, t: Vec, power: Vec, chip: Vec, ambient: real)
    requires Conducts(ls, n) && IsG(g, ls, n) && IsB(b, g, AmbientVector(ls, n), Nodes(n))
    requires IsPower(power, chip, ls, n, ambient) && |t| == Nodes(n) && Solves(b, t, power, Nodes(n))
    ensures Sum(chip, n) == Dot(AmbientVector(ls, n), Excess(t, ambient), Nodes(n))
  {
    BIsNetwork(b, g, ls, n);
    PowerIsPowers(power, chip, ls, n, ambient, AmbientVector(ls, n));
    HeatLeaves(b, AmbientVector(ls, n), Nodes(n), n, t, power, chip, ambient);
  }

  lemma PowerIsPowers(power: Vec, chip: Vec, ls: Links, n: nat, ambient: real, amb: Vec)
    requires IsPower(power, chip, ls, n, ambient) && amb == AmbientVector(ls, n)
    ensures Powers(power, chip, amb, n, ambient)
  {
  }

  // ---------- the solver ----------

  method SteadyState(model: Model, power: array<real>, temp: array<real>, ambient: real, ghost ls: Links, n: nat,
                     ghost g: seq<Vec>)
    requires model.Allocated(n) && Conducts(ls, n) && Prepared(model, ls, n, g)
    requires power.Length == temp.Length == Nodes(n) && power != temp && power != model.gAmb && temp != model.gAmb
    modifies power, temp
    ensures IsPower(power[..], old(power[..n]), ls, n, ambient)
    ensures Prepared(model, ls, n, g) && Solves(Rows(model.b), temp[..], power[..], Nodes(n))
    ensures (forall i :: 0 <= i < n ==> old(power[i]) >= 0.0) ==> forall r :: 0 <= r < Nodes(n) ==> temp[r] >= ambient
    ensures Sum(old(power[..n]), n) == Dot(AmbientVector(ls, n), Excess(temp[..], ambient), Nodes(n))
  {
    ghost var chip, o := power[..n], Rows(model.b);
    SetInternalPower(power, model.gAmb, ambient, ls, n);
    Solve(model.lu, model.p, power, temp, o);
    ChipPowerLeaves(o, g, ls, n, temp[..], power[..], chip, ambient);
    if forall i :: 0 <= i < n ==> chip[i] >= 0.0 {
      forall r | 0 <= r < Nodes(n)
        ensures temp[r] >= ambient
      {
        TemperaturesAboveAmbient(o, g, ls, n, temp[..], power[..], chip, ambient, r);
      }
    }
  }

  // ---------- the mean temperature of the sink ----------

  /** Over the area of the sink of a tiling chip, the mean excess over ambient is the chip's power
      times the resistance of the sink and of convection, whatever the floorplan. */
  lemma SinkRises(c: Chip, box: Rect, b: seq<Vec>, g: seq<Vec>, t: Vec, power: Vec, chip: Vec)
    requires Sane(c) && Tiles(c.units, box) && box.width == c.width && box.height == c.height
    requires IsG(g, LinksOf(c), |c.units|) && IsB(b, g, AmbientVector(LinksOf(c), |c.units|), Nodes(|c.units|))
    requires IsPower(power, chip, LinksOf(c), |c.units|, c.config.ambient)
    requires |t| == Nodes(|c.units|) && Solves(b, t, power, Nodes(|c.units|))
    ensures c.config.sSink * c.config.sSink > 0.0
    ensures IsRise(Dot(SinkWeights(c), Excess(t, c.config.ambient), Nodes(|c.units|)),
                   c.config.sSink * c.config.sSink, Sum(chip, |c.units|),
                   Resistance(c.config.sink.k, c.config.sink.thickness, c.config.sSink * c.config.sSink)
                   + c.config.rConvec)
  {
    ChipConducts(c);
    ChipPowerLeaves(b, g, LinksOf(c), |c.units|, t, power, chip, c.config.ambient);
    MeanRise(c, box, Sum(chip, |c.units|), Excess(t, c.config.ambient));
  }

  // ---------- from a floorplan ----------

  datatype Outcome = Ready | Oversized | Flush

  ghost predicate SaneConfig(c: Config) {
    && Solid(c.chip) && Solid(c.iface) && Solid(c.spreader) && Solid(c.sink)
    && c.rConvec > 0.0 && 0.0 < c.sSpreader < c.sSink
  }

  /** The areas of opposite sides agree, and one is zero exactly when the chip is flush with the spreader. */
  lemma FlushIff(c: Chip)
    requires 0.0 < c.width && 0.0 < c.height && 0.0 < c.config.sSpreader
    ensures (exists side :: 0 <= side < 4 && InnerArea(c, side) == 0.0)
            <==> InnerArea(c, WEST) == 0.0 || InnerArea(c, NORTH) == 0.0
    ensures InnerArea(c, WEST) == 0.0 <==> c.width == c.config.sSpreader
    ensures InnerArea(c, NORTH) == 0.0 <==> c.height == c.config.sSpreader
  {
    NoAreaIff(c, WEST);
    NoAreaIff(c, EAST);
    NoAreaIff(c, NORTH);
    NoAreaIff(c, SOUTH);
  }

  /** Sets the model up for a floorplan; refuses one larger than spreader or sink. A floorplan flush
      with the spreader passes that test and leaves a side of the periphery an area of 0, which its
      resistances are divided by. */
  method PopulateChip(model: Model, flp: Floorplan, config: Config)
    returns (outcome: Outcome, chip: Chip, ghost g: seq<Vec>)
    requires 0 < flp.nUnits <= flp.units.Length && AllPositive(flp.units[..flp.nUnits]) && SaneConfig(config)
    requires model.Allocated(flp.nUnits)
    modifies model.g, model.b, model.lu, model.gAmb, model.p
    ensures chip.units == flp.units[..flp.nUnits] && chip.config == config
    ensures chip.width == MaxRight(chip.units) - MinLeft(chip.units)
    ensures chip.height == MaxTop(chip.units) - MinBottom(chip.units)
    ensures outcome == Oversized <==> chip.width > config.sSpreader || chip.height > config.sSpreader
    ensures outcome == Flush <==> outcome != Oversized && exists side :: 0 <= side < 4 && InnerArea(chip, side) == 0.0
    ensures outcome == Flush <==>
              outcome != Oversized && (chip.width == config.sSpreader || chip.height == config.sSpreader)
    ensures outcome == Ready ==> Sane(chip) && Conducts(LinksOf(chip), flp.nUnits)
    ensures outcome == Ready ==> Prepared(model, LinksOf(chip), flp.nUnits, g)
    ensures outcome == Ready ==> IsChipMatrix(chip, Rows(model.b))
  {
    var w := TotalWidth(flp.units, flp.nUnits);
    var h := TotalHeight(flp.units, flp.nUnits);
    chip := Chip(flp.units[..flp.nUnits], config, w, h);
    g := [];
    if w > config.sSink || h > config.sSink || w > config.sSpreader || h > config.sSpreader {
      return Oversized, chip, g;
    }
    ExtentBounds(chip.units, 0);
    assert PositiveRect(chip.units[0]);
    FlushIff(chip);
    if InnerArea(chip, WEST) == 0.0 || InnerArea(chip, NORTH) == 0.0 {
      return Flush, chip, g;
    }
    ChipConducts(chip);
    g := Populate(model, LinksOf(chip), flp.nUnits);
    FilledIsChipMatrix(chip, g, Rows(model.b), flp.nUnits);
    outcome := Ready;
  }
}
