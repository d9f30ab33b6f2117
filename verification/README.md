# HotSpot in Dafny

Dafny models of the thermal and floorplanning code that HotSniper ships in `hotspot/`, with proofs of what
that code is for. Four parts hold the main results.

* The floorplanner. Normalized Polish expressions, their moves and caches (`npe.c`), shape curves, slicing
  trees and their placement (`shape.c`), L2 and rim wrapping and the annealing loop (`flp.c`). The end result
  is `AnnealingRun.AnnealFloorplan`: whatever the random draws, a run that ends returns a tiling of a
  rectangle that belongs to the best candidate it tried, and it has tried what its schedule asks for.
* The block thermal model. Decomposition with pivoting (`RCutil.c`) and the conductance network
  (`temperature_block.c`). The end result is `BlockSteady.SteadyState`: the decomposition never fails on a
  chip, no node is below ambient, and the power put in is the heat that leaves. `ChipLaws.FilledIsChipMatrix`
  says what every conductance is in terms of geometry and materials.
* The grid thermal model (`temperature_grid.c`). The sweep, the derivative and the sparse matrix are written
  out by hand three times in the source. `GridAgreement.FormsAgree` says that they describe one network.
  `MultigridRun.RecursiveMultigrid` carries power, balance and bounds over all levels, and
  `GridSteady.SteadyState` goes from the powers of blocks to their temperatures.
* The maps between blocks and cells, both the floorplan of cells in `flp.c` and the map in
  `temperature_grid.c`, with conservation of power and of uniform temperatures.

The command line splitter of `frontend/ezOptionParser.hpp` is a fifth, smaller part.

Numbers of type double are `real`. The tolerant comparison `eq` is read as equality, except in adjacency, at
the border of the chip and in the sorted lines of `flp_create_grid`, where its DELTA is what the code is about,
and in the stop test of the steady grid loop. A call of `fatal` is an outcome that the caller sees. Arrays that
the source updates in place are arrays, and its loops are loops.

## Reading order

Files hold one module each. `PolishExpressions`, `Npe`, `RandomMove`, `Reachability`; `Shapes`, `ShapeAdd`,
`Slicings`, `SlicingTrees`, `TreeBuilder`; `Tilings`, `Arrangement`, `Compaction`, `Sizing`, `TreeToFlp`;
`Extents`, `WrapL2`, `Intervals`, `Rims`, `RimSizes`, `WrapRim`, `Placements`, `Annealing`, `Rounds`,
`AnnealingRun`, `Adjacency`; `SortedLines`, `GridLines`, `GridPositions`, `GridFloorplan`, `GridTilings`,
`GridCoverage`, `GridPower`, `GridPowerMap`; `Permutations`, `Vectors`, `Elimination`, `LinearSystems`, `Lup`,
`LupSolve`; `Networks`, `ChipConductances`, `ConductanceLaws`, `BlockNetwork`, `BlockMatrix`, `BlockModel`,
`ChipLaws`, `BlockSteady`; `GridNetwork`, `GridSweep`, `NearBalance`, `SweepTurns`, `SweepRuns`, `GridSlope`,
`GridLinks`, `GridEnergy`, `GridMatrix`, `GridBuilder`, `GridSystem`, `GridCounts`, `GridTotals`,
`GridAgreement`, `SparseColumns`, `GridColumns`; `Multigrid`, `Prolongation`, `HeuristicTemps`,
`MultigridRun`; `CoverAreas`, `CellRanges`, `BlockGrid`, `BlockLists`, `BlockSums`, `BlockTranslate`,
`CellsToBlocks`, `GridSteady`; `Tokenizer`.

`dafny verify dfyconfig.toml` checks everything.

## Model

| member | source | states |
|---|---|---|
| `PolishExpressions.RunFromInitial` | hotspot/npe.c:75-105 | Every expression that any run of legal moves reaches from the initial one is again a normalized Polish expression: each unit once, balloting in every prefix, no two equal neighbouring cuts. |
| `PolishExpressions.MoveKeepsNpe` | hotspot/npe.c:157-264 | Each of the three moves, where it is enabled, keeps all three conditions. |
| `PolishExpressions.SwapCutUnitLegalIff` | hotspot/npe.c:225-264 | The guard of the cut and unit swap (balloting and neighbouring cuts) accepts exactly the swaps whose result is a normalized Polish expression. |
| `PolishExpressions.MoveUndoesItself` | hotspot/npe.c:157-264 | The same move made a second time is enabled and gives the first expression back. |
| `PolishExpressions.MovesExist` | hotspot/npe.c:267-320 | With two or more units there are always n units, a flip position and a chain to draw from. |
| `Reachability.Reachable` | hotspot/npe.c:157-264 | The moves are complete: every normalized Polish expression over n units is reached from the initial one by a run of legal moves. |
| `Reachability.OverflowIsReachable` | hotspot/npe.c:267-320 | For more units than MAX_STACK, some run of legal moves ends in an expression that overflows the stack of the tree builder. |
| `NpeModel.Npe.FillUnitPos` | hotspot/npe.c:16-25 | The cached unit positions are exactly the positions of units, in order. |
| `NpeModel.Npe.FillFlipPos` | hotspot/npe.c:27-37 | The cached flip positions are exactly the places where a cut and a unit are neighbours. |
| `NpeModel.Npe.FillChainPos` | hotspot/npe.c:39-61 | It reports a malformed expression exactly when two equal cuts are neighbours; otherwise the cached chain starts are the starts of all maximal chains. |
| `NpeModel.Npe.FillBallotCount` | hotspot/npe.c:63-72 | The cached counts are the numbers of cuts in every prefix. |
| `NpeModel.Npe.SwapUnits` | hotspot/npe.c:157-173 | Swaps a unit with the next one, or reports that there is none; all four caches stay right. |
| `NpeModel.Npe.InvertChain` | hotspot/npe.c:175-199 | Complements the whole chain and nothing else; all four caches stay right. |
| `NpeModel.Npe.UpdateUnitPos` | hotspot/npe.c:201-223 | The binary search changes exactly the entry that holds the position, and reports exactly whether there is one. |
| `NpeModel.Npe.SwapCutUnit` | hotspot/npe.c:225-264 | Done exactly when legal; the elements are then swapped and all caches, patched piecemeal in place, are those of the new expression. Rejected leaves everything as it was. |
| `RandomMove.GetInitial` | hotspot/npe.c:75-105 | The initial expression 0 1 V 2 V ... with right caches. |
| `RandomMove.Duplicate` | hotspot/npe.c:322-356 | A copy with the same elements, right caches, and no shared storage. |
| `RandomMove.MakeRandomMove` | hotspot/npe.c:267-320 | For all random draws: it fails exactly when the rounds it is allowed do not suffice; otherwise the copy is well formed and one enabled move away, and the move is the one the draws ask for, by kind and by number of unit, chain or flip. |
| `RandomMove.DrawnUnique` | hotspot/npe.c:267-320 | The draws determine the move. |
| `RandomMove.EveryMoveIsDrawn` | hotspot/npe.c:267-320 | Every enabled move of every normalized expression is asked for by some draws. |
| `RandomMove.SuccessDecides` | hotspot/npe.c:267-318 | The first round whose move succeeds ends the search, and is thrown away exactly when it is the last allowed round. |
| `RandomMove.GivesUpOnTwoUnits` | hotspot/npe.c:267-320 | An input that fails: two units, and draws that always choose the third move. |
| `RandomMove.LateSuccessIsLost` | hotspot/npe.c:311-318 | An input whose move succeeds in round sixteen and is reported as a failure all the same. |
| `Shapes.SumIsSound` | hotspot/shape.c:125-198 | Every entry of a sum of two curves is a join of one entry of each. |
| `Shapes.SumIsComplete` | hotspot/shape.c:125-198 | Every join of entries of two curves is dominated by an entry of the sum, in both directions of cut. |
| `Shapes.SumIsStaircase` | hotspot/shape.c:125-198 | The sum of two staircases is a staircase: from entry to entry widths never shrink and heights never grow. |
| `ShapeAdd.Add` | hotspot/shape.c:125-198 | The loop that walks both curves, and its counting pass, compute exactly that sum. |
| `ShapeAdd.MinAreaPos` | hotspot/shape.c:387-397 | The first entry of least area. |
| `TreeBuilder.NodeStack.Push` | hotspot/shape.c:269-277 | Fails exactly when MAX_STACK trees are on the stack; otherwise the tree is on top. |
| `TreeBuilder.NodeStack.Pop` | hotspot/shape.c:279-289 | Fails exactly on the empty stack; otherwise returns the tree on top. |
| `TreeBuilder.TreeFromNpe` | hotspot/shape.c:299-332 | Over every normalized expression: never an underflow, an overflow exactly when some prefix has more than MAX_STACK operands open, and otherwise the tree whose postorder is the expression, with the summed curve at every node. |
| `TreeBuilder.FewUnitsFit` | hotspot/shape.c:269-277 | Up to MAX_STACK units no expression overflows. |
| `TreeBuilder.InitialIsShallow` | hotspot/shape.c:269-277 | The initial expression fits the stack for any number of units, so a run always gets started. |
| `TreeBuilder.DeepOverflows` | hotspot/shape.c:269-277 | For every larger number of units one does. |
| `Slicings.ExpressionHasSlicing` | hotspot/shape.c:299-332 | Every normalized expression is the postorder of a slicing over its units. |
| `Slicings.PostorderInjective` | hotspot/shape.c:299-332 | Different slicings have different expressions. |
| `Slicings.NormalizedIffSkewed` | hotspot/npe.c:39-61 | An expression is normalized exactly when no right child of its tree repeats its parent's cut. |
| `SlicingTrees.EntryRealised` | hotspot/shape.c:299-332 | Every entry of the root curve is the exact size of one choice of shapes for the leaves. |
| `SlicingTrees.FeasibleIff` | hotspot/shape.c:299-332 | Some choice of shapes fits into w by h exactly when some entry of the root curve does. |
| `SlicingTrees.LeastAreaIsOptimal` | hotspot/shape.c:387-397 | The least entry of the root curve has at most the area of every w by h that any choice of shapes fits into. |
| `TreeToFlp.ArrangeTiles` | hotspot/shape.c:405-539 | The leaves and the surviving dead blocks cover every point of the box exactly once and add up to its area, with and without compaction. |
| `Compaction.GapSurvivesIff` | hotspot/shape.c:438-520 | At every cut the two parts are stretched by the same slack. With compaction the gap between them survives exactly when their difference exceeds ratio times the smaller one; without it, always. Otherwise both parts reach all the way across. |
| `Compaction.GapsSit` | hotspot/shape.c:405-539 | Every dead block of the layout covers the far side of a part, neither more nor less of it, and with compaction is deeper than ratio times that part. |
| `TreeToFlp.UndersAreTiled` | hotspot/shape.c:405-539 | The part that a dead block lies on is tiled by leaves and dead blocks of the layout. |
| `Compaction.CompactionIdleIff` | hotspot/shape.c:405-539 | Compaction changes nothing exactly when every gap of the layout without it is deeper than ratio times the part it lies on. |
| `Arrangement.ArrangeLeaves` | hotspot/shape.c:405-539 | Leaves carry the tree's labels in order, get at least the size chosen for them, and there is at most one dead block per cut. |
| `Arrangement.ArrangeExact` | hotspot/shape.c:405-539 | Without compaction every leaf gets exactly the size chosen for it. |
| `Sizing.RecursiveSizing` | hotspot/shape.c:405-539 | The recursion writes exactly that arrangement into the floorplan, dead blocks packed from the given count on, and touches no other unit. |
| `TreeToFlp.PlaceTree` | hotspot/shape.c:545-570 | From the first root entry of least area: the units in use are the layout of the tree and tile the root box. Each dead block lies on a part and, with compaction, is deeper than ratio times that part. The count of compacted dead blocks is right, and is zero exactly when compaction is off or every gap without it is that deep. Units beyond are untouched. |
| `Extents.TotalWidth` | hotspot/flp.c:1498-1512 | Largest right edge minus smallest left edge of the units in use. |
| `Extents.TotalHeight` | hotspot/flp.c:1514-1528 | Largest top minus smallest bottom. |
| `Extents.Translate` | hotspot/flp.c:340-356 | All units in use move by one vector that brings the smallest left and bottom to (x, y); units beyond are untouched. |
| `WrapL2.RatioSizes` | hotspot/flp.c:659-671 | The root of the quadratic gives an L2 of exactly the wanted area, the base WRAP_L2_RATIO times as deep as the arms are wide around a wide core, and the arms that much wider around a tall one. |
| `WrapL2.L2Sizes` | hotspot/flp.c:628-671 | In every case the L2 has exactly the wanted area. The chip is square exactly when its area exceeds the squares of both sides of the core; otherwise the ratio is met, the way round that the core asks for. |
| `WrapL2.L2AreaExact` | hotspot/flp.c:619-704 | Base and both arms together have exactly the L2 area. |
| `WrapL2.WrapAround` | hotspot/flp.c:619-704 | Core, base and arms tile the wrapped chip with nothing overlapping, the core only translated. |
| `RimSizes.RimTiles` | hotspot/flp.c:712-795 | For every tiling of the core: core and rim together tile the box grown by the rim on all four sides, every rim unit with positive size. |
| `RimSizes.RimTotal` | hotspot/flp.c:712-795 | Areas of core and rim add up to the grown box. |
| `RimSizes.RimCount` | hotspot/flp.c:712-795 | At most 2n + 2 rim units for n units of core, the number flp_placeholder allocates. |
| `RimSizes.RowAttains` | hotspot/flp.c:712-795 | The bound is attained, by a row of m units, for every m. |
| `WrapRim.WrapAround` | hotspot/flp.c:712-795 | The in-place loop stays within 3n + 2 units and leaves exactly that tiling. |
| `Placements.CoreUnique` | hotspot/shape.c:545-570 | An expression and its shapes determine the placed core and its box. |
| `Placements.PlacedIsOptimal` | hotspot/shape.c:545-570 | The box of a placed core has at most the area of any box that any choice of shapes for its expression fits into. |
| `Placements.AddL2` | hotspot/flp.c:902-903 | The L2 is wrapped exactly when asked for, and the result tiles the L2 box. |
| `Placements.AddRim` | hotspot/flp.c:904-905 | The rim is wrapped exactly when asked for, within the units allocated, and the result tiles the rim box. |
| `Placements.RestoreDeadBlocks` | hotspot/flp.c:316-337 | After any number of compactions and wrappings: back to 2n - 1 units, the n core units kept, every dead block zero. |
| `Annealing.Evaluate` | hotspot/flp.c:896-912 | Builds, places and wraps one expression: it fails exactly when the tree overflows; otherwise the cost is the metric of its finished floorplan, and everything is reset for the next. |
| `Annealing.FinishedUnique` | hotspot/flp.c:968-987 | The finished floorplan is a function of the expression, so placing the best one again at the end reproduces what was measured. |
| `AnnealingRun.TrialReached` | hotspot/flp.c:887-966 | Every candidate of a run is reached from the initial expression by legal moves. |
| `AnnealingRun.TryMany` | hotspot/flp.c:889-951 | At one temperature: the run continues a trail of evaluated candidates, the state holds the last accepted and the best of them, and every early end is excused. The tries added are just enough: 2n, or fewer with n of them downhill, and no shorter part of them would do. |
| `AnnealingRun.AnnealFloorplan` | hotspot/flp.c:803-1003 | For all draws, acceptances and cooling schedules: an early end comes with the run's own trail of candidates, whose current expression either has no move within the rounds allowed for these very draws, or has a neighbour too deep for the stack. Otherwise the floorplan returned tiles a rectangle, belongs to the best candidate among all tried, has that candidate's cost, and the number of removed units is what is returned. Each candidate is the move that its own draws ask for, made on the last accepted one. The trail falls into rounds of just enough tries, one for each temperature hot * cool^k not below cold. The run ends exactly when the next temperature is below cold, when nmax rounds are made, or when more than rreject of the last round's tries were rejected; an early end stops within a round. |
| `Rounds.Tries` | hotspot/flp.c:889-889 | The tries per temperature: kmoves for each unit in use, truncated towards zero. |
| `Rounds.RunLength` | hotspot/flp.c:887-966 | A run that ends by itself makes a round if it starts no colder than cold with nmax at least one, and its k rounds try between k * n and twice as many candidates. |
| `Adjacency.AdjacencyIsSymmetric` | hotspot/flp.c:1401-1496 | Horizontal and vertical adjacency and shared length do not depend on the order of the two units. |
| `Adjacency.AdjacencyIsExclusive` | hotspot/flp.c:1401-1471 | No two units are adjacent both ways. |
| `Adjacency.HorizontallyAdjacentIff` | hotspot/flp.c:1401-1496 | Two units are side by side exactly when an edge of one is within DELTA of the facing edge of the other and each reaches DELTA or more past the other's far end; the shared length is that of the heights in common. |
| `Adjacency.VerticallyAdjacentIff` | hotspot/flp.c:1401-1496 | The same for units one above the other. |
| `Adjacency.SharedLengthPositive` | hotspot/flp.c:1473-1496 | The shared length is never negative, and positive exactly for adjacent units. |
| `SortedLines.Bsearch` | hotspot/util.c:453-475 | The binary search is the one divide and conquer search its equations allow. |
| `SortedLines.FinderIs` | hotspot/util.c:453-475 | That search finds an element within DELTA, or the place where all before are at least DELTA below and all from it on at least DELTA above. |
| `SortedLines.FinderMonotone` | hotspot/util.c:453-475 | It need not find the nearest element, but never finds a larger value further down. |
| `SortedLines.BsearchInsert` | hotspot/util.c:477-491 | Inserts exactly when nothing is within DELTA; the result is the sorted sequence with the element in its place. It runs past the array exactly when there is no place left. |
| `GridLines.TilingLines` | hotspot/flp.c:476-489 | Edges of n units that tile a rectangle, chosen DELTA apart, are at most n + 1 in either direction. |
| `GridLines.TilingFits` | hotspot/flp.c:476-489 | So n + 1 places are enough for the lines that inserting all edges leaves. |
| `GridTilings.OneShort` | hotspot/flp.c:472-489 | The bound is attained: for every n there are n units whose lines are n + 1, one more than an array of MAX_UNITS has when n is MAX_UNITS. |
| `GridFloorplan.Lookup` | hotspot/flp.c:536-543 | The search for a line of a unit's edge always succeeds. |
| `GridFloorplan.CreateGrid` | hotspot/flp.c:470-588 | For every list of units: it runs past an array exactly when the edges leave more lines than places. Otherwise lines are sorted, each on an edge and each edge near one; every unit takes the cells between its lines that none before it took; the final check passes exactly when all cells were taken. |
| `GridFloorplan.EmptyMismatches` | hotspot/flp.c:568-570 | A floorplan without units fails the final check. |
| `GridCoverage.TilingIsFull` | hotspot/flp.c:525-570 | For units that tile a rectangle all (xsize - 1) * (ysize - 1) positions are taken, however near edges are to each other. |
| `GridCoverage.GridOfTiling` | hotspot/flp.c:470-588 | So with one place more than there are units, the grid of a tiling is always created. |
| `GridPower.TiledIff` | hotspot/flp.c:525-570 | For units that tile a rectangle: the cells listed for each unit tile it, for all units, exactly when edges are equal or at least DELTA apart; the cells are then (xsize - 1) * (ysize - 1). |
| `GridPower.OwnerOf` | hotspot/flp.c:525-565 | Each cell is in the list of exactly one unit. |
| `GridPowerMap.SharePower` | hotspot/flp.c:601-611 | Each cell of a unit gets the unit's power by area; the total is what the units deliver. |
| `GridPowerMap.ConservedIff` | hotspot/flp.c:601-611 | Total power is kept for every power vector exactly when the cells of each unit have the unit's area. |
| `GridPowerMap.ResolvedConserves` | hotspot/flp.c:601-611 | Total power is kept for every power vector when edges are equal or at least DELTA apart. |
| `GridPowerMap.ThinIsLost` | hotspot/flp.c:525-565 | A unit narrower than DELTA, with no other edge outside it near its own, gets no cell and delivers nothing. |
| `GridPowerMap.ConservedIffNoThin` | hotspot/flp.c:601-611 | Where near edges come only with such units, power is kept for every power vector exactly when no unit is thinner than DELTA. |
| `GridPowerMap.PowerCanBeLost` | hotspot/flp.c:601-611 | A row of three units whose middle one loses all its power. |
| `Elimination.MultipliersStaySmall` | hotspot/RCutil.c:93-102 | Choosing the largest pivot keeps every multiplier at most one in magnitude, and every pivot used nonzero. |
| `Lup.FindPivot` | hotspot/RCutil.c:83-89 | The largest magnitude of the column from row k down, and a row that has it. |
| `Lup.Decompose` | hotspot/RCutil.c:75-103 | It refuses a matrix exactly when the columns before the last are dependent. Otherwise rows, permuted, are L times U with multipliers at most one, and the last pivot, which the code does not test, is nonzero exactly when the matrix is regular. |
| `Lup.SingularPasses` | hotspot/RCutil.c:75-103 | At every size some singular matrix is not refused; at size one it is the zero matrix. |
| `LinearSystems.StageIsProduct` | hotspot/RCutil.c:75-103 | What the elimination leaves in place is the product: row p[i] of the matrix is row i of L times U. |
| `LinearSystems.NoPivotIsSingular` | hotspot/RCutil.c:90-91 | A column without pivot gives a nonzero vector that the matrix sends to zero. |
| `LinearSystems.PivotsIffTrivialKernel` | hotspot/RCutil.c:75-103 | After all stages the last pivot is nonzero exactly when only zero is sent to zero. |
| `LupSolve.Solve` | hotspot/RCutil.c:162-180 | Forward and backward substitution with the permutation solve the original system. |
| `LupSolve.Invert` | hotspot/RCutil.c:557-570 | Refused, divided by a zero last pivot, or inverted: refused exactly when the columns before the last are dependent, inverted exactly when the matrix is regular, and then every column solves for its unit vector. |
| `LupSolve.ProductIsIdentity` | hotspot/RCutil.c:557-570 | The matrix times what Invert leaves is the identity. |
| `LupSolve.Multiply` | hotspot/RCutil.c:395-414 | Matrix product. |
| `LupSolve.MultiplyVector` | hotspot/RCutil.c:437-452 | Matrix times vector. |
| `Networks.NoneBelowAmbient` | hotspot/temperature_block.c:398-411 | For every network of conductances in which each node has a path to ambient: with no power drawn out, no node of a solution is below ambient. |
| `Networks.NetworkIsRegular` | hotspot/temperature_block.c:276-290 | The matrix of such a network is regular, so its system has one solution. |
| `Networks.EnergyConserved` | hotspot/temperature_block.c:398-411 | Power put in equals conductance to ambient times temperature, summed over the nodes. |
| `BlockNetwork.FillConductances` | hotspot/temperature_block.c:170-242 | Every entry of g is the conductance between its two nodes: lateral in four layers, vertical, spreader and sink periphery, outer sink; all others zero. |
| `BlockMatrix.FillAmbients` | hotspot/temperature_block.c:208-248 | Every entry of g_amb is that node's conductance to ambient. |
| `BlockModel.ChipConducts` | hotspot/temperature_block.c:107-248 | For a chip on a larger spreader on a larger sink: no conductance is negative, and those down the stack, out through the package and to ambient are positive, with or without lateral conduction in the silicon. What their values mean is stated by `ChipLaws.FilledIsChipMatrix`. |
| `ConductanceLaws.HalfWay` | hotspot/temperature_block.c:107-192 | Half of the way from a block over a shared edge is a plate of the layer's material, as wide as the edge and as long as half the block; nothing where no edge is shared or lateral conduction is omitted in the silicon. |
| `ConductanceLaws.RingLaw` | hotspot/temperature.c:428-436 | The rings around the chip are trapezoids: from the edge of the chip halfway to that of the spreader, the rest of the way, and from there halfway to the edge of the sink. |
| `ConductanceLaws.AreaLaw` | hotspot/temperature.c:438-443 | The area of each side is that of its trapezoid. |
| `ConductanceLaws.PlatesFill` | hotspot/temperature.c:438-443 | For a tiling chip: blocks and inner sides fill the spreader, and with the outer sides the sink. |
| `ConductanceLaws.ConvectionInParallel` | hotspot/temperature.c:444-447 | For a tiling chip: the convection resistances of all blocks and sides in parallel make r_convec. |
| `ChipLaws.FilledIsChipMatrix` | hotspot/temperature_block.c:107-262 | Every entry off the diagonal: between blocks of a layer that share an edge, minus the entry times the sum of their half widths (or half heights) is conductivity times thickness times the shared length; down a layer, minus the entry times the thickness is conductivity times area; to a side of the package, blocks that reach it share the ring in proportion; down and out through the periphery, plates and rings in series; all others zero. |
| `ChipLaws.SideBySide` | hotspot/temperature_block.c:174-262 | For blocks that touch side by side, minus the entry times the distance of their centres is conductivity times thickness times shared length. |
| `ChipLaws.OneAboveOther` | hotspot/temperature_block.c:174-262 | The same for blocks one above the other. |
| `ChipLaws.SideInSeries` | hotspot/temperature_block.c:141-230 | All blocks that reach a side are in parallel, and they in series with the ring of that side. |
| `ChipLaws.SinkInParallel` | hotspot/temperature_block.c:206-248 | For a tiling chip: all ways to ambient in parallel are the whole sink as one plate, in series with r_convec. |
| `BlockModel.BIsNetwork` | hotspot/temperature_block.c:250-274 | b is a symmetric network matrix: nothing positive off the diagonal, and each diagonal entry makes up for its row and ambient. |
| `BlockModel.BIsGrounded` | hotspot/temperature_block.c:250-274 | Every node has a path of conductances to ambient. |
| `BlockModel.BIsRegular` | hotspot/temperature_block.c:276-290 | b is regular for every floorplan. |
| `BlockModel.Populate` | hotspot/temperature_block.c:170-295 | Fills g, g_amb, b and a decomposition of b whose pivots are all nonzero: lupdcmp cannot fail here. |
| `BlockSteady.SetInternalPower` | hotspot/temperature_block.c:382-389 | Block powers stay; every other node gets the ambient temperature times its conductance to ambient, which is zero in the inner layers. |
| `BlockSteady.TemperaturesAboveAmbient` | hotspot/temperature_block.c:398-411 | No negative block power, no node below ambient. |
| `BlockSteady.ChipPowerLeaves` | hotspot/temperature_block.c:398-411 | The power of the blocks equals the heat that flows to ambient. |
| `BlockSteady.SteadyState` | hotspot/temperature_block.c:398-411 | End to end over the arrays: the result solves the network, lies nowhere below ambient if no block power is negative, and passes all block power to ambient. |
| `BlockSteady.SinkRises` | hotspot/temperature_block.c:398-411 | For a tiling chip: the mean of the sink's excess over ambient, over its area, is the total block power times the resistance of the sink as one plate and r_convec, whatever the floorplan. |
| `BlockSteady.PopulateChip` | hotspot/temperature_block.c:64-295 | For every floorplan with units of positive size: too large exactly when it exceeds the spreader; Flush exactly when the area of some side of the periphery, which resistances are divided by, is zero, which is when the chip is as wide or high as the spreader; otherwise a model ready to solve. The matrix is that of the chip's geometry and materials, in the sense of `ChipLaws.FilledIsChipMatrix`. |
| `SweepRuns.Sweep` | hotspot/temperature_grid.c:2248-2440 | One in-place Gauss-Seidel sweep over cells and package nodes: every node once, set to what balances it with the values its neighbours have by then, and the largest change reported. That is zero exactly when nothing changed, and that exactly when every node was balanced. A largest change of max leaves no node out of balance by more than max times its conductance. No temperature falls below ambient while no power is negative. |
| `SweepTurns.NextTurn` | hotspot/temperature_grid.c:2248-2440 | Why each node has exactly one turn, and why the largest change is the largest of all turns. |
| `NearBalance.CloseStep` | hotspot/temperature_grid.c:2248-2440 | Why: each later change of a neighbour disturbs a node by at most the conductance between them times the change. |
| `NearBalance.WithinNothing` | hotspot/temperature_grid.c:2248-2440 | A bound of zero is balance. |
| `GridSlope.Slopes` | hotspot/temperature_grid.c:2692-3097 | Every derivative is power plus all flows in, over the node's capacitance. |
| `GridSlope.ZeroSlopeIffBalanced` | hotspot/temperature_grid.c:2692-3097 | A derivative is zero exactly when its node is balanced. |
| `GridLinks.LinksLead` | hotspot/temperature_grid.c:1883-2340 | From each node to each other at most one link leads, and its conductance is the one between the two. |
| `GridLinks.MutualLinks` | hotspot/temperature_grid.c:1883-2340 | What leads from a to b leads back from b to a with the same conductance. |
| `GridLinks.SideInParallel` | hotspot/temperature_grid.c:1931-2019 | The cells along a side of spreader or sink, in parallel, conduct like half a cell's lateral resistance over their number, in series with the package's resistance of that side. |
| `GridEnergy.PowerLeaves` | hotspot/temperature_grid.c:2248-2440 | In balance, the power put into all nodes equals what they give to ambient. |
| `GridEnergy.HeatStored` | hotspot/temperature_grid.c:2692-3097 | At every moment the heat stored at all nodes is the power put in, less what leaves to ambient. |
| `GridMatrix.MatrixRowBalanced` | hotspot/temperature_grid.c:3383-4212 | A row of the matrix is satisfied exactly when its node is balanced. |
| `GridBuilder.CellRow` | hotspot/temperature_grid.c:3384-4011 | The branches for layer, border and corner emit the row of the cell: each neighbour once, then the diagonal. |
| `GridBuilder.ExtraRow` | hotspot/temperature_grid.c:4013-4212 | The same for the twelve package nodes. |
| `GridTotals.CountIsAllocated` | hotspot/temperature_grid.c:3341-3373 | The entries emitted are exactly as many as were allocated, for all layers, rows and columns. |
| `GridAgreement.BuildMatrix` | hotspot/temperature_grid.c:3307-4504 | The count check passes always; no place is written twice; every row is its node's. |
| `GridAgreement.BuildRhs` | hotspot/temperature_grid.c:4518-4574 | Power plus what ambient contributes, for every node. |
| `GridAgreement.SweepGrid` | hotspot/temperature_grid.c:2248-2440 | All of this stated on the arrays alone. |
| `GridAgreement.SlopeGrid` | hotspot/temperature_grid.c:2965-3097 | The derivatives, stated on the arrays alone. |
| `GridAgreement.FormsAgree` | hotspot/temperature_grid.c:2965-4574 | The matrix is solved exactly when every node is balanced, and all derivatives vanish exactly then. With SweepGrid, whose fixed points are the same, the three hand-written forms agree. |
| `SparseColumns.CooToCsc` | hotspot/util.c:553-596 | The entries come out sorted by column and row; each column up to the last occupied is its slice; colptr[size] is written exactly when the last column has an entry; the warning comes exactly when a place repeats. |
| `SparseColumns.EmptyLastColumn` | hotspot/util.c:553-596 | Two columns of which the second is empty: whatever was in colptr[2] before stays. |
| `GridColumns.IndexInjective` | hotspot/temperature_grid.c:3383-4212 | Different nodes have different numbers. |
| `GridColumns.BuildColumns` | hotspot/temperature_grid.c:3307-4514 | For the matrix of every grid: no warning, every column a slice, colptr ends at the number of entries. |
| `Multigrid.RestrictCells` | hotspot/temperature_grid.c:2448-2469 | Each coarse cell gets the sum of its four fine ones. |
| `Multigrid.PowerConserved` | hotspot/temperature_grid.c:2448-2469 | Total power is the same on both grids. |
| `Prolongation.ProlongCells` | hotspot/temperature_grid.c:2478-2547 | Each fine cell gets the blend of its nearest coarse cells, at inner cells, edges and corners. |
| `Multigrid.BlendExact` | hotspot/temperature_grid.c:2478-2547 | Interpolation is exact on bilinear fields: where coarse cell (x, y) holds p + q x + r y + s x y, inner fine cell (i, j) gets that polynomial at its middle, x = (2i - 1) / 4 and y = (2j - 1) / 4. |
| `Multigrid.BoundaryIsOwn` | hotspot/temperature_grid.c:2478-2547 | Fine cells at the boundary get the value of the coarse cell they lie in. |
| `Multigrid.BlendBetween` | hotspot/temperature_grid.c:2478-2547 | No fine temperature leaves the range of the coarse ones. |
| `HeuristicTemps.SetHeuristic` | hotspot/temperature_grid.c:1822-1880 | The starting temperatures of every cell and package node. |
| `HeuristicTemps.HeuristicBalanced` | hotspot/temperature_grid.c:1822-1880 | They balance every cell if lateral and border links are ignored. |
| `HeuristicTemps.HeuristicAbove` | hotspot/temperature_grid.c:1822-1880 | They lie above ambient if no power is negative. |
| `MultigridRun.RestoredIff` | hotspot/temperature_grid.c:2565-2629 | Coarsening all the way down and refining again gives the grid back exactly when rows and columns can be halved until one of them is one. |
| `MultigridRun.PowersHalve` | hotspot/temperature_grid.c:670-673 | Powers of two, which the allocation insists on, can. |
| `MultigridRun.FourInOne` | hotspot/temperature_grid.c:2580-2600 | A cell of the coarser grid stands for four: their vertical conductances and, once computed, capacities add, and the lateral resistances stay. |
| `MultigridRun.Relax` | hotspot/temperature_grid.c:2618-2624 | One sweep, and as many more as it takes until the largest change is within DELTA of zero, or the allowed number if that is not enough: each is a whole sweep, and none but the last changed so little. |
| `MultigridRun.IteratedEnds` | hotspot/temperature_grid.c:2618-2624 | When that loop ended by itself, no node is out of balance by more than DELTA times its conductance; and from temperatures above ambient none falls below while no power is negative. |
| `MultigridRun.RecursiveMultigrid` | hotspot/temperature_grid.c:2565-2629 | Level by level: the coarsest, with one row or column, starts from the heuristic temperatures; each other passes its power, added up over four cells, to the next coarser one and starts from that one's result, interpolated; each is swept until settled. On every level the total power is the same, temperatures stay above ambient while no power is negative, and a level that settled is balanced up to DELTA. The model's grid is as before. |
| `CellRanges.RangeOf` | hotspot/util.c:55-75 | Floor and ceiling give exactly the range of cells an interval meets, never past the last. |
| `CellRanges.PartsMakeUp` | hotspot/temperature_grid.c:296-318 | The parts of an interval in all cells add up to it. |
| `BlockGrid.FindRange` | hotspot/temperature_grid.c:235-261 | A unit outside the chip is reported exactly then; otherwise its range of rows and columns. |
| `BlockGrid.Occupancy` | hotspot/temperature_grid.c:281-320 | The occupancy, one for inner cells and computed at the border, is the area of unit and cell in common over the cell's area, and is never negative. |
| `BlockLists.SetBgmap` | hotspot/temperature_grid.c:220-335 | Every cell lists exactly the units it meets with their occupancies, in order; it fails exactly when a unit is outside. |
| `CoverAreas.CoverArea` | hotspot/temperature_grid.c:220-335 | A pointwise exact cover by rectangles also adds up in area. |
| `BlockSums.BlockMadeUp` | hotspot/temperature_grid.c:263-333 | The overlaps of a unit with all cells add up to its area. |
| `BlockSums.CellFilled` | hotspot/temperature_grid.c:263-333 | The overlaps of a cell with all units of a tiling add up to its area. |
| `BlockTranslate.OccupanciesSumToOne` | hotspot/temperature_grid.c:3222-3243 | Over a tiling the occupancies in each list sum to one. |
| `BlockTranslate.BlistAvg` | hotspot/temperature_grid.c:202-217 | The occupancy-weighted average, by density for power. |
| `BlockTranslate.PowerToCells` | hotspot/temperature_grid.c:1681-1722 | For units inside the chip the cell powers add up to the block powers, and none is negative if no block power is. |
| `BlockTranslate.TempToCells` | hotspot/temperature_grid.c:1681-1722 | Over a tiling, a uniform block temperature gives it to every cell. |
| `CellsToBlocks.CentreOf` | hotspot/temperature_grid.c:1746-1760 | The centre mode averages the one, two or four cells in the middle: equally far from both ends of the range, and at most one apart. |
| `CellsToBlocks.TempToBlocks` | hotspot/temperature_grid.c:1725-1808 | In all four modes each block temperature is what the mode names and lies between the lowest and highest of its cells; a uniform grid comes back. |
| `GridSteady.MapLayers` | hotspot/temperature_grid.c:220-335 | The maps of all layers; it fails exactly when a unit of some layer is outside. |
| `GridSteady.PowerToGrid` | hotspot/temperature_grid.c:1681-1722 | Over all layers of the flat vector: total power arrives in the grid, package nodes have none, no cell power is negative if no block power is. |
| `GridSteady.TempsToBlocks` | hotspot/temperature_grid.c:1725-1808 | Every position of the flat vector holds what the mode makes of its unit's cells, and the package nodes follow. |
| `GridSteady.SteadyState` | hotspot/temperature_grid.c:2631-2686 | End to end from block powers to block temperatures: the temperatures are those of the recursion over all levels, the grid solved carries exactly the blocks' power, is balanced up to DELTA once sweeping ends, and if no block power is negative no block or package temperature is below ambient, in all four modes. |
| `Tokenizer.Split` | frontend/ezOptionParser.hpp:309-388 | For every command line: the strings found from the argument table are the arguments of the grammar, the table and the text stay within what was allocated, and the table ends with its null. |
| `Tokenizer.PiecesJoin` | frontend/ezOptionParser.hpp:309-388 | Stretches with and without quotation marks of either kind, right after one another, make one argument, which is the stretches joined; a blank, a tab or the end of a line ends it. |
| `Tokenizer.RoundTrip` | frontend/ezOptionParser.hpp:1541-1620 | Arguments that are not empty, hold no quote, and a line end only together with a blank, come back unchanged after export. |
| `Tokenizer.RoundTripIff` | frontend/ezOptionParser.hpp:1541-1620 | They come back exactly then. |
| `Tokenizer.EmptyIsLost` | frontend/ezOptionParser.hpp:1541-1620 | An empty argument does not come back. |

## Findings

Places where the code does not do what its callers would expect. Each has its exact condition.

* A tree needs one stack slot per operand that is still open, and the stack has MAX_STACK = 128 slots
  (`hotspot/shape.h:7`). Up to 128 units nothing can happen (`TreeBuilder.FewUnitsFit`). For every larger
  number some expression overflows (`TreeBuilder.DeepOverflows`), and the annealer can get there by legal
  moves (`Reachability.OverflowIsReachable`).
* `make_random_move` tests its counter after the loop, so a move that succeeds in the sixteenth round is
  reported as a failure (`RandomMove.SuccessDecides`, with `RandomMove.LateSuccessIsLost`). It can also run
  out of rounds (`RandomMove.GivesUpOnTwoUnits`). `AnnealingRun.AnnealFloorplan` names both as the only
  causes of an early end besides the stack.
* `lupdcmp` looks for pivots in all columns but the last. It refuses a matrix exactly when the columns before
  the last are dependent (`Lup.Decompose`), so a singular matrix can pass (`Lup.SingularPasses`), and
  `lusolve` divides by its last pivot of zero (`LupSolve.Invert`). The matrices of the block model are regular
  (`BlockModel.BIsRegular`).
* `coo2csc` leaves colptr[size] unwritten exactly when the last column has no entry
  (`SparseColumns.CooToCsc`, with `SparseColumns.EmptyLastColumn`). The matrices of the grid model always have
  one (`GridColumns.BuildColumns`).
* Arguments that are empty, hold a quote, or hold a line end without a blank do not survive export and
  splitting (`Tokenizer.RoundTripIff`).
* `flp_create_grid` has x and y arrays of MAX_UNITS places. n units can need n + 1 (`GridLines.TilingFits`,
  `GridTilings.OneShort`), so at n = MAX_UNITS they are one short.
* A unit narrower than DELTA gets no cell in `flp_create_grid`, and its power is lost, provided that the edges
  near its own two lie between them (`GridPowerMap.ThinIsLost`, `GridPowerMap.ConservedIffNoThin`,
  `GridPowerMap.PowerCanBeLost`).
* An empty floorplan fails the count check of `flp_create_grid`: no cells are taken, and the product of two
  numbers of lines less one is 1 (`GridFloorplan.EmptyMismatches`). Every tiling by units of positive size passes, given
  places for its lines (`GridCoverage.GridOfTiling`).
* A chip exactly as wide or high as the spreader passes the size test of `populate_R_model_block`. Exactly then
  a side of the periphery has no area, and three resistances of that side are divided by it
  (`BlockSteady.PopulateChip`, outcome `Flush`).
* `recursive_multigrid` restores the model's rows and columns only if they can be halved down to one
  (`MultigridRun.RestoredIff`). The powers of two that `alloc_grid_model` insists on can be.

## Left out

Contracts stated for less than the code, or in another form:

- MultigridRun.Relax: the loop around the sweep need not end, so the number of sweeps is a parameter, and the model says what holds when the loop ended.
- MultigridRun.RecursiveMultigrid: the same parameter.
- GridSteady.SteadyState: the same parameter.
- Lup.Decompose: the test for a zero pivot is exact, where the code allows DELTA.
- LupSolve.Solve: asks for nonzero pivots, since the code divides by them.
- ShapeAdd.Add: entries are written as records into one array and split into two sequences at the end; the code fills two arrays.
- Sizing.RecursiveSizing: the stretching of curves before the recursion is done on a value, where the code overwrites the tree's curves.
- WrapL2.WrapAround: the square root is a parameter with its defining property.
- Annealing.Evaluate: the cost is any function of the finished floorplan, where the code weighs area, wire length and peak temperature.
- AnnealingRun.AnnealFloorplan: the cost metric, the random draws and the acceptance of worse candidates are parameters; the thermal model the metric may use, and its power trimming, are not modelled.
- Placements.AddL2: unit names and wire densities are not modelled.
- GridAgreement.BuildMatrix: entries form one list with nodes by name; `GridColumns.BuildColumns` numbers them. The code writes three arrays.
- GridSlope.Slopes: temperatures are a cube and a vector of package nodes, where the code indexes one flat array.
- SparseColumns.CooToCsc: the library sort is an insertion sort with the same order.
- BlockLists.SetBgmap: the same exact rounding, and lists are sequences in an array of cells, where the code links nodes.
- BlockTranslate.PowerToCells: one layer at a time; `GridSteady` puts the layers of the flat vector together.
- CellRanges.RangeOf: rounding treats a number as an integer only if it is one, where the code allows DELTA.
- BlockGrid.FindRange: a unit outside by less than DELTA of a cell is refused, where the code accepts it.
- BlockGrid.Occupancy: overlaps are not rounded to zero or a whole cell within DELTA.
- CellsToBlocks.TempToBlocks: one layer at a time, likewise.
- Tokenizer.Split: command lines without a NUL, as in C; pointers are positions in the text.

What the repository does that is not modelled:

- Adaptive Runge-Kutta steps (`rk4`) and transient temperatures.
- `shape_from_aspect`, which samples the curve of a flexible unit.
- Leakage and its feedback with temperature, and the natural convection and fan package models.
- Detailed 3D resistances and the secondary heat path of the grid model.
- Capacitances of the block model; the solvers of BLAS, LAPACK and SuperLU.
- Rotation, scaling and printing of floorplans, and all reading and writing of files.
- `temperature_mobile.c`.
- Sniper itself: cores, caches, traces, schedulers, power models and scripts.
- Rounding of floating point numbers.
