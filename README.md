# Conway's Elements — a Dafny model of the engine

Conway's Elements is a browser cellular automaton whose cells are chemical
elements. This project models its simulation core in Dafny and proves
properties of that model:

- **The sparse chunked world** (`js/world.js`). A map from `"cx,cy"` keys to
  32×32 chunks that are created lazily, plus the list of celestial bodies. It
  is a `World` class with a `map` field and a `seq` field.
- **The per-chunk tick** (`js/engine.js`). Six passes read the pre-tick
  chunk and write its copy:
  - temperature diffusion;
  - temperature effects and phase transitions;
  - ionization;
  - life and decay;
  - reaction rules, with greedy matching of distinct neighbours;
  - movement by phase, with deferred cross-chunk movers.

  `updateSpace` commits the successors and replays the movers.
  `updatePlanetSurface` settles the dense planet grid using swaps only. Each
  pass is a method over an `array2` buffer. Its contract is a function on grid
  values that follows the source's scan order.
- **The legacy simulator** (`script.js`). A 100×100 grid with:
  - the signal pass;
  - the hard-coded chemistry pass, including fire ageing;
  - the fall, rise and lateral passes, the last with its `processed` mask;
  - the brush;
  - the start/pause toggle.
- **The renderer's computations** (`js/renderer.js`). Hex colour
  interpolation, the temperature colour ramp, the temperature ratio clamp and
  the set of visible chunk keys.
- **The controller** (`js/simulation.js`):
  - the state record;
  - `update` and `onStartPause`;
  - the two brushes;
  - the planet's mass total;
  - `onReturnToSpace`;
  - `initPlanetView`, which sizes the grid and lays materials densest first.
- **The data layer** (`js/data.js`, `data/rules.js`, `data/compounds.js`).
  Temperature defaulting, the merge, the fallback registry, the getters, and
  the two constant tables.

**Modelling conventions:**
- Random draws (`Math.random()`) are oracle parameters. `rng(x, y, k)` is the
  k-th draw made when a pass visits cell (x, y). This is equivalent to one
  stream, because each pass visits each cell once.
- Temperatures and densities are exact `real`s.
- Absent object fields are `Option`s.
- JavaScript `||` defaults are spelled out, with `0` and `undefined` both
  falsy.
- `CHUNK_SIZE` is 32 (`js/constants.js:6`) and `GRID_SIZE` is 100
  (`script.js:17`).

**Two quirks of `applyPhysics` are modelled as written:**
- `move` is handed local coordinates, so it is only geometrically right in
  chunk (0, 0). In the chunks next to the origin a move off an edge wraps
  around to the opposite edge, and further out every move becomes a
  cross-chunk mover.
- The guard on a downward move compares a local y with `CHUNK_SIZE * (chunkY + 1)`.

The cross-chunk `setCell` overwrites its target unconditionally. No global
conservation is claimed across chunks; the model proves that the last mover
aimed at a cell wins.

## Model

| member | source | states |
|---|---|---|
| World.NewChunk | js/world.js:37-46 | a new chunk is 32×32 vacuum cells at the given temperature with x = cx and y = cy |
| World.ChunkCoord | js/world.js:71-72 | `Math.floor(x / 32)` for any integer: 32·c ≤ x < 32·c + 32, negatives included |
| World.LocalCoord | js/world.js:74-75 | the local offset lies in [0, 32), and chunk·32 + local gives back x |
| World.DecomposeUnique | js/world.js:70-76 | two coordinates with the same chunk and local offset are equal, and conversely |
| World.ComposeDecompose | js/world.js:70-76 | decomposing 32·c + l gives back c and l |
| World.MaterializeKeeps | js/world.js:55-61 | `getChunk` keeps every chunk shaped, adds exactly its own key, keeps every existing chunk, and changes no cell's value |
| World.WriteShaped | js/world.js:86-93 | `setCell` keeps every chunk shaped and adds at most the key of the written cell's chunk |
| World.ReadAfterWrite | js/world.js:70-93 | `getCell(x, y)` right after `setCell(x, y, c)` returns c, at any temperature |
| World.ReadOtherAfterWrite | js/world.js:70-93 | `setCell(x, y, c)` leaves the cell at every other coordinate unchanged |
| World.GrownRefl | js/world.js:55-61 | a world is grown from itself |
| World.GrownMaterialize | js/world.js:55-61 | creating a further chunk keeps the grown-from relation |
| World.GrownRead | js/world.js:70-77 | a world that only gained chunks reads every coordinate as before |
| World.CelestialBody.constructor | js/world.js:14-28 | the previous position is the position, mass and radius are 0, velocity and acceleration are 0, and the composition is stored |
| World.World.constructor | js/world.js:8-9 | an empty chunk map and an empty body list |
| World.World.GetChunk | js/world.js:55-61 | afterwards the key is present; an existing chunk is returned unchanged, otherwise a new vacuum chunk is stored and returned |
| World.World.GetCell | js/world.js:70-77 | returns the cell the world held, and only creates the containing chunk |
| World.World.SetCell | js/world.js:86-93 | the chunks become the map with c written at (x, y), and the bodies are unchanged |
| World.World.ClearWorld | js/world.js:98-101 | empty chunk map, empty body list |
| World.World.AddCelestialBody | js/world.js:123-125 | the body list gains exactly this body at its end, and the chunks are unchanged |
| World.World.SetWorld | js/world.js:131-133 | the chunk map is replaced by the given one, and the bodies are unchanged |
| ChunkKeys.ParseKeyOf | js/world.js:56 | the key `"cx,cy"` parses back to (cx, cy), negatives included |
| ChunkKeys.KeyInjective | js/world.js:56 | distinct chunk coordinates never share a key, and conversely |
| ChunkKeys.ParseIntToString | js/world.js:56 | the decimal text of any integer reads back as that integer |
| Data.DefaultTemperatures | js/data.js:46-50 | the defaulting loop computes the defaulted table |
| Data.DefaultedEntries | js/data.js:46-50 | an entry whose temperature is falsy (absent or 0) gets 25, every other entry is unchanged, and no key is added or removed |
| Data.Merge | js/data.js:53 | the keys are the union of both tables; compounds win on a clash, and other element entries are kept |
| Data.LoadedHasTemperatures | js/data.js:34-54 | both the loaded registry and the fallback give every symbol a nominal temperature |
| Data.FallbackContents | js/data.js:37-40 | the fallback holds exactly VACUUM (a gas at −273) and ERROR |
| Data.DataStore.constructor | js/data.js:19-20 | empty registry, empty rules |
| Data.DataStore.LoadData | js/data.js:34-54 | if any table is missing: the fallback registry and no rules; otherwise the defaulted elements merged with the compounds, and the loaded rules |
| Data.DataStore.GetElement | js/data.js:72-74 | the entry when the symbol is registered, nothing otherwise |
| Compounds.CompoundsWellFormed | data/compounds.js:1-161 | every key names its own entry; every entry has a temperature, a density and one of the phases Solid, Liquid, Gas or Plasma |
| Compounds.VacuumCompound | data/compounds.js:2-9 | VACUUM is a gas at −273 with density 0 |
| Compounds.SourceCompounds | data/compounds.js:10-25 | HEAT is at 1000 and COLD at −100; both are solids of density 10 |
| Compounds.LifespanCompounds | data/compounds.js:26-34 | LIFE has lifespan 100; FIRE has lifespan 15 and temperature 800 |
| Compounds.CompoundFlags | data/compounds.js:63-160 | only LIFE is alive; only CH4 and OIL are flammable; only SUN and FUSION_SUN are suns; only LIFE and FIRE have a lifespan |
| RuleTable.ReactantRulesComplete | data/rules.js:2-141 | every reactant rule has products, and consumes exactly as many neighbours as it requires |
| RuleTable.RuleGates | data/rules.js:1-142 | every rule starts enabled with a probability in (0, 1] |
| RuleTable.SpecialRules | data/rules.js:23-141 | 20 rules; rule 3 is the only combustion rule and rule 17 the only magnetism rule, neither with reactants; only the two H_PLASMA rules carry a minimum temperature |
| Diffusion.DiffuseGridAt | js/engine.js:10-41 | the pass's successor, cell by cell, is the per-cell diffusion result |
| Diffusion.DiffusionKeepsSymbols | js/engine.js:18-38 | the pass changes only temperatures: symbols and lifespans stay |
| Diffusion.DiffusionCases | js/engine.js:14-38 | unknown cells are unchanged; HEAT, COLD and suns take exactly their nominal temperature; every other cell relaxes towards the mean of itself and its in-chunk neighbours, with factor 0.9 if conductive and 0.5 otherwise |
| Diffusion.DiffusedBetween | js/engine.js:23-38 | the new temperature lies between any bounds on the temperatures it averages |
| Diffusion.MeanBetween | js/engine.js:38 | the mean of values in [lo, hi] lies in [lo, hi] |
| Diffusion.RelaxBetween | js/engine.js:38 | t + (mean − t)·f stays in [lo, hi] for f in [0, 1] |
| Diffusion.DiffusedAt | js/engine.js:23-37 | the neighbour loop accumulates exactly the sum and count of the cell and its in-chunk neighbours |
| Diffusion.ApplyTemperatureDiffusion | js/engine.js:10-41 | the buffer becomes the diffusion successor of the pre-tick chunk |
| TemperatureEffects.EffectsGridAt | js/engine.js:43-75 | the pass's successor, cell by cell, is the per-cell effect |
| TemperatureEffects.NudgeUnreachable | js/engine.js:56-62 | when the successor cell still has the pre-tick symbol, the HEAT/COLD nudge never applies |
| TemperatureEffects.NoNudgeAfterDiffusion | js/engine.js:407-408 | run after diffusion, every cell still has its pre-tick symbol, so the nudge is unreachable |
| TemperatureEffects.PhaseTransitions | js/engine.js:64-72 | H2O below 0 becomes ICE, ICE above 0 becomes H2O, H2O above 100 becomes STEAM and STEAM below 100 becomes H2O; at exactly 0 or 100, and for every other symbol, nothing changes |
| TemperatureEffects.SourcesPinned | js/engine.js:51-54 | HEAT and COLD take their nominal temperature and keep their symbol |
| TemperatureEffects.ApplyTemperatureEffects | js/engine.js:43-75 | the buffer becomes the effects successor |
| Ionization.Pick | js/engine.js:96 | `Math.floor(draw · n)` is an index below n |
| Ionization.IonizeStepEffect | js/engine.js:80-100 | a visit changes nothing unless the pre-tick cell is H above 15000, the draw is below 0.5 and an in-chunk neighbour is vacuum in the successor; then the centre becomes Hplus, exactly one vacuum neighbour becomes eminus at the hydrogen's temperature, and nothing else changes |
| Ionization.VacantNeighbors | js/engine.js:83-93 | collects exactly the in-chunk vacuum neighbours of the successor, in scan order |
| Ionization.IonizeAt | js/engine.js:80-101 | one visit in place equals the step function |
| Ionization.ApplyIonization | js/engine.js:77-105 | the buffer becomes the ionization successor in scan order |
| LifeAndDecay.Offset | js/engine.js:116-117 | `Math.floor(draw · 3) − 1` lies in [−1, 1] |
| LifeAndDecay.LifeStepEffect | js/engine.js:111-133 | a cell that is not alive changes nothing; a living one dies when its aged lifespan is ≤ 0 and otherwise takes it; at most one other cell changes: on a first draw below 0.1, the cell the two offset draws pick, when it is an in-chunk neighbour (never the cell itself) that was vacuum, and it becomes LIFE with the element's lifespan |
| LifeAndDecay.AgingCountsDown | js/engine.js:128-129 | the aged lifespan is the carried lifespan minus one, or the nominal one minus one when the carried one is absent or 0; death happens exactly when that base is ≤ 1 |
| LifeAndDecay.SpawnAt | js/engine.js:118-125 | the spawn in place equals the spawn function |
| LifeAndDecay.LifeAt | js/engine.js:111-134 | one visit in place equals the step function |
| LifeAndDecay.ApplyLifeAndDecay | js/engine.js:107-137 | the buffer becomes the life successor in scan order |
| Neighbourhood.NeighboursDistinct | js/engine.js:173-182 | the neighbour scan never visits a cell twice |
| Neighbourhood.NeighboursComplete | js/engine.js:173-182 | every in-chunk cell adjacent to the centre is visited |
| Reactions.FindIndex | js/engine.js:188 | the first pool entry with the symbol that is not already taken, or −1 |
| Reactions.GreedyMatch | js/engine.js:187-192 | the greedy matching loop over the required symbols, splicing out what it finds |
| Reactions.MatchMeansPresent | js/engine.js:184-194 | the match is complete exactly when the in-chunk neighbours hold the required symbols, with multiplicity; every match comes from the pool |
| Reactions.GreedyMatchComplete | js/engine.js:184-192 | greedy splicing finds a full match exactly when the pool holds the required symbols with multiplicity |
| Reactions.MatchInChunk | js/engine.js:172-190 | every matched position lies in the chunk |
| Reactions.MatchAdjacent | js/engine.js:172-190 | every matched position is a neighbour of the centre |
| Reactions.MatchNeighbors | js/engine.js:184-192 | the loop computes the greedy match |
| Reactions.GatherNeighbors | js/engine.js:172-182 | collects the in-chunk neighbour records in scan order |
| Reactions.OxygenScan | js/engine.js:152-167 | reports exactly whether some in-chunk neighbour is O in the pre-tick chunk |
| Reactions.OxygenNearMeans | js/engine.js:152-167 | the oxygen test holds exactly when some in-chunk cell adjacent to the centre is O |
| Reactions.GateCases | js/engine.js:149 | a disabled rule and a draw above a truthy probability change nothing; an absent or 0 probability lets every draw through |
| Reactions.CombustionEffect | js/engine.js:151-169 | past the gate, a flammable cell becomes FIRE at FIRE's temperature (or 800) exactly when a pre-tick neighbour is O; otherwise nothing changes |
| Reactions.PatternEffect | js/engine.js:171-200 | a reactant rule past the gate whose pattern is present sets the centre to the product at the product's temperature, whatever it consumes |
| Reactions.PatternConsumes | js/engine.js:194-212 | on firing, the first `consumed_neighbors` matches become vacuum at the vacuum temperature and no other cell but the centre changes |
| Reactions.FiringIs | js/engine.js:194-212 | on firing, the rule is the centre's product followed by the consumption of the first `consumed_neighbors` matches, all of them in the chunk |
| Reactions.ConsumeAfterCentre | js/engine.js:201-211 | the consumption writes only the listed places, with vacuum |
| Reactions.PatternAbsent | js/engine.js:194 | a reactant rule whose pattern is not present changes nothing |
| Reactions.WaterFormation | data/rules.js:2-8 | with the shipped table, O with two H neighbours becomes H2O whatever the draw |
| Reactions.Consume | js/engine.js:201-211 | the consumption loop in place equals its function |
| Reactions.ApplyRuleAt | js/engine.js:148-213 | one rule in place equals the rule function |
| Reactions.RulesAt | js/engine.js:148-214 | all rules at a cell, in table order |
| Reactions.ApplyRules | js/engine.js:139-217 | the buffer becomes the rules successor in scan order |
| Physics.MoveTo | js/engine.js:233-247 | the state after `move` stays well formed |
| Physics.TargetDirections | js/engine.js:249-309 | solids only fall; liquids fall or flow sideways; gases rise or drift sideways |
| Physics.SideOnlyWhenBlocked | js/engine.js:261-308 | a liquid or gas tries the side the draw picks only when it cannot sink or rise |
| Physics.MoveCases | js/engine.js:233-247 | a move either swaps with a vacuum target in the chunk, leaves everything as it was, or appends exactly one mover and leaves vacuum at −273 |
| Physics.MoveBalance | js/engine.js:233-247 | a move keeps the chunk's cells plus the carried cells, with the departed vacuum counted |
| Physics.StepBalance | js/engine.js:226-309 | one visit keeps that balance |
| Physics.PassBalance | js/engine.js:224-311 | the whole pass creates and loses no cell: the successor plus the movers' cells equal the start plus the departed vacuum |
| Physics.OffOriginMovesLeave | js/engine.js:233-244 | in every chunk column with cx < −1 or cx > 1, every move to a local target within one cell of the chunk fails the same-chunk test and becomes a mover |
| Physics.NeighbourChunksWrap | js/engine.js:233-242 | next to the origin the local coordinates wrap: in chunk (1, 0) a move off the right edge swaps with the left edge of its row, in chunk (−1, 0) a move off the left edge swaps with the right edge, in chunk (0, 1) a fall off the bottom row swaps with the top row, and in chunk (0, −1) a rise off the top row swaps with the bottom row, whenever that cell is vacuum |
| Physics.OriginMovesSwap | js/engine.js:237-242 | in chunk (0, 0) a move is the in-chunk swap |
| Physics.StillCells | js/engine.js:228-264 | unknown and vacuum cells never move, and a solid the fall guard stops stays; the guards depend only on the chunk row: for cy < 0 nothing falls and everything may rise, for cy > 0 everything may fall and nothing rises, and for cy = 0 a cell may fall unless y = 31 and rise unless y = 0 |
| Physics.ProbeCell | js/engine.js:253 | `getCell` during the pass returns the start world's cell and only grows the world |
| Physics.MoveCell | js/engine.js:233-247 | `move` in place equals the state function |
| Physics.SolidAt | js/engine.js:249-260 | the solid branch picks the specified target |
| Physics.LiquidSideAt | js/engine.js:274-284 | the liquid's side attempt picks the specified target |
| Physics.LiquidAt | js/engine.js:261-284 | the liquid branch picks the specified target |
| Physics.GasSideAt | js/engine.js:298-308 | the gas's side attempt picks the specified target |
| Physics.GasAt | js/engine.js:285-308 | the gas branch picks the specified target |
| Physics.PhysAt | js/engine.js:226-309 | one visit in place equals the step function |
| Physics.ApplyPhysics | js/engine.js:219-312 | the buffer and the movers become the pass's result, from the bottom row up |
| Space.CommitRead | js/engine.js:417-419 | after the commit, a cell of a committed chunk reads from its successor and any other cell as before |
| Space.ReplayRead | js/engine.js:421-423 | after the replay a cell holds the cell of the last mover aimed at it, or what it held before |
| Space.LastAtIsLast | js/engine.js:421-423 | the chosen mover targets the cell and no later mover does |
| Space.UpdateElsewhere | js/engine.js:417-423 | a cell outside the committed chunks that no mover aims at reads as before the update |
| Space.TickChunk | js/engine.js:405-412 | the six passes on a fresh copy give the chunk's tick, in engine order |
| Space.VisitKey | js/engine.js:401-415 | one visible key: a missing chunk is skipped, and a present one is ticked; a chunk found that the starting world lacked was created on the way and is vacuum at the ambient temperature, with the coordinates its key names |
| Space.ReplayMovers | js/engine.js:421-423 | `setCell` for each mover, in order |
| Space.UpdateSpace | js/engine.js:397-424 | the world after the loop, the commit and the replay, and the bodies unchanged |
| Planet.Gravity | js/engine.js:446 | the reach is at most 5, at least 1 for a non-negative mass, and 5 exactly from mass 4000 up |
| Planet.FallReach | js/engine.js:459-470 | every cell a fall passes can be passed; the fall stops short only at the bottom or at a cell it cannot pass |
| Planet.RiseReach | js/engine.js:493-504 | the same for a rise |
| Planet.SettleStepEffect | js/engine.js:450-511 | a visit changes nothing (always for unknown and vacuum cells) or swaps with the end of a fall 1..gravity rows below, an in-bounds vacuum side cell (liquids), or the end of a rise 1..gravity rows above |
| Planet.SettleStepBag | js/engine.js:450-511 | a visit keeps the multiset of cells |
| Planet.SettleUpToBag | js/engine.js:448-513 | the scan so far keeps the multiset of cells |
| Planet.PlanetSurfaceKeeps | js/engine.js:439-515 | null gives null; otherwise the grid keeps its height, its width and its multiset of cells |
| Planet.BottomRowIdle | js/engine.js:448 | the bottom row is never visited as a source |
| Planet.IdleUpTo | js/engine.js:448-513 | a grid whose cells above the bottom row are all empty is left unchanged by the scan |
| Planet.FallTargetAt | js/engine.js:459-470 | the fall loop computes the specified target |
| Planet.RiseTargetAt | js/engine.js:493-504 | the rise loop computes the specified target |
| Planet.SettleAt | js/engine.js:450-511 | one visit in place equals the step function |
| Planet.SettleNext | js/engine.js:449-512 | one more cell of the scan |
| Planet.SettleRow | js/engine.js:449-512 | one row of the scan, left to right |
| Planet.UpdatePlanetSurface | js/engine.js:439-515 | returns the settled copy, or null for a null grid |
| Brush.BrushCentre | script.js:271-274 | the clicked cell is painted exactly when r ≥ 0; a negative radius paints nothing |
| LegacyCells.Blank | script.js:47-51 | `initializeGrid` gives 100×100 unenergized vacuum |
| LegacyCells.SpecialsLoaded | script.js:30-40 | the six special entries are present whatever was loaded, and other loaded entries are kept |
| LegacyCells.MatchingExact | script.js:106-112 | the matching list holds exactly the in-bounds neighbours with the symbol, each once, in scan order |
| LegacyCells.MatchingAt | script.js:106-111 | the loop collects the matching list |
| LegacySignal.SignalStepEffect | script.js:64-88 | a visit clears its own charge and charges exactly the adjacent cells it feeds |
| LegacySignal.SignalPass | script.js:58-90 | every field but the charge is kept; an uncharged cell becomes charged exactly when an adjacent source feeds it; a charged cell stays charged exactly when an adjacent active trigger later in scan order feeds it |
| LegacySignal.SignalKnown | script.js:58-90 | the pass keeps every symbol |
| LegacySignal.SignalStepCharged | script.js:61-88 | one visit extends the charge characterisation by one scan position |
| LegacySignal.SignalUpToCharged | script.js:58-90 | the scan up to any position meets the charge characterisation up to that position |
| LegacySignal.EnergizeAt | script.js:67-87 | the neighbour loop in place |
| LegacySignal.SignalAt | script.js:61-88 | one visit in place |
| LegacySignal.ApplySignal | script.js:58-90 | the buffer becomes the signal pass |
| LegacyChemistry.FireLifetime | script.js:99-103 | a fire without an age is at age k after k ticks for k ≤ 15, and vacuum after the 16th |
| LegacyChemistry.FireStepEffect | script.js:99-103 | a fire's visit writes only its own cell |
| LegacyChemistry.FirstMatches | script.js:112-116 | the H cells consumed are the first ones in scan order |
| LegacyChemistry.Consumes | script.js:113-116 | the centre becomes the product and exactly the first `count` H cells become vacuum |
| LegacyChemistry.WaterFormation | script.js:105-117 | O with at least two H neighbours becomes H2O and the first two H become vacuum; with fewer, nothing changes |
| LegacyChemistry.MethaneFormation | script.js:134-148 | C with at least four H neighbours and a draw below 0.05 becomes CH4 and the first four H become vacuum; otherwise nothing changes |
| LegacyChemistry.SaltUpToEffect | script.js:120-132 | the centre becomes NACL exactly when a neighbour is the opposite ion and its draw is below 0.2; each such neighbour becomes vacuum; no other cell changes |
| LegacyChemistry.IgniteUpToEffect | script.js:150-159 | the centre catches fire at age 0 exactly when a neighbour is O and its draw is below 0.1; each such neighbour catches fire too; no other cell changes |
| LegacyChemistry.ChemStepKnown | script.js:93-160 | a visit writes only registered symbols |
| LegacyChemistry.ChemKnown | script.js:92-161 | the pass writes only registered symbols |
| LegacyChemistry.ChemAt | script.js:95-159 | one visit in place |
| LegacyChemistry.ClearFirstAt | script.js:113-116 | the loop over the first `count` matches in place equals its function |
| LegacyChemistry.SaltOneAt | script.js:121-130 | one neighbour of the salt loop in place |
| LegacyChemistry.SaltAt | script.js:120-132 | the salt loop in place |
| LegacyChemistry.IgniteOneAt | script.js:151-158 | one neighbour of the combustion loop in place |
| LegacyChemistry.IgniteAt | script.js:150-159 | the combustion loop in place |
| LegacyChemistry.ApplyChemistry | script.js:92-161 | the buffer becomes the chemistry pass |
| LegacyPhysics.FallStepEffect | script.js:165-198 | a visit changes nothing or swaps a known non-gas cell with a gas cell below, at most one column aside; a salt cell with a salt neighbour never moves |
| LegacyPhysics.FallStepBag | script.js:166-197 | one fall visit keeps the multiset of cells |
| LegacyPhysics.FallBag | script.js:165-198 | the fall pass keeps the multiset of cells |
| LegacyPhysics.RiseBag | script.js:200-207 | the rise pass keeps the multiset of cells and known symbols |
| LegacyPhysics.LateralStepEffect | script.js:210-227 | a visit changes nothing or swaps a liquid or non-vacuum gas with a gas beside it, both unprocessed before and processed after; processed cells keep their content |
| LegacyPhysics.LateralStepBag | script.js:211-226 | one lateral visit keeps the multiset of cells |
| LegacyPhysics.LateralFrozen | script.js:209-227 | once marked processed, a cell keeps its content and mark to the end of the pass: at most one lateral swap per cell |
| LegacyPhysics.LateralBag | script.js:209-227 | the lateral pass keeps the multiset of cells |
| LegacyPhysics.MovementKeeps | script.js:164-227 | the three passes together keep the multiset of cells and known symbols |
| LegacyPhysics.NaclNeighbourAt | script.js:172-179 | the scan reports exactly whether a salt neighbour exists |
| LegacyPhysics.FallAt | script.js:166-197 | one fall visit in place equals the step function |
| LegacyPhysics.RiseAt | script.js:201-206 | one rise visit in place equals the step function |
| LegacyPhysics.LateralAt | script.js:211-226 | one lateral visit in place, with its `processed` mask, equals the step function |
| LegacyPhysics.ApplyFall | script.js:165-198 | the grid becomes the fall pass |
| LegacyPhysics.ApplyRise | script.js:200-207 | the grid becomes the rise pass |
| LegacyPhysics.ApplyLateral | script.js:209-227 | the grid becomes the lateral pass |
| Legacy.TickKeeps | script.js:53-230 | a tick keeps the grid 100×100, writes only known symbols, and its movement passes only rearrange what the chemistry left |
| Legacy.PaintReach | script.js:266-281 | a stamp covers the clicked cell, reaches no cell further than the radius, and paints only the clicked cell with a brush of size 0 or 1 |
| Legacy.PaintKnown | script.js:259-282 | painting a registered symbol keeps the cells known |
| Legacy.LegacySim.constructor | script.js:22-26 | the initial state, the loaded table (empty when the load failed) and a blank grid |
| Legacy.LegacySim.InitializeGrid | script.js:47-51 | a fresh blank grid, nothing else changed |
| Legacy.LegacySim.LoadElements | script.js:30-45 | on success the loaded table with the specials; on failure unchanged |
| Legacy.LegacySim.Update | script.js:53-230 | nothing while paused; otherwise the grid becomes the tick of the old grid; a grid of known symbols under a table with the special entries stays known |
| Legacy.LegacySim.StartPause | script.js:289-293 | flips the run flag, and a starting run performs one tick; a grid of known symbols stays known |
| Legacy.LegacySim.Paint | script.js:259-282 | off-grid clicks do nothing, a trigger toggles, otherwise the stamp |
| Renderer.HexRoundTrip | js/renderer.js:14-26 | a digit written by `toString(16)` reads back as its value |
| Renderer.ByteDigits | js/renderer.js:26 | a channel in [0, 255] is written as exactly two lowercase digits |
| Renderer.MixBetween | js/renderer.js:22-24 | a factor in [0, 1] gives a channel between the two inputs |
| Renderer.MixEnds | js/renderer.js:22-24 | factor 0 gives the first channel and factor 1 the second |
| Renderer.InterpolateShape | js/renderer.js:13-27 | for valid colours and a factor in [0, 1]: `#` and six lowercase hex digits, each channel between the inputs' channels |
| Renderer.ReadWrite | js/renderer.js:14-26 | a colour read into channels and written again is the colour lowercased |
| Renderer.InterpolateEnds | js/renderer.js:22-26 | factor 0 gives the first colour lowercased and factor 1 the second |
| Renderer.RampCold | js/renderer.js:29-39 | ratio 0 gives `#00bfff` |
| Renderer.RampMiddle | js/renderer.js:29-39 | ratio 0.5 gives `#ffffff` |
| Renderer.RampHot | js/renderer.js:29-39 | ratio 1 gives `#ff4500` |
| Renderer.RampColdHalf | js/renderer.js:34-35 | below one half: a lowercase colour with full blue |
| Renderer.RampHotHalf | js/renderer.js:36-37 | from one half: a lowercase colour with full red |
| Renderer.TempRatio | js/renderer.js:91 | the clamped ratio lies in [0, 1], and is the raw ratio when that is in range |
| Renderer.CellColorShape | js/renderer.js:88-93 | vacuum and unknown cells get no fill; any other cell gets a lowercase colour of the ramp |
| Renderer.CollectKeys | js/renderer.js:141-145 | the nested loops add the row-major block of chunk keys, without duplicates |
| Renderer.VisibleChunkKeys | js/renderer.js:128-147 | returns the visible key set |
| Renderer.VisibleKeysExact | js/renderer.js:131-146 | a key `"x,y"` is in the set exactly when x and y lie in the floor/ceil chunk ranges |
| Renderer.VisibleKeysOnly | js/renderer.js:131-146 | every key in the set names a chunk in the ranges |
| Renderer.VisibleCovers | js/renderer.js:131-146 | every cell that overlaps the canvas lies in a visible chunk |
| Simulation.DiscHas | js/simulation.js:79-81 | the brush's offsets are exactly those with i² + j² ≤ r² inside the loops' square |
| Simulation.WriteAllRead | js/simulation.js:79-89 | after the writes, a written offset reads as the painted cell and every other cell as before |
| Simulation.SpaceBrushRead | js/simulation.js:73-89 | the space brush writes exactly the disc: a cell at an offset within the radius reads as the painted cell, every other cell as before |
| Simulation.PaintStep | js/simulation.js:80-88 | one probe of the inner loop extends the writes done so far by that offset when it lies in the disc |
| Simulation.Probe | js/simulation.js:81-87 | the inner loop's body: `setCell` exactly when i² + j² ≤ r² |
| Simulation.PlanetBrushReach | js/simulation.js:96-108 | the planet brush keeps the grid's size, paints the clicked cell when it is in the grid, and writes nothing outside the disc |
| Simulation.PlanetDone | js/simulation.js:96-109 | the finished loops have painted exactly the in-grid disc |
| Simulation.TotalMass | js/simulation.js:167-176 | the loop computes the sum of `element.mass × quantity` over known symbols with a truthy mass |
| Simulation.MassOfConcat | js/simulation.js:169-175 | the total is additive over concatenated compositions |
| Simulation.MassOfSkips | js/simulation.js:172 | an unknown symbol or a zero or absent mass adds nothing |
| Simulation.MassOfNonneg | js/simulation.js:167-175 | non-negative masses and quantities give a non-negative total |
| Simulation.GridWidth | js/simulation.js:199 | `max(100, floor(radius·10))`, so at least 100 |
| Simulation.GridHeight | js/simulation.js:200 | `max(50, floor(radius·5))`, so at least 50 |
| Simulation.VacuumGrid | js/simulation.js:202-204 | the initial grid is all vacuum at 25 |
| Simulation.CollectMaterials | js/simulation.js:206-217 | the loops build each known symbol's element `count` times, in composition order |
| Simulation.MaterialsKnown | js/simulation.js:206-217 | every material is the registry entry of a composition symbol |
| Simulation.SortByDensity | js/simulation.js:218 | the result is a permutation of the input, densest first |
| Simulation.FillGrid | js/simulation.js:220-232 | the cursor loop places material k at fill position k while the grid has room |
| Simulation.BuildPlanetView | js/simulation.js:199-232 | sizing, vacuum fill, materials, sort and fill |
| Simulation.FilledPlacement | js/simulation.js:220-232 | material k sits at row h − 1 − k / w, column k % w while k < h·w |
| Simulation.FilledRest | js/simulation.js:220-232 | a cell past the last material keeps its vacuum |
| Simulation.PlanetViewPlacement | js/simulation.js:199-232 | each cell of the planet view holds the sorted material at its fill position, or vacuum past the end |
| Simulation.SurfacePlanar | js/engine.js:439-515 | settling a planet grid gives a planet grid of the same shape |
| Simulation.Controller.constructor | js/simulation.js:21-37 | the initial state record |
| Simulation.Controller.Update | js/simulation.js:39-52 | nothing while paused; in space mode one `updateSpace` over the visible keys; in planet mode the grid is settled once |
| Simulation.Controller.StartPause | js/simulation.js:60-66 | flips `isRunning`, returns the new value, and a starting run performs one update |
| Simulation.Controller.Paint | js/simulation.js:68-111 | nothing for an unknown symbol; in space mode the disc is written; in planet mode the in-grid disc is painted on an existing grid |
| Simulation.Controller.PaintSpace | js/simulation.js:79-89 | the space brush's loops give exactly the disc writes |
| Simulation.Controller.PaintPlanet | js/simulation.js:93-109 | the planet brush's loops give exactly the in-grid disc |
| Simulation.Controller.CreatePlanet | js/simulation.js:160-180 | appends one body at the cell under the canvas centre, with the previous position equal to the position, zero velocity and acceleration, the composition, a mass equal to the composition's total and a radius of twice its cube root; the chunks are unchanged |
| Simulation.Controller.ReturnToSpace | js/simulation.js:152-159 | space mode, no body, no planet grid |
| Simulation.Controller.EnterPlanetView | js/simulation.js:188-197 | planet mode on the body, and a running simulation paused |
| Simulation.Controller.ResumePlanetView | js/simulation.js:234-236 | resumes the run, which settles the new grid once |
| Simulation.Controller.InitPlanetView | js/simulation.js:187-235 | the planet view's grid; when the run was going, resumed and settled once |

## Left out

- N-body gravity (`js/engine.js:314-339`), the Verlet position update (`js/engine.js:428-436`) and particle accretion (`js/engine.js:341-395`): floating-point trigonometry and numerics. The model's `UpdateSpace` stops after the mover replay.
- `Math.cbrt`: a parameter of `CreatePlanet`.
- Canvas drawing, the DOM, js/ui.js, `requestAnimationFrame`, script loading (`loadScript`) and the `fetch` of `elements.json`, which is a parameter (`None` when it fails).
- The setter handlers, `onMouseMove`, `onRightClick` picking and the mouse-to-world conversion: the model takes world or grid coordinates as given.
- The toggles for mass-based gravity, atmospheres and cores: nothing modelled reads them.
- IEEE-754 rounding and NaN. Temperatures are exact reals, and a lifespan that would be NaN is `None`.
- The engine's `getCell`/`setCell` calls pass no vacuum temperature, so new chunks get an undefined one. The model passes an explicit `ambient` parameter.
- `JSON.parse(JSON.stringify(...))` is a value copy of the cells.
- Random draws are oracles indexed by position and pass, not one stream.
- The combustion `break` only leaves the `dx` loop. Its repeated write is idempotent, so the model says "some neighbour is O".
- The physics quirks and the unconditional mover overwrite are modelled as written. No global conservation across chunks is claimed.
- Legacy.LegacySim.Update: script.js throws a TypeError where the movement passes read the phase of a cell whose symbol is absent from the table: the cell below a known non-gas (script.js:183, script.js:192) or beside a known liquid or gas (script.js:219-220). The tick then stops half done and no further tick is scheduled. The model reads such a cell as "not a gas" and finishes the tick. No method requires the symbols to be known, and `paint` can stamp a symbol the table lacks (the default "C" need not be loaded). What is proved instead: a grid whose symbols are all known, under a table holding the special entries, stays known after a tick (`Legacy.TickKeeps` and Update's ensures). On such a grid every cell the movement passes read is known, because the chemistry writes only known symbols and the passes only swap (`LegacyPhysics.MovementKeeps`), so the throwing lookups do not arise. Painting a registered symbol keeps the grid known (`Legacy.PaintKnown`).
- Legacy.LegacySim.StartPause: the tick it runs when starting has the same gap as Update.
- The legacy brush's `Math.sqrt(i*i + j*j) > radius` is the integer test `i*i + j*j > radius*radius`. They agree, because for a non-negative integer radius the square root exceeds the radius exactly when its argument exceeds the radius squared.
- Renderer.InterpolateShape: requires both colours to be valid `#RRGGBB`. `parseInt` on malformed text (giving NaN) is not modelled.
- Renderer.VisibleChunkKeys: requires zoom > 0. A zero zoom divides by zero in the source.
- Renderer.CollectKeys: generic over the naming function. The key set is a sequence of insertions, the order a JavaScript `Set` iterates in.
- A celestial body has no `temperature` field, so `body.temperature || 25` is always 25.
- Simulation.SortByDensity: sorts by stable insertion, as `Array.prototype.sort` is stable. Stability is not stated as a lemma.
- A body's composition is a sequence of (symbol, count) pairs in the object's key order.
- Simulation.Controller.InitPlanetView: builds the grid as a local value, then stores it. The source fills `state.planetGrid` in place, and nothing reads it in between.
- Simulation.Controller.PaintPlanet: edits a local copy of the planet grid, then stores it. The source writes the shared grid in place, and nothing else holds it.
- Simulation.Controller.constructor: requires every entry to have a temperature (`HasTemperatures`) and every reactant rule to have products (`RulesComplete`). These hold for the shipped tables (`Data.LoadedHasTemperatures`, `RuleTable.ReactantRulesComplete`).
- Simulation.Probe, Planet.SettleRow, Planet.SettleNext, Simulation.Controller.EnterPlanetView and Simulation.Controller.ResumePlanetView: loop bodies or halves of a handler, split out as methods of their own.
- `onClear` is `clearWorld` (`World.World.ClearWorld`). The element and brush setters are plain field writes.
