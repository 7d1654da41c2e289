# FengShui-Plotter layout core in Dafny

A model of the planning core of FengShui-Plotter, a room planner that
places furniture (beds, desks) and boundaries (doors, windows) on a grid of
one-inch cells. It covers three parts:

- **Placement rules** (`helpers.dfy`, `layout.dfy`). These cover:
  - the object catalog;
  - footprints, and polygons with their bounding-box intersection test;
  - when an anchor cell is a valid position;
  - the collision test against the set of occupied cells, and how that set grows.

  Furniture must lie inside the grid. A door or window must sit on a wall, and its span must fit along that wall. A boundary blocks no cells.
- **The feng shui optimizer** (`bagua.dfy`, `placement_order.dfy`,
  `optimizer.dfy`, `score_properties.dfy`). These cover:
  - the bagua map, which splits the grid into 3 x 3 zones;
  - the layout score: weighted zone preferences, plus the command position towards the first door, plus chi flow;
  - the seeded initial layout, which places the desk first and the other types in name order;
  - hill climbing with an acceptance rule and early stopping;
  - the per-zone counts of the layout analysis.
- **The server's random placer** (`random_placer.dfy`). It places objects in request order, each at the first free random cell, or at the origin after a thousand failed draws.

Random choices are parameters: functions from where a choice is made (the object, the attempt, the iteration) to the value drawn. Every property below holds for all such functions, so it holds whatever the random generator returns.

Pure rules are functions. Loops that update variables are methods proved against those functions:
- the occupied set, which the source grows in place, is a class;
- the chi grid is a two-dimensional array.

## Model

| member | source | states |
|---|---|---|
| Helpers.Dimensions | scripts/helpers.py:43-56 | a footprint is at least 1 x 1: the catalog size where positive, 1 otherwise, and 1 x 1 for an unknown type |
| Helpers.InOccupies | scripts/helpers.py:161-175 | a cell is blocked exactly when the object is not a boundary and the cell lies in its footprint rectangle |
| Helpers.UnknownOccupiesAnchor | scripts/helpers.py:156-159 | an unknown type blocks exactly its anchor cell |
| Helpers.BoundaryValidIffRunInside | scripts/helpers.py:92-114 | a boundary is valid iff its anchor is on a wall and the whole run of span cells along that wall lies inside the grid |
| Helpers.FurnitureValidIffInside | scripts/helpers.py:116-130 | a catalogued non-boundary is valid iff every cell of its footprint lies inside the grid |
| Helpers.Polygon | scripts/helpers.py:58-74 | a boundary's polygon is the single anchor point; every other polygon has four corners |
| Helpers.Lo | scripts/helpers.py:79-82 | the minimum of the polygon's coordinates on an axis: no coordinate is below it and one equals it |
| Helpers.Hi | scripts/helpers.py:79-82 | the maximum of the polygon's coordinates on an axis: no coordinate is above it and one equals it |
| Helpers.IntersectIffCommonPoint | scripts/helpers.py:76-84 | the intersection test holds iff the two closed bounding boxes share a point, so it is symmetric |
| Helpers.SharedCellIntersects | scripts/helpers.py:58-84 | two objects that block a common cell have intersecting polygons |
| Helpers.SideBySideIntersects | scripts/helpers.py:76-84 | furniture placed edge to edge shares no cell, yet its polygons count as intersecting because the boxes are closed |
| Helpers.CheckObjectCollision | scripts/helpers.py:132-152 | the result is true iff some footprint cell is occupied; it is never true for a boundary |
| Helpers.AddOccupiedPositions | scripts/helpers.py:154-175 | the occupied set becomes the old set plus exactly the cells the object blocks |
| Helpers.PlacedFurnitureCollidesWithItself | scripts/helpers.py:132-175 | once furniture's cells are added, the same placement collides |
| Layout.InOccupiedBy | scripts/feng_shui_optimizer.py:365-378 | a cell is in the set built by replaying placements iff some placement blocks it |
| Layout.FittedIsDisjointFromEarlier | scripts/feng_shui_optimizer.py:363-380 | a placement that passed the checks against the cells before it shares no cell with any earlier placement |
| Layout.ValidLayoutProperties | scripts/feng_shui_optimizer.py:363-380 | in a valid layout no two placements share a cell. Every type is catalogued and every placement is at a valid position. Every footprint is inside the grid. Every boundary is on a wall |
| Layout.FitsOrOriginProperties | scripts/feng_shui_optimizer.py:312-333 | in a layout built by fit-or-origin, placements that fitted are disjoint from all earlier ones. Every placement away from the origin is at a valid position |
| PlacementOrder.LexLeTotal | scripts/feng_shui_optimizer.py:303 | string order is total |
| PlacementOrder.LexLeAntisymmetric | scripts/feng_shui_optimizer.py:303 | string order is antisymmetric |
| PlacementOrder.LexLeTransitive | scripts/feng_shui_optimizer.py:303 | string order is transitive |
| PlacementOrder.KeyLeTotalOrder | scripts/feng_shui_optimizer.py:303 | the key (name != "desk", name) orders type names totally |
| PlacementOrder.Insert | scripts/feng_shui_optimizer.py:303 | inserting into a sorted list keeps it sorted and adds exactly the element |
| PlacementOrder.SortForPlacement | scripts/feng_shui_optimizer.py:302-303 | the result is sorted by the key and is a permutation of the input |
| PlacementOrder.SortedUnique | scripts/feng_shui_optimizer.py:303 | two sorted permutations of the same names are equal, so any sorting algorithm gives this order |
| PlacementOrder.DeskFirst | scripts/feng_shui_optimizer.py:302-303 | when a desk is requested it is placed first |
| Bagua.Band | scripts/feng_shui_optimizer.py:102-116 | a band index is 0, 1 or 2 |
| Bagua.BandThirds | scripts/feng_shui_optimizer.py:101-116 | band 0 is [0, n/3), band 1 is [n/3, 2(n/3)), and band 2 is the rest, which absorbs the remainder (each an iff) |
| Bagua.CreateBaguaMap | scripts/feng_shui_optimizer.py:94-119 | fails (division by zero) exactly when the grid has cells but is narrower or shorter than 3. Otherwise the map's keys are exactly the grid cells, each labelled with its 3 x 3 zone |
| Bagua.EveryZoneLabelsACell | scripts/feng_shui_optimizer.py:105-117 | on a grid of at least 3 x 3 every one of the nine zones labels some cell |
| Bagua.GridPosition | scripts/feng_shui_optimizer.py:106-110 | each zone has a (row, column) in the 3 x 3 table holding it |
| Optimizer.DefaultConfigWellFormed | scripts/feng_shui_optimizer.py:31-89 | the default configuration weights every zone and has bed and desk preferences |
| Optimizer.NewOptimizer | scripts/feng_shui_optimizer.py:18-92 | keeps the grid size and catalog. Uses the given configuration, or the default when none is given. Fails exactly when the bagua map cannot be built. Otherwise the optimizer is valid when its configuration is |
| Optimizer.FirstDoor | scripts/feng_shui_optimizer.py:157-165 | None iff no placement is a door; otherwise a door with no door before it |
| Optimizer.Missing | scripts/feng_shui_optimizer.py:454-459 | only requested types absent from the layout are added, at the origin. Nothing is added when every requested type is present |
| Optimizer.MissingCovers | scripts/feng_shui_optimizer.py:455-459 | every requested type absent from the layout gets an origin placement |
| Optimizer.MissingTypes | scripts/feng_shui_optimizer.py:455-459 | the added types are the absent requests, in request order |
| Optimizer.MissingCount | scripts/feng_shui_optimizer.py:455-459 | an absent type is added once per request, so a type requested twice is added twice; a present type is never added |
| Optimizer.FengShuiOptimizer.ZoneLookup | scripts/feng_shui_optimizer.py:121-123 | an in-grid cell gets its 3 x 3 zone; any other cell counts as the centre (health) |
| Optimizer.FengShuiOptimizer.BaguaScoreSign | scripts/feng_shui_optimizer.py:125-148 | with positive weights, a placement scores above 0 iff its zone is preferred for its type, and below 0 iff the zone is avoided and not preferred |
| Optimizer.FengShuiOptimizer.CommandHits | scripts/feng_shui_optimizer.py:169-181 | at most one hit per placement, and none when the layout has no bed or desk |
| Optimizer.FengShuiOptimizer.CommandPointsCountsHits | scripts/feng_shui_optimizer.py:169-181 | the accumulated score is the command weight times the number of beds and desks that want the position and face the door |
| Optimizer.FengShuiOptimizer.CommandScoreRange | scripts/feng_shui_optimizer.py:150-182 | 0 without a door. Otherwise weight times hits, which lies between 0 and weight times the layout size |
| Optimizer.FengShuiOptimizer.CalculateCommandPositionScore | scripts/feng_shui_optimizer.py:150-182 | the loops compute the command score against the first door |
| Optimizer.FengShuiOptimizer.ZoneCount | scripts/feng_shui_optimizer.py:231-236 | a zone count never exceeds the number of placements |
| Optimizer.FengShuiOptimizer.ClutterPenalty | scripts/feng_shui_optimizer.py:230-239 | not negative for a non-negative penalty, and zero when no zone holds more than two placements |
| Optimizer.FengShuiOptimizer.Excess | scripts/feng_shui_optimizer.py:238-239 | a zone with at most two placements costs nothing, and no zone costs less than nothing for a non-negative penalty |
| Optimizer.FengShuiOptimizer.MarkBlocked | scripts/feng_shui_optimizer.py:200-212 | a fresh rows x cols grid, each cell set iff some placement not named door or window covers it |
| Optimizer.FengShuiOptimizer.MarkPlacement | scripts/feng_shui_optimizer.py:204-212 | after one placement the grid marks exactly the cells blocked by the placements so far, clipped to the grid |
| Optimizer.FengShuiOptimizer.CountClearPaths | scripts/feng_shui_optimizer.py:214-226 | the nested loops count, for each free cell, its free orthogonal neighbours |
| Optimizer.FengShuiOptimizer.CountZone | scripts/feng_shui_optimizer.py:231-236 | the loop counts the placements anchored in the zone |
| Optimizer.FengShuiOptimizer.CalculateChiFlowScore | scripts/feng_shui_optimizer.py:193-241 | weighted clear paths minus the clutter penalty of every zone |
| Optimizer.FengShuiOptimizer.CalculateLayoutScore | scripts/feng_shui_optimizer.py:243-267 | 0 for an empty layout; otherwise weighted bagua scores plus command score plus chi flow |
| Optimizer.FengShuiOptimizer.FirstValidDraw | scripts/feng_shui_optimizer.py:273-290 | the index of the first of 100 candidates at a valid position, or None when every candidate is invalid |
| Optimizer.FengShuiOptimizer.RandomPlacement | scripts/feng_shui_optimizer.py:269-293 | keeps the type, and the position is valid or is the origin fallback |
| Optimizer.FengShuiOptimizer.GenerateRandomPlacement | scripts/feng_shui_optimizer.py:269-293 | the loop returns the first valid candidate, else the origin |
| Optimizer.FengShuiOptimizer.FirstSeedAttempt | scripts/feng_shui_optimizer.py:312-322 | the first of 500 attempts whose placement is valid and collision-free, or None when every attempt fails |
| Optimizer.FengShuiOptimizer.SeedPick | scripts/feng_shui_optimizer.py:308-329 | the chosen placement keeps the object's type |
| Optimizer.FengShuiOptimizer.SeedPickFitsOrOrigin | scripts/feng_shui_optimizer.py:312-329 | the chosen placement fits against the occupied cells, or is the origin; when every attempt fails it is the origin |
| Optimizer.FengShuiOptimizer.SeedLayout | scripts/feng_shui_optimizer.py:306-337 | the layout holds one placement per object, with the object's type, in the given order |
| Optimizer.FengShuiOptimizer.SeedNext | scripts/feng_shui_optimizer.py:331-333 | appends exactly one placement, of the next type |
| Optimizer.FengShuiOptimizer.SeedLayoutFitsOrOrigin | scripts/feng_shui_optimizer.py:306-337 | every placement fits against the cells of those before it, or was forced to the origin |
| Optimizer.FengShuiOptimizer.InitialLayoutShape | scripts/feng_shui_optimizer.py:295-337 | one placement per requested object, in desk-first name order, a permutation of the request, with the desk first when requested, and fit-or-origin |
| Optimizer.FengShuiOptimizer.PlaceWithAttempts | scripts/feng_shui_optimizer.py:308-329 | the attempt loop picks the first fitting random placement, else the origin |
| Optimizer.FengShuiOptimizer.GenerateInitialLayout | scripts/feng_shui_optimizer.py:295-337 | the loop over the sorted objects, growing the occupied set in place, builds the seeded layout of the sorted request |
| Optimizer.FengShuiOptimizer.MutatePlacement | scripts/feng_shui_optimizer.py:339-361 | keeps the type and never goes negative. Keeps a footprint that fits the grid inside it. Moves by exactly the offset when the target is in range |
| Optimizer.FengShuiOptimizer.MutatedFurnitureIsValid | scripts/feng_shui_optimizer.py:348-356 | moved furniture that fits the grid at all is always at a valid position |
| Optimizer.FengShuiOptimizer.NeighbourKeepsTypes | scripts/feng_shui_optimizer.py:409-415 | a neighbour holds the same types as the current layout, in the same order |
| Optimizer.FengShuiOptimizer.MutateLayout | scripts/feng_shui_optimizer.py:409-415 | same length; each placement is moved exactly when the draw says so, so the result is the iteration's neighbour |
| Optimizer.FengShuiOptimizer.IsValidLayout | scripts/feng_shui_optimizer.py:363-380 | true iff every placement is valid and collision-free against the cells of those before it |
| Optimizer.FengShuiOptimizer.AddMissingAtOrigin | scripts/feng_shui_optimizer.py:454-467 | the loop appends `Missing` of the request: at the origin, exactly the requested types the layout lacks, once per request, in request order |
| Optimizer.FengShuiOptimizer.AllTypesPresent | scripts/feng_shui_optimizer.py:448-467 | a layout holding the requested multiset of types lacks none of them |
| Optimizer.FengShuiOptimizer.Climb | scripts/feng_shui_optimizer.py:403-446 | the loop, with its early break, returns the best layout and score of the state after max_iterations iterations of `Step`. So the best score is the best layout's score and never below the start score, the types are unchanged, and the best layout is the start or a valid layout |
| Optimizer.FengShuiOptimizer.Iterate | scripts/feng_shui_optimizer.py:408-446 | one pass of the loop body is exactly `Step`: an invalid or wrong-sized neighbour leaves the state as it was; otherwise the neighbour is scored, taken when it scores at least the current score or the draw allows, the best and the no-improvement count are updated, the temperature is cooled and the stopping test is made |
| Optimizer.FengShuiOptimizer.SkippedIterationChangesNothing | scripts/feng_shui_optimizer.py:417-441 | the temperature cools exactly in iterations that score their neighbour; an invalid or wrong-sized neighbour changes nothing, neither the no-improvement count nor the stop |
| Optimizer.FengShuiOptimizer.RunKeepsScores | scripts/feng_shui_optimizer.py:396-433 | after any number of iterations the current and best scores are the scores of their layouts, and the best score is at least the start score and the current score |
| Optimizer.FengShuiOptimizer.RunKeepsLayouts | scripts/feng_shui_optimizer.py:409-432 | after any number of iterations the current and best layouts hold the start's types in order, and each is the start or a valid layout |
| Optimizer.FengShuiOptimizer.RunKeepsCounters | scripts/feng_shui_optimizer.py:405-446 | the search has stopped exactly when some iteration was scored and the no-improvement count reached max_no_improvement; the count never exceeds the coolings, which never exceed the iterations |
| Optimizer.FengShuiOptimizer.RunInvariant | scripts/feng_shui_optimizer.py:403-446 | the three invariants above hold together after any number of iterations |
| Optimizer.FengShuiOptimizer.StoppedIsFinal | scripts/feng_shui_optimizer.py:443-446 | once the stopping test has fired no later iteration changes the state: the loop has ended |
| Optimizer.FengShuiOptimizer.BestScoreGrows | scripts/feng_shui_optimizer.py:429-433 | the best score never decreases from one iteration to a later one |
| Optimizer.FengShuiOptimizer.BestBeatsScored | scripts/feng_shui_optimizer.py:421-433 | the final best score is at least the score of every neighbour any iteration scored, taken or not |
| Optimizer.FengShuiOptimizer.BestIsStartOrTaken | scripts/feng_shui_optimizer.py:424-432 | the best layout is the start or the neighbour that some iteration took |
| Optimizer.FengShuiOptimizer.OptimizeLayout | scripts/feng_shui_optimizer.py:382-470 | returns the best layout and score of the search from the initial layout. That is one placement per requested object, as a permutation of the request; the score is the layout's score and at least the initial layout's score; the result is the initial layout or a valid layout |
| Optimizer.FengShuiOptimizer.ZoneCounts | scripts/feng_shui_optimizer.py:486-490 | a zone is a key iff some placement is anchored in it, and its value is the number of such placements |
| ScoreProperties.ClearPathsCountsPairsTwice | scripts/feng_shui_optimizer.py:214-226 | the clear-path count is twice the number of adjacent pairs of free cells, hence even |
| ScoreProperties.BoundariesDoNotBlockChi | scripts/feng_shui_optimizer.py:204-212 | adding a door or window leaves the clear-path count unchanged |
| ScoreProperties.FurnitureBlocksItsAnchor | scripts/feng_shui_optimizer.py:204-212 | any other placement makes its anchor cell not free |
| ScoreProperties.FacesDoorIsDistanceTest | scripts/feng_shui_optimizer.py:184-191 | the squared test equals "Euclidean distance above 2 and below half the grid width, rounded down" |
| ScoreProperties.ZoneCountsPartition | scripts/feng_shui_optimizer.py:486-490 | the counts over the nine zones add up to the number of placements |
| ScoreProperties.AnalyseZones | scripts/feng_shui_optimizer.py:486-490 | the per-zone counts of the analysis, which add up to the layout size |
| ScoreProperties.MutationMovesAtMostOffset | scripts/feng_shui_optimizer.py:350-356 | a placement inside the clamping range moves by at most the drawn offset on each axis |
| RandomPlacer.FirstFit | scripts/app.py:27-46 | the index of the first of 1000 draws that is valid and collision-free, or None when all fail |
| RandomPlacer.Pick | scripts/app.py:23-56 | the chosen placement keeps the object's type |
| RandomPlacer.PickFitsOrOrigin | scripts/app.py:27-56 | the chosen placement fits or is the origin; when every draw fails it is the origin |
| RandomPlacer.RandomLayout | scripts/app.py:16-58 | one placement per requested object, with its type, in request order |
| RandomPlacer.PlaceNext | scripts/app.py:36-56 | appends exactly one placement, of the next type |
| RandomPlacer.RandomLayoutFitsOrOrigin | scripts/app.py:16-58 | every placement fits against the cells of those before it, or was forced to the origin |
| RandomPlacer.RandomLayoutProperties | scripts/app.py:16-58 | one placement per object, in request order. Placements that fitted are disjoint from all earlier ones. Placements away from the origin are at valid positions |
| RandomPlacer.PlaceFirstFit | scripts/app.py:24-56 | the attempt loop picks the first fitting draw, else the origin |
| RandomPlacer.GenerateRandomLayout | scripts/app.py:16-58 | the loop, growing the occupied set in place, builds the random layout of the request |

## Left out

- The catalog is a parameter; reading it from the configuration file (scripts/helpers.py:6-28) is I/O. `DefaultCatalog` is the built-in fallback. The unused grid cell size is not modelled.
- Debug and progress printing, the Flask endpoints, `calculate_live_score` and the recommendation texts of `get_layout_analysis` are left out. Only its zone counting is modelled.
- `random` is replaced by draw functions. The model does not restrict their ranges: the wall choice for doors and windows, `randint` bounds, offsets in [-3, 3], and `mutation_rate`. Each result is proved for every draw, so it also holds for the source's distributions; probabilities are not modelled.
- Optimizer.FengShuiOptimizer.Climb: the simulated-annealing test `random() < exp(delta / temperature)` for a worse neighbour is the draw `accepts(iteration, coolings, delta)`, which may return any answer. While the temperature is positive, a neighbour scoring the same as the current layout is always taken, because `exp(0) = 1` exceeds every value of `random()`; the model takes it in every case. The temperature is a float; the model keeps only how many times it was cooled.
- Optimizer.FengShuiOptimizer.Iterate: configurations whose temperature is zero, becomes zero (a `cooling_rate` of 0, or a float that underflows after many coolings) or is negative are not modelled. On such a configuration the source divides by zero at scripts/feng_shui_optimizer.py:425 on the first scored neighbour that does not improve, and a negative temperature can make `exp` overflow there; the model goes on as if the temperature were positive.
- Scores are floats in the source. They are integers here because every term is an integer for integer weights; non-integer weights are not modelled.
- `_faces_door` takes a square root; the model compares squared distances (see `ScoreProperties.FacesDoorIsDistanceTest`).
- `config or default` also replaces an empty configuration dictionary. The model only distinguishes "no configuration" (`None`). Configurations missing whole sections are not modelled.
- A missing preference list, command flag or weight stands for its default (empty, false, 1).
- Optimizer.FengShuiOptimizer.CalculateLayoutScore: requires a complete configuration (`WellFormed`): a weight for every zone and preferences for bed and desk. The source looks a key up only when it needs it. A zone weight is read when a placement's zone is in its type's preferred or avoided list (scripts/feng_shui_optimizer.py:141, 145). A type's preferences are read for a bed or desk when the layout has a door (line 172). The source raises KeyError only on such a lookup, so it also scores some incomplete configurations; those are not modelled.
- Optimizer.FengShuiOptimizer.CalculateChiFlowScore: charges clutter over all nine zones, as the source does for a complete configuration. The source iterates the configuration's weight keys (line 231), so weights that omit a zone charge no clutter for it; such configurations are outside `WellFormed` and not modelled.
- Optimizer.FengShuiOptimizer.GenerateInitialLayout: requires a grid at least one cell wide and high when objects are requested. On a zero-width or zero-height grid the source's `randint` raises ValueError for furniture, but a door or window can still be placed through either wall branch (lines 277-281): the vertical one when the grid has height, the horizontal one when it has width. That case is not modelled. `Optimizer.FengShuiOptimizer.OptimizeLayout` carries the same requirement. `RandomPlacer.GenerateRandomLayout` requires it too; there `randint` over both axes fails for every type on such a grid.
- `is_position_valid` receives the occupied set but never reads it, so the model drops that parameter.
- Python lists of dictionaries are modelled as sequences of values. Copying (`placement.copy()`, `best_layout.copy()`) and aliasing are therefore not modelled; no copy is mutated after it is taken.
- `auto_placer.py` and `generate_config.py` are not part of this model.
