# Dungeon generation of the roguelike world map

This project models `src/world/world_map.rs` of a Rust roguelike. The file holds the following pieces:

- the tile grid (`WorldMap`) and its iterator;
- grid cells (`Location`) and their Manhattan metric;
- rectangular rooms (`Room`): their cells, the overlap test, and the wall/floor split;
- terrain patterns (`Feature`) and the `FeatureBuilder` that aligns them;
- the `random` extension on iterators;
- the search problem handed to the A* library (`NeighborIterator`, `ConnectRooms`);
- `WorldMap::generate`, which places up to 60 rooms, draws them, digs one connection between two room walls, and picks a floor cell to start on.

Modules follow these components:

- `Wrappers`: `Option`. `None` also stands for a run that panics.
- `Seqs`: the iterator `filter` on sequences.
- `Geometry`: `Location`, `Manhattan`, and the row-major index `y * width + x` with its inverse `(i % width, i / width)`.
- `Grid`: `Terrain`, the `WorldMap` class over an `array<Terrain>`, the `TileIterator` class, `get_adjacent`, and painting cells.
- `Rooms`: `Room`, `Room::new` as a method with nested loops, `overlaps`, `walls` and `floors`.
- `Rand`: the random generator as a class holding a stream of raw draws and a cursor, `gen_range`, and `random`.
- `Features`: `Feature::width`/`height` and the builder.
- `FeatureExamples`: the source's two feature test cases, each proved as a lemma.
- `Search`: the neighbour iterator and the goal test and heuristic of `ConnectRooms`.
- `Generator`: the whole of `generate`.
  - `GenerateSpec` specifies each run as a function of the raw draw stream.
  - `Generate` carries the run out imperatively on a fresh `WorldMap` and an `Rng`.
  - `Generate` is proved to leave exactly the specified tiles and start cell.
  - That start cell is proved to be a `Floor` tile of one of the rooms.

Inputs:

- **Randomness.** The generator is `Rng`: a fixed function `stream: nat -> nat` of raw draws and a `cursor`. `GenRange(lo, hi)` consumes one draw and yields `lo + raw mod (hi - lo)` for `lo < hi`. For `lo >= hi` it yields `None`, the panic of `gen_range`.
- **The A\* library.** It is a function parameter `astar(tiles, width, height, start, end)`. It is assumed only to satisfy `SoundSearch`: every path it returns is a walk over `ConnectRooms` successors. The walk runs from the start, or from a successor of the start, to the end.

Integers are mathematical. `generate` checks only `width > 0` and `height > 0` (world_map.rs:14-15). The source's `i32` product `width * height` (world_map.rs:18) and its index `y * width + x` (world_map.rs:87, 92) overflow on larger grids. So the model matches the source only for grids of at most `i32::MAX` cells (see "## Left out").

`random` draws its index from the half-open `gen_range(0, len - 1)`, so it never returns the last element and panics on a one-element sequence (world_map.rs:358-363; `Rand.RandomIndex`, `Rand.Random`). As a result, `generate` never picks the last room, last wall or last floor of a list. It fails (`None`) when fewer than two rooms are accepted, or when a picked room has a single wall or floor cell.

Because the overlap test is inclusive, no two accepted rooms touch, so no drawing overwrites another room's cell (`Generator.SeparateIndices`, `Generator.DrawRoomsAt`).

Some functions only compute; their rows below point to the lemmas that state what they mean:

- `Grid.Paint` is the effect of repeated `get_tile_mut` writes. `Generator.DrawRoom` and `Generator.DrawRooms` are the drawing loop. `Generator.Dig` is the connection pass. `Generator.Carve` is drawing followed by digging. Their meaning is stated by `PaintAt`, `DrawRoomCell`, `DrawRoomsAt`, `DigChanges` and `DugLayout`.
- `Generator.PlaceRooms`, `Generator.Finish` and `Generator.GenerateSpec` specify the run. The methods are proved against them, and the lemmas state what they mean.

## Model

| member | source | states |
|---|---|---|
| Seqs.Filter | src/world/world_map.rs:342-349 | the filtered sequence is no longer than the input and holds only input elements that pass the test |
| Seqs.FilterMember | src/world/world_map.rs:342-349 | an element is in the filter exactly when it is in the input and passes the test |
| Seqs.FilterSplit | src/world/world_map.rs:342-349 | two tests that disagree on every element split the input: the two filters' lengths add up to its length |
| Seqs.FilterConcat | src/world/world_map.rs:342-349 | filtering keeps input order: the filter of a concatenation is the concatenation of the filters |
| Geometry.Manhattan | src/world/world_map.rs:117-122 | the distance is non-negative, zero exactly at equal points, and at least each coordinate difference |
| Geometry.ManhattanSymmetric | src/world/world_map.rs:117-122 | the distance does not depend on the order of its arguments |
| Geometry.ManhattanTriangle | src/world/world_map.rs:117-122 | the triangle inequality |
| Geometry.Index | src/world/world_map.rs:86-94 | the buffer index y*width+x; its meaning is stated by IndexInRange and IndexInjective |
| Geometry.LocationOf | src/world/world_map.rs:177-180 | the iterator's location (i % width, i / width); see LocationOfIndex and IndexLocationOf |
| Geometry.IndexInRange | src/world/world_map.rs:86-94 | an in-bounds location has its index y*width+x inside a buffer of width*height tiles |
| Geometry.IndexInjective | src/world/world_map.rs:86-94 | two locations with an in-range column have the same index exactly when they are equal |
| Geometry.LocationOfIndex | src/world/world_map.rs:171-182 | the iterator's location (i % width, i / width) has an in-range column, a non-negative row and index i |
| Geometry.IndexLocationOf | src/world/world_map.rs:171-182 | decoding the index of a location with an in-range column gives the location back |
| Geometry.LocationOfInBounds | src/world/world_map.rs:171-182 | every position below width*height decodes to an in-bounds location |
| Grid.Enumerate | src/world/world_map.rs:168-182 | the tile iterator yields one item per tile |
| Grid.EnumerateCoversGrid | src/world/world_map.rs:168-182 | the i-th item is in bounds with index i, and each in-bounds location is the item at its index, paired with the tile stored there: every tile exactly once, in index order |
| Grid.Adjacent | src/world/world_map.rs:96-104 | the guarded left, up, right, down neighbours; see AdjacentExact |
| Grid.Paint | src/world/world_map.rs:48-56 | the buffer after writing one terrain into a list of cells in order; see PaintAt |
| Grid.AdjacentExact | src/world/world_map.rs:96-104 | at most four neighbours, each at Manhattan distance 1; from an in-bounds cell they are exactly the in-bounds cells at distance 1 |
| Grid.PaintAt | src/world/world_map.rs:48-56 | after writing a terrain into a list of cells, each written position holds it and every other position is unchanged |
| Grid.WorldMap.constructor | src/world/world_map.rs:14-22 | a valid width x height map whose width*height tiles are all Nothing |
| Grid.WorldMap.GetTile | src/world/world_map.rs:86-90 | reads at index y*width+x, which must lie in the buffer; for an in-bounds location it is the tile the iterator pairs with that location |
| Grid.WorldMap.SetTerrain | src/world/world_map.rs:91-95 | overwrites exactly the buffer position y*width+x, which must lie in the buffer |
| Grid.WorldMap.Stamp | src/world/world_map.rs:49-55 | the buffer afterwards is the old buffer painted with the terrain at every listed cell |
| Grid.WorldMap.GetAdjacent | src/world/world_map.rs:96-104 | left, up, right, down under their guards: at most four cells at distance 1, exactly the in-bounds ones for an in-bounds cell |
| Grid.WorldMap.Tiles | src/world/world_map.rs:83-85 | a fresh iterator whose remaining items are all tiles of the map with their locations |
| Grid.TileIterator.constructor | src/world/world_map.rs:162-166 | a new iterator has every item still to come |
| Grid.TileIterator.Next | src/world/world_map.rs:171-182 | yields the first remaining item and drops it, or None once nothing remains |
| Rooms.CellsExact | src/world/world_map.rs:324-334 | the column-by-column cell list has width*height distinct cells, exactly those of the rectangle |
| Rooms.Cells | src/world/world_map.rs:327-331 | the cells the nested loops push, column by column; see CellsExact |
| Rooms.MakeRoom | src/world/world_map.rs:324-334 | the room Room::new returns; see MakeRoomWellFormed and NewRoom |
| Rooms.MakeRoomWellFormed | src/world/world_map.rs:324-334 | the room `Room::new` returns holds every cell of its rectangle exactly once |
| Rooms.NewRoom | src/world/world_map.rs:324-334 | the nested loops (x outer, y inner) build exactly width*height distinct cells, those of the rectangle |
| Rooms.OverlapsSymmetric | src/world/world_map.rs:335-341 | the overlap test does not depend on the order of the rooms |
| Rooms.Overlaps | src/world/world_map.rs:335-341 | the inclusive bounding-box test; see OverlapsIffNear, TouchingRoomsOverlap, OverlapsSymmetric |
| Rooms.OverlapsIffNear | src/world/world_map.rs:335-341 | two rooms overlap exactly when a cell of one equals or touches, sideways or diagonally, a cell of the other |
| Rooms.TouchingRoomsOverlap | src/world/world_map.rs:335-341 | rooms side by side that share no cell still overlap |
| Rooms.SeparatedRoomsApart | src/world/world_map.rs:335-341 | no cell of one of two non-overlapping rooms is equal or adjacent to a cell of the other |
| Rooms.Walls | src/world/world_map.rs:342-345 | the border cells in cell order; see WallsFloorsPartition and CornerCells |
| Rooms.Floors | src/world/world_map.rs:346-349 | the interior cells in cell order; see WallsFloorsPartition and CornerCells |
| Rooms.WallsFloorsPartition | src/world/world_map.rs:342-349 | walls and floors partition the room's cells: each cell is in exactly one, nothing else is in either, and the counts add up |
| Rooms.CornerCells | src/world/world_map.rs:342-349 | the origin is a wall; the cell diagonally inside it is a floor once the room is at least 3 x 3 |
| Rand.Sample | src/world/world_map.rs:27-30 | gen_range yields a value in [lo, hi) exactly when lo < hi, and panics otherwise |
| Rand.SampleIsOffset | src/world/world_map.rs:27-30 | the value is lo plus the draw modulo the width of the range |
| Rand.SampleReaches | src/world/world_map.rs:27-30 | every value of a non-empty range comes out of some draw |
| Rand.Rng.GenRange | src/world/world_map.rs:27-30 | consumes exactly one draw and returns its sample |
| Rand.RandomIndex | src/world/world_map.rs:358-363 | an index exists exactly when there are at least two elements, and it is below len - 1 |
| Rand.RandomIndexReach | src/world/world_map.rs:358-363 | the positions that can be picked are exactly those below len - 1: the last element never |
| Rand.Random | src/world/world_map.rs:358-363 | a result exists exactly when there are at least two elements, and it is an element other than the last position |
| Rand.RandomElement | src/world/world_map.rs:358-363 | the non-emptiness check, one draw, and the element `Random` specifies |
| Features.MinOf | src/world/world_map.rs:299-310 | the result bounds every value from below and is one of them |
| Features.MaxOf | src/world/world_map.rs:299-310 | the result bounds every value from above and is one of them |
| Features.Width | src/world/world_map.rs:197-204 | 0 without components; otherwise one more than the largest horizontal distance between two components, which is attained |
| Features.Height | src/world/world_map.rs:205-212 | the same over the vertical distances |
| Features.Build | src/world/world_map.rs:261-297 | as many components as the builder, terrains kept, all moved by the same horizontal and vertical amount |
| Features.NewBuilder | src/world/world_map.rs:240-248 | the builder with the origin as target and Center/Center alignment; see NewBuilderCentres |
| Features.WithLocation | src/world/world_map.rs:249-252 | the builder with a new target; see BuildFollowsLocation |
| Features.WithHorizAlign | src/world/world_map.rs:253-256 | the builder with a new horizontal alignment; see BuildAlignsHorizontally and VertAlignKeepsColumns |
| Features.WithVertAlign | src/world/world_map.rs:257-260 | the builder with a new vertical alignment; see BuildAlignsVertically and HorizAlignKeepsRows |
| Features.HorizOffset | src/world/world_map.rs:262-274 | the horizontal shift of the three alignment arms; see BuildAlignsHorizontally |
| Features.VertOffset | src/world/world_map.rs:275-287 | the vertical shift of the three alignment arms; see BuildAlignsVertically |
| Features.Shift | src/world/world_map.rs:290-294 | every component moved by one offset, terrain kept; see BuildMoves |
| Features.BuildMoves | src/world/world_map.rs:261-297 | component i is moved by exactly the offsets the two alignments compute |
| Features.BuildXExtremes | src/world/world_map.rs:261-274 | the least and greatest x move by the horizontal offset |
| Features.BuildYExtremes | src/world/world_map.rs:275-287 | the least and greatest y move by the vertical offset |
| Features.BuildKeepsWidth | src/world/world_map.rs:261-297 | building keeps the feature's width |
| Features.BuildKeepsHeight | src/world/world_map.rs:261-297 | building keeps the feature's height |
| Features.BuildAlignsHorizontally | src/world/world_map.rs:262-274 | Left puts the least x on the target, Right the greatest, Center the least x half the width (rounded down) before it |
| Features.BuildAlignsVertically | src/world/world_map.rs:275-287 | Top puts the least y on the target, Bottom the greatest, Center the least y half the height (rounded down) before it |
| Features.BuildFollowsLocation | src/world/world_map.rs:249-297 | moving the target moves every built component by the same amount |
| Features.HorizAlignKeepsRows | src/world/world_map.rs:253-297 | changing the horizontal alignment leaves every built row alone |
| Features.VertAlignKeepsColumns | src/world/world_map.rs:257-297 | changing the vertical alignment leaves every built column alone |
| Features.NewBuilderCentres | src/world/world_map.rs:240-248 | a fresh builder centres the feature on the origin |
| FeatureExamples.FeatureSizeExample | src/world/world_map.rs:424-432 | (0,0), (1,0), (1,1) have width 2 and height 2 |
| FeatureExamples.ShapeXExtremes | src/world/world_map.rs:443-449 | the five-cell test shape spans columns 1 to 2 |
| FeatureExamples.ShapeYExtremes | src/world/world_map.rs:443-449 | the five-cell test shape spans rows 1 to 3 |
| FeatureExamples.BuildTopLeftExample | src/world/world_map.rs:460-471 | Top/Left at (2,3) gives exactly the five expected components |
| FeatureExamples.BuildBottomRightExample | src/world/world_map.rs:479-490 | Bottom/Right at (5,2) gives exactly the five expected components |
| FeatureExamples.SquareXExtremes | src/world/world_map.rs:497-507 | the 3 x 3 square spans columns 0 to 2 |
| FeatureExamples.SquareYExtremes | src/world/world_map.rs:497-507 | the 3 x 3 square spans rows 0 to 2 |
| FeatureExamples.BuildCenterExample | src/world/world_map.rs:515-530 | Center/Center at (4,1) gives exactly the nine expected components, top left at (3,0) |
| Search.SuccessorsExact | src/world/world_map.rs:373-380 | at most four neighbours, each at distance 1 and open; from an in-bounds cell exactly the open in-bounds cells at distance 1 |
| Search.Successors | src/world/world_map.rs:373-380 | the adjacent cells whose tile is Nothing, in adjacency order; see SuccessorsExact |
| Search.WithUnitCost | src/world/world_map.rs:386-393 | each neighbour paired with cost 1, in order |
| Search.NeighborIterator.constructor | src/world/world_map.rs:373-380 | keeps the adjacent cells whose tile is Nothing, in adjacency order; every adjacent index must lie in the buffer |
| Search.NeighborIterator.Next | src/world/world_map.rs:386-393 | yields the next neighbour with cost 1 and advances, or None once all are handed out |
| Search.ConnectRooms.IsEnd | src/world/world_map.rs:413-415 | the goal holds exactly where the heuristic is zero |
| Search.ConnectRooms.Heuristic | src/world/world_map.rs:416-418 | non-negative and zero exactly at the end cell |
| Search.ConnectRooms.Neighbors | src/world/world_map.rs:419-421 | a fresh iterator over exactly the open neighbours, each with cost 1 |
| Search.HeuristicConsistent | src/world/world_map.rs:416-421 | the heuristic drops by at most the step cost 1 along each neighbour: it is consistent |
| Search.WalkStaysOpen | src/world/world_map.rs:373-380 | a walk over neighbours from an in-bounds cell stays in bounds, and every later cell is open |
| Search.WalkAtLeastManhattan | src/world/world_map.rs:416-421 | a walk is at least as long as the Manhattan distance between its ends |
| Search.SearchPathInGrid | src/world/world_map.rs:68-72 | every cell of a path A* returns from an open in-bounds start is in bounds and open, so painting it stays in the buffer |
| Search.HeuristicAdmissible | src/world/world_map.rs:416-418 | the heuristic at the start never exceeds the cost of a search path: it is admissible |
| Generator.Propose | src/world/world_map.rs:27-31 | a proposal has sides in [3, 15) and lies one column and one row short of the far edges; it never panics on a grid of at least 15 x 15 and always panics on one of at most 3 on a side |
| Generator.ProposeWellFormed | src/world/world_map.rs:27-31 | a proposal is a well-formed room |
| Generator.AllCellsInGrid | src/world/world_map.rs:27-31 | the cells of placed rooms lie in the grid, at most width - 2 and height - 2, with their indices in the buffer |
| Generator.RoomCellsInGrid | src/world/world_map.rs:27-31 | the same for one room |
| Generator.PlaceRooms | src/world/world_map.rs:25-45 | at most one room accepted per proposal, and the first proposal always accepted; no panic on a grid of at least 15 x 15 |
| Generator.PlaceRoomsNext | src/world/world_map.rs:26-45 | one more proposal panics when the proposal does, is appended exactly when it fits, and is dropped otherwise |
| Generator.PlaceRoomsPanicPersists | src/world/world_map.rs:26-45 | once a proposal panics, every later count of proposals panics |
| Generator.PlaceRoomsValid | src/world/world_map.rs:32-41 | the accepted rooms are well formed, lie in the grid and are pairwise non-overlapping |
| Generator.PlaceRoomsGrows | src/world/world_map.rs:39-41 | accepted rooms are never dropped: the rooms after n proposals begin the list after any later count |
| Generator.Fits | src/world/world_map.rs:32-38 | a proposal overlaps none of the accepted rooms; see Available and PlaceRoomsValid |
| Generator.Blank | src/world/world_map.rs:17-20 | width*height tiles, all Nothing |
| Generator.DrawRoom | src/world/world_map.rs:48-56 | one room's walls painted Wall, then its floors Floor; see DrawRoomCell and DrawRoomOutside |
| Generator.DrawRooms | src/world/world_map.rs:47-56 | every room drawn in list order; see DrawRoomsAt |
| Generator.DrawRoomCell | src/world/world_map.rs:49-55 | after drawing a room each of its cells is Wall on its border and Floor inside |
| Generator.DrawRoomOutside | src/world/world_map.rs:49-55 | drawing a room leaves every position outside it alone |
| Generator.SeparateIndices | src/world/world_map.rs:335-341 | a cell of one room never shares its index with a cell of a room it does not overlap |
| Generator.DrawRoomsAt | src/world/world_map.rs:47-56 | after drawing separate rooms in order, each room cell is Wall on its border and Floor inside, and positions no room covers keep their terrain |
| Generator.PickWall | src/world/world_map.rs:61-62 | a wall of some room other than the last; always a panic with fewer than two rooms |
| Generator.PickFloor | src/world/world_map.rs:79 | a floor of some room other than the last; always a panic with fewer than two rooms |
| Generator.DigChanges | src/world/world_map.rs:64-75 | without a path only the two walls become Nothing; a found path is all Debug; only the two walls and cells that were Nothing change, and only to Nothing or Debug |
| Generator.PathPaint | src/world/world_map.rs:70-72 | painting a path of open cells marks each of them Debug and changes nothing else |
| Generator.Dig | src/world/world_map.rs:64-75 | both walls set to Nothing, then the path A* returns painted Debug; see DigChanges |
| Generator.Carve | src/world/world_map.rs:47-75 | drawing on a blank map followed by digging; see DugLayout, DugRoomCell and CarvedFloor |
| Generator.Finish | src/world/world_map.rs:58-81 | the wall picks, the carved map and the start pick after placement; see FinishParts and FinishStartIsFloor |
| Generator.GenerateSpec | src/world/world_map.rs:13-82 | the whole run on the draw stream, None on a panic; see GenerateParts, GenerateStartIsFloor and Generate |
| Generator.WallInGrid | src/world/world_map.rs:61-65 | a wall of a placed room lies in the grid, with its index in the buffer |
| Generator.DugLayout | src/world/world_map.rs:47-75 | after drawing and digging: interior cells are Floor, border cells other than the two dug walls are Wall, the dug walls are Nothing or Debug, and uncovered positions are Nothing or Debug |
| Generator.DugOutside | src/world/world_map.rs:47-75 | a position no room covers is Nothing or Debug after digging |
| Generator.DugRoomCell | src/world/world_map.rs:47-75 | one room cell after digging is Floor inside, and Wall on the border unless it is a dug wall |
| Generator.CarvedFloor | src/world/world_map.rs:53-75 | a floor cell of a placed room is a Floor tile of the carved map: digging never touches it |
| Generator.FinishParts | src/world/world_map.rs:58-81 | after placement, the run exists exactly when both wall picks and the start pick succeed, and it is made of them and the carved map |
| Generator.GenerateParts | src/world/world_map.rs:24-81 | a run is the placement of 60 proposals followed by the finishing draws after them, and the placed cells lie in the grid |
| Generator.FinishStartIsFloor | src/world/world_map.rs:78-81 | after placement, the start cell is a floor of some room, lies in the grid, and is a Floor tile of the map |
| Generator.GenerateStartIsFloor | src/world/world_map.rs:13-82 | the generated map has one tile per cell and its start cell is a Floor tile of one of its rooms |
| Generator.ProposeRoom | src/world/world_map.rs:27-31 | the four draws of one proposal give the specified room, consuming four draws; a too-narrow range panics |
| Generator.Available | src/world/world_map.rs:32-38 | the overlap scan keeps a proposal exactly when it overlaps none of the accepted rooms |
| Generator.ProposeAndKeep | src/world/world_map.rs:26-45 | one pass of the proposal loop gives the rooms accepted after one more proposal |
| Generator.PlaceAll | src/world/world_map.rs:25-45 | the 60 proposals give the specified accepted rooms, consuming 240 draws, or panic as specified |
| Generator.DrawRoomInto | src/world/world_map.rs:48-56 | walls stamped Wall, then floors stamped Floor, into the map |
| Generator.PickWallFrom | src/world/world_map.rs:61-62 | the two draws of a wall pick give the specified wall |
| Generator.PickFloorFrom | src/world/world_map.rs:79 | the two draws of the start pick give the specified floor |
| Generator.DrawAll | src/world/world_map.rs:47-56 | every room drawn into the map in list order |
| Generator.Connect | src/world/world_map.rs:64-75 | both walls set to Nothing, then the path A* finds, if any, set to Debug |
| Generator.FinishOn | src/world/world_map.rs:58-81 | on the drawn map, the connection and start passes leave exactly the specified tiles and start, or panic exactly when specified |
| Generator.DrawAndFinish | src/world/world_map.rs:47-81 | on a blank map, drawing and finishing leave exactly the specified tiles and start, or panic exactly when specified |
| Generator.Populate | src/world/world_map.rs:24-81 | on a blank map, the whole run leaves exactly the specified tiles and start, or panics exactly when specified |
| Generator.Generate | src/world/world_map.rs:13-82 | a fresh valid map of the given size with exactly the specified tiles, and the specified start cell, which is a Floor tile; None exactly when the run panics |

## Left out

- Integer widths: coordinates and sizes are unbounded integers, so the model agrees with the source only on grids of at most `i32::MAX` cells. On larger grids the source's `i32` product `width * height` and index `y * width + x` overflow (a panic in a debug build, wrap-around in a release build), which is not modelled. A negative index cast to `usize` in the source is, in the model, an index outside the buffer, which the requires clauses exclude.
- Rand.Sample: the distribution of `gen_range` is not modelled. A draw is mapped into its range by a remainder, so only which values can come out is stated, not how likely each is.
- The A* search itself (`astar::astar`), a foreign library: it is a parameter constrained only by `SoundSearch`. Shortest-path optimality is not assumed; the heuristic is proved admissible and consistent instead.
- Search.ConnectRooms: the `start` accessor of the search problem is the `start` field itself.
- The `println!` diagnostics of `generate` and `build` and the commented-out prints: output only.
- The `Debug` formatting of `Location`, `Entity`, and a tile's entity list: a tile is modelled by its terrain alone.
- `Feature::new` and `Feature::iter`: a feature is its component sequence.
- Lifetimes and boxed iterators: iterators over rooms, walls and floors are sequences in their original order. `TileIterator` and `NeighborIterator` are classes with a cursor field.
- The builder setters take and return the builder by value; they are modelled as functions returning the updated value.
- `generate`'s connection loop `for _ in 0..1` runs once and is modelled as straight-line code.
- Assertion failures and `gen_range` panics that depend on the draws are modelled as `None`. Entry assertions that depend only on the arguments (`width > 0`, `height > 0`, `Room::new`'s arguments, `FeatureBuilder::new`'s components, the index check of `get_tile`) are requires clauses.
