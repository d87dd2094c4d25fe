# Dungeon cell-growth engine

This project models the cell-growth engine of the dungeon generator (`DungeonGenerator.Generate` together with `DetermineCellType` and `FindValidConnections`) and the `Cell` value it builds.

The engine works on an abstract grid of macro-cells of `CellSize` = 9 tiles each, so the grid is `Width / 9` by `Height / 9`. It stores a four-way room at the centre. It then grows the dungeon breadth-first from a first-in first-out queue. Each opening of a dequeued cell is offered to `DetermineCellType`. That returns the default "no cell" value when the neighbour is outside the grid or already occupied. Otherwise it draws a type from the catalog and a connection count from the random source. The new cell's openings are the accepted scan directions plus the one back toward its parent. Every real cell that is returned is stored and enqueued.

Modules:

- `Sequences` holds sequence facts: distinctness and subsequences.
- `Directions` holds compass directions, points, turning, neighbour offsets, and the two conversions between a flag set and an ordered direction list.
- `Cells` holds the cell record, the default sentinel and `FourWayRoom`.
- `CellGrid` models the cell array as a map from points to cells, with the array's capacity.
- `RandomSource` models the pseudo-random source as a range-respecting oracle indexed by draw number.
- `Connectivity` defines walks along links that are open on both ends, and reachability.
- `GrowthInvariant` states the invariant of the growth loop and proves that each step keeps it.
- `DungeonGenerator` holds the operations themselves.

Collaborators whose code is not part of this model are parameters:

- The random source is an `Oracle` required to be `WellBehaved`: a draw from `[lo, hi)` lies in `[lo, hi)`. The generator's state is the number of draws made so far.
- `Facing` is an uninterpreted predicate on an opening set and a direction.
- `CellHelpers.CellTypes` is a non-empty catalog `seq<CellType>` without `None`.

The direction helpers are not part of this model either. They are defined with these semantics:

- `TurnRight` cycles North, East, South, West.
- `TurnAround` is the opposite direction; `TurnRightCycle` proves it equals two right turns.
- `GetLocation` moves one unit, with North toward smaller `y`.
- `ToDirectionsArray` lists a flag set in the order North, East, South, West.

C# integer division truncates toward zero; `TruncatedDiv` writes that out.

The source's two failure modes are returned as a `Result`:

- A negative dimension makes the array allocation throw (`NegativeSize`).
- A zero dimension makes the store of the start cell index outside the array (`StartOutOfRange`).

## Model

| member | source | states |
|---|---|---|
| Directions.TurnRightCycle | Source/DungeonGenerator/DungeonGenerator.cs:104 | four right turns are the identity, turning around is two right turns, and neither turn fixes a direction |
| Directions.TurnAroundInverse | Source/DungeonGenerator/DungeonGenerator.cs:77 | turning around twice is the identity, and stepping in `d` then in `TurnAround(d)` returns to the start point, which differs from its neighbour |
| Directions.ToDirectionsArray | Source/DungeonGenerator/DungeonGenerator.cs:39 | the list of a flag set holds exactly the set's directions, each once and in North, East, South, West order, so its length is the set's size |
| Directions.FlagRoundTrip | Source/DungeonGenerator/DungeonGenerator.cs:39 | combining the listed directions of a flag set back into a flag set gives the original set |
| Directions.ArrayRoundTrip | Source/DungeonGenerator/DungeonGenerator.cs:82 | a direction list already in enumeration order survives conversion to a flag set and back |
| Cells.FourWayRoom | Source/DungeonGenerator/Cell.cs:19-26 | the start room is a real cell of type `Room`, opens in every direction, and keeps the default attributes |
| Cells.DefaultIsSentinel | Source/DungeonGenerator/Cell.cs:8-17 | the default cell has type `None`, opens nowhere, and differs from the start room |
| CellGrid.NewGrid | Source/DungeonGenerator/DungeonGenerator.cs:25 | a freshly allocated grid has the requested dimensions and every slot holds the default cell |
| CellGrid.Place | Source/DungeonGenerator/DungeonGenerator.cs:46 | storing a cell sets exactly that slot; the dimensions and every other slot are unchanged, and validity is kept |
| CellGrid.RectSize | Source/DungeonGenerator/DungeonGenerator.cs:25 | a `w` by `h` cell array has exactly `w * h` slots |
| CellGrid.Capacity | Source/DungeonGenerator/DungeonGenerator.cs:25 | a grid whose stored slots are all in bounds holds at most `w * h` cells |
| RandomSource.NextInRange | Source/DungeonGenerator/DungeonGenerator.cs:74 | a two-bound draw lies in `[lo, hi)` and advances the source by exactly one draw |
| RandomSource.Next | Source/DungeonGenerator/DungeonGenerator.cs:72 | a single-bound draw lies in `[0, n)` and advances the source by exactly one draw |
| Connectivity.LinkedWalkPersists | Source/DungeonGenerator/DungeonGenerator.cs:44-47 | a walk along doubly open links stays such a walk after more cells are stored, because nothing is overwritten |
| Connectivity.ReachablePersists | Source/DungeonGenerator/DungeonGenerator.cs:44-47 | every cell reachable from the start stays reachable after more cells are stored |
| Connectivity.ReachableStep | Source/DungeonGenerator/DungeonGenerator.cs:39-47 | a link open on both ends from a reachable cell reaches its neighbour |
| Connectivity.ReachableStart | Source/DungeonGenerator/DungeonGenerator.cs:27-28 | a stored start cell is reachable from itself |
| GrowthInvariant.StartGrown | Source/DungeonGenerator/DungeonGenerator.cs:25-31 | after the start room is stored and enqueued, the loop invariant holds with no draws made yet |
| GrowthInvariant.PlaceChild | Source/DungeonGenerator/DungeonGenerator.cs:44-47 | storing and enqueueing a child that opens back toward its parent, at an empty in-bounds neighbour, keeps the loop invariant: stored cells and queue entries coincide, entries are distinct, every cell is reachable, and two draws were made per created cell |
| GrowthInvariant.PlaceChildEnqueued | Source/DungeonGenerator/DungeonGenerator.cs:46-47 | enqueueing the location of a newly stored cell keeps queue entries distinct and equal to the stored locations, one entry per cell |
| GrowthInvariant.PlaceChildReachable | Source/DungeonGenerator/DungeonGenerator.cs:39-47 | a child stored through an opening of a reachable cell, opening back toward it, is reachable, and no earlier cell is overwritten |
| GrowthInvariant.ExpansionPersists | Source/DungeonGenerator/DungeonGenerator.cs:44-46 | openings that led outside the grid or to a cell still do so after more cells are stored |
| GrowthInvariant.GrowthComplete | Source/DungeonGenerator/DungeonGenerator.cs:33-50 | once every enqueued location has been expanded, no opening of any cell leads to an empty slot inside the grid |
| DungeonGenerator.ScanFrom | Source/DungeonGenerator/DungeonGenerator.cs:93-105 | the scan loop keeps, in order, exactly those scanned directions whose neighbour is in bounds and either empty or facing the direction |
| DungeonGenerator.ScanSkipsLeft | Source/DungeonGenerator/DungeonGenerator.cs:93-105 | the three scanned directions are `dir` and its next two right turns; they are distinct, include the reverse of `dir`, and exclude the direction to its left |
| DungeonGenerator.FindValidConnections | Source/DungeonGenerator/DungeonGenerator.cs:89-108 | the candidates are an order-preserving subsequence of the three scanned directions, at most three, never the left direction, and hold `d` exactly when the neighbour in `d` is in bounds and empty or facing `d` |
| DungeonGenerator.Take | Source/DungeonGenerator/DungeonGenerator.cs:77 | LINQ's `Take(k)` yields a prefix of the sequence holding `k` elements, clamped to zero below and to the sequence's length above |
| DungeonGenerator.DetermineCellType | Source/DungeonGenerator/DungeonGenerator.cs:58-87 | outside the grid or at an occupied slot the result is the default cell and nothing is drawn; otherwise the type is the catalog entry picked by the first of the two draws, the openings are exactly the candidates plus the reverse of the approach direction, attributes stay default, and exactly two draws are made |
| DungeonGenerator.ConnectionCountKeepsAll | Source/DungeonGenerator/DungeonGenerator.cs:74-77 | a connection count drawn from `[count, Max(count, 4))` with at most three candidates makes `Take` keep every candidate |
| DungeonGenerator.OpeningsIgnoreRandomSource | Source/DungeonGenerator/DungeonGenerator.cs:71-82 | the openings of a new cell are the same for any two random sources at any draw counts |
| DungeonGenerator.ChildOpensTowardParent | Source/DungeonGenerator/DungeonGenerator.cs:77-82 | a cell created at an empty neighbour of a parent is real, opens back toward the parent, and its other openings are scanned directions that accept a connection |
| DungeonGenerator.ConsiderOpening | Source/DungeonGenerator/DungeonGenerator.cs:41-48 | handling one opening stores `DetermineCellType`'s cell at the neighbour and enqueues that neighbour exactly when the neighbour is in bounds and empty, and otherwise leaves grid and queue unchanged; the draw count is `DetermineCellType`'s. No cell is overwritten, the loop invariant is kept, and the opening then leads outside the grid or to a cell. Any new cell is the neighbour through `opening` and opens back toward `location` |
| DungeonGenerator.ExpandStep | Source/DungeonGenerator/DungeonGenerator.cs:39-48 | handling the opening at position `i` of the listed openings turns the loop's facts about the first `i` openings into facts about the first `i + 1`: those openings are settled, new cells are neighbours through them that open back, nothing is overwritten, and the queue only grows at its back |
| DungeonGenerator.ExpandLocation | Source/DungeonGenerator/DungeonGenerator.cs:37-49 | after all openings of a dequeued cell are handled, each leads outside the grid or to a cell. Every new cell is the neighbour of that cell through one of its openings `d` and opens back with `TurnAround(d)`. No cell is overwritten, the queue only grows at its back, earlier expansions stay valid, and the invariant holds |
| DungeonGenerator.ProcessNext | Source/DungeonGenerator/DungeonGenerator.cs:35-49 | one loop turn dequeues the queue front and appends it to the visit order. The rest of the queue stays in front of the newly enqueued locations, and no cell is overwritten. Every new cell is a neighbour of the dequeued cell through one of its openings `d` and opens back with `TurnAround(d)`. The invariant is kept, and the visit order never exceeds `w * h` |
| DungeonGenerator.Generate | Source/DungeonGenerator/DungeonGenerator.cs:20-50 | a run fails exactly when `Width / 9` or `Height / 9` is below one. Otherwise the grid is `Width / 9` by `Height / 9`, the centre holds the four-way room, and every stored cell is in bounds, real and reachable from the centre, and every cell other than the centre is of a catalog type. Each cell is visited exactly once, in at most `w * h` turns. Two draws are made per created cell, and no opening leads to an empty slot inside the grid |

## Left out

- The rasterization pass (`Fill`, lines 52-54 of `Source/DungeonGenerator/DungeonGenerator.cs`) is not modelled: `Cell.Fill` and the tile map are not part of this model.
- The constructor and `MersennePrimeRandom` are not modelled: the seeded generator is not part of this model. Its range contract is the `WellBehaved` oracle, and the state it carries between runs is the `draws0` parameter of `Generate`.
- The direction helpers (`TurnRight`, `TurnAround`, `GetLocation`, `ToDirectionsArray`, `ToDirectionFlag`) are not part of this model. They are defined with the semantics listed above. The North, East, South, West listing order and the `y - 1` offset for North are assumptions, and only concrete layouts depend on them.
- `Facing` is not part of this model; it is an uninterpreted parameter.
- `CellHelpers.CellTypes` is not part of this model; it is a catalog parameter. Cell types other than `None` and `Room` are told apart only by ordinal.
- The overlapping `FieldOffset` byte layout of `Cell` is representation only, so the three fields are independent. `AttributeType` is an unbounded flag word with default 0.
- Full reciprocity between neighbours is not claimed: a neighbour can be filled by another cell before a cell is expanded, and `Facing` is opaque. Only parent and child are shown to open toward each other.
- The facade in `Generator.cs`, the constants in `MapSize.cs`, the demo program, and the unfinished `RoomFirstGeneratorStrategy.cs` are outside the growth engine.
- DungeonGenerator.Generate: states the layout through its invariant, not cell by cell as a function of the draws. The cell stored for each opening is stated one step at a time by `ConsiderOpening`, in terms of `DetermineCellType`. That a cell keeps its first value is stated per loop turn by `ProcessNext`, not over a whole run.
