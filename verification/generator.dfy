/**
  The cell-growth engine: starting from a four-way room at the centre of the
  grid, a first-in first-out frontier of cells is expanded opening by
  opening, creating a neighbour wherever the neighbour slot is inside the
  grid and still empty.

  Three collaborators are parameters: `oracle`, the pseudo-random source
  (see `RandomSource`); `facing`, the test an occupied neighbour's openings
  must pass to accept a connection; and `catalog`, the cell types a new
  cell's type is drawn from.
 */
module DungeonGenerator {
  import opened Sequences
  import opened Directions
  import opened Cells
  import opened CellGrid
  import opened RandomSource
  import opened GrowthInvariant

  /** Tiles per side of one macro-cell. */
  const CellSize: int := 9

  /** `facing(openings, d)`: an occupied neighbour with these openings accepts a connection made in direction `d`. */
  type Facing = (set<Direction>, Direction) -> bool

  datatype Result<T, E> = Success(value: T) | Failure(error: E)

  /**
    Why a run fails. A negative grid dimension makes the cell array
    allocation throw; a zero dimension makes storing the start cell index
    outside the array.
   */
  datatype GenerateError = NegativeSize | StartOutOfRange

  /** The finished grid, the locations in the order they were dequeued, and the random draws made so far. */
  datatype Generated = Generated(grid: Grid, visitOrder: seq<Point>, draws: nat)

  /** A cell returned by `DetermineCellType` together with the random draws made so far. */
  datatype Determined = Determined(cell: Cell, draws: nat)

  /** The catalog the cell type is drawn from: non-empty, and every entry is a real cell type. */
  predicate ValidCatalog(catalog: seq<CellType>) {
    |catalog| > 0 && forall i :: 0 <= i < |catalog| ==> catalog[i] != None
  }

  /** C# integer division: the quotient is truncated toward zero. */
  function TruncatedDiv(a: int, b: int): int
    requires b > 0
  {
    if a >= 0 then a / b else -((-a) / b)
  }

  /** `n` directions starting at `dir`, each a right turn from the one before. */
  function Turns(dir: Direction, n: nat): seq<Direction>
    decreases n
  {
    if n == 0 then [] else [dir] + Turns(TurnRight(dir), n - 1)
  }

  /** The three directions scanned for connections: every direction except the one left of `dir`. */
  function ScanOrder(dir: Direction): seq<Direction> {
    Turns(dir, 3)
  }

  /** The neighbour of `loc` in direction `d` is inside the grid and either empty or facing `d`. */
  predicate AcceptsConnection(g: Grid, facing: Facing, loc: Point, d: Direction) {
    var n := GetLocation(d, loc);
    InBounds(g, n) && (IsEmpty(At(g, n)) || facing(At(g, n).openings, d))
  }

  /** The loop of `FindValidConnections`: `n` more scan steps starting at `dir`. */
  function ScanFrom(g: Grid, facing: Facing, dir: Direction, loc: Point, n: nat): (r: seq<Direction>)
    decreases n
    ensures IsSubsequence(r, Turns(dir, n))
    ensures forall d :: d in r <==> d in Turns(dir, n) && AcceptsConnection(g, facing, loc, d)
  {
    if n == 0 then []
    else
      var rest := ScanFrom(g, facing, TurnRight(dir), loc, n - 1);
      if AcceptsConnection(g, facing, loc, dir) then [dir] + rest else rest
  }

  /**
    The candidate openings of a new cell at `loc` that was approached moving
    in direction `dir`: the directions of the scan whose neighbour accepts a
    connection, in scan order.
   */
  function FindValidConnections(g: Grid, facing: Facing, dir: Direction, loc: Point): (r: seq<Direction>)
    ensures |r| <= 3
    ensures IsSubsequence(r, ScanOrder(dir))
    ensures forall d :: d in r <==> d in ScanOrder(dir) && AcceptsConnection(g, facing, loc, d)
    ensures TurnRight(TurnRight(TurnRight(dir))) !in r
  {
    var r := ScanFrom(g, facing, dir, loc, 3);
    ScanSkipsLeft(dir);
    SubsequenceLength(r, ScanOrder(dir));
    r
  }

  /** The scan visits `dir` and its two right turns, three distinct directions, and never the left of `dir`. */
  lemma ScanSkipsLeft(dir: Direction)
    ensures ScanOrder(dir) == [dir, TurnRight(dir), TurnRight(TurnRight(dir))]
    ensures Distinct(ScanOrder(dir))
    ensures TurnRight(TurnRight(TurnRight(dir))) !in ScanOrder(dir)
    ensures TurnAround(dir) in ScanOrder(dir)
  {
    assert Turns(TurnRight(TurnRight(TurnRight(dir))), 0) == [];
    match dir
    case North =>
    case East =>
    case South =>
    case West =>
  }

  /** The first `k` elements of `s`, or all of them when `k` exceeds its length, as LINQ's `Take` does. */
  function Take<T>(s: seq<T>, k: int): (r: seq<T>)
    ensures r <= s
    ensures |r| == if k <= 0 then 0 else if k < |s| then k else |s|
  {
    if k <= 0 then [] else if k >= |s| then s else s[..k]
  }

  function Max(a: int, b: int): int {
    if a >= b then a else b
  }

  /**
    The cell to create at `location`, approached moving in `direction`, and
    the draw count afterwards. Outside the grid, or on an occupied slot, it
    is the default cell and nothing is drawn. Otherwise two values are drawn,
    the type index first and then the connection count.
   */
  function DetermineCellType(g: Grid, facing: Facing, oracle: Oracle, draws: nat, catalog: seq<CellType>,
                             location: Point, direction: Direction): (r: Determined)
    requires WellBehaved(oracle)
    requires ValidCatalog(catalog)
    ensures !InBounds(g, location) ==> r == Determined(Default, draws)
    ensures InBounds(g, location) && !IsEmpty(At(g, location)) ==> r == Determined(Default, draws)
    ensures InBounds(g, location) && IsEmpty(At(g, location)) ==>
              && r.cell.cellType in catalog
              && r.cell.cellType == catalog[oracle(draws, 0, |catalog|)]
              && r.cell.openings == ToDirectionFlag(FindValidConnections(g, facing, direction, location))
                                    + {TurnAround(direction)}
              && r.cell.attributes == Default.attributes
              && r.draws == draws + 2
  {
    if !InBounds(g, location) then Determined(Default, draws)
    else if !IsEmpty(At(g, location)) then Determined(Default, draws)
    else
      var connections := FindValidConnections(g, facing, direction, location);
      var (typeIndex, draws1) := Next(oracle, draws, |catalog|);
      var count := |connections|;
      var (connectsToMake, draws2) := NextInRange(oracle, draws1, count, Max(count, 4));
      var openings := ToDirectionFlag(Take(connections, connectsToMake) + [TurnAround(direction)]);
      Determined(Cell(openings, catalog[typeIndex], 0), draws2)
  }

  /**
    The connection count is drawn from `[count, Max(count, 4))` and there are
    at most three candidates, so `Take` keeps every one of them.
   */
  lemma ConnectionCountKeepsAll(connections: seq<Direction>, k: int)
    requires |connections| <= 3
    requires |connections| <= k < Max(|connections|, 4)
    ensures Take(connections, k) == connections
  {
  }

  /**
    The openings of a new cell do not depend on the random source: two runs
    from any two well-behaved sources, at any draw counts, give the same
    openings, and only the type may differ.
   */
  lemma OpeningsIgnoreRandomSource(g: Grid, facing: Facing, catalog: seq<CellType>, location: Point,
                                   direction: Direction, oracle1: Oracle, draws1: nat, oracle2: Oracle, draws2: nat)
    requires WellBehaved(oracle1) && WellBehaved(oracle2)
    requires ValidCatalog(catalog)
    ensures DetermineCellType(g, facing, oracle1, draws1, catalog, location, direction).cell.openings
         == DetermineCellType(g, facing, oracle2, draws2, catalog, location, direction).cell.openings
  {
  }

  /**
    A cell created at the neighbour of `parent` in direction `direction` has
    an opening back toward `parent`, and every other opening it has is one of
    the three scanned directions whose neighbour accepts a connection.
   */
  lemma ChildOpensTowardParent(g: Grid, facing: Facing, oracle: Oracle, draws: nat, catalog: seq<CellType>,
                               parent: Point, direction: Direction)
    requires WellBehaved(oracle)
    requires ValidCatalog(catalog)
    requires InBounds(g, GetLocation(direction, parent)) && IsEmpty(At(g, GetLocation(direction, parent)))
    ensures var location := GetLocation(direction, parent);
            var c := DetermineCellType(g, facing, oracle, draws, catalog, location, direction).cell;
            && !IsEmpty(c)
            && TurnAround(direction) in c.openings
            && GetLocation(TurnAround(direction), location) == parent
            && forall d :: d in c.openings && d != TurnAround(direction) ==>
                 d in ScanOrder(direction) && AcceptsConnection(g, facing, location, d)
  {
    TurnAroundInverse(direction, parent);
  }

  /** The number of whole macro-cells that fit along a tile-map side of `tiles` tiles. */
  function CellCount(tiles: int): int {
    TruncatedDiv(tiles, CellSize)
  }

  /** The centre of a `w` by `h` grid, where growth starts. */
  function StartLocation(w: int, h: int): Point {
    Point(w / 2, h / 2)
  }

  /**
    One turn of the growth loop: every opening of the cell at `location`, in
    enumeration order, is offered to `DetermineCellType`, and each cell it
    creates is stored and enqueued. Afterwards every opening of `location`
    is settled.
   */
  method ExpandLocation(g: Grid, facing: Facing, oracle: Oracle, draws: nat, catalog: seq<CellType>,
                        start: Point, ghost draws0: nat, ghost visited: seq<Point>,
                        location: Point, unprocessed: seq<Point>)
    returns (g': Grid, unprocessed': seq<Point>, draws': nat)
    requires WellBehaved(oracle)
    requires ValidCatalog(catalog)
    requires Grown(g, start, catalog, draws0, draws, visited + [location] + unprocessed)
    requires AllExpanded(g, visited)
    ensures g'.w == g.w && g'.h == g.h
    ensures Extends(g, g')
    ensures unprocessed <= unprocessed'
    ensures Grown(g', start, catalog, draws0, draws', visited + [location] + unprocessed')
    ensures AllExpanded(g', visited)
    ensures Expanded(g', location)
    ensures GrewFrom(g, g', location, At(g, location).openings)
  {
    g' := g;
    unprocessed' := unprocessed;
    draws' := draws;
    var cell := g.cells[location];
    assert cell == At(g, location);
    var openings := ToDirectionsArray(cell.openings);

    var i := 0;
    while i < |openings|
      invariant 0 <= i <= |openings|
      invariant Extends(g, g')
      invariant unprocessed <= unprocessed'
      invariant Grown(g', start, catalog, draws0, draws', visited + [location] + unprocessed')
      invariant AllExpanded(g', visited)
      invariant forall j :: 0 <= j < i ==> Settled(g', location, openings[j])
      invariant GrewFrom(g, g', location, ToDirectionFlag(openings[..i]))
    {
      g', unprocessed', draws' := ExpandStep(g, g', facing, oracle, draws', catalog, start, draws0, visited,
                                             location, unprocessed, unprocessed', openings, i);
      i := i + 1;
    }
    ExpandedThroughAll(g', location, openings, i);
    GrewThroughAll(g, g', location, cell.openings, openings, i);
  }

  /**
    Step `i` of the loop over the listed openings of the cell at `location`,
    carrying what the loop knows about the grid `g0` it started from.
   */
  method ExpandStep(g0: Grid, g: Grid, facing: Facing, oracle: Oracle, draws: nat, catalog: seq<CellType>,
                    start: Point, ghost draws0: nat, ghost visited: seq<Point>, location: Point,
                    ghost unprocessed0: seq<Point>, unprocessed: seq<Point>, openings: seq<Direction>, i: nat)
    returns (g': Grid, unprocessed': seq<Point>, draws': nat)
    requires WellBehaved(oracle)
    requires ValidCatalog(catalog)
    requires i < |openings|
    requires location in g0.cells && openings[i] in g0.cells[location].openings
    requires Extends(g0, g)
    requires unprocessed0 <= unprocessed
    requires Grown(g, start, catalog, draws0, draws, visited + [location] + unprocessed)
    requires AllExpanded(g, visited)
    requires forall j :: 0 <= j < i ==> Settled(g, location, openings[j])
    requires GrewFrom(g0, g, location, ToDirectionFlag(openings[..i]))
    ensures Extends(g0, g')
    ensures unprocessed0 <= unprocessed'
    ensures Grown(g', start, catalog, draws0, draws', visited + [location] + unprocessed')
    ensures AllExpanded(g', visited)
    ensures forall j :: 0 <= j < i + 1 ==> Settled(g', location, openings[j])
    ensures GrewFrom(g0, g', location, ToDirectionFlag(openings[..i + 1]))
  {
    g', unprocessed', draws' := ConsiderOpening(g, facing, oracle, draws, catalog, start, draws0,
                                                visited, location, unprocessed, openings[i]);
    SettledPersists(g, g', location, openings, i);
    GrewFromStep(g0, g, g', location, openings, i);
  }

  /**
    One iteration over the openings of the cell at `location`: the cell
    `DetermineCellType` yields for the neighbour through `opening` is stored
    and enqueued when it is a real cell. Afterwards that opening is settled.
   */
  method ConsiderOpening(g: Grid, facing: Facing, oracle: Oracle, draws: nat, catalog: seq<CellType>,
                         start: Point, ghost draws0: nat, ghost visited: seq<Point>,
                         location: Point, unprocessed: seq<Point>, opening: Direction)
    returns (g': Grid, unprocessed': seq<Point>, draws': nat)
    requires WellBehaved(oracle)
    requires ValidCatalog(catalog)
    requires Grown(g, start, catalog, draws0, draws, visited + [location] + unprocessed)
    requires location in g.cells && opening in g.cells[location].openings
    requires AllExpanded(g, visited)
    ensures var n := GetLocation(opening, location);
            var made := DetermineCellType(g, facing, oracle, draws, catalog, n, opening);
            && draws' == made.draws
            && if InBounds(g, n) && n !in g.cells
               then g' == Place(g, n, made.cell) && unprocessed' == unprocessed + [n]
               else g' == g && unprocessed' == unprocessed
    ensures g'.w == g.w && g'.h == g.h
    ensures Extends(g, g')
    ensures Grown(g', start, catalog, draws0, draws', visited + [location] + unprocessed')
    ensures AllExpanded(g', visited)
    ensures Settled(g', location, opening)
    ensures GrewFrom(g, g', location, {opening})
  {
    var newLocation := GetLocation(opening, location);
    assert (visited + [location] + unprocessed) + [newLocation] == visited + [location] + (unprocessed + [newLocation]);
    var newCell := DetermineCellType(g, facing, oracle, draws, catalog, newLocation, opening);
    if newCell.cell.cellType != None {
      unprocessed' := unprocessed + [newLocation];
      assert InBounds(g, newLocation) && newLocation !in g.cells;
      draws' := newCell.draws;
      PlaceChild(g, start, catalog, draws0, draws, draws', visited + [location] + unprocessed,
                 location, opening, newLocation, newCell.cell);
      g' := Place(g, newLocation, newCell.cell);
      ExpansionPersists(g, g', visited);
      assert newLocation in g'.cells;
      GrewFromPlace(g, location, opening, newCell.cell);
    } else {
      assert !InBounds(g, newLocation) || !IsEmpty(At(g, newLocation));
      g', unprocessed', draws' := g, unprocessed, newCell.draws;
      GrewFromNothing(g, location, {opening});
    }
  }

  /**
    One turn of the outer loop: the front of the queue is dequeued, expanded,
    and appended to the visit order.
   */
  method ProcessNext(g: Grid, facing: Facing, oracle: Oracle, draws: nat, catalog: seq<CellType>,
                     start: Point, ghost draws0: nat, visited: seq<Point>, unprocessed: seq<Point>)
    returns (visited': seq<Point>, unprocessed': seq<Point>, g': Grid, draws': nat)
    requires WellBehaved(oracle)
    requires ValidCatalog(catalog)
    requires g.w >= 0 && g.h >= 0
    requires |unprocessed| > 0
    requires Grown(g, start, catalog, draws0, draws, visited + unprocessed)
    requires AllExpanded(g, visited)
    ensures g'.w == g.w && g'.h == g.h
    ensures Extends(g, g')
    ensures visited' == visited + [unprocessed[0]]
    ensures unprocessed[1..] <= unprocessed'
    ensures GrewFrom(g, g', unprocessed[0], At(g, unprocessed[0]).openings)
    ensures Grown(g', start, catalog, draws0, draws', visited' + unprocessed')
    ensures AllExpanded(g', visited')
    ensures |visited'| <= g.w * g.h
  {
    var location := unprocessed[0];
    GrownSameQueue(g, start, catalog, draws0, draws, visited + unprocessed, visited + [location] + unprocessed[1..]);
    g', unprocessed', draws' := ExpandLocation(g, facing, oracle, draws, catalog, start, draws0,
                                               visited, location, unprocessed[1..]);
    AllExpandedAppend(g', visited, location);
    visited' := visited + [location];
    Capacity(g');
  }

  /**
    The growth run of `Generate` on a tile map of `width` by `height` tiles,
    up to the rasterization pass. `draws0` is the number of draws the random
    source had already made when the run starts.
   */
  method Generate(width: int, height: int, facing: Facing, oracle: Oracle, draws0: nat, catalog: seq<CellType>)
    returns (r: Result<Generated, GenerateError>)
    requires WellBehaved(oracle)
    requires ValidCatalog(catalog)
    ensures r.Failure? <==> CellCount(width) < 1 || CellCount(height) < 1
    ensures r.Failure? ==>
              r.error == if CellCount(width) < 0 || CellCount(height) < 0 then NegativeSize else StartOutOfRange
    ensures r.Success? ==> r.value.grid.w == CellCount(width) && r.value.grid.h == CellCount(height)
    ensures r.Success? ==>
              Grown(r.value.grid, StartLocation(CellCount(width), CellCount(height)), catalog, draws0, r.value.draws,
                    r.value.visitOrder)
    ensures r.Success? ==> NoDanglingOpenings(r.value.grid)
    ensures r.Success? ==> |r.value.visitOrder| <= CellCount(width) * CellCount(height)
  {
    var w := CellCount(width);
    var h := CellCount(height);
    if w < 0 || h < 0 {
      return Failure(NegativeSize);
    }
    if w == 0 || h == 0 {
      return Failure(StartOutOfRange);
    }

    var start := StartLocation(w, h);
    var g := Place(NewGrid(w, h), start, FourWayRoom());
    StartGrown(w, h, start, catalog, draws0);

    var unprocessed := [start];
    var visited: seq<Point> := [];
    var draws := draws0;

    while |unprocessed| > 0
      invariant g.w == w && g.h == h
      invariant Grown(g, start, catalog, draws0, draws, visited + unprocessed)
      invariant AllExpanded(g, visited)
      decreases w * h - |visited|
    {
      visited, unprocessed, g, draws := ProcessNext(g, facing, oracle, draws, catalog, start, draws0,
                                                     visited, unprocessed);
    }

    assert visited + unprocessed == visited;
    Capacity(g);
    GrowthComplete(g, start, catalog, draws0, draws, visited);
    return Success(Generated(g, visited, draws));
  }
}
