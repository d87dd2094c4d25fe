/**
  The invariant of the growth loop and the lemmas showing that each step of
  the loop keeps it.
 */
module GrowthInvariant {
  import opened Sequences
  import opened Directions
  import opened Cells
  import opened CellGrid
  import opened Connectivity

  /** The neighbour of `p` in direction `d` lies outside the grid or already holds a cell. */
  predicate Settled(g: Grid, p: Point, d: Direction) {
    var n := GetLocation(d, p);
    !InBounds(g, n) || n in g.cells
  }

  /** Every opening of the cell at `p` leads outside the grid or to a cell. */
  ghost predicate Expanded(g: Grid, p: Point) {
    forall d :: d in At(g, p).openings ==> Settled(g, p, d)
  }

  /** Every location of `done` holds a cell whose openings are all settled. */
  ghost predicate AllExpanded(g: Grid, done: seq<Point>) {
    forall k :: 0 <= k < |done| ==> done[k] in g.cells && Expanded(g, done[k])
  }

  /** Appending an expanded location to a sequence of expanded locations. */
  lemma AllExpandedAppend(g: Grid, done: seq<Point>, p: Point)
    requires AllExpanded(g, done)
    requires p in g.cells && Expanded(g, p)
    ensures AllExpanded(g, done + [p])
  {
  }

  /**
    What holds of the grid between two steps of the growth loop, given the
    locations `enqueued` so far (dequeued ones first, then the frontier).
   */
  ghost predicate Grown(g: Grid, start: Point, catalog: seq<CellType>, draws0: nat, draws: nat, enqueued: seq<Point>) {
    && Valid(g)
    && start in g.cells && g.cells[start] == FourWayRoom()
    && Distinct(enqueued)
    && |enqueued| > 0 && enqueued[0] == start
    && (forall p :: p in g.cells <==> p in enqueued)
    && |enqueued| == |g.cells|
    && AllReachable(g, start)
    && draws == draws0 + 2 * (|g.cells| - 1)
    && (forall p :: p in g.cells && p != start ==> g.cells[p].cellType in catalog)
  }

  /** The invariant depends on the enqueued locations only through their sequence. */
  lemma GrownSameQueue(g: Grid, start: Point, catalog: seq<CellType>, draws0: nat, draws: nat,
                       enqueued: seq<Point>, enqueued': seq<Point>)
    requires Grown(g, start, catalog, draws0, draws, enqueued)
    requires enqueued' == enqueued
    ensures Grown(g, start, catalog, draws0, draws, enqueued')
  {
  }

  /** The grid right after the start room is stored satisfies the loop invariant. */
  lemma {:induction false} StartGrown(w: nat, h: nat, start: Point, catalog: seq<CellType>, draws0: nat)
    requires 0 <= start.x < w && 0 <= start.y < h
    ensures Grown(Place(NewGrid(w, h), start, FourWayRoom()), start, catalog, draws0, draws0, [start])
  {
    var g := Place(NewGrid(w, h), start, FourWayRoom());
    assert g.cells == map[start := FourWayRoom()];
    forall p | p in g.cells ensures Reachable(g, start, p) {
      ReachableStart(g, start);
    }
  }

  /**
    Storing a new cell at the empty neighbour of an enqueued cell, through one
    of its openings, keeps the loop invariant once the neighbour is enqueued,
    provided the new cell opens back toward its parent.
   */
  lemma {:induction false} PlaceChild(g: Grid, start: Point, catalog: seq<CellType>, draws0: nat, draws: nat,
                                      draws': nat, enqueued: seq<Point>, loc: Point, d: Direction, n: Point, c: Cell)
    requires Grown(g, start, catalog, draws0, draws, enqueued)
    requires draws' == draws + 2
    requires loc in g.cells && d in g.cells[loc].openings
    requires n == GetLocation(d, loc) && InBounds(g, n) && n !in g.cells
    requires c.cellType in catalog && c.cellType != None && TurnAround(d) in c.openings
    ensures Extends(g, Place(g, n, c))
    ensures Grown(Place(g, n, c), start, catalog, draws0, draws', enqueued + [n])
  {
    var g' := Place(g, n, c);
    assert g'.cells == g.cells[n := c];
    PlaceChildReachable(g, start, loc, d, c);
    PlaceChildEnqueued(g, start, enqueued, n, c);
  }

  /** Enqueueing the location of a newly stored cell keeps the queue bookkeeping exact. */
  lemma PlaceChildEnqueued(g: Grid, start: Point, enqueued: seq<Point>, n: Point, c: Cell)
    requires Distinct(enqueued) && |enqueued| > 0 && enqueued[0] == start
    requires forall p :: p in g.cells <==> p in enqueued
    requires |enqueued| == |g.cells|
    requires InBounds(g, n) && n !in g.cells && c.cellType != None
    ensures var g' := Place(g, n, c);
            && Distinct(enqueued + [n]) && (enqueued + [n])[0] == start
            && (forall p :: p in g'.cells <==> p in enqueued + [n])
            && |enqueued + [n]| == |g'.cells| == |g.cells| + 1
  {
    var g' := Place(g, n, c);
    assert g'.cells.Keys == g.cells.Keys + {n};
    assert n !in enqueued;
  }

  /** A child stored through an opening of a reachable cell, opening back toward it, is reachable too. */
  lemma PlaceChildReachable(g: Grid, start: Point, loc: Point, d: Direction, c: Cell)
    requires Valid(g) && AllReachable(g, start)
    requires loc in g.cells && d in g.cells[loc].openings
    requires InBounds(g, GetLocation(d, loc)) && GetLocation(d, loc) !in g.cells
    requires c.cellType != None && TurnAround(d) in c.openings
    ensures Extends(g, Place(g, GetLocation(d, loc), c))
    ensures AllReachable(Place(g, GetLocation(d, loc), c), start)
  {
    var n := GetLocation(d, loc);
    var g' := Place(g, n, c);
    assert g'.cells == g.cells[n := c];
    ReachablePersists(g, g', start);
    assert Linked(g', loc, d) by {
      TurnAroundInverse(d, loc);
    }
    ReachableStep(g', start, loc, d);
  }

  /** Cells whose openings were all settled stay settled once more cells are stored. */
  lemma ExpansionPersists(g: Grid, g': Grid, done: seq<Point>)
    requires Extends(g, g')
    requires AllExpanded(g, done)
    ensures AllExpanded(g', done)
  {
    forall k | 0 <= k < |done|
      ensures done[k] in g'.cells && Expanded(g', done[k])
    {
      var p := done[k];
      assert At(g', p) == At(g, p);
      forall d | d in At(g', p).openings
        ensures Settled(g', p, d)
      {
        assert Settled(g, p, d);
      }
    }
  }

  /**
    The first `n` directions of `ds` were settled before more cells were
    stored and direction `n` is settled after: the first `n + 1` are settled.
   */
  lemma SettledPersists(g: Grid, g': Grid, p: Point, ds: seq<Direction>, n: nat)
    requires Extends(g, g')
    requires n < |ds|
    requires forall j :: 0 <= j < n ==> Settled(g, p, ds[j])
    requires Settled(g', p, ds[n])
    ensures forall j :: 0 <= j < n + 1 ==> Settled(g', p, ds[j])
  {
  }

  /** The neighbours of `p` through the directions of `ds`. */
  function Neighbours(p: Point, ds: set<Direction>): set<Point> {
    set d | d in ds :: GetLocation(d, p)
  }

  /**
    Every cell `g'` holds that `g` did not is a neighbour of `p` through a
    direction of `ds`, and it opens back toward `p`.
   */
  ghost predicate GrewFrom(g: Grid, g': Grid, p: Point, ds: set<Direction>) {
    && (forall q :: q in g'.cells && q !in g.cells ==> q in Neighbours(p, ds))
    && (forall d :: d in ds && GetLocation(d, p) in g'.cells && GetLocation(d, p) !in g.cells ==>
          TurnAround(d) in g'.cells[GetLocation(d, p)].openings)
  }

  /** Storing nothing grows nothing. */
  lemma GrewFromNothing(g: Grid, p: Point, ds: set<Direction>)
    ensures GrewFrom(g, g, p, ds)
  {
  }

  /** Storing, at the empty neighbour of `p` through `d`, a cell that opens back toward `p`. */
  lemma GrewFromPlace(g: Grid, p: Point, d: Direction, c: Cell)
    requires InBounds(g, GetLocation(d, p)) && GetLocation(d, p) !in g.cells
    requires !IsEmpty(c) && TurnAround(d) in c.openings
    ensures GrewFrom(g, Place(g, GetLocation(d, p), c), p, {d})
  {
    var g' := Place(g, GetLocation(d, p), c);
    assert g'.cells == g.cells[GetLocation(d, p) := c];
    assert GetLocation(d, p) in Neighbours(p, {d});
  }

  /** Growth through every direction of a list of `s` is growth through `s`. */
  lemma GrewThroughAll(g: Grid, g': Grid, p: Point, s: set<Direction>, ds: seq<Direction>, n: nat)
    requires n == |ds|
    requires forall d :: d in ds <==> d in s
    requires GrewFrom(g, g', p, ToDirectionFlag(ds[..n]))
    ensures GrewFrom(g, g', p, s)
  {
    assert ds[..n] == ds;
    assert ToDirectionFlag(ds) == s;
  }

  /** Distinct directions lead from a point to distinct neighbours. */
  lemma NeighbourInjective(p: Point, d: Direction, e: Direction)
    requires GetLocation(d, p) == GetLocation(e, p)
    ensures d == e
  {
    match d
    case North =>
    case East =>
    case South =>
    case West =>
  }

  /**
    Growth from `p` through the first `n` directions of `ds`, followed by
    growth through direction `n`, is growth through the first `n + 1`.
   */
  lemma {:induction false} GrewFromStep(g: Grid, g1: Grid, g2: Grid, p: Point, ds: seq<Direction>, n: nat)
    requires n < |ds|
    requires Extends(g, g1) && Extends(g1, g2)
    requires GrewFrom(g, g1, p, ToDirectionFlag(ds[..n]))
    requires GrewFrom(g1, g2, p, {ds[n]})
    ensures GrewFrom(g, g2, p, ToDirectionFlag(ds[..n + 1]))
  {
    var before, after := ToDirectionFlag(ds[..n]), ToDirectionFlag(ds[..n + 1]);
    assert ds[..n + 1] == ds[..n] + [ds[n]];
    assert after == before + {ds[n]};
    forall q | q in g2.cells && q !in g.cells
      ensures q in Neighbours(p, after)
    {
      if q in g1.cells {
        var d :| d in before && q == GetLocation(d, p);
      } else {
        assert q in Neighbours(p, {ds[n]});
      }
    }
    forall d | d in after && GetLocation(d, p) in g2.cells && GetLocation(d, p) !in g.cells
      ensures TurnAround(d) in g2.cells[GetLocation(d, p)].openings
    {
      var q := GetLocation(d, p);
      if q !in g1.cells {
        assert q in Neighbours(p, {ds[n]});
        NeighbourInjective(p, d, ds[n]);
      } else if d !in before {
        var e :| e in before && q == GetLocation(e, p);
        NeighbourInjective(p, d, e);
      }
    }
  }

  /** A cell whose openings are all listed in `ds`, each of them settled, is expanded. */
  lemma ExpandedThroughAll(g: Grid, p: Point, ds: seq<Direction>, n: nat)
    requires n == |ds|
    requires forall d :: d in At(g, p).openings ==> d in ds
    requires forall j :: 0 <= j < n ==> Settled(g, p, ds[j])
    ensures Expanded(g, p)
  {
    forall d | d in At(g, p).openings
      ensures Settled(g, p, d)
    {
      var j :| 0 <= j < |ds| && ds[j] == d;
    }
  }

  /** Every opening of every cell leads outside the grid or to another cell. */
  ghost predicate NoDanglingOpenings(g: Grid) {
    forall p, d :: p in g.cells && d in g.cells[p].openings ==> Settled(g, p, d)
  }

  /** Once every enqueued location has been expanded, no opening leads into an empty slot. */
  lemma GrowthComplete(g: Grid, start: Point, catalog: seq<CellType>, draws0: nat, draws: nat, visited: seq<Point>)
    requires Grown(g, start, catalog, draws0, draws, visited)
    requires AllExpanded(g, visited)
    ensures NoDanglingOpenings(g)
  {
    forall p, d | p in g.cells && d in g.cells[p].openings
      ensures Settled(g, p, d)
    {
      var k :| 0 <= k < |visited| && visited[k] == p;
      assert Expanded(g, visited[k]);
    }
  }
}
