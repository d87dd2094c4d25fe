/**
  Paths through a cell grid along which every step is open on both ends:
  the direction `d` is an opening of the cell left and `TurnAround(d)` is an
  opening of the cell entered.
 */
module Connectivity {
  import opened Directions
  import opened Cells
  import opened CellGrid

  /** The point reached from `from` by taking the steps of `path` in order. */
  function Walk(from: Point, path: seq<Direction>): Point
    decreases |path|
  {
    if path == [] then from
    else GetLocation(path[|path| - 1], Walk(from, path[..|path| - 1]))
  }

  /** The step from `a` in direction `d` joins two real cells that open toward each other. */
  predicate Linked(g: Grid, a: Point, d: Direction) {
    var b := GetLocation(d, a);
    && !IsEmpty(At(g, a)) && d in At(g, a).openings
    && !IsEmpty(At(g, b)) && TurnAround(d) in At(g, b).openings
  }

  /** `from` holds a real cell and every step of `path` is linked. */
  ghost predicate LinkedWalk(g: Grid, from: Point, path: seq<Direction>)
    decreases |path|
  {
    && !IsEmpty(At(g, from))
    && (path != [] ==>
          var prefix := path[..|path| - 1];
          LinkedWalk(g, from, prefix) && Linked(g, Walk(from, prefix), path[|path| - 1]))
  }

  ghost predicate Reachable(g: Grid, from: Point, to: Point) {
    exists path :: LinkedWalk(g, from, path) && Walk(from, path) == to
  }

  /** Every stored cell can be reached from `from` along linked steps. */
  ghost predicate AllReachable(g: Grid, from: Point) {
    forall p :: p in g.cells ==> Reachable(g, from, p)
  }

  /** A linked walk stays linked once more cells are stored, since none is overwritten. */
  lemma {:induction false} LinkedWalkPersists(g: Grid, g': Grid, from: Point, path: seq<Direction>)
    requires Extends(g, g')
    requires LinkedWalk(g, from, path)
    ensures LinkedWalk(g', from, path)
    decreases |path|
  {
    assert from in g.cells;
    if path != [] {
      var prefix := path[..|path| - 1];
      LinkedWalkPersists(g, g', from, prefix);
      var a := Walk(from, prefix);
      var d := path[|path| - 1];
      assert a in g.cells && GetLocation(d, a) in g.cells;
    }
  }

  /** Reachability survives storing more cells. */
  lemma ReachablePersists(g: Grid, g': Grid, from: Point)
    requires Extends(g, g')
    requires AllReachable(g, from)
    ensures forall p :: p in g.cells ==> Reachable(g', from, p)
  {
    forall p | p in g.cells
      ensures Reachable(g', from, p)
    {
      var path :| LinkedWalk(g, from, path) && Walk(from, path) == p;
      LinkedWalkPersists(g, g', from, path);
    }
  }

  /** A linked step out of a reachable cell reaches its neighbour. */
  lemma ReachableStep(g: Grid, from: Point, p: Point, d: Direction)
    requires Reachable(g, from, p)
    requires Linked(g, p, d)
    ensures Reachable(g, from, GetLocation(d, p))
  {
    var path :| LinkedWalk(g, from, path) && Walk(from, path) == p;
    var path' := path + [d];
    assert path'[..|path'| - 1] == path;
    assert LinkedWalk(g, from, path');
    assert Walk(from, path') == GetLocation(d, p);
  }

  /** The start cell is reachable from itself by the empty walk. */
  lemma ReachableStart(g: Grid, from: Point)
    requires !IsEmpty(At(g, from))
    ensures Reachable(g, from, from)
  {
    assert LinkedWalk(g, from, []) && Walk(from, []) == from;
  }
}
