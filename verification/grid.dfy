/**
  The abstract cell grid: a `w` by `h` array of cells indexed by points.

  Only the occupied slots are stored; a point missing from `cells` holds the
  default cell, exactly as a freshly allocated array slot does.
 */
module CellGrid {
  import opened Directions
  import opened Cells

  datatype Grid = Grid(w: int, h: int, cells: map<Point, Cell>)

  predicate InBounds(g: Grid, p: Point) {
    0 <= p.x < g.w && 0 <= p.y < g.h
  }

  /** The cell stored at `p`; the default cell where nothing was stored. */
  function At(g: Grid, p: Point): Cell {
    if p in g.cells then g.cells[p] else Default
  }

  /** Every stored slot lies inside the grid and holds a real cell. */
  ghost predicate Valid(g: Grid) {
    forall p :: p in g.cells ==> InBounds(g, p) && !IsEmpty(g.cells[p])
  }

  /** A freshly allocated `w` by `h` grid: every slot holds the default cell. */
  function NewGrid(w: nat, h: nat): (g: Grid)
    ensures g.w == w && g.h == h
    ensures Valid(g)
    ensures forall p :: At(g, p) == Default
  {
    Grid(w, h, map[])
  }

  /** Stores `c` at `p`; every other slot keeps its cell. */
  function Place(g: Grid, p: Point, c: Cell): (g': Grid)
    requires InBounds(g, p)
    requires !IsEmpty(c)
    ensures g'.w == g.w && g'.h == g.h
    ensures At(g', p) == c
    ensures forall q :: q != p ==> At(g', q) == At(g, q)
    ensures Valid(g) ==> Valid(g')
  {
    Grid(g.w, g.h, g.cells[p := c])
  }

  /** `g'` agrees with `g` on every slot `g` had filled: nothing was overwritten. */
  ghost predicate Extends(g: Grid, g': Grid) {
    && g'.w == g.w && g'.h == g.h
    && forall p :: p in g.cells ==> p in g'.cells && g'.cells[p] == g.cells[p]
  }

  /** All points of a `w` by `h` grid. */
  function Rect(w: nat, h: nat): set<Point> {
    set x: int, y: int | 0 <= x < w && 0 <= y < h :: Point(x, y)
  }

  /** Row `y` of a grid of width `w`. */
  function Row(w: nat, y: int): set<Point> {
    set x: int | 0 <= x < w :: Point(x, y)
  }

  lemma {:induction false} RowSize(w: nat, y: int)
    ensures |Row(w, y)| == w
  {
    if w > 0 {
      RowSize(w - 1, y);
      assert Row(w, y) == Row(w - 1, y) + {Point(w - 1, y)};
    }
  }

  /** A `w` by `h` grid has exactly `w * h` points. */
  lemma {:induction false} RectSize(w: nat, h: nat)
    ensures |Rect(w, h)| == w * h
  {
    if h > 0 {
      var upper, row := Rect(w, h - 1), Row(w, h - 1);
      RectSize(w, h - 1);
      RowSize(w, h - 1);
      RectSplit(w, h - 1);
      DisjointUnionSize(upper, row);
      calc {
        |Rect(w, h)|;
        |upper + row|;
        w * (h - 1) + w;
        { MulSucc(w, h - 1); }
        w * h;
      }
    }
  }

  lemma MulSucc(a: int, b: int)
    ensures a * b + a == a * (b + 1)
  {
  }

  lemma DisjointUnionSize<T>(a: set<T>, b: set<T>)
    requires a !! b
    ensures |a + b| == |a| + |b|
  {
  }

  /** The grid one row taller is the grid plus a new, disjoint row. */
  lemma RectSplit(w: nat, h: nat)
    ensures Rect(w, h + 1) == Rect(w, h) + Row(w, h)
    ensures Rect(w, h) !! Row(w, h)
  {
    forall p | p in Rect(w, h + 1)
      ensures p in Rect(w, h) + Row(w, h)
    {
      if p.y < h {
        assert p in Rect(w, h);
      } else {
        assert p in Row(w, h);
      }
    }
    forall p | p in Row(w, h)
      ensures p !in Rect(w, h)
    {
    }
  }

  /** A valid grid holds at most `w * h` cells. */
  lemma Capacity(g: Grid)
    requires Valid(g)
    requires g.w >= 0 && g.h >= 0
    ensures |g.cells| <= g.w * g.h
  {
    assert g.cells.Keys <= Rect(g.w, g.h) by {
      forall p | p in g.cells ensures p in Rect(g.w, g.h) {
        assert Point(p.x, p.y) == p;
      }
    }
    RectSize(g.w, g.h);
    var rest := Rect(g.w, g.h) - g.cells.Keys;
    assert Rect(g.w, g.h) == g.cells.Keys + rest;
    assert g.cells.Keys !! rest;
  }
}
