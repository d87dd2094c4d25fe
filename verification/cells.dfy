/**
  The abstract macro-cell: a type, a set of openings and an attribute word,
  three independent fields.
 */
module Cells {
  import opened Directions

  /**
    The kind of a macro-cell. `None` marks a location that holds no cell yet;
    `Room` is the kind of the start room; every other kind is told apart by
    its ordinal.
   */
  datatype CellType = None | Room | Other(ordinal: nat)

  /** A macro-cell: the directions it opens toward, its kind, and a word of attribute flags. */
  datatype Cell = Cell(openings: set<Direction>, cellType: CellType, attributes: nat)

  /** The value every slot of a freshly allocated cell array holds. */
  const Default: Cell := Cell({}, None, 0)

  /** A location with this cell holds nothing yet. */
  predicate IsEmpty(c: Cell) {
    c.cellType == None
  }

  /** The room placed at the centre of the grid before growth starts. */
  function FourWayRoom(): (c: Cell)
    ensures !IsEmpty(c) && c.cellType == Room
    ensures forall d: Direction :: d in c.openings
    ensures c.attributes == Default.attributes
  {
    var openings := {North, South, East, West};
    CoversAllDirections(openings);
    Cell(openings, Room, 0)
  }

  /** The default cell is the "no cell" sentinel: it is empty and opens nowhere. */
  lemma DefaultIsSentinel()
    ensures IsEmpty(Default)
    ensures forall d: Direction :: d !in Default.openings
    ensures Default != FourWayRoom()
  {
  }
}
