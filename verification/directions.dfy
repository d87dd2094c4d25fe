/**
  Compass directions, grid points and the conversions between a set of
  openings and the ordered list of directions the generator iterates over.

  A set of openings is a `set<Direction>`. `ToDirectionsArray` lists it in
  the fixed enumeration order and `ToDirectionFlag` combines a list back
  into a set.
 */
module Directions {
  import opened Sequences

  datatype Direction = North | East | South | West

  /** A coordinate on the abstract cell grid. */
  datatype Point = Point(x: int, y: int)

  /** The next direction clockwise: North, East, South, West, North. */
  function TurnRight(d: Direction): Direction {
    match d
    case North => East
    case East => South
    case South => West
    case West => North
  }

  /** The reciprocal direction. */
  function TurnAround(d: Direction): Direction {
    match d
    case North => South
    case East => West
    case South => North
    case West => East
  }

  /** The point one unit away from `p` in direction `d`; North is toward smaller `y`. */
  function GetLocation(d: Direction, p: Point): Point {
    match d
    case North => Point(p.x, p.y - 1)
    case East => Point(p.x + 1, p.y)
    case South => Point(p.x, p.y + 1)
    case West => Point(p.x - 1, p.y)
  }

  /** The fixed order in which the openings of a cell are visited. */
  const EnumerationOrder: seq<Direction> := [North, East, South, West]

  /** The directions of `s`, in enumeration order, each once. */
  function ToDirectionsArray(s: set<Direction>): (r: seq<Direction>)
    ensures forall d :: d in r <==> d in s
    ensures Distinct(r)
    ensures |r| == |s|
    ensures IsSubsequence(r, EnumerationOrder)
  {
    var r := FilterOrder(EnumerationOrder, s);
    DistinctCardinality(r);
    EnumerationComplete();
    assert (set d | d in r) == s;
    r
  }

  /** Every direction occurs in the enumeration order. */
  lemma EnumerationComplete()
    ensures forall d: Direction :: d in EnumerationOrder
  {
    forall d: Direction ensures d in EnumerationOrder {
      match d
      case North => assert EnumerationOrder[0] == d;
      case East => assert EnumerationOrder[1] == d;
      case South => assert EnumerationOrder[2] == d;
      case West => assert EnumerationOrder[3] == d;
    }
  }

  /** A set holding each of the four named directions holds every direction. */
  lemma CoversAllDirections(s: set<Direction>)
    requires North in s && East in s && South in s && West in s
    ensures forall d: Direction :: d in s
  {
    forall d: Direction ensures d in s {
      match d
      case North =>
      case East =>
      case South =>
      case West =>
    }
  }

  /** The elements of `order` that lie in `s`, keeping their order. */
  function FilterOrder(order: seq<Direction>, s: set<Direction>): (r: seq<Direction>)
    requires Distinct(order)
    ensures forall d :: d in r <==> d in s && d in order
    ensures Distinct(r)
    ensures IsSubsequence(r, order)
  {
    if order == [] then []
    else
      var rest := FilterOrder(order[1..], s);
      assert forall d :: d in order[1..] ==> d != order[0];
      if order[0] in s then [order[0]] + rest else rest
  }

  /** The flag set that combines every direction of `ds`. */
  function ToDirectionFlag(ds: seq<Direction>): set<Direction> {
    set d | d in ds
  }

  /** Turning right four times is the identity, and turning around is turning right twice. */
  lemma TurnRightCycle(d: Direction)
    ensures TurnRight(TurnRight(TurnRight(TurnRight(d)))) == d
    ensures TurnAround(d) == TurnRight(TurnRight(d))
    ensures TurnRight(d) != d && TurnAround(d) != d
  {
  }

  /** Turning around twice is the identity, and the neighbour's neighbour back is the start. */
  lemma TurnAroundInverse(d: Direction, p: Point)
    ensures TurnAround(TurnAround(d)) == d
    ensures GetLocation(TurnAround(d), GetLocation(d, p)) == p
    ensures GetLocation(d, p) != p
  {
  }

  /** Converting a flag set to its direction list and back gives the same set. */
  lemma FlagRoundTrip(s: set<Direction>)
    ensures ToDirectionFlag(ToDirectionsArray(s)) == s
  {
  }

  /** A direction list that is already in enumeration order survives the round trip through a flag set. */
  lemma {:induction false} ArrayRoundTrip(ds: seq<Direction>)
    requires IsSubsequence(ds, EnumerationOrder)
    ensures ToDirectionsArray(ToDirectionFlag(ds)) == ds
  {
    SubsequenceFilter(ds, EnumerationOrder);
  }

  /** Filtering a repetition-free `order` by the set of one of its subsequences gives that subsequence back. */
  lemma {:induction false} SubsequenceFilter(ds: seq<Direction>, order: seq<Direction>)
    requires Distinct(order)
    requires IsSubsequence(ds, order)
    ensures FilterOrder(order, ToDirectionFlag(ds)) == ds
    decreases |order|
  {
    if order == [] {
      assert ds == [];
    } else if ds == [] {
      SubsequenceFilter(ds, order[1..]);
    } else if ds[0] == order[0] {
      SubsequenceFilter(ds[1..], order[1..]);
      SubsequenceElements(ds[1..], order[1..]);
      assert forall d :: d in order[1..] ==> d != order[0];
      assert ToDirectionFlag(ds) == ToDirectionFlag(ds[1..]) + {ds[0]};
      FilterIgnoresAbsent(order[1..], ToDirectionFlag(ds[1..]), ds[0]);
      assert ds == [ds[0]] + ds[1..];
    } else {
      SubsequenceFilter(ds, order[1..]);
      SubsequenceElements(ds, order[1..]);
      assert order[0] !in ds by {
        assert forall d :: d in order[1..] ==> d != order[0];
      }
    }
  }

  /** Adding to the filter set an element that does not occur in `order` changes nothing. */
  lemma {:induction false} FilterIgnoresAbsent(order: seq<Direction>, s: set<Direction>, x: Direction)
    requires Distinct(order)
    requires x !in order
    ensures FilterOrder(order, s + {x}) == FilterOrder(order, s)
    decreases |order|
  {
    if order != [] {
      FilterIgnoresAbsent(order[1..], s, x);
    }
  }
}
