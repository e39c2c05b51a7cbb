/** The spiral walk of day 3 (`day-03/src/lib.rs`): a position on the
    grid, the direction of travel and the size of the current ring.  `mov`
    steps one square and, at the edge of the ring, turns counter-clockwise;
    turning up at the right edge starts the next ring.

    `mov` writes the direction and the ring size through `&mut`; the model
    keeps the two in an object whose fields `Mov` updates.  Coordinates are
    unbounded: the `i32` overflow of the source is not modelled.
 */
module Day03 {

  /** `Position`; its `Default` is the origin. */
  datatype Position = Position(x: int, y: int)

  /** `Direction`; its `Default` is `Right`. */
  datatype Direction = Left | Right | Down | Up

  /** `left`, `right`, `down`, `up`: one square along an axis. */
  function Toward(p: Position, d: Direction): (q: Position)
    ensures d == Left ==> q == Position(p.x - 1, p.y)
    ensures d == Right ==> q == Position(p.x + 1, p.y)
    ensures d == Down ==> q == Position(p.x, p.y - 1)
    ensures d == Up ==> q == Position(p.x, p.y + 1)
  {
    match d
    case Left => Position(p.x - 1, p.y)
    case Right => Position(p.x + 1, p.y)
    case Down => Position(p.x, p.y - 1)
    case Up => Position(p.x, p.y + 1)
  }

  /** The turn `mov` makes at an edge: right to up, up to left, left to
      down, down to right. */
  function Turn(d: Direction): Direction {
    match d
    case Right => Up
    case Up => Left
    case Left => Down
    case Down => Right
  }

  /** The position is on the edge of the ring of size `gridSize` that the
      direction runs into. */
  predicate AtEdge(p: Position, d: Direction, gridSize: int) {
    match d
    case Left => p.x == -gridSize
    case Right => p.x == gridSize
    case Down => p.y == -gridSize
    case Up => p.y == gridSize
  }

  /** One `mov`, from `p` going `d` in a ring of size `gridSize`, to `q`
      going `d'` in a ring of size `gridSize'`: at the edge the direction
      turns, and only the turn from right to up grows the ring; the step is
      then one square in the new direction. */
  predicate Moved(p: Position, d: Direction, gridSize: int, q: Position, d': Direction, gridSize': int) {
    d' == (if AtEdge(p, d, gridSize) then Turn(d) else d) &&
    gridSize' == (if d == Right && AtEdge(p, d, gridSize) then gridSize + 1 else gridSize) &&
    q == Toward(p, d')
  }

  /** The direction and the ring size a walk carries, which `mov` updates
      through `&mut`. */
  class Spiral {
    var direction: Direction
    var gridSize: int

    /** `Direction::default()` and a ring of size 0. */
    constructor()
      ensures direction == Right && gridSize == 0
    {
      direction := Right;
      gridSize := 0;
    }

    /** `Position::mov`. */
    method Mov(p: Position) returns (q: Position)
      modifies this
      ensures Moved(p, old(direction), old(gridSize), q, direction, gridSize)
    {
      match direction
      case Left =>
        if p.x == -gridSize {
          direction := Down;
          q := Toward(p, Down);
        } else {
          q := Toward(p, Left);
        }
      case Right =>
        if p.x == gridSize {
          direction := Up;
          gridSize := gridSize + 1;
          q := Toward(p, Up);
        } else {
          q := Toward(p, Right);
        }
      case Down =>
        if p.y == -gridSize {
          direction := Right;
          q := Toward(p, Right);
        } else {
          q := Toward(p, Down);
        }
      case Up =>
        if p.y == gridSize {
          direction := Left;
          q := Toward(p, Left);
        } else {
          q := Toward(p, Up);
        }
    }
  }

  /** `q` differs from `p` by exactly 1 in exactly one coordinate. */
  predicate Adjacent(p: Position, q: Position) {
    (q.x == p.x && (q.y == p.y + 1 || q.y == p.y - 1)) ||
    (q.y == p.y && (q.x == p.x + 1 || q.x == p.x - 1))
  }

  /** A move goes to an adjacent square, and the ring never shrinks. */
  lemma MovedAdjacent(p: Position, d: Direction, gridSize: int, q: Position, d': Direction, gridSize': int)
    requires Moved(p, d, gridSize, q, d', gridSize')
    ensures Adjacent(p, q) && gridSize <= gridSize' <= gridSize + 1
  {
  }

  /** The walk is on the ring of size `gridSize`, on the side it is
      travelling along: the bottom row going right, the right column (one
      in from the edge, since the ring grew at the turn) going up, the top
      row going left and the left column going down. */
  predicate OnRing(p: Position, d: Direction, gridSize: int) {
    match d
    case Right => gridSize >= 0 && p.y == -gridSize && -gridSize <= p.x <= gridSize
    case Up => gridSize >= 1 && p.x == gridSize - 1 && -gridSize < p.y <= gridSize
    case Left => gridSize >= 1 && p.y == gridSize && -gridSize <= p.x <= gridSize - 1
    case Down => gridSize >= 1 && p.x == -gridSize && -gridSize <= p.y <= gridSize
  }

  /** The default start, the origin going right in a ring of size 0, is on
      its ring. */
  lemma StartOnRing()
    ensures OnRing(Position(0, 0), Right, 0)
  {
  }

  /** Every move keeps the walk on its ring. */
  lemma MovedOnRing(p: Position, d: Direction, gridSize: int, q: Position, d': Direction, gridSize': int)
    requires OnRing(p, d, gridSize) && Moved(p, d, gridSize, q, d', gridSize')
    ensures OnRing(q, d', gridSize')
  {
  }

  /** A walk on its ring stays inside the square of half-side
      `gridSize`. */
  lemma OnRingInSquare(p: Position, d: Direction, gridSize: int)
    requires OnRing(p, d, gridSize)
    ensures -gridSize <= p.x <= gridSize && -gridSize <= p.y <= gridSize
  {
  }

  /** `neighbours`: the eight squares around `p`, from the left going
      clockwise. */
  function Neighbours(p: Position): (r: seq<Position>)
    ensures |r| == 8
  {
    [ Toward(p, Left),
      Toward(Toward(p, Left), Up),
      Toward(p, Up),
      Toward(Toward(p, Right), Up),
      Toward(p, Right),
      Toward(Toward(p, Right), Down),
      Toward(p, Down),
      Toward(Toward(p, Left), Down) ]
  }

  /** `q` is one of the eight squares touching `p`. */
  predicate Touching(p: Position, q: Position) {
    q != p && -1 <= q.x - p.x <= 1 && -1 <= q.y - p.y <= 1
  }

  /** The neighbours are exactly the squares touching `p`, each listed
      once. */
  lemma NeighboursSpec(p: Position, q: Position)
    ensures q in Neighbours(p) <==> Touching(p, q)
    ensures forall i, j :: 0 <= i < j < 8 ==> Neighbours(p)[i] != Neighbours(p)[j]
  {
    var n := Neighbours(p);
    if Touching(p, q) {
      var dx, dy := q.x - p.x, q.y - p.y;
      if dx == -1 && dy == 0 { assert q == n[0]; }
      else if dx == -1 && dy == 1 { assert q == n[1]; }
      else if dx == 0 && dy == 1 { assert q == n[2]; }
      else if dx == 1 && dy == 1 { assert q == n[3]; }
      else if dx == 1 && dy == 0 { assert q == n[4]; }
      else if dx == 1 && dy == -1 { assert q == n[5]; }
      else if dx == 0 && dy == -1 { assert q == n[6]; }
      else { assert q == n[7]; }
    }
  }
}
