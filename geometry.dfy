/** Grid geometry shared by the game and the agent: cells, headings and turns. */
module Geometry {

  /** Side of one grid cell in pixels (BLOCK_SIZE in the game). */
  const BlockSize: int := 20

  /** A cell position in screen coordinates; y grows downwards. */
  datatype Point = Point(x: int, y: int)

  /** The four compass headings of the snake. */
  datatype Direction = Right | Left | Up | Down

  /** The cell one block away from `p` in heading `d`. */
  function Neighbour(p: Point, d: Direction): (q: Point)
    ensures q.x == p.x || q.y == p.y
    ensures (q.x - p.x) + (q.y - p.y) == BlockSize || (q.x - p.x) + (q.y - p.y) == -BlockSize
  {
    match d
    case Left => Point(p.x - BlockSize, p.y)
    case Right => Point(p.x + BlockSize, p.y)
    case Up => Point(p.x, p.y - BlockSize)
    case Down => Point(p.x, p.y + BlockSize)
  }

  /** The heading one step further round the cycle Right, Down, Left, Up. */
  function Clockwise(d: Direction): (r: Direction)
    ensures r != d
  {
    match d
    case Right => Down
    case Down => Left
    case Left => Up
    case Up => Right
  }

  /** The heading one step back round the same cycle. */
  function CounterClockwise(d: Direction): (r: Direction)
    ensures r != d
    ensures Clockwise(r) == d
  {
    match d
    case Right => Up
    case Up => Left
    case Left => Down
    case Down => Right
  }
}
