/** The playing field: grid cells, the four headings and the grid bounds. */
module Grid {

  const ScreenWidth: int := 1400
  const ScreenHeight: int := 700
  const TileSize: int := 30

  /** Columns and rows of the grid, by integer division: 46 and 23. */
  const Width: int := ScreenWidth / TileSize
  const Height: int := ScreenHeight / TileSize

  /** A grid cell, column x and row y (row 0 at the top). */
  datatype Point = Point(x: int, y: int)

  datatype Direction = Up | Down | Left | Right

  /** Field-by-field comparison of two cells, as the game's point type defines it. */
  function SamePoint(a: Point, b: Point): (r: bool)
    ensures r <==> a == b
  {
    a.x == b.x && a.y == b.y
  }

  predicate InGrid(p: Point)
  {
    0 <= p.x < Width && 0 <= p.y < Height
  }

  function Opposite(d: Direction): (r: Direction)
    ensures r != d
  {
    match d
    case Up => Down
    case Down => Up
    case Left => Right
    case Right => Left
  }

  function Abs(n: int): nat
  {
    if n < 0 then -n else n
  }

  /** Two cells that share a side. */
  predicate Adjacent(a: Point, b: Point)
  {
    Abs(a.x - b.x) + Abs(a.y - b.y) == 1
  }

  /** The cell one step away in direction d: up decreases the row, left the column. */
  function NextCell(p: Point, d: Direction): (r: Point)
    ensures Adjacent(p, r)
  {
    match d
    case Up => p.(y := p.y - 1)
    case Down => p.(y := p.y + 1)
    case Left => p.(x := p.x - 1)
    case Right => p.(x := p.x + 1)
  }

  lemma OppositeInvolutive(d: Direction)
    ensures Opposite(Opposite(d)) == d
  {
  }

  /** Stepping back in the opposite direction returns to the start cell. */
  lemma NextCellInverse(p: Point, d: Direction)
    ensures NextCell(NextCell(p, d), Opposite(d)) == p
  {
  }

  /** Different headings lead to different cells. */
  lemma NextCellInjective(p: Point, d: Direction, e: Direction)
    ensures NextCell(p, d) == NextCell(p, e) <==> d == e
  {
  }
}
