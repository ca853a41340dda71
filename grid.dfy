/** Cells, headings and one-cell movement on the toroidal 20 x 20 board. */
module Grid {

  /** Number of cells along each side of the board. */
  const GridSize: int := 20

  /** An {x, y} pair: a cell of the board or a movement delta. */
  datatype Point = Point(x: int, y: int)

  const Up: Point := Point(0, -1)
  const Down: Point := Point(0, 1)
  const Left: Point := Point(-1, 0)
  const Right: Point := Point(1, 0)

  predicate InGrid(p: Point) {
    0 <= p.x < GridSize && 0 <= p.y < GridSize
  }

  /** The four headings a key press can produce. */
  predicate IsUnit(d: Point) {
    d == Up || d == Down || d == Left || d == Right
  }

  function Opposite(d: Point): Point {
    Point(-d.x, -d.y)
  }

  /** The heading a tick moves in: a pending exact reversal of the current
      heading is ignored, any other pending heading is adopted. */
  function Resolve(dir: Point, pending: Point): (r: Point)
    ensures IsUnit(dir) && IsUnit(pending) ==> IsUnit(r) && r != Opposite(dir)
    ensures pending != Opposite(dir) ==> r == pending
    ensures pending == Opposite(dir) ==> r == dir
  {
    if pending == Opposite(dir) then dir else pending
  }

  /** One coordinate after a step: below 0 goes to the far edge, at or past
      the far edge goes to 0. */
  function WrapAxis(v: int): (r: int)
    ensures 0 <= r < GridSize
    ensures 0 <= v < GridSize ==> r == v
    ensures v == -1 ==> r == GridSize - 1
    ensures v == GridSize ==> r == 0
  {
    if v < 0 then GridSize - 1 else if v >= GridSize then 0 else v
  }

  /** For a coordinate at most one step off the board, wrapping is the
      remainder modulo the board size. */
  lemma WrapAxisIsMod(v: int)
    requires -1 <= v <= GridSize
    ensures WrapAxis(v) == v % GridSize
  {
  }

  /** The cell after `head` when moving by `dir`, with wrap-around. */
  function Advance(head: Point, dir: Point): (r: Point)
    ensures InGrid(r)
  {
    Point(WrapAxis(head.x + dir.x), WrapAxis(head.y + dir.y))
  }

  /** From a cell of the board, a step is addition modulo the board size. */
  lemma AdvanceWraps(head: Point, dir: Point)
    requires InGrid(head) && IsUnit(dir)
    ensures Advance(head, dir) == Point((head.x + dir.x) % GridSize, (head.y + dir.y) % GridSize)
  {
    WrapAxisIsMod(head.x + dir.x);
    WrapAxisIsMod(head.y + dir.y);
  }

  /** On the torus the new head is always a neighbour of the old head:
      it differs in exactly one coordinate, by one step modulo the size. */
  lemma AdvanceIsNeighbour(head: Point, dir: Point)
    requires InGrid(head) && IsUnit(dir)
    ensures var r := Advance(head, dir);
      r != head &&
      (r.x == head.x || r.y == head.y) &&
      (r.x - head.x) % GridSize in {0, 1, GridSize - 1} &&
      (r.y - head.y) % GridSize in {0, 1, GridSize - 1}
  {
  }
}
