/** Screen coordinates in pixels, shared by the desktop table and the drag logic. */
module Geometry {
  datatype Point = Point(x: int, y: int)

  function Sub(a: Point, b: Point): Point {
    Point(a.x - b.x, a.y - b.y)
  }

  function Add(a: Point, b: Point): Point {
    Point(a.x + b.x, a.y + b.y)
  }
}
