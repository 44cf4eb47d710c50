/** Grid points and the small integer helpers shared by the rasterisers. */
module Geometry {

  /** A cell of the drawing grid, in grid (not pixel) coordinates. */
  datatype Point = Point(x: int, y: int)

  function Abs(n: int): nat
  {
    if n < 0 then -n else n
  }

  function Max(a: int, b: int): int
  {
    if a < b then b else a
  }

  function Min(a: int, b: int): int
  {
    if a < b then a else b
  }

  /** The axis-aligned box spanned by two end points, borders included. */
  predicate InBox(p: Point, x0: int, y0: int, x1: int, y1: int)
  {
    Min(x0, x1) <= p.x <= Max(x0, x1) && Min(y0, y1) <= p.y <= Max(y0, y1)
  }

  /** Two cells that touch, sides or corners (8-connected neighbours), and are not the same cell. */
  predicate Adjacent(p: Point, q: Point)
  {
    p != q && Abs(q.x - p.x) <= 1 && Abs(q.y - p.y) <= 1
  }

  /** Moving one element across a concatenation; stated once so loops need not rediscover it. */
  lemma AppendShift<T>(a: seq<T>, x: T, b: seq<T>)
    ensures (a + [x]) + b == a + ([x] + b)
  {
  }
}
