/** Integer points of the dashboard canvas and of the game's world space. */
module Geometry {

  /** A point or displacement with integer coordinates. */
  datatype Point = Point(x: int, y: int) {

    /** Componentwise sum: a point moved by a displacement. */
    function Plus(d: Point): Point {
      Point(x + d.x, y + d.y)
    }

    /** Componentwise difference: the displacement from `o` to this point. */
    function Minus(o: Point): Point {
      Point(x - o.x, y - o.y)
    }

    /** The opposite displacement. */
    function Neg(): Point {
      Point(-x, -y)
    }
  }

  /** The point (0, 0). */
  const Origin := Point(0, 0)
}
