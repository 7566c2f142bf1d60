/**
 * The coordinate pair of the geometry core (Point.hpp).
 *
 * The coordinate type is instantiated with the mathematical integers, so a
 * point is any pair of `int`s: construction never fails and never
 * normalises its arguments.
 */
module Points {

  /** A point in the plane; `x` grows to the right and `y` grows upwards. */
  datatype Point = Point(x: int, y: int)

  /** The two-argument constructor `Point(x, y)`: both coordinates are kept as given. */
  function Make(x: int, y: int): (p: Point)
    ensures p.x == x && p.y == y
  {
    Point(x, y)
  }

  /** The default constructor `Point()`: both coordinates are zero. */
  function Zero(): (p: Point)
    ensures p.x == 0 && p.y == 0
  {
    Make(0, 0)
  }

  /**
   * Construction loses nothing and adds nothing: every point is built by
   * `Make` from its own coordinates, and two points built by `Make` are equal
   * exactly when their arguments are.
   */
  lemma MakeIsBijective(p: Point, x1: int, y1: int, x2: int, y2: int)
    ensures Make(p.x, p.y) == p
    ensures Make(x1, y1) == Make(x2, y2) <==> x1 == x2 && y1 == y2
  {
  }
}
