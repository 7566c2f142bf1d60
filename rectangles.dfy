/**
 * The axis-aligned rectangle of the geometry core (Rectangle.hpp),
 * instantiated with integer coordinates.
 *
 * A rectangle is its bottom-left corner `origin` plus a `width` and a
 * `height`. Its edges are derived, never stored. The one constructor that
 * checks its arguments, `Rect(p, width, height)`, throws
 * `std::invalid_argument` on a negative size; here it is `New`, which
 * returns `Err(InvalidArgument(..))` instead. Every other constructor and
 * every combinator of the source is written in terms of `New`, exactly as
 * the source delegates to the checking constructor, and where the source
 * can never throw the model proves that `New` succeeds.
 */
module Rectangles {
  import opened Points

  /** The exception the checking constructor throws. */
  datatype Error = InvalidArgument(message: string)

  /** The message the checking constructor throws with. */
  const NegativeSizeMessage: string := "Width and height must be non-negative."

  /** The outcome of an operation that may throw. */
  datatype Result<+T> = Ok(value: T) | Err(error: Error)

  /** The private helper `min`: the smaller of its arguments. */
  function Min(f: int, s: int): (r: int)
    ensures r <= f && r <= s
    ensures r == f || r == s
  {
    if f < s then f else s
  }

  /** The private helper `max`: the larger of its arguments. */
  function Max(f: int, s: int): (r: int)
    ensures r >= f && r >= s
    ensures r == f || r == s
  {
    if f > s then f else s
  }

  /** The distance between two coordinates on one axis. */
  function Distance(a: int, b: int): (d: nat)
    ensures d == a - b || d == b - a
  {
    if a <= b then b - a else a - b
  }

  datatype Rect = Rect(origin: Point, width: int, height: int) {

    /**
     * The invariant the checking constructor establishes. The source's
     * fields are public, so a caller can break it by a direct field write;
     * the model therefore keeps it as a predicate on values.
     */
    predicate Valid() {
      width >= 0 && height >= 0
    }

    /** The x coordinate of the left edge: the origin is the bottom-left corner. */
    function Left(): (l: int)
      ensures l == origin.x
    {
      origin.x
    }

    /** The y coordinate of the bottom edge: the origin is the bottom-left corner. */
    function Bottom(): (b: int)
      ensures b == origin.y
    {
      origin.y
    }

    /** The x coordinate of the right edge, never left of the left edge on a valid rectangle. */
    function Right(): (r: int)
      ensures r - Left() == width
      ensures Valid() ==> Left() <= r
    {
      origin.x + width
    }

    /** The y coordinate of the top edge, never below the bottom edge on a valid rectangle. */
    function Top(): (r: int)
      ensures r - Bottom() == height
      ensures Valid() ==> Bottom() <= r
    {
      origin.y + height
    }

    /** `operator==`: exact comparison of the four fields, which is equality of values. */
    function Equals(other: Rect): (b: bool)
      ensures b <==> this == other
    {
      origin.x == other.origin.x && origin.y == other.origin.y &&
      width == other.width && height == other.height
    }

    /** `operator!=`: the negation of `operator==`. */
    function NotEquals(other: Rect): (b: bool)
      ensures b <==> !Equals(other)
      ensures b <==> this != other
    {
      !Equals(other)
    }

    /**
     * `Contains(Point)`: inclusive on all four edges. Only a rectangle of
     * non-negative size contains any point.
     */
    function ContainsPoint(p: Point): (b: bool)
      ensures b ==> Valid()
    {
      p.x >= Left() && p.x <= Right() && p.y >= Bottom() && p.y <= Top()
    }

    /**
     * `Contains(Rect)`: every edge of `r` lies on or inside this rectangle's
     * edges, so `r` is no wider and no taller, and a valid `r` can only be
     * contained in a valid rectangle.
     */
    function ContainsRect(r: Rect): (b: bool)
      ensures b ==> r.width <= width && r.height <= height
      ensures b && r.Valid() ==> Valid()
    {
      r.Left() >= Left() && r.Right() <= Right() && r.Bottom() >= Bottom() && r.Top() <= Top()
    }

    /**
     * The overlap test of `Intersect`: the clipped edges are not crossed.
     * Touching edges count as meeting.
     */
    predicate Meets(other: Rect) {
      Max(Left(), other.Left()) <= Min(Right(), other.Right()) &&
      Max(Bottom(), other.Bottom()) <= Min(Top(), other.Top())
    }

    /**
     * `Intersect`: the common part of two rectangles, or the sentinel `Rect()`
     * when the clipped edges cross. It never throws.
     */
    function Intersect(other: Rect): (r: Rect)
      ensures r.Valid()
      ensures !Meets(other) ==> r == Empty()
      ensures Meets(other) ==>
        && r.Left() == Max(Left(), other.Left())
        && r.Bottom() == Max(Bottom(), other.Bottom())
        && r.Right() == Min(Right(), other.Right())
        && r.Top() == Min(Top(), other.Top())
        && ContainsRect(r) && other.ContainsRect(r)
    {
      var left := Max(Left(), other.Left());
      var bottom := Max(Bottom(), other.Bottom());
      var right := Min(Right(), other.Right());
      var top := Min(Top(), other.Top());
      if right < left || top < bottom then
        Empty()
      else
        New(Make(left, bottom), right - left, top - bottom).value
    }

    /**
     * `Union(Rect)`: the rectangle spanning the smaller left and bottom
     * edges and the larger right and top edges. The source builds it with
     * the checking constructor, so it throws exactly when the spanned width
     * or the spanned height is negative. That can happen only when both
     * widths or both heights are negative, so it never throws when either
     * operand is valid.
     */
    function Union(other: Rect): (r: Result<Rect>)
      ensures r.Ok? <==>
        Min(Left(), other.Left()) <= Max(Right(), other.Right()) &&
        Min(Bottom(), other.Bottom()) <= Max(Top(), other.Top())
      ensures r.Err? ==> (width < 0 && other.width < 0) || (height < 0 && other.height < 0)
      ensures Valid() || other.Valid() ==> r.Ok?
      ensures r.Err? ==> r.error == InvalidArgument(NegativeSizeMessage)
      ensures r.Ok? ==>
        && r.value.Valid()
        && r.value.Left() == Min(Left(), other.Left())
        && r.value.Bottom() == Min(Bottom(), other.Bottom())
        && r.value.Right() == Max(Right(), other.Right())
        && r.value.Top() == Max(Top(), other.Top())
        && r.value.ContainsRect(this) && r.value.ContainsRect(other)
    {
      New(Make(Min(origin.x, other.origin.x), Min(origin.y, other.origin.y)),
          Max(origin.x + width, other.origin.x + other.width) - Min(origin.x, other.origin.x),
          Max(origin.y + height, other.origin.y + other.height) - Min(origin.y, other.origin.y))
    }

    /**
     * `Union(Point)`: the rectangle grown just enough to take in `p`. The
     * spanned size can never be negative, so it never throws, whatever
     * this rectangle's own size.
     */
    function UnionPoint(p: Point): (r: Rect)
      ensures r.Valid()
      ensures r.Left() == Min(Left(), p.x) && r.Bottom() == Min(Bottom(), p.y)
      ensures r.Right() == Max(Right(), p.x) && r.Top() == Max(Top(), p.y)
      ensures r.ContainsPoint(p) && r.ContainsRect(this)
    {
      New(Make(Min(origin.x, p.x), Min(origin.y, p.y)),
          Max(origin.x + width, p.x) - Min(origin.x, p.x),
          Max(origin.y + height, p.y) - Min(origin.y, p.y)).value
    }

    /** `Area`: the product of the sides, never negative on a valid rectangle. */
    function Area(): (a: int)
      ensures Valid() ==> a >= 0
      ensures width == 0 || height == 0 ==> a == 0
    {
      width * height
    }

    /** `Perimeter`: twice the sum of the sides, never negative on a valid rectangle. */
    function Perimeter(): (q: int)
      ensures Valid() ==> q >= 0
      ensures q == 2 * ((Right() - Left()) + (Top() - Bottom()))
    {
      2 * (width + height)
    }
  }

  /**
   * The checking constructor `Rect(p, width, height)`: it fails exactly on a
   * negative width or height and otherwise keeps its arguments as given.
   */
  function New(p: Point, width: int, height: int): (r: Result<Rect>)
    ensures r.Ok? <==> width >= 0 && height >= 0
    ensures r.Err? ==> r.error == InvalidArgument(NegativeSizeMessage)
    ensures r.Ok? ==> r.value.origin == p && r.value.width == width && r.value.height == height
    ensures r.Ok? ==> r.value.Valid()
  {
    if width < 0 || height < 0 then Err(InvalidArgument(NegativeSizeMessage))
    else Ok(Rect(p, width, height))
  }

  /** `Rect(x, y, width, height)`: the checking constructor at the point `(x, y)`. */
  function NewAt(x: int, y: int, width: int, height: int): (r: Result<Rect>)
    ensures r.Ok? <==> width >= 0 && height >= 0
    ensures r.Err? ==> r.error == InvalidArgument(NegativeSizeMessage)
    ensures r.Ok? ==>
      r.value.Left() == x && r.value.Bottom() == y && r.value.width == width && r.value.height == height
  {
    New(Make(x, y), width, height)
  }

  /**
   * `Rect(first, second)`: the smallest rectangle holding both points, in
   * either order. It never throws.
   */
  function Bounding(first: Point, second: Point): (r: Rect)
    ensures r.Valid()
    ensures r.origin == Make(Min(first.x, second.x), Min(first.y, second.y))
    ensures r.width == Distance(first.x, second.x) && r.height == Distance(first.y, second.y)
    ensures r.ContainsPoint(first) && r.ContainsPoint(second)
  {
    New(Make(Min(first.x, second.x), Min(first.y, second.y)),
        Max(first.x, second.x) - Min(first.x, second.x),
        Max(first.y, second.y) - Min(first.y, second.y)).value
  }

  /**
   * The default constructor `Rect()`, which is `Rect(0, 0, 0, 0)`: the
   * zero-size rectangle at the origin. `Intersect` returns it as its
   * "no overlap" sentinel.
   */
  function Empty(): (r: Rect)
    ensures r.Valid() && r.origin == Zero()
    ensures r.width == 0 && r.height == 0
    ensures r.Area() == 0
  {
    NewAt(0, 0, 0, 0).value
  }
}
