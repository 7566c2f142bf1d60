# Rect: a verified model of the rectangle geometry core

This project models the geometry core of the Rectangle repository in Dafny:
the coordinate pair `Point<T>` (Point.hpp) and the axis-aligned rectangle
`Rect<T>` (Rectangle.hpp). The coordinate type is the mathematical integers,
which is the `Rect<int>` that main.cpp uses.

- `points.dfy`, module `Points`: the point value and its two constructors.
- `rectangles.dfy`, module `Rectangles`: the rectangle value and every
  operation of `Rect`. The checking constructor `Rect(p, width, height)`
  throws `std::invalid_argument` on a negative size. Here it is `New`, which
  returns `Err(InvalidArgument(..))` with the source's message. The other
  constructors and the combinators route through `New` as the source does.
  Where the source can never throw, their bodies take `New(..).value`, and
  verifying that is the proof that they never throw.
- `rectangle_laws.dfy`, module `RectangleLaws`: the laws that tie the
  operations together. Containment is pointwise. When the two rectangles
  meet, `Intersect` is the pointwise intersection and the greatest common
  sub-rectangle; otherwise it is the sentinel `Rect()`. `Union` is the
  least common super-rectangle. Area and perimeter grow with
  containment.
- `scenarios.dfy`, module `Scenarios`: the demonstration in main.cpp and
  concrete boundary cases.

The two overloads of `Contains` are `ContainsPoint` and `ContainsRect`. The
two overloads of `Union` are `Union` and `UnionPoint`. The operators `==`
and `!=` are `Equals` and `NotEquals`. The default constructor `Rect()` is
`Empty`, the bounding constructor `Rect(first, second)` is `Bounding`, and
`Rect(x, y, width, height)` is `NewAt`.

`Union(Rect)` returns a `Result`, because the source builds its result with
the checking constructor. It throws exactly when the spanned width or the
spanned height is negative. That can happen only when both operands have a
negative width, or both have a negative height, which only direct field
writes can produce. Two copies of a rectangle of width -5 span a width of -5
and throw. Two such rectangles 100 apart span a width of 95 and do not throw.
The model proves that `Union(Rect)` never throws when either operand is
valid. With unbounded integer coordinates, `Union(Point)`, `Intersect` and
the bounding constructor can never throw, and they return a plain `Rect`.

## Model

| member | source | states |
|---|---|---|
| `Points.Make` | Point.hpp:10-12 | `Point(x, y)` keeps `x` in field `x` and `y` in field `y` unchanged |
| `Points.Zero` | Point.hpp:13-15 | `Point()` has both coordinates zero |
| `Points.MakeIsBijective` | Point.hpp:8-12 | construction never fails and never normalises: every point is `Make` of its own coordinates, and `Make` is injective |
| `Rectangles.Min` | Rectangle.hpp:6-8 | the result is one of the two arguments and no larger than either |
| `Rectangles.Max` | Rectangle.hpp:9-11 | the result is one of the two arguments and no smaller than either |
| `Rectangles.New` | Rectangle.hpp:19-23 | fails with `InvalidArgument` and the source's message exactly when width or height is negative; otherwise keeps origin, width and height as given and the result is valid |
| `Rectangles.NewAt` | Rectangle.hpp:28-30 | `Rect(x, y, w, h)` fails exactly when `New` does; on success its left edge is `x`, its bottom edge `y`, and its size is as given |
| `Rectangles.Bounding` | Rectangle.hpp:35-39 | never fails; the result is valid, has origin `(min x, min y)`, width `abs(x1 - x2)` and height `abs(y1 - y2)`, and contains both points |
| `Rectangles.Empty` | Rectangle.hpp:41-42 | `Rect()` is the valid zero-size rectangle at the origin, of area zero |
| `Rectangles.Rect.Left` | Rectangle.hpp:54-56 | the left edge is the x coordinate of the origin, the bottom-left corner |
| `Rectangles.Rect.Bottom` | Rectangle.hpp:47-49 | the bottom edge is the y coordinate of the origin, the bottom-left corner |
| `Rectangles.Rect.Right` | Rectangle.hpp:61-63 | right edge minus left edge is the width, so it is never left of the left edge on a valid rectangle |
| `Rectangles.Rect.Top` | Rectangle.hpp:68-70 | top edge minus bottom edge is the height, so it is never below the bottom edge on a valid rectangle |
| `RectangleLaws.NewEdges` | Rectangle.hpp:28-70 | a rectangle built from `(x, y, w, h)` has left `x`, bottom `y`, right `x + w` and top `y + h` |
| `Rectangles.Rect.Equals` | Rectangle.hpp:72-75 | `==` holds exactly when the two rectangles are the same value, that is, when all four fields are equal |
| `Rectangles.Rect.NotEquals` | Rectangle.hpp:77-79 | `!=` is exactly the negation of `==` and of value equality |
| `Rectangles.Rect.ContainsPoint` | Rectangle.hpp:84-86 | `Contains(Point)` is inclusive on all four edges; a rectangle that contains any point has a non-negative size |
| `Rectangles.Rect.ContainsRect` | Rectangle.hpp:91-93 | `Contains(Rect)` holds when all four edges of `r` lie within; then `r` is no wider and no taller, and if `r` is valid so is the container |
| `RectangleLaws.CornersContained` | Rectangle.hpp:84-86 | `Contains(Point)` is inclusive: all four corners of a valid rectangle are contained |
| `RectangleLaws.ContainsRectIsPointwise` | Rectangle.hpp:84-93 | `Contains(Rect)` on a valid rectangle holds exactly when every point of it is contained, both directions |
| `RectangleLaws.ContainsRectIsPartialOrder` | Rectangle.hpp:91-93 | `Contains(Rect)` is reflexive, transitive and antisymmetric |
| `Rectangles.Rect.Intersect` | Rectangle.hpp:98-109 | never fails and is valid; returns exactly `Rect()` when the clipped edges cross; otherwise has the max left and bottom and the min right and top edges and lies inside both operands |
| `RectangleLaws.IntersectCommutative` | Rectangle.hpp:98-109 | `a.Intersect(b) == b.Intersect(a)`, sentinel included |
| `RectangleLaws.MeetsIffCommonPoint` | Rectangle.hpp:98-104 | the overlap test of `Intersect` passes exactly when some point lies in both rectangles |
| `RectangleLaws.IntersectIsPointwise` | Rectangle.hpp:98-109 | when the rectangles meet, a point is in the intersection exactly when it is in both; when they do not, the result is `Rect()` and no point is in both |
| `RectangleLaws.IntersectIsGreatest` | Rectangle.hpp:98-109 | every valid rectangle inside both operands rules out the sentinel and lies inside the intersection |
| `RectangleLaws.IntersectIsClipped` | Rectangle.hpp:98-109 | when the rectangles meet, the intersection is exactly the rectangle from the max left and bottom edges to the min right and top edges |
| `RectangleLaws.IntersectTouching` | Rectangle.hpp:104-108 | rectangles that touch along a vertical edge intersect in a zero-width strip on that edge, not in the sentinel |
| `RectangleLaws.IntersectTouchingAbove` | Rectangle.hpp:104-108 | rectangles that touch along a horizontal edge intersect in a zero-height strip on that edge, not in the sentinel |
| `Rectangles.Rect.Union` | Rectangle.hpp:115-121 | fails exactly when the spanned width or height is negative, which needs both widths or both heights negative, so never when either operand is valid; on success the result is valid, has the min left and bottom and the max right and top edges, and contains both operands |
| `RectangleLaws.UnionCommutative` | Rectangle.hpp:115-121 | `a.Union(b) == b.Union(a)`, failure included |
| `RectangleLaws.UnionIsLeast` | Rectangle.hpp:115-121 | whenever the union succeeds, every rectangle that contains both operands contains it, with no validity demanded of the operands |
| `RectangleLaws.UnionAbsorbs` | Rectangle.hpp:115-133 | a valid rectangle is returned unchanged by a union with a rectangle or a point it already contains |
| `Rectangles.Rect.UnionPoint` | Rectangle.hpp:127-133 | never fails, whatever the rectangle's own size; the result is valid, has the min left and bottom and the max right and top edges, and contains the point and the original rectangle |
| `RectangleLaws.UnionPointIsUnionWithPoint` | Rectangle.hpp:115-133 | `Union(Point)` equals `Union(Rect)` with the zero-size rectangle at the point |
| `RectangleLaws.UnionPointIsLeast` | Rectangle.hpp:127-133 | every rectangle that contains the rectangle and the point contains their union |
| `RectangleLaws.BoundingSymmetric` | Rectangle.hpp:35-39 | the bounding constructor is symmetric in its two points |
| `RectangleLaws.BoundingIsLeast` | Rectangle.hpp:35-39 | every rectangle that contains both points contains their bounding rectangle |
| `RectangleLaws.BoundingIsGrownPoint` | Rectangle.hpp:35-39 | the bounding rectangle of two points is the zero-size rectangle at the first grown by `Union(Point)` to the second |
| `Rectangles.Rect.Area` | Rectangle.hpp:138-140 | non-negative on a valid rectangle, and zero when either side is zero |
| `Rectangles.Rect.Perimeter` | Rectangle.hpp:145-147 | twice the sum of the edge-to-edge extents, non-negative on a valid rectangle |
| `RectangleLaws.ContainedIsSmaller` | Rectangle.hpp:138-147 | a valid rectangle inside another has no larger area and no larger perimeter |
| `RectangleLaws.IntersectUnionAreaBounds` | Rectangle.hpp:98-147 | on valid operands the intersection, the sentinel included, has no more area than either, and the union never fails and has no less area than either |
| `Scenarios.DemoUnion` | main.cpp:21-31 | the union of `Rect(-20,10,10,5)` and `Rect(20,10,10,5)` is `(-20,10)` with width 50 and height 5, contains both, and has area 250 |
| `Scenarios.NegativeSizeRefused` | Rectangle.hpp:19-30 | both checking constructors refuse a negative width or height with `InvalidArgument` |
| `Scenarios.InclusiveCorners` | Rectangle.hpp:84-86 | `Rect(0,0,5,5)` contains `(0,0)` and `(5,5)` but not `(6,6)` or `(-1,0)` |
| `Scenarios.DisjointGivesSentinel` | Rectangle.hpp:104-107 | `Rect(0,0,2,2)` and `Rect(3,3,2,2)` do not meet, and their intersection is `Rect()` |
| `Scenarios.TouchingGivesStrip` | Rectangle.hpp:104-108 | `Rect(0,0,2,2).Intersect(Rect(2,0,2,2))` is the strip at `(2,0)` of width 0 and height 2 |
| `Scenarios.SentinelIsAmbiguous` | Rectangle.hpp:104-107 | `Rect(-1,-1,1,1)` and `Rect(0,0,1,1)` meet in the single point `(0,0)`, yet their intersection is `Rect()`, the same value a real miss gives |
| `Scenarios.UnionOfNegativeSizesThrows` | Rectangle.hpp:115-121 | a union of two copies of a rectangle with width -5 fails with `InvalidArgument` |
| `Scenarios.UnionOfNegativeSizesApart` | Rectangle.hpp:115-121 | a union of two rectangles with width -5, 100 apart, succeeds with width 95 |
| `Scenarios.AreaAndPerimeter` | Rectangle.hpp:138-147 | a 4 by 5 rectangle has area 20 and perimeter 18 |

## Left out

- The numeric concept check on the coordinate type (Point.hpp:5) is a compile-time constraint with no run-time behaviour.
- Other coordinate types are not modelled. This covers `Rect<double>` with IEEE rounding, unsigned wrap-around, and fixed-width overflow. Coordinates are unbounded integers.
- Fixed-width overflow is not modelled anywhere it can occur: in `Right` and `Top` (Rectangle.hpp:61-70), `Area` and `Perimeter` (Rectangle.hpp:138-147), the bounding constructor's subtractions (Rectangle.hpp:37-38), `Intersect`'s `right - left` and `top - bottom` (Rectangle.hpp:108), and the spanned sizes of `Union(Rect)` (Rectangle.hpp:118-119) and `Union(Point)` (Rectangle.hpp:130-131). For `Rect<int>`, an overflowed size there can come out negative, and the checking constructor would then throw. So the claim that `Bounding`, `Intersect` and `UnionPoint` never throw, and that `Union` never throws on a valid operand, holds only for unbounded coordinates.
- Direct writes to the public fields are not modelled as an operation. They can leave a rectangle with a negative size. The model keeps validity as the predicate `Valid` and states each law under the validity it needs.
- interface.hpp is not part of this model. It holds the console menu, keyboard input loops, the named store of rectangles, and file loading and saving.
- main.cpp's printing is left out. Only its rectangles and their union are modelled, in `Scenarios.DemoUnion`.
- There is no `Move` operation, because Rectangle.hpp does not define one.
