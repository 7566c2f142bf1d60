/**
 * Laws of the rectangle operations: the constructors against the edge
 * accessors, containment against the points a rectangle covers,
 * `Intersect` and `Union` against the set-like meaning the source gives
 * them, and `Area`/`Perimeter` against containment.
 */
module RectangleLaws {
  import opened Points
  import opened Rectangles

  // ---------------------------------------------------------------------
  // Constructors and edges

  /** A rectangle built by the checking constructor has the edges its arguments describe. */
  lemma NewEdges(x: int, y: int, width: int, height: int)
    requires width >= 0 && height >= 0
    ensures NewAt(x, y, width, height).Ok?
    ensures var r := NewAt(x, y, width, height).value;
      r.Left() == x && r.Bottom() == y && r.Right() == x + width && r.Top() == y + height
  {
  }

  /** The bounding constructor does not depend on the order of its points. */
  lemma BoundingSymmetric(p: Point, q: Point)
    ensures Bounding(p, q) == Bounding(q, p)
  {
  }

  /**
   * The bounding rectangle is the least one holding both points: any
   * rectangle that holds them both holds it.
   */
  lemma BoundingIsLeast(p: Point, q: Point, c: Rect)
    requires c.ContainsPoint(p) && c.ContainsPoint(q)
    ensures c.ContainsRect(Bounding(p, q))
  {
  }

  /**
   * The bounding rectangle of two points is the zero-size rectangle at the
   * first grown by `Union(Point)` to take in the second.
   */
  lemma BoundingIsGrownPoint(p: Point, q: Point)
    ensures Bounding(p, q) == Bounding(p, p).UnionPoint(q)
  {
  }

  // ---------------------------------------------------------------------
  // Containment

  /** Containment of points is inclusive: all four corners of a valid rectangle are inside it. */
  lemma CornersContained(r: Rect)
    requires r.Valid()
    ensures r.ContainsPoint(Make(r.Left(), r.Bottom())) && r.ContainsPoint(Make(r.Right(), r.Top()))
    ensures r.ContainsPoint(Make(r.Left(), r.Top())) && r.ContainsPoint(Make(r.Right(), r.Bottom()))
  {
  }

  /**
   * `Contains(Rect)` means what its name says: a rectangle contains a valid
   * rectangle exactly when it contains every point of it.
   */
  lemma {:induction false} ContainsRectIsPointwise(a: Rect, b: Rect)
    requires b.Valid()
    ensures a.ContainsRect(b) <==> forall p :: b.ContainsPoint(p) ==> a.ContainsPoint(p)
  {
    if forall p :: b.ContainsPoint(p) ==> a.ContainsPoint(p) {
      CornersContained(b);
      assert a.ContainsPoint(Make(b.Left(), b.Bottom()));
      assert a.ContainsPoint(Make(b.Right(), b.Top()));
    }
  }

  /** `Contains(Rect)` is a partial order on rectangles: reflexive, transitive and antisymmetric. */
  lemma ContainsRectIsPartialOrder(a: Rect, b: Rect, c: Rect)
    ensures a.ContainsRect(a)
    ensures a.ContainsRect(b) && b.ContainsRect(c) ==> a.ContainsRect(c)
    ensures a.ContainsRect(b) && b.ContainsRect(a) ==> a == b
  {
  }

  // ---------------------------------------------------------------------
  // Intersect

  /** `Intersect` is commutative, sentinel included. */
  lemma IntersectCommutative(a: Rect, b: Rect)
    ensures a.Intersect(b) == b.Intersect(a)
  {
  }

  /**
   * The overlap test of `Intersect` is exact: two rectangles meet exactly
   * when some point lies in both, a point on a shared edge included.
   */
  lemma {:induction false} MeetsIffCommonPoint(a: Rect, b: Rect)
    ensures a.Meets(b) <==> exists p :: a.ContainsPoint(p) && b.ContainsPoint(p)
  {
    if a.Meets(b) {
      var p := Make(Max(a.Left(), b.Left()), Max(a.Bottom(), b.Bottom()));
      assert a.ContainsPoint(p) && b.ContainsPoint(p);
    }
  }

  /**
   * When the rectangles meet, `Intersect` is the set intersection of their
   * points; when they do not, it is the sentinel `Rect()` and no point lies
   * in both.
   */
  lemma {:induction false} IntersectIsPointwise(a: Rect, b: Rect, p: Point)
    ensures a.Meets(b) ==> (a.Intersect(b).ContainsPoint(p) <==> a.ContainsPoint(p) && b.ContainsPoint(p))
    ensures !a.Meets(b) ==> a.Intersect(b) == Empty() && !(a.ContainsPoint(p) && b.ContainsPoint(p))
  {
    MeetsIffCommonPoint(a, b);
  }

  /**
   * `Intersect` is the greatest rectangle inside both operands: every valid
   * rectangle inside both is inside the intersection, and its presence
   * rules out the sentinel.
   */
  lemma IntersectIsGreatest(a: Rect, b: Rect, c: Rect)
    requires c.Valid() && a.ContainsRect(c) && b.ContainsRect(c)
    ensures a.Meets(b)
    ensures a.Intersect(b).ContainsRect(c)
  {
  }

  /**
   * When the rectangles meet, `Intersect` is exactly the rectangle between
   * the clipped edges, built by the checking constructor.
   */
  lemma IntersectIsClipped(a: Rect, b: Rect)
    requires a.Meets(b)
    ensures var left, bottom := Max(a.Left(), b.Left()), Max(a.Bottom(), b.Bottom());
      var right, top := Min(a.Right(), b.Right()), Min(a.Top(), b.Top());
      a.Intersect(b) == Rect(Make(left, bottom), right - left, top - bottom)
  {
  }

  /**
   * Side-by-side rectangles whose vertical edges only touch intersect in a
   * zero-width rectangle on the shared line, not in the sentinel.
   */
  lemma IntersectTouching(a: Rect, b: Rect)
    requires a.Valid() && b.Valid()
    requires a.Right() == b.Left()
    requires a.height > 0 && b.height > 0 && a.Bottom() < b.Top() && b.Bottom() < a.Top()
    ensures a.Meets(b)
    ensures a.Intersect(b).width == 0 && a.Intersect(b).height > 0
    ensures a.Intersect(b).Left() == a.Right()
  {
  }

  /**
   * Stacked rectangles whose horizontal edges only touch intersect in a
   * zero-height rectangle on the shared line, not in the sentinel.
   */
  lemma IntersectTouchingAbove(a: Rect, b: Rect)
    requires a.Valid() && b.Valid()
    requires a.Top() == b.Bottom()
    requires a.width > 0 && b.width > 0 && a.Left() < b.Right() && b.Left() < a.Right()
    ensures a.Meets(b)
    ensures a.Intersect(b).height == 0 && a.Intersect(b).width > 0
    ensures a.Intersect(b).Bottom() == a.Top()
  {
  }

  // ---------------------------------------------------------------------
  // Union

  /** `Union(Rect)` is commutative, the thrown case included. */
  lemma UnionCommutative(a: Rect, b: Rect)
    ensures a.Union(b) == b.Union(a)
  {
  }

  /**
   * `Union(Rect)` is the least rectangle holding both operands: every
   * rectangle that holds them both holds it.
   */
  lemma UnionIsLeast(a: Rect, b: Rect, c: Rect)
    requires a.Union(b).Ok?
    requires c.ContainsRect(a) && c.ContainsRect(b)
    ensures c.ContainsRect(a.Union(b).value)
  {
  }

  /**
   * `Union(Point)` treats the point as the zero-size rectangle at it:
   * it agrees with `Union(Rect)` on that rectangle.
   */
  lemma UnionPointIsUnionWithPoint(a: Rect, p: Point)
    ensures a.Union(Bounding(p, p)) == Ok(a.UnionPoint(p))
  {
  }

  /** `Union(Point)` is the least rectangle holding this rectangle and the point. */
  lemma UnionPointIsLeast(a: Rect, p: Point, c: Rect)
    requires c.ContainsRect(a) && c.ContainsPoint(p)
    ensures c.ContainsRect(a.UnionPoint(p))
  {
  }

  /** A rectangle is unchanged by a union with anything it already holds. */
  lemma UnionAbsorbs(a: Rect, b: Rect, p: Point)
    requires a.Valid()
    ensures a.ContainsRect(b) ==> a.Union(b) == Ok(a)
    ensures a.ContainsPoint(p) ==> a.UnionPoint(p) == a
  {
  }

  // ---------------------------------------------------------------------
  // Area and perimeter

  /**
   * A valid rectangle inside another has no larger area and no larger
   * perimeter.
   */
  lemma ContainedIsSmaller(a: Rect, b: Rect)
    requires b.Valid() && a.ContainsRect(b)
    ensures b.Area() <= a.Area()
    ensures b.Perimeter() <= a.Perimeter()
  {
    ProductMonotone(b.width, b.height, a.width, a.height);
  }

  /** A product of non-negative factors grows with each factor. */
  lemma ProductMonotone(w1: int, h1: int, w2: int, h2: int)
    requires 0 <= w1 <= w2 && 0 <= h1 <= h2
    ensures w1 * h1 <= w2 * h2
  {
    assert w1 * h1 <= w1 * h2 by {
      assert w1 * (h2 - h1) >= 0;
    }
    assert w1 * h2 <= w2 * h2 by {
      assert (w2 - w1) * h2 >= 0;
    }
  }

  /**
   * The intersection of two valid rectangles is no larger than either, the
   * sentinel included, and their union is no smaller than either.
   */
  lemma {:induction false} IntersectUnionAreaBounds(a: Rect, b: Rect)
    requires a.Valid() && b.Valid()
    ensures a.Intersect(b).Area() <= a.Area() && a.Intersect(b).Area() <= b.Area()
    ensures a.Union(b).Ok?
    ensures a.Area() <= a.Union(b).value.Area() && b.Area() <= a.Union(b).value.Area()
  {
    if a.Meets(b) {
      ContainedIsSmaller(a, a.Intersect(b));
      ContainedIsSmaller(b, a.Intersect(b));
    }
    var u := a.Union(b).value;
    ContainedIsSmaller(u, a);
    ContainedIsSmaller(u, b);
  }
}
