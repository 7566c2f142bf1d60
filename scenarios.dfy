/**
 * Concrete instances of the rectangle operations: the demonstration in
 * main.cpp and the boundary cases of containment, intersection and union.
 */
module Scenarios {
  import opened Points
  import opened Rectangles
  import opened RectangleLaws

  /**
   * main.cpp: the union of `Rect(-20, 10, 10, 5)` and `Rect(20, 10, 10, 5)`
   * spans from (-20, 10) with width 50 and height 5, and contains both.
   */
  lemma DemoUnion()
    ensures NewAt(20, 10, 10, 5).Ok? && NewAt(-20, 10, 10, 5).Ok?
    ensures NewAt(-20, 10, 10, 5).value.Union(NewAt(20, 10, 10, 5).value) == Ok(Rect(Make(-20, 10), 50, 5))
    ensures Rect(Make(-20, 10), 50, 5).ContainsRect(NewAt(-20, 10, 10, 5).value)
    ensures Rect(Make(-20, 10), 50, 5).ContainsRect(NewAt(20, 10, 10, 5).value)
    ensures Rect(Make(-20, 10), 50, 5).Area() == 250
  {
    assert NewAt(20, 10, 10, 5) == Ok(Rect(Make(20, 10), 10, 5));
    assert NewAt(-20, 10, 10, 5) == Ok(Rect(Make(-20, 10), 10, 5));
    DemoPair(Rect(Make(-20, 10), 10, 5), Rect(Make(20, 10), 10, 5));
  }

  /** The operands of `DemoUnion`, once the checking constructor has built them. */
  lemma DemoPair(r1: Rect, r: Rect)
    requires r1 == Rect(Make(-20, 10), 10, 5) && r == Rect(Make(20, 10), 10, 5)
    ensures r1.Union(r) == Ok(Rect(Make(-20, 10), 50, 5))
    ensures r1.Union(r).value.ContainsRect(r1) && r1.Union(r).value.ContainsRect(r)
    ensures r1.Union(r).value.Area() == 250
  {
    assert Min(-20, 20) == -20 && Min(10, 10) == 10 && Max(-10, 30) == 30 && Max(15, 15) == 15;
    assert New(Make(-20, 10), 50, 5) == Ok(Rect(Make(-20, 10), 50, 5));
  }

  /** A negative size is refused by both checking constructors. */
  lemma NegativeSizeRefused()
    ensures NewAt(0, 0, -1, 5) == Err(InvalidArgument(NegativeSizeMessage))
    ensures New(Zero(), 5, -1) == Err(InvalidArgument(NegativeSizeMessage))
  {
  }

  /** Containment is inclusive at both corners of `Rect(0, 0, 5, 5)` and stops one past them. */
  lemma InclusiveCorners()
    ensures NewAt(0, 0, 5, 5).Ok?
    ensures var r := NewAt(0, 0, 5, 5).value;
      r.ContainsPoint(Make(0, 0)) && r.ContainsPoint(Make(5, 5)) &&
      !r.ContainsPoint(Make(6, 6)) && !r.ContainsPoint(Make(-1, 0))
  {
  }

  /**
   * `Rect(0, 0, 2, 2)` and `Rect(3, 3, 2, 2)` are one apart on each axis, do
   * not meet, and intersect in the sentinel.
   */
  lemma DisjointGivesSentinel()
    ensures NewAt(0, 0, 2, 2).Ok? && NewAt(3, 3, 2, 2).Ok?
    ensures !NewAt(0, 0, 2, 2).value.Meets(NewAt(3, 3, 2, 2).value)
    ensures NewAt(0, 0, 2, 2).value.Intersect(NewAt(3, 3, 2, 2).value) == Empty()
  {
    assert NewAt(0, 0, 2, 2) == Ok(Rect(Make(0, 0), 2, 2));
    assert NewAt(3, 3, 2, 2) == Ok(Rect(Make(3, 3), 2, 2));
    DisjointPair(Rect(Make(0, 0), 2, 2), Rect(Make(3, 3), 2, 2));
  }

  /** The operands of `DisjointGivesSentinel`, once the checking constructor has built them. */
  lemma DisjointPair(a: Rect, b: Rect)
    requires a == Rect(Make(0, 0), 2, 2) && b == Rect(Make(3, 3), 2, 2)
    ensures !a.Meets(b) && a.Intersect(b) == Empty()
  {
    assert !a.Meets(b);
  }

  /** `Rect(0, 0, 2, 2)` and `Rect(2, 0, 2, 2)` share an edge and intersect in the zero-width strip on it. */
  lemma TouchingGivesStrip()
    ensures NewAt(0, 0, 2, 2).Ok? && NewAt(2, 0, 2, 2).Ok?
    ensures NewAt(0, 0, 2, 2).value.Intersect(NewAt(2, 0, 2, 2).value) == Rect(Make(2, 0), 0, 2)
  {
    assert NewAt(0, 0, 2, 2) == Ok(Rect(Make(0, 0), 2, 2));
    assert NewAt(2, 0, 2, 2) == Ok(Rect(Make(2, 0), 2, 2));
    TouchingPair(Rect(Make(0, 0), 2, 2), Rect(Make(2, 0), 2, 2));
  }

  /** The operands of `TouchingGivesStrip`, once the checking constructor has built them. */
  lemma TouchingPair(a: Rect, b: Rect)
    requires a == Rect(Make(0, 0), 2, 2) && b == Rect(Make(2, 0), 2, 2)
    ensures a.Intersect(b) == Rect(Make(2, 0), 0, 2)
  {
    assert a.Meets(b);
    IntersectIsClipped(a, b);
  }

  /**
   * The sentinel does not tell "no overlap" apart from an overlap in the
   * single point (0, 0): `Rect(-1, -1, 1, 1)` and `Rect(0, 0, 1, 1)` meet
   * there, and their intersection is `Rect()`, the same value that
   * `DisjointGivesSentinel` shows for two rectangles with no common point.
   */
  lemma SentinelIsAmbiguous()
    ensures NewAt(-1, -1, 1, 1).Ok? && NewAt(0, 0, 1, 1).Ok?
    ensures NewAt(-1, -1, 1, 1).value.Meets(NewAt(0, 0, 1, 1).value)
    ensures NewAt(-1, -1, 1, 1).value.Intersect(NewAt(0, 0, 1, 1).value) == Empty()
  {
    assert NewAt(-1, -1, 1, 1) == Ok(Rect(Make(-1, -1), 1, 1));
    assert NewAt(0, 0, 1, 1) == Ok(Rect(Make(0, 0), 1, 1));
    CornerPair(Rect(Make(-1, -1), 1, 1), Rect(Make(0, 0), 1, 1));
  }

  /** The operands of `SentinelIsAmbiguous`, once the checking constructor has built them. */
  lemma CornerPair(a: Rect, b: Rect)
    requires a == Rect(Make(-1, -1), 1, 1) && b == Rect(Make(0, 0), 1, 1)
    ensures a.Meets(b) && a.Intersect(b) == Empty()
  {
    assert a.Meets(b);
    IntersectIsClipped(a, b);
    assert Empty() == Rect(Make(0, 0), 0, 0);
  }

  /**
   * `Union(Rect)` goes through the checking constructor, so it throws on two
   * operands whose widths were both made negative by field writes and whose
   * spanned width is negative. The values are built with the datatype
   * constructor because the checking constructor would refuse them.
   */
  lemma UnionOfNegativeSizesThrows()
    ensures Rect(Make(0, 0), -5, 0).Union(Rect(Make(0, 0), -5, 0)) == Err(InvalidArgument(NegativeSizeMessage))
  {
  }

  /**
   * Negative widths alone do not make `Union(Rect)` throw: the spanned width
   * of two width -5 rectangles 100 apart is 95.
   */
  lemma UnionOfNegativeSizesApart()
    ensures Rect(Make(0, 0), -5, 0).Union(Rect(Make(100, 0), -5, 0)) == Ok(Rect(Make(0, 0), 95, 0))
  {
    assert Min(0, 100) == 0 && Min(0, 0) == 0 && Max(-5, 95) == 95 && Max(0, 0) == 0;
    assert New(Make(0, 0), 95, 0) == Ok(Rect(Make(0, 0), 95, 0));
  }

  /** Area and perimeter of a 4 by 5 rectangle. */
  lemma AreaAndPerimeter()
    ensures NewAt(1, 2, 4, 5).Ok?
    ensures NewAt(1, 2, 4, 5).value.Area() == 20 && NewAt(1, 2, 4, 5).value.Perimeter() == 18
  {
  }
}
