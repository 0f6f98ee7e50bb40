/** Line: a segment between two distinct points (src/app/core/geometry/Line.ts). It is not a
    Shape variant. */
module Lines {
  import opened Wrappers
  import opened Measurements
  import opened Points
  import RealFacts

  datatype Line = Line(start: Point, end: Point)

  /** The constructor's invariant: the end points are not equal as Points. */
  predicate Valid(l: Line)
  {
    !Points.Equals(l.start, l.end)
  }

  /** The constructor: rejects a start equal to the end. */
  function New(start: Point, end: Point): (r: Result<Line>)
    ensures r.Ok? <==> !Points.Equals(start, end)
    ensures r.Ok? ==> r.value.start == start && r.value.end == end && Valid(r.value)
  {
    if Points.Equals(start, end) then Err("Line start and end must be different points")
    else Ok(Line(start, end))
  }

  /** `length` is the hypotenuse of (end - start). */
  ghost predicate IsLength(l: Line, len: real)
  {
    IsDistance(l.end, l.start, len)
  }

  /** A constructed line has a strictly positive length. */
  lemma LengthPositive(l: Line, len: real)
    requires Valid(l) && IsLength(l, len)
    ensures len > 0.0
  {
    var dx := l.end.x.valueMm - l.start.x.valueMm;
    var dy := l.end.y.valueMm - l.start.y.valueMm;
    assert dx >= EQUALS_EPSILON || dx <= -EQUALS_EPSILON || dy >= EQUALS_EPSILON || dy <= -EQUALS_EPSILON;
    RealFacts.SquareAtLeast(dx, EQUALS_EPSILON);
    RealFacts.SquareAtLeast(dy, EQUALS_EPSILON);
    RealFacts.SquareNonNegative(dx);
    RealFacts.SquareNonNegative(dy);
    RealFacts.SquarePositive(EQUALS_EPSILON);
    assert dx * dx + dy * dy > 0.0;
    RealFacts.NonZeroFromSquare(len);
  }

  /** The line from (0,0) to (3,4) has length 5, and a line from a point to itself is
      rejected. */
  lemma LineExamples(len: real)
    ensures IsLength(Line(Point(Measurement(0.0), Measurement(0.0)), Point(Measurement(3.0), Measurement(4.0))), 5.0)
    ensures IsLength(Line(Point(Measurement(0.0), Measurement(0.0)), Point(Measurement(3.0), Measurement(4.0))), len) ==> len == 5.0
    ensures New(Point(Measurement(0.0), Measurement(0.0)), Point(Measurement(0.0), Measurement(0.0))).Err?
  {
    DistanceExample(len);
  }

  /** `equals`: the same start and the same end (direction matters). */
  predicate Equals(a: Line, b: Line)
  {
    Points.Equals(a.start, b.start) && Points.Equals(a.end, b.end)
  }

  /** Two lines built from the same points are equal; a reversed line is not equal to the
      original. */
  lemma EqualsExamples(l: Line)
    ensures Equals(l, l)
    ensures var a := Point(Measurement(0.0), Measurement(0.0));
            var b := Point(Measurement(1.0), Measurement(1.0));
            !Equals(Line(a, b), Line(b, a))
  {
  }
}
