/** Circle: a centre and a positive radius (src/app/core/geometry/Circle.ts). */
module Circles {
  import opened Wrappers
  import opened Measurements
  import opened Points
  import PointTransforms
  import Rectangles
  import RealFacts
  import Angles

  datatype Circle = Circle(center: Point, radius: Measurement)

  /** The constructor's invariant: the radius compares greater than zero. */
  predicate Valid(c: Circle)
  {
    CompareTo(c.radius, Zero) > 0.0
  }

  /** The constructor: rejects a radius that is not positive. */
  function New(center: Point, radius: Measurement): (r: Result<Circle>)
    ensures r.Ok? <==> radius.valueMm > 0.0
    ensures r.Ok? ==> Valid(r.value) && r.value.center == center && r.value.radius == radius
  {
    if CompareTo(radius, Zero) <= 0.0 then Err("Radius must be positive")
    else Ok(Circle(center, radius))
  }

  /** `area`: pi * r^2. */
  function Area(c: Circle): Measurement
  {
    Measurement(Angles.PI * (c.radius.valueMm * c.radius.valueMm))
  }

  /** `perimeter`: 2 * pi * r. */
  function Perimeter(c: Circle): (p: Measurement)
    ensures Valid(c) ==> p.valueMm > 0.0
  {
    Measurement(2.0 * Angles.PI * c.radius.valueMm)
  }

  /** Area and circumference are tied by area = circumference * r / 2, and the unit circle has
      area pi and circumference 2 pi. */
  lemma AreaPerimeterRelation(c: Circle)
    ensures Area(c).valueMm == Perimeter(c).valueMm * c.radius.valueMm / 2.0
    ensures var unit := Circle(c.center, Measurement(1.0));
            Area(unit).valueMm == Angles.PI && Perimeter(unit).valueMm == 2.0 * Angles.PI
  {
  }

  /** `translate`: the centre moves by (dx, dy); the radius is kept, so the constructor it
      calls cannot fail. */
  function Translate(c: Circle, dx: Measurement, dy: Measurement): (t: Circle)
    ensures Valid(c) ==> Valid(t)
    ensures t.radius == c.radius && Area(t) == Area(c)
    ensures Subtract(t.center.x, c.center.x) == dx && Subtract(t.center.y, c.center.y) == dy
  {
    Circle(Points.Translate(c.center, dx, dy), c.radius)
  }

  /** `rotate`: only the centre moves (to `rotatedCenter`, the rotated centre); the radius is
      kept. */
  function Rotate(c: Circle, rotatedCenter: Point): (t: Circle)
    ensures Valid(c) ==> Valid(t)
    ensures t.center == rotatedCenter && t.radius == c.radius && Area(t) == Area(c)
  {
    Circle(rotatedCenter, c.radius)
  }

  /** `scale`: the centre is scaled about `origin` and the radius multiplied by the factor,
      through the constructor. */
  function Scale(c: Circle, factor: real, origin: Point): (s: Result<Circle>)
    ensures s.Ok? ==> s.value.center == PointTransforms.ScalePoint(c.center, factor, origin)
    ensures s.Ok? ==> s.value.radius == Multiply(c.radius, factor)
  {
    New(PointTransforms.ScalePoint(c.center, factor, origin), Multiply(c.radius, factor))
  }

  /** A valid circle scales successfully exactly when the factor is positive, and its area is
      then multiplied by the factor squared. */
  lemma ScaleProperties(c: Circle, factor: real, origin: Point)
    requires Valid(c)
    ensures Scale(c, factor, origin).Ok? <==> factor > 0.0
    ensures Scale(c, factor, origin).Ok? ==> Area(Scale(c, factor, origin).value).valueMm == Area(c).valueMm * (factor * factor)
  {
    var r := c.radius.valueMm;
    if factor > 0.0 {
      RealFacts.MulPositive(r, factor);
    } else {
      RealFacts.MulNonPositive(r, factor);
    }
    assert (r * factor) * (r * factor) == (r * r) * (factor * factor);
  }

  /** `boundingBox`: the square of side 2r whose top-left corner is (cx - r, cy - r), built by
      the Rectangle constructor. */
  function BoundingBox(c: Circle): (b: Result<Rectangles.Rectangle>)
    ensures b.Ok? <==> Valid(c)
    ensures b.Ok? ==> Rectangles.X0(b.value) + Rectangles.X1(b.value) == 2.0 * c.center.x.valueMm
    ensures b.Ok? ==> Rectangles.Y0(b.value) + Rectangles.Y1(b.value) == 2.0 * c.center.y.valueMm
    ensures b.Ok? ==> b.value.width == b.value.height == Multiply(c.radius, 2.0)
  {
    var r := c.radius.valueMm;
    Rectangles.New(Point(Measurement(c.center.x.valueMm - r), Measurement(c.center.y.valueMm - r)),
                   Measurement(2.0 * r), Measurement(2.0 * r))
  }

  /** `contains`: the distance from the centre is at most the radius, boundary included. The
      distance is the non-negative root of SqDist, so the test is stated on squares: a negative
      radius contains nothing. */
  predicate Contains(c: Circle, p: Point)
  {
    c.radius.valueMm >= 0.0 && SqDist(c.center, p) <= c.radius.valueMm * c.radius.valueMm
  }

  /** `contains` compares the distance itself: for the distance `d` from the centre to `p`,
      the point is contained exactly when d <= r. */
  lemma ContainsIffWithinRadius(c: Circle, p: Point, d: real)
    requires IsDistance(c.center, p, d)
    ensures Contains(c, p) <==> d <= c.radius.valueMm
  {
    var r := c.radius.valueMm;
    if r >= 0.0 {
      if d <= r {
        if d < r {
          RealFacts.SquareStrictlyIncreasing(d, r);
        }
      } else {
        RealFacts.SquareStrictlyIncreasing(r, d);
      }
    }
  }

  /** Every point a valid circle contains lies in its bounding box; the centre is contained and
      so is a point on the boundary. */
  lemma ContainedPointsInBoundingBox(c: Circle, p: Point)
    requires Valid(c)
    ensures Contains(c, p) ==> Rectangles.ContainsPoint(BoundingBox(c).value, p)
    ensures Contains(c, c.center)
    ensures Contains(c, Point(Add(c.center.x, c.radius), c.center.y))
  {
    var r := c.radius.valueMm;
    if Contains(c, p) {
      var dx := c.center.x.valueMm - p.x.valueMm;
      var dy := c.center.y.valueMm - p.y.valueMm;
      RealFacts.SumOfSquaresBound(dx, dy, r);
      var b := BoundingBox(c).value;
      assert Rectangles.X0(b) <= p.x.valueMm <= Rectangles.X1(b);
      assert Rectangles.Y0(b) <= p.y.valueMm <= Rectangles.Y1(b);
    }
    RealFacts.SquareNonNegative(r);
    var q := Point(Add(c.center.x, c.radius), c.center.y);
    assert SqDist(c.center, q) == (-r) * (-r) + 0.0 * 0.0;
  }

  /** `equals` (between two Circles): equal centres and radii. */
  predicate Equals(a: Circle, b: Circle)
  {
    Points.Equals(a.center, b.center) && Measurements.Equals(a.radius, b.radius)
  }

  /** A circle equals its translated copy translated back, and the radius-10 circle at the
      origin contains (6,8) on its boundary but not (8,8). */
  lemma EqualsAndContainsExamples(c: Circle, dx: Measurement, dy: Measurement)
    ensures Equals(Translate(Translate(c, dx, dy), Subtract(Zero, dx), Subtract(Zero, dy)), c)
    ensures var ten := Circle(Point(Zero, Zero), Measurement(10.0));
            Contains(ten, Point(Measurement(6.0), Measurement(8.0))) && !Contains(ten, Point(Measurement(8.0), Measurement(8.0)))
  {
    Measurements.EqualsReflexiveSymmetric(c.radius, c.radius);
    Points.EqualsProperties(c.center, c.center);
  }
}
