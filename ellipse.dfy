/** Ellipse: an axis-aligned ellipse given by its centre and two positive radii
    (src/app/core/geometry/Ellipse.ts). */
module Ellipses {
  import opened Wrappers
  import opened Measurements
  import opened Points
  import PointTransforms
  import Rectangles
  import Circles
  import RealFacts
  import Angles

  datatype Ellipse = Ellipse(center: Point, radiusX: Measurement, radiusY: Measurement)

  /** The constructor's invariant: both radii compare greater than zero. */
  predicate Valid(e: Ellipse)
  {
    CompareTo(e.radiusX, Zero) > 0.0 && CompareTo(e.radiusY, Zero) > 0.0
  }

  /** The constructor: rejects a radius that is not positive. */
  function New(center: Point, radiusX: Measurement, radiusY: Measurement): (r: Result<Ellipse>)
    ensures r.Ok? <==> radiusX.valueMm > 0.0 && radiusY.valueMm > 0.0
    ensures r.Ok? ==> Valid(r.value) && r.value == Ellipse(center, radiusX, radiusY)
  {
    if CompareTo(radiusX, Zero) <= 0.0 || CompareTo(radiusY, Zero) <= 0.0 then Err("Radii must be positive")
    else Ok(Ellipse(center, radiusX, radiusY))
  }

  /** `area`: pi * a * b. */
  function Area(e: Ellipse): Measurement
  {
    Measurement(Angles.PI * e.radiusX.valueMm * e.radiusY.valueMm)
  }

  /** An ellipse with equal radii has the area of the circle with that radius. */
  lemma AreaOfCircle(e: Ellipse)
    requires e.radiusX == e.radiusY
    ensures Area(e) == Circles.Area(Circles.Circle(e.center, e.radiusX))
  {
  }

  /** `perimeter`: Ramanujan's second approximation pi (a + b) (1 + 3h / (10 + sqrt(4 - 3h)))
      with h = (a - b)^2 / (a + b)^2; `sqrt` is `Math.sqrt`. The constructor guarantees
      a + b > 0, so 0 <= h <= 1 and the root is taken of a positive number. */
  function Perimeter(e: Ellipse, sqrt: real -> real): Measurement
    requires Valid(e) && RealFacts.IsSquareRoot(sqrt)
  {
    var a, b := e.radiusX.valueMm, e.radiusY.valueMm;
    RamanujanRatioBound(a, b);
    var h := (a - b) * (a - b) / ((a + b) * (a + b));
    var root := sqrt(4.0 - 3.0 * h);
    Measurement(Angles.PI * (a + b) * (1.0 + 3.0 * h / (10.0 + root)))
  }

  /** For positive radii, h = (a - b)^2 / (a + b)^2 lies in [0, 1]: (a + b)^2 - (a - b)^2 = 4ab. */
  lemma RamanujanRatioBound(a: real, b: real)
    requires a > 0.0 && b > 0.0
    ensures (a + b) * (a + b) > 0.0
    ensures 0.0 <= (a - b) * (a - b) / ((a + b) * (a + b)) <= 1.0
  {
    var n, d := (a - b) * (a - b), (a + b) * (a + b);
    RealFacts.MulPositive(a, b);
    RealFacts.SquarePositive(a + b);
    RealFacts.SquareNonNegative(a - b);
    assert d - n == 4.0 * (a * b);
    assert n / d * d == n;
  }

  /** For equal radii the approximation is exact: the circumference 2 pi r of the circle. */
  lemma PerimeterOfCircle(e: Ellipse, sqrt: real -> real)
    requires Valid(e) && e.radiusX == e.radiusY
    requires RealFacts.IsSquareRoot(sqrt)
    ensures Perimeter(e, sqrt) == Circles.Perimeter(Circles.Circle(e.center, e.radiusX))
  {
    var a := e.radiusX.valueMm;
    assert (a - a) * (a - a) / ((a + a) * (a + a)) == 0.0;
    assert 4.0 - 3.0 * 0.0 == 4.0;
    RealFacts.SquareRootUnique(sqrt(4.0), 2.0);
  }

  /** `translate`: the centre moves by (dx, dy); both radii are kept. */
  function Translate(e: Ellipse, dx: Measurement, dy: Measurement): (t: Ellipse)
    ensures Valid(e) ==> Valid(t)
    ensures t.radiusX == e.radiusX && t.radiusY == e.radiusY && Area(t) == Area(e)
    ensures Subtract(t.center.x, e.center.x) == dx && Subtract(t.center.y, e.center.y) == dy
  {
    Ellipse(Points.Translate(e.center, dx, dy), e.radiusX, e.radiusY)
  }

  /** `rotate`: only the centre moves (to `rotatedCenter`, the rotated centre); the radii and
      so the axis alignment are kept. */
  function Rotate(e: Ellipse, rotatedCenter: Point): (t: Ellipse)
    ensures Valid(e) ==> Valid(t)
    ensures t.center == rotatedCenter && t.radiusX == e.radiusX && t.radiusY == e.radiusY
  {
    Ellipse(rotatedCenter, e.radiusX, e.radiusY)
  }

  /** `scale`: the centre is scaled about `origin` and both radii are multiplied by the
      factor, through the constructor. */
  function Scale(e: Ellipse, factor: real, origin: Point): (s: Result<Ellipse>)
    ensures s.Ok? ==> s.value.center == PointTransforms.ScalePoint(e.center, factor, origin)
    ensures s.Ok? ==> s.value.radiusX == Multiply(e.radiusX, factor) && s.value.radiusY == Multiply(e.radiusY, factor)
  {
    New(PointTransforms.ScalePoint(e.center, factor, origin), Multiply(e.radiusX, factor), Multiply(e.radiusY, factor))
  }

  /** A valid ellipse scales successfully exactly when the factor is positive, and its area is
      then multiplied by the factor squared. */
  lemma ScaleProperties(e: Ellipse, factor: real, origin: Point)
    requires Valid(e)
    ensures Scale(e, factor, origin).Ok? <==> factor > 0.0
    ensures Scale(e, factor, origin).Ok? ==> Area(Scale(e, factor, origin).value).valueMm == Area(e).valueMm * (factor * factor)
  {
    var a, b := e.radiusX.valueMm, e.radiusY.valueMm;
    if factor > 0.0 {
      RealFacts.MulPositive(a, factor);
      RealFacts.MulPositive(b, factor);
    } else {
      RealFacts.MulNonPositive(a, factor);
    }
    assert Angles.PI * (a * factor) * (b * factor) == Angles.PI * a * b * (factor * factor);
  }

  /** `boundingBox`: the rectangle with top-left corner (cx - rx, cy - ry) and size
      2rx x 2ry, built by the Rectangle constructor. */
  function BoundingBox(e: Ellipse): (b: Result<Rectangles.Rectangle>)
    ensures b.Ok? <==> Valid(e)
    ensures b.Ok? ==> Rectangles.X0(b.value) + Rectangles.X1(b.value) == 2.0 * e.center.x.valueMm
    ensures b.Ok? ==> Rectangles.Y0(b.value) + Rectangles.Y1(b.value) == 2.0 * e.center.y.valueMm
    ensures b.Ok? ==> b.value.width == Multiply(e.radiusX, 2.0) && b.value.height == Multiply(e.radiusY, 2.0)
  {
    var rx := e.radiusX.valueMm;
    var ry := e.radiusY.valueMm;
    Rectangles.New(Point(Measurement(e.center.x.valueMm - rx), Measurement(e.center.y.valueMm - ry)),
                   Measurement(2.0 * rx), Measurement(2.0 * ry))
  }

  /** `contains`: dx^2 / rx^2 + dy^2 / ry^2 <= 1, with (dx, dy) the offset of the point from
      the centre. A zero radius makes the source divide by zero, which yields Infinity or NaN
      and so a false comparison: such an ellipse contains no point. */
  predicate Contains(e: Ellipse, p: Point)
  {
    var dx := p.x.valueMm - e.center.x.valueMm;
    var dy := p.y.valueMm - e.center.y.valueMm;
    var rx := e.radiusX.valueMm;
    var ry := e.radiusY.valueMm;
    rx != 0.0 && ry != 0.0 && RealFacts.NormalisedSquare(dx, rx) + RealFacts.NormalisedSquare(dy, ry) <= 1.0
  }

  /** For radii (5, 3) at the origin, the centre and (2, 1) are inside and (6, 0) is not; an
      ellipse with a zero radius contains nothing. */
  lemma ContainsExamples(p: Point)
    ensures var e := Ellipse(Point(Zero, Zero), Measurement(5.0), Measurement(3.0));
            Contains(e, Point(Zero, Zero)) && Contains(e, Point(Measurement(2.0), Measurement(1.0)))
            && !Contains(e, Point(Measurement(6.0), Measurement(0.0)))
    ensures !Contains(Ellipse(Point(Zero, Zero), Zero, Measurement(3.0)), p)
  {
  }

  /** The bounding box of a valid ellipse spans [cx - rx, cx + rx] by [cy - ry, cy + ry]. */
  lemma BoundingBoxEdges(e: Ellipse)
    requires Valid(e)
    ensures var b := BoundingBox(e).value;
            Rectangles.X0(b) == e.center.x.valueMm - e.radiusX.valueMm
            && Rectangles.X1(b) == e.center.x.valueMm + e.radiusX.valueMm
            && Rectangles.Y0(b) == e.center.y.valueMm - e.radiusY.valueMm
            && Rectangles.Y1(b) == e.center.y.valueMm + e.radiusY.valueMm
  {
  }

  /** A point of a valid ellipse is at most rx from the centre across and at most ry down. */
  lemma ContainedOffsets(e: Ellipse, p: Point)
    requires Valid(e)
    ensures Contains(e, p) ==> -e.radiusX.valueMm <= p.x.valueMm - e.center.x.valueMm <= e.radiusX.valueMm
    ensures Contains(e, p) ==> -e.radiusY.valueMm <= p.y.valueMm - e.center.y.valueMm <= e.radiusY.valueMm
  {
    RealFacts.NormalisedSumBound(p.x.valueMm - e.center.x.valueMm, p.y.valueMm - e.center.y.valueMm,
                                 e.radiusX.valueMm, e.radiusY.valueMm);
  }

  /** A valid ellipse contains its centre and its vertex at (cx + rx, cy). */
  lemma ContainsCentreAndVertex(e: Ellipse)
    requires Valid(e)
    ensures Contains(e, e.center)
    ensures Contains(e, Point(Add(e.center.x, e.radiusX), e.center.y))
  {
    RealFacts.NormalisedSquareBound(0.0, e.radiusX.valueMm);
    RealFacts.NormalisedSquareBound(0.0, e.radiusY.valueMm);
    RealFacts.NormalisedSquareBound(e.radiusX.valueMm, e.radiusX.valueMm);
  }

  /** A point of a valid ellipse lies in its bounding box. */
  lemma ContainedPointsInBoundingBox(e: Ellipse, p: Point)
    requires Valid(e)
    ensures Contains(e, p) ==> Rectangles.ContainsPoint(BoundingBox(e).value, p)
  {
    ContainedOffsets(e, p);
    BoundingBoxEdges(e);
  }

  /** `equals` (between two Ellipses): equal centres and radii. */
  predicate Equals(a: Ellipse, b: Ellipse)
  {
    Points.Equals(a.center, b.center) && Measurements.Equals(a.radiusX, b.radiusX) && Measurements.Equals(a.radiusY, b.radiusY)
  }

  /** Equality ignores differences below 1e-9 mm but distinguishes swapped radii. */
  lemma EqualsExamples(c: Point)
    ensures Equals(Ellipse(c, Measurement(5.0), Measurement(3.0)), Ellipse(c, Measurement(5.0), Measurement(3.0000000000001)))
    ensures !Equals(Ellipse(c, Measurement(5.0), Measurement(3.0)), Ellipse(c, Measurement(3.0), Measurement(5.0)))
  {
    Points.EqualsProperties(c, c);
  }
}
