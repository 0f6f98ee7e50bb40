/** Point: an immutable pair of Measurements (src/app/core/geometry/Point.ts). Because
    points are values, `translate` returning a new point leaves the receiver unchanged by
    construction. */
module Points {
  import opened Measurements
  import RealFacts

  datatype Point = Point(x: Measurement, y: Measurement)

  /** `translate`: the point displaced by (dx, dy). */
  function Translate(p: Point, dx: Measurement, dy: Measurement): (q: Point)
    ensures Subtract(q.x, p.x) == dx && Subtract(q.y, p.y) == dy
  {
    Point(Add(p.x, dx), Add(p.y, dy))
  }

  /** Two translations compose into one by the summed offsets. */
  lemma TranslateCompose(p: Point, dx1: Measurement, dy1: Measurement, dx2: Measurement, dy2: Measurement)
    ensures Translate(Translate(p, dx1, dy1), dx2, dy2) == Translate(p, Add(dx1, dx2), Add(dy1, dy2))
  {
  }

  /** Squared Euclidean distance in square millimetres. */
  function SqDist(p: Point, q: Point): (d2: real)
    ensures d2 >= 0.0
  {
    var dx := p.x.valueMm - q.x.valueMm;
    var dy := p.y.valueMm - q.y.valueMm;
    dx * dx + dy * dy
  }

  /** `distanceTo` is the hypotenuse of the coordinate differences: the non-negative `d` whose
      square is the squared distance. Square roots are kept relational. */
  ghost predicate IsDistance(p: Point, q: Point, d: real)
  {
    d >= 0.0 && d * d == SqDist(p, q)
  }

  /** A function that returns `distanceTo` for every pair of points. The shapes whose
      perimeter sums distances take one as a parameter. */
  ghost predicate IsDistanceFunction(dist: (Point, Point) -> real)
  {
    forall p: Point, q: Point :: IsDistance(p, q, dist(p, q))
  }

  /** Distances are symmetric, unique, and unchanged by translating both points. */
  lemma DistanceProperties(p: Point, q: Point, d: real, e: real, dx: Measurement, dy: Measurement)
    requires IsDistance(p, q, d)
    ensures IsDistance(q, p, d)
    ensures IsDistance(p, q, e) ==> e == d
    ensures IsDistance(Translate(p, dx, dy), Translate(q, dx, dy), d)
  {
    if IsDistance(p, q, e) {
      RealFacts.SquareRootUnique(d, e);
    }
  }

  /** A distance function gives a translated pair of points the distance of the original pair. */
  lemma TranslatedDistance(dist: (Point, Point) -> real, p: Point, q: Point, dx: Measurement, dy: Measurement)
    requires IsDistanceFunction(dist)
    ensures dist(Translate(p, dx, dy), Translate(q, dx, dy)) == dist(p, q)
  {
    var tp, tq := Translate(p, dx, dy), Translate(q, dx, dy);
    DistanceProperties(p, q, dist(p, q), dist(p, q), dx, dy);
    DistanceProperties(tp, tq, dist(tp, tq), dist(p, q), dx, dy);
  }

  /** A distance function is zero from a point to itself and symmetric. */
  lemma DistanceFunctionFacts(dist: (Point, Point) -> real, p: Point, q: Point)
    requires IsDistanceFunction(dist)
    ensures dist(p, p) == 0.0
    ensures dist(p, q) == dist(q, p)
  {
    assert IsDistance(p, p, dist(p, p));
    RealFacts.SquareRootUnique(dist(p, p), 0.0);
    assert IsDistance(p, q, dist(p, q)) && IsDistance(q, p, dist(q, p));
    DistanceProperties(p, q, dist(p, q), dist(q, p), Zero, Zero);
  }

  /** The distance from (0,0) to (3,4) is 5. */
  lemma DistanceExample(d: real)
    ensures IsDistance(Point(Measurement(0.0), Measurement(0.0)), Point(Measurement(3.0), Measurement(4.0)), 5.0)
    ensures IsDistance(Point(Measurement(0.0), Measurement(0.0)), Point(Measurement(3.0), Measurement(4.0)), d) ==> d == 5.0
  {
    if IsDistance(Point(Measurement(0.0), Measurement(0.0)), Point(Measurement(3.0), Measurement(4.0)), d) {
      RealFacts.SquareRootUnique(d, 5.0);
    }
  }

  /** `equals`: both coordinates are equal as Measurements (within 1e-9 mm). */
  predicate Equals(p: Point, q: Point)
  {
    Measurements.Equals(p.x, q.x) && Measurements.Equals(p.y, q.y)
  }

  /** Point equality is reflexive and symmetric and tolerates differences below 1e-9 mm. */
  lemma EqualsProperties(p: Point, q: Point)
    ensures Equals(p, p)
    ensures Equals(p, q) <==> Equals(q, p)
    ensures Equals(p, q) ==> SqDist(p, q) < 2.0 * EQUALS_EPSILON * EQUALS_EPSILON
  {
    var dx := p.x.valueMm - q.x.valueMm;
    var dy := p.y.valueMm - q.y.valueMm;
    if Equals(p, q) {
      RealFacts.SquareBelow(dx, EQUALS_EPSILON);
      RealFacts.SquareBelow(dy, EQUALS_EPSILON);
    }
  }
}
