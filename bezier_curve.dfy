/** BezierCurve: a cubic Bezier curve given by four control points
    (src/app/core/geometry/BezierCurve.ts). Its length, box and containment work on sampled
    points of the curve. */
module BezierCurves {
  import opened Wrappers
  import opened Measurements
  import opened Points
  import PointTransforms
  import Rectangles
  import GeometryUtils
  import LineStrings

  datatype BezierCurve = BezierCurve(p0: Point, p1: Point, p2: Point, p3: Point)

  /** The constructor: no validation; any four points make a curve. */
  function New(p0: Point, p1: Point, p2: Point, p3: Point): (r: BezierCurve)
    ensures r.p0 == p0 && r.p1 == p1 && r.p2 == p2 && r.p3 == p3
  {
    BezierCurve(p0, p1, p2, p3)
  }

  /** `area`: a curve encloses nothing. */
  function Area(b: BezierCurve): (a: Measurement)
    ensures a.valueMm == 0.0
  {
    Measurement(0.0)
  }

  /** The number of samples `perimeter` and `contains` take (boundingBox takes fewer). */
  const PERIMETER_STEPS: nat := 64
  const BOX_STEPS: nat := 32

  /** The curve sampled at `steps` + 1 evenly spaced parameters. */
  function Samples(b: BezierCurve, steps: nat): (pts: seq<Point>)
    requires steps > 0
    ensures |pts| == steps + 1 && pts[0] == b.p0 && pts[steps] == b.p3
  {
    GeometryUtils.CubicBezierSamples(b.p0, b.p1, b.p2, b.p3, steps)
  }

  /** `perimeter`: the length of the polyline through the 65 samples. */
  function Perimeter(b: BezierCurve, dist: (Point, Point) -> real): Measurement
    requires IsDistanceFunction(dist)
  {
    Measurement(LineStrings.LengthSum(Samples(b, PERIMETER_STEPS), dist, PERIMETER_STEPS))
  }

  /** The loop of `perimeter` over the sampled points. */
  method ComputePerimeter(b: BezierCurve, dist: (Point, Point) -> real) returns (r: Measurement)
    requires IsDistanceFunction(dist)
    ensures r == Perimeter(b, dist)
  {
    var pts := GeometryUtils.SampleCubicBezier(b.p0, b.p1, b.p2, b.p3, PERIMETER_STEPS);
    var len := 0.0;
    var i := 0;
    while i < |pts| - 1
      invariant 0 <= i <= PERIMETER_STEPS
      invariant len == LineStrings.LengthSum(pts, dist, i)
    {
      len := len + dist(pts[i], pts[i + 1]);
      i := i + 1;
    }
    r := Measurement(len);
  }

  /** `translate`: all four control points moved by (dx, dy). */
  function Translate(b: BezierCurve, dx: Measurement, dy: Measurement): (t: BezierCurve)
    ensures t.p0 == Points.Translate(b.p0, dx, dy) && t.p1 == Points.Translate(b.p1, dx, dy)
    ensures t.p2 == Points.Translate(b.p2, dx, dy) && t.p3 == Points.Translate(b.p3, dx, dy)
  {
    BezierCurve(Points.Translate(b.p0, dx, dy), Points.Translate(b.p1, dx, dy), Points.Translate(b.p2, dx, dy), Points.Translate(b.p3, dx, dy))
  }

  /** The samples of the translated curve are the translated samples. */
  lemma SamplesTranslate(b: BezierCurve, steps: nat, dx: Measurement, dy: Measurement)
    requires steps > 0
    ensures Samples(Translate(b, dx, dy), steps) == PointTransforms.TranslateAll(Samples(b, steps), dx, dy)
  {
    var s, t := Samples(b, steps), Samples(Translate(b, dx, dy), steps);
    forall i | 0 <= i <= steps
      ensures t[i] == Points.Translate(s[i], dx, dy)
    {
      GeometryUtils.CubicBezierPointTranslate(b.p0, b.p1, b.p2, b.p3, (i as real) / (steps as real), dx, dy);
    }
  }

  /** The sampled length is never negative and is unchanged by translation. */
  lemma PerimeterProperties(b: BezierCurve, dist: (Point, Point) -> real, dx: Measurement, dy: Measurement)
    requires IsDistanceFunction(dist)
    ensures Perimeter(b, dist).valueMm >= 0.0
    ensures Perimeter(Translate(b, dx, dy), dist) == Perimeter(b, dist)
  {
    SamplesTranslate(b, PERIMETER_STEPS, dx, dy);
    LineStrings.LengthSumProperties(Samples(b, PERIMETER_STEPS), dist, PERIMETER_STEPS, dx, dy);
  }

  /** `rotate`: all four control points mapped by `rot` (rotatePoint with the angle and
      origin). */
  function Rotate(b: BezierCurve, rot: Point -> Point): (t: BezierCurve)
    ensures t.p0 == rot(b.p0) && t.p1 == rot(b.p1) && t.p2 == rot(b.p2) && t.p3 == rot(b.p3)
  {
    BezierCurve(rot(b.p0), rot(b.p1), rot(b.p2), rot(b.p3))
  }

  /** `scale`: scalePoint applied to each control point. */
  function Scale(b: BezierCurve, factor: real, origin: Point): (t: BezierCurve)
    ensures t.p0 == PointTransforms.ScalePoint(b.p0, factor, origin) && t.p1 == PointTransforms.ScalePoint(b.p1, factor, origin)
    ensures t.p2 == PointTransforms.ScalePoint(b.p2, factor, origin) && t.p3 == PointTransforms.ScalePoint(b.p3, factor, origin)
  {
    BezierCurve(PointTransforms.ScalePoint(b.p0, factor, origin), PointTransforms.ScalePoint(b.p1, factor, origin),
                PointTransforms.ScalePoint(b.p2, factor, origin), PointTransforms.ScalePoint(b.p3, factor, origin))
  }

  /** `boundingBox`: the box of 33 samples. */
  function BoundingBox(b: BezierCurve): Result<Rectangles.Rectangle>
  {
    GeometryUtils.BoundingBoxFromPoints(Samples(b, BOX_STEPS))
  }

  /** The box, when it exists, holds both end points; a curve whose control points share one
      y coordinate has no box (the Rectangle constructor rejects a zero height). */
  lemma BoundingBoxProperties(b: BezierCurve)
    ensures BoundingBox(b).Ok? ==> Rectangles.ContainsPoint(BoundingBox(b).value, b.p0)
    ensures BoundingBox(b).Ok? ==> Rectangles.ContainsPoint(BoundingBox(b).value, b.p3)
    ensures b.p0.y == b.p1.y == b.p2.y == b.p3.y ==> BoundingBox(b).Err?
  {
    var pts := Samples(b, BOX_STEPS);
    GeometryUtils.BoundingBoxFromPointsSpec(pts);
    if b.p0.y == b.p1.y == b.p2.y == b.p3.y {
      var y := b.p0.y.valueMm;
      forall i | 0 <= i < |pts|
        ensures GeometryUtils.Ys(pts)[i] == y
      {
        GeometryUtils.BernsteinShift((i as real) / (BOX_STEPS as real), 0.0, 0.0, 0.0, 0.0, y);
      }
    }
  }

  /** `intersects`: the closed overlap of this curve's box with the other shape's box; both
      boxes must exist, or the Rectangle constructor throws. */
  function Intersects(b: BezierCurve, otherBox: Result<Rectangles.Rectangle>): (r: Result<bool>)
    ensures r.Ok? <==> BoundingBox(b).Ok? && otherBox.Ok?
    ensures r.Ok? ==> (r.value <==> GeometryUtils.BBoxIntersects(BoundingBox(b).value, otherBox.value))
  {
    var box := BoundingBox(b);
    if box.Err? then Err(box.message)
    else if otherBox.Err? then Err(otherBox.message)
    else Ok(GeometryUtils.BBoxIntersects(box.value, otherBox.value))
  }

  /** The tolerance of `contains`: 1e-6 mm. */
  const NEAR_EPSILON: real := 0.000001

  /** `contains`: one of the 65 samples lies closer than 1e-6 mm to the point. */
  predicate Contains(b: BezierCurve, p: Point, dist: (Point, Point) -> real)
  {
    var pts := Samples(b, PERIMETER_STEPS);
    exists i :: 0 <= i < |pts| && dist(pts[i], p) < NEAR_EPSILON
  }

  /** The for-of loop of `contains`, returning true at the first sample near the point. */
  method ContainsLoop(b: BezierCurve, p: Point, dist: (Point, Point) -> real) returns (found: bool)
    ensures found == Contains(b, p, dist)
  {
    var pts := GeometryUtils.SampleCubicBezier(b.p0, b.p1, b.p2, b.p3, PERIMETER_STEPS);
    assert pts == Samples(b, PERIMETER_STEPS);
    for i := 0 to |pts|
      invariant forall j :: 0 <= j < i ==> dist(pts[j], p) >= NEAR_EPSILON
    {
      if dist(pts[i], p) < NEAR_EPSILON {
        return true;
      }
    }
    return false;
  }

  /** Both end points lie on the curve. */
  lemma ContainsEndPoints(b: BezierCurve, dist: (Point, Point) -> real)
    requires IsDistanceFunction(dist)
    ensures Contains(b, b.p0, dist) && Contains(b, b.p3, dist)
  {
    var pts := Samples(b, PERIMETER_STEPS);
    DistanceFunctionFacts(dist, b.p0, b.p0);
    DistanceFunctionFacts(dist, b.p3, b.p3);
    assert dist(pts[0], b.p0) < NEAR_EPSILON;
    assert dist(pts[PERIMETER_STEPS], b.p3) < NEAR_EPSILON;
  }

  /** `equals` (between two BezierCurves): p0..p3 pairwise equal. */
  predicate Equals(a: BezierCurve, b: BezierCurve)
  {
    Points.Equals(a.p0, b.p0) && Points.Equals(a.p1, b.p1) && Points.Equals(a.p2, b.p2) && Points.Equals(a.p3, b.p3)
  }

  /** Equality is reflexive and symmetric, a curve equals itself translated there and back,
      and it differs from the same curve traced backwards when its end points differ. */
  lemma EqualsProperties(a: BezierCurve, b: BezierCurve, dx: Measurement, dy: Measurement)
    ensures Equals(a, a)
    ensures Equals(a, b) <==> Equals(b, a)
    ensures Equals(Translate(Translate(a, dx, dy), Subtract(Zero, dx), Subtract(Zero, dy)), a)
    ensures !Points.Equals(a.p0, a.p3) ==> !Equals(a, BezierCurve(a.p3, a.p2, a.p1, a.p0))
  {
    Points.EqualsProperties(a.p0, b.p0);
    Points.EqualsProperties(a.p1, b.p1);
    Points.EqualsProperties(a.p2, b.p2);
    Points.EqualsProperties(a.p3, b.p3);
  }
}
