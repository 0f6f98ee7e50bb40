/** LineString: an open path through at least two points
    (src/app/core/geometry/LineString.ts). */
module LineStrings {
  import opened Wrappers
  import opened Measurements
  import opened Points
  import PointTransforms
  import Rectangles
  import GeometryUtils
  import RealFacts

  datatype LineString = LineString(points: seq<Point>)

  /** The constructor's invariant: at least two points. */
  predicate Valid(l: LineString)
  {
    |l.points| >= 2
  }

  /** The constructor: rejects fewer than two points and keeps a copy of the list. */
  function New(points: seq<Point>): (r: Result<LineString>)
    ensures r.Ok? <==> |points| >= 2
    ensures r.Ok? ==> Valid(r.value) && r.value.points == points
    ensures r.Err? ==> r.message == "LineString requires >= 2 points"
  {
    if |points| < 2 then Err("LineString requires >= 2 points") else Ok(LineString(points))
  }

  /** `area`: a path encloses nothing. */
  function Area(l: LineString): (a: Measurement)
    ensures a.valueMm == 0.0
  {
    Measurement(0.0)
  }

  /** The sum of the lengths of the first k segments, segment i joining point i to point
      i + 1 (there is no closing segment). */
  function LengthSum(pts: seq<Point>, dist: (Point, Point) -> real, k: nat): real
    requires k < |pts| || k == 0
  {
    if k == 0 then 0.0 else LengthSum(pts, dist, k - 1) + dist(pts[k - 1], pts[k])
  }

  /** The number of segments of a path through `n` points. */
  function SegmentCount(n: nat): nat
  {
    if n == 0 then 0 else n - 1
  }

  /** `perimeter`: the total length of the consecutive segments. */
  function Perimeter(l: LineString, dist: (Point, Point) -> real): Measurement
    requires IsDistanceFunction(dist)
  {
    Measurement(LengthSum(l.points, dist, SegmentCount(|l.points|)))
  }

  /** The loop of `perimeter`, running i up to the last point but one. */
  method ComputePerimeter(l: LineString, dist: (Point, Point) -> real) returns (r: Measurement)
    requires IsDistanceFunction(dist)
    ensures r == Perimeter(l, dist)
  {
    var peri := 0.0;
    var i := 0;
    while i < |l.points| - 1
      invariant 0 <= i <= SegmentCount(|l.points|)
      invariant peri == LengthSum(l.points, dist, i)
    {
      peri := peri + dist(l.points[i], l.points[i + 1]);
      i := i + 1;
    }
    r := Measurement(peri);
  }

  /** Segment lengths are non-negative, and translating every point keeps each of them. */
  lemma {:induction false} LengthSumProperties(pts: seq<Point>, dist: (Point, Point) -> real, k: nat, dx: Measurement, dy: Measurement)
    requires IsDistanceFunction(dist)
    requires k < |pts| || k == 0
    ensures LengthSum(pts, dist, k) >= 0.0
    ensures LengthSum(PointTransforms.TranslateAll(pts, dx, dy), dist, k) == LengthSum(pts, dist, k)
  {
    if k > 0 {
      LengthSumProperties(pts, dist, k - 1, dx, dy);
      assert IsDistance(pts[k - 1], pts[k], dist(pts[k - 1], pts[k]));
      TranslatedDistance(dist, pts[k - 1], pts[k], dx, dy);
    }
  }

  /** The perimeter is never negative and a translated path has the same perimeter. */
  lemma PerimeterProperties(l: LineString, dist: (Point, Point) -> real, dx: Measurement, dy: Measurement)
    requires IsDistanceFunction(dist)
    ensures Perimeter(l, dist).valueMm >= 0.0
    ensures Perimeter(LineString(PointTransforms.TranslateAll(l.points, dx, dy)), dist) == Perimeter(l, dist)
  {
    LengthSumProperties(l.points, dist, SegmentCount(|l.points|), dx, dy);
  }

  /** The path (0,0) - (3,0) - (3,4) has length 7: no closing segment back to the start. */
  lemma PerimeterExample(dist: (Point, Point) -> real)
    requires IsDistanceFunction(dist)
    ensures Perimeter(LineString([Point(Zero, Zero), Point(Measurement(3.0), Zero), Point(Measurement(3.0), Measurement(4.0))]), dist)
         == Measurement(7.0)
  {
    var pts := [Point(Zero, Zero), Point(Measurement(3.0), Zero), Point(Measurement(3.0), Measurement(4.0))];
    var d0, d1 := dist(pts[0], pts[1]), dist(pts[1], pts[2]);
    assert IsDistance(pts[0], pts[1], d0) && IsDistance(pts[1], pts[2], d1);
    RealFacts.SquareRootUnique(d0, 3.0);
    RealFacts.SquareRootUnique(d1, 4.0);
    assert LengthSum(pts, dist, 1) == d0;
  }

  /** `translate`: every point moved by (dx, dy); the point count, and so validity, is kept. */
  function Translate(l: LineString, dx: Measurement, dy: Measurement): (t: LineString)
    ensures |t.points| == |l.points| && (Valid(l) <==> Valid(t))
    ensures forall i :: 0 <= i < |l.points| ==> t.points[i] == Points.Translate(l.points[i], dx, dy)
  {
    LineString(PointTransforms.TranslateAll(l.points, dx, dy))
  }

  /** `rotate`: every point mapped by `rot` (the rotation about the origin). */
  function Rotate(l: LineString, rot: Point -> Point): (t: LineString)
    ensures |t.points| == |l.points| && (Valid(l) <==> Valid(t))
    ensures forall i :: 0 <= i < |l.points| ==> t.points[i] == rot(l.points[i])
  {
    LineString(PointTransforms.MapAll(l.points, rot))
  }

  /** `scale`: every point scaled about `origin`; the point count is kept. */
  function Scale(l: LineString, factor: real, origin: Point): (t: LineString)
    ensures |t.points| == |l.points| && (Valid(l) <==> Valid(t))
    ensures forall i :: 0 <= i < |l.points| ==> t.points[i] == PointTransforms.ScalePoint(l.points[i], factor, origin)
  {
    LineString(PointTransforms.ScaleAll(l.points, factor, origin))
  }

  /** `boundingBox` (and `getBoundingBox`): the box of all the points. */
  function BoundingBox(l: LineString): Result<Rectangles.Rectangle>
  {
    GeometryUtils.BoundingBoxFromPoints(l.points)
  }

  /** A path along one axis has no box (the Rectangle constructor rejects a zero side); a
      path that spreads in both x and y has one holding all its points. */
  lemma BoundingBoxProperties(l: LineString)
    ensures BoundingBox(l).Ok? <==>
              |l.points| > 0 && GeometryUtils.Varies(GeometryUtils.Xs(l.points)) && GeometryUtils.Varies(GeometryUtils.Ys(l.points))
    ensures BoundingBox(l).Ok? ==> forall i :: 0 <= i < |l.points| ==> Rectangles.ContainsPoint(BoundingBox(l).value, l.points[i])
    ensures BoundingBox(LineString([Point(Zero, Zero), Point(Measurement(3.0), Zero)])).Err?
  {
    GeometryUtils.BoundingBoxFromPointsSpec(l.points);
    var flat := [Point(Zero, Zero), Point(Measurement(3.0), Zero)];
    GeometryUtils.BoundingBoxFromPointsSpec(flat);
    assert GeometryUtils.Ys(flat) == [0.0, 0.0];
  }

  /** `intersects`: the closed overlap of this path's box with the other shape's box; both
      boxes must exist, or the Rectangle constructor throws. */
  function Intersects(l: LineString, otherBox: Result<Rectangles.Rectangle>): (r: Result<bool>)
    ensures r.Ok? <==> BoundingBox(l).Ok? && otherBox.Ok?
    ensures r.Ok? ==> (r.value <==> GeometryUtils.BBoxIntersects(BoundingBox(l).value, otherBox.value))
  {
    var box := BoundingBox(l);
    if box.Err? then Err(box.message)
    else if otherBox.Err? then Err(otherBox.message)
    else Ok(GeometryUtils.BBoxIntersects(box.value, otherBox.value))
  }

  /** `intersectsRect`: a Rectangle argument has `intersects`, so this is `intersects` with
      the rectangle, which is its own box: the closed overlap, touching included. */
  function IntersectsRect(l: LineString, rect: Rectangles.Rectangle): (r: Result<bool>)
    ensures r.Ok? <==> BoundingBox(l).Ok?
    ensures r.Ok? ==> (r.value <==> GeometryUtils.BBoxIntersects(BoundingBox(l).value, rect))
  {
    Intersects(l, Ok(rect))
  }

  /** The tolerance of `contains`: 1e-6 mm. */
  const ON_SEGMENT_EPSILON: real := 0.000001

  /** A point lies on the segment from `a` to `b` when the detour through it is no longer than
      the segment itself, up to the tolerance: |d(a, b) - (d(a, p) + d(b, p))| < 1e-6. */
  predicate OnSegment(a: Point, b: Point, p: Point, dist: (Point, Point) -> real)
  {
    Abs(dist(a, b) - (dist(a, p) + dist(b, p))) < ON_SEGMENT_EPSILON
  }

  /** `contains`: the point lies on one of the consecutive segments. */
  predicate Contains(l: LineString, p: Point, dist: (Point, Point) -> real)
  {
    exists i :: 0 <= i < |l.points| - 1 && OnSegment(l.points[i], l.points[i + 1], p, dist)
  }

  /** The loop of `contains`, returning true at the first segment the point lies on. */
  method ContainsLoop(l: LineString, p: Point, dist: (Point, Point) -> real) returns (found: bool)
    ensures found == Contains(l, p, dist)
  {
    var i := 0;
    while i < |l.points| - 1
      invariant 0 <= i <= SegmentCount(|l.points|)
      invariant forall j :: 0 <= j < i ==> !OnSegment(l.points[j], l.points[j + 1], p, dist)
    {
      if OnSegment(l.points[i], l.points[i + 1], p, dist) {
        return true;
      }
      i := i + 1;
    }
    return false;
  }

  /** Every vertex of a valid path lies on it, while a path through a single point contains
      nothing. */
  lemma ContainsProperties(l: LineString, p: Point, dist: (Point, Point) -> real, k: nat)
    requires IsDistanceFunction(dist)
    ensures Valid(l) && k < |l.points| ==> Contains(l, l.points[k], dist)
    ensures |l.points| < 2 ==> !Contains(l, p, dist)
  {
    if Valid(l) && k < |l.points| {
      var v := l.points[k];
      var i := if k + 1 < |l.points| then k else k - 1;
      var a, b := l.points[i], l.points[i + 1];
      DistanceFunctionFacts(dist, v, v);
      DistanceFunctionFacts(dist, a, b);
      DistanceFunctionFacts(dist, b, v);
      assert OnSegment(a, b, v, dist);
    }
  }

  /** `equals` (between two LineStrings): the same number of points, pairwise equal in
      order. */
  predicate Equals(a: LineString, b: LineString)
  {
    |a.points| == |b.points| && forall i :: 0 <= i < |a.points| ==> Points.Equals(a.points[i], b.points[i])
  }

  /** The loop of `equals`, returning false at the first unequal pair. */
  method EqualsLoop(a: LineString, b: LineString) returns (eq: bool)
    ensures eq == Equals(a, b)
  {
    if |b.points| != |a.points| {
      return false;
    }
    var i := 0;
    while i < |a.points|
      invariant 0 <= i <= |a.points|
      invariant forall j :: 0 <= j < i ==> Points.Equals(a.points[j], b.points[j])
    {
      if !Points.Equals(a.points[i], b.points[i]) {
        return false;
      }
      i := i + 1;
    }
    return true;
  }

  /** Equality is reflexive and symmetric, and a path differs from its reverse. */
  lemma EqualsProperties(a: LineString, b: LineString)
    ensures Equals(a, a)
    ensures Equals(a, b) <==> Equals(b, a)
    ensures var p, q := Point(Zero, Zero), Point(Measurement(3.0), Zero);
            !Equals(LineString([p, q]), LineString([q, p]))
  {
    forall i | 0 <= i < |a.points|
      ensures Points.Equals(a.points[i], a.points[i])
    {
      Points.EqualsProperties(a.points[i], a.points[i]);
    }
    if |a.points| == |b.points| {
      forall i | 0 <= i < |a.points|
        ensures Points.Equals(a.points[i], b.points[i]) <==> Points.Equals(b.points[i], a.points[i])
      {
        Points.EqualsProperties(a.points[i], b.points[i]);
      }
    }
    var p, q := Point(Zero, Zero), Point(Measurement(3.0), Zero);
    assert !Points.Equals([p, q][0], [q, p][0]);
  }
}
