/** Polygon: a closed ring of at least three points (src/app/core/geometry/Polygon.ts). The
    last point joins back to the first. */
module Polygons {
  import opened Wrappers
  import opened Measurements
  import opened Points
  import PointTransforms
  import Rectangles
  import GeometryUtils
  import RealFacts

  datatype Polygon = Polygon(points: seq<Point>)

  /** The constructor's invariant: at least three points. */
  predicate Valid(p: Polygon)
  {
    |p.points| >= 3
  }

  /** The constructor: rejects fewer than three points and keeps a copy of the list (a
      sequence value, so later changes to the caller's array cannot reach it). */
  function New(points: seq<Point>): (r: Result<Polygon>)
    ensures r.Ok? <==> |points| >= 3
    ensures r.Ok? ==> Valid(r.value) && r.value.points == points
    ensures r.Err? ==> r.message == "Polygon requires >= 3 points"
  {
    if |points| < 3 then Err("Polygon requires >= 3 points") else Ok(Polygon(points))
  }

  /** The index after i around a ring of n points: `(i + 1) % n`. */
  function Next(i: nat, n: nat): (j: nat)
    requires i < n
    ensures j < n && (j == i + 1 || (i == n - 1 && j == 0))
  {
    (i + 1) % n
  }

  /** One shoelace term for the edge from p to q: x_p * y_q - x_q * y_p. */
  function Cross(p: Point, q: Point): real
  {
    p.x.valueMm * q.y.valueMm - q.x.valueMm * p.y.valueMm
  }

  /** The sum of the shoelace terms of the first k edges (edge i runs from point i to point
      i + 1, the last one back to point 0). */
  function ShoelaceSum(pts: seq<Point>, k: nat): real
    requires k <= |pts|
  {
    if k == 0 then 0.0 else ShoelaceSum(pts, k - 1) + Cross(pts[k - 1], pts[Next(k - 1, |pts|)])
  }

  /** `area`: the absolute value of the shoelace sum over all edges, halved. */
  function Area(p: Polygon): (a: Measurement)
    ensures a.valueMm >= 0.0
    ensures a.valueMm * 2.0 == ShoelaceSum(p.points, |p.points|) || a.valueMm * 2.0 == -ShoelaceSum(p.points, |p.points|)
  {
    Measurement(Abs(ShoelaceSum(p.points, |p.points|)) / 2.0)
  }

  /** The loop of `area`, accumulating the shoelace terms in `sum`. */
  method ComputeArea(p: Polygon) returns (a: Measurement)
    ensures a == Area(p)
  {
    var sum := 0.0;
    var n := |p.points|;
    for i := 0 to n
      invariant sum == ShoelaceSum(p.points, i)
    {
      var p1 := p.points[i];
      var p2 := p.points[(i + 1) % n];
      sum := sum + (p1.x.valueMm * p2.y.valueMm - p2.x.valueMm * p1.y.valueMm);
    }
    a := Measurement(Abs(sum) / 2.0);
  }

  /** The unit square has area 1 and the 4 x 4 square area 16, whichever way round they are
      listed. */
  lemma AreaExamples()
    ensures Area(Polygon([Point(Zero, Zero), Point(Measurement(1.0), Zero), Point(Measurement(1.0), Measurement(1.0)),
                          Point(Zero, Measurement(1.0))])) == Measurement(1.0)
    ensures Area(Polygon([Point(Zero, Zero), Point(Zero, Measurement(4.0)), Point(Measurement(4.0), Measurement(4.0)),
                          Point(Measurement(4.0), Zero)])) == Measurement(16.0)
  {
    var unit := [Point(Zero, Zero), Point(Measurement(1.0), Zero), Point(Measurement(1.0), Measurement(1.0)),
                 Point(Zero, Measurement(1.0))];
    assert ShoelaceSum(unit, 1) == 0.0;
    assert ShoelaceSum(unit, 2) == 1.0;
    assert ShoelaceSum(unit, 3) == 2.0;
    assert ShoelaceSum(unit, 4) == 2.0;
    var four := [Point(Zero, Zero), Point(Zero, Measurement(4.0)), Point(Measurement(4.0), Measurement(4.0)),
                 Point(Measurement(4.0), Zero)];
    assert ShoelaceSum(four, 1) == 0.0;
    assert ShoelaceSum(four, 2) == -16.0;
    assert ShoelaceSum(four, 3) == -32.0;
    assert ShoelaceSum(four, 4) == -32.0;
  }

  /** Moving both ends of an edge by (dx, dy) adds dy * (x_p - x_q) + dx * (y_q - y_p) to its
      shoelace term. */
  lemma CrossTranslate(p: Point, q: Point, dx: Measurement, dy: Measurement)
    ensures Cross(Points.Translate(p, dx, dy), Points.Translate(q, dx, dy))
         == Cross(p, q) + dy.valueMm * (p.x.valueMm - q.x.valueMm) + dx.valueMm * (q.y.valueMm - p.y.valueMm)
  {
  }

  /** Over the first k edges of a translated ring these extra terms telescope to
      dy * (x_0 - x_k) + dx * (y_k - y_0), with point k read around the ring. */
  lemma {:induction false} ShoelaceSumTranslate(pts: seq<Point>, dx: Measurement, dy: Measurement, k: nat)
    requires 0 < k <= |pts|
    ensures var moved := PointTransforms.TranslateAll(pts, dx, dy);
            var last := pts[k % |pts|];
            ShoelaceSum(moved, k) == ShoelaceSum(pts, k) + dy.valueMm * (pts[0].x.valueMm - last.x.valueMm)
                                                         + dx.valueMm * (last.y.valueMm - pts[0].y.valueMm)
  {
    var moved := PointTransforms.TranslateAll(pts, dx, dy);
    var n := |pts|;
    var i := k - 1;
    CrossTranslate(pts[i], pts[Next(i, n)], dx, dy);
    assert Next(i, n) == k % n;
    if k > 1 {
      ShoelaceSumTranslate(pts, dx, dy, k - 1);
      assert (k - 1) % n == i;
    }
  }

  /** Translating a polygon leaves its area unchanged. */
  lemma AreaTranslate(p: Polygon, dx: Measurement, dy: Measurement)
    ensures Area(Polygon(PointTransforms.TranslateAll(p.points, dx, dy))) == Area(p)
  {
    var n := |p.points|;
    if n > 0 {
      ShoelaceSumTranslate(p.points, dx, dy, n);
      assert n % n == 0;
    }
  }

  /** The sum of the lengths of the first k edges, each given by `dist`. */
  function PerimeterSum(pts: seq<Point>, dist: (Point, Point) -> real, k: nat): real
    requires k <= |pts|
  {
    if k == 0 then 0.0 else PerimeterSum(pts, dist, k - 1) + dist(pts[k - 1], pts[Next(k - 1, |pts|)])
  }

  /** `perimeter`: the lengths of all edges, the closing one included. */
  function Perimeter(p: Polygon, dist: (Point, Point) -> real): Measurement
    requires IsDistanceFunction(dist)
  {
    Measurement(PerimeterSum(p.points, dist, |p.points|))
  }

  /** The loop of `perimeter`, accumulating the edge lengths in `peri`. */
  method ComputePerimeter(p: Polygon, dist: (Point, Point) -> real) returns (r: Measurement)
    requires IsDistanceFunction(dist)
    ensures r == Perimeter(p, dist)
  {
    var peri := 0.0;
    var n := |p.points|;
    for i := 0 to n
      invariant peri == PerimeterSum(p.points, dist, i)
    {
      peri := peri + dist(p.points[i], p.points[(i + 1) % n]);
    }
    r := Measurement(peri);
  }

  /** Edge lengths are non-negative, and translating every point keeps each of them. */
  lemma {:induction false} PerimeterSumProperties(pts: seq<Point>, dist: (Point, Point) -> real, k: nat, dx: Measurement, dy: Measurement)
    requires IsDistanceFunction(dist)
    requires k <= |pts|
    ensures PerimeterSum(pts, dist, k) >= 0.0
    ensures PerimeterSum(PointTransforms.TranslateAll(pts, dx, dy), dist, k) == PerimeterSum(pts, dist, k)
  {
    if k > 0 {
      PerimeterSumProperties(pts, dist, k - 1, dx, dy);
      var i := k - 1;
      assert IsDistance(pts[i], pts[Next(i, |pts|)], dist(pts[i], pts[Next(i, |pts|)]));
      TranslatedDistance(dist, pts[i], pts[Next(i, |pts|)], dx, dy);
    }
  }

  /** The perimeter is never negative and a translated polygon has the same perimeter. */
  lemma PerimeterProperties(p: Polygon, dist: (Point, Point) -> real, dx: Measurement, dy: Measurement)
    requires IsDistanceFunction(dist)
    ensures Perimeter(p, dist).valueMm >= 0.0
    ensures Perimeter(Polygon(PointTransforms.TranslateAll(p.points, dx, dy)), dist) == Perimeter(p, dist)
  {
    PerimeterSumProperties(p.points, dist, |p.points|, dx, dy);
  }

  /** The 3 x 4 rectangle listed as a polygon has perimeter 14. */
  lemma PerimeterExample(dist: (Point, Point) -> real)
    requires IsDistanceFunction(dist)
    ensures Perimeter(Polygon([Point(Zero, Zero), Point(Measurement(3.0), Zero), Point(Measurement(3.0), Measurement(4.0)),
                               Point(Zero, Measurement(4.0))]), dist) == Measurement(14.0)
  {
    var pts := [Point(Zero, Zero), Point(Measurement(3.0), Zero), Point(Measurement(3.0), Measurement(4.0)),
                Point(Zero, Measurement(4.0))];
    var d0, d1, d2, d3 := dist(pts[0], pts[1]), dist(pts[1], pts[2]), dist(pts[2], pts[3]), dist(pts[3], pts[0]);
    assert IsDistance(pts[0], pts[1], d0) && IsDistance(pts[1], pts[2], d1);
    assert IsDistance(pts[2], pts[3], d2) && IsDistance(pts[3], pts[0], d3);
    RealFacts.SquareRootUnique(d0, 3.0);
    RealFacts.SquareRootUnique(d1, 4.0);
    RealFacts.SquareRootUnique(d2, 3.0);
    RealFacts.SquareRootUnique(d3, 4.0);
    assert PerimeterSum(pts, dist, 1) == d0;
    assert PerimeterSum(pts, dist, 2) == d0 + d1;
    assert PerimeterSum(pts, dist, 3) == d0 + d1 + d2;
    assert Next(3, 4) == 0;
  }

  /** `translate`: every point moved by (dx, dy); the point count, and so validity, is kept,
      and so is the area. */
  function Translate(p: Polygon, dx: Measurement, dy: Measurement): (t: Polygon)
    ensures |t.points| == |p.points| && (Valid(p) <==> Valid(t))
    ensures forall i :: 0 <= i < |p.points| ==> t.points[i] == Points.Translate(p.points[i], dx, dy)
    ensures Area(t) == Area(p)
  {
    AreaTranslate(p, dx, dy);
    Polygon(PointTransforms.TranslateAll(p.points, dx, dy))
  }

  /** `rotate`: every point mapped by `rot` (the rotation about the origin). */
  function Rotate(p: Polygon, rot: Point -> Point): (t: Polygon)
    ensures |t.points| == |p.points| && (Valid(p) <==> Valid(t))
    ensures forall i :: 0 <= i < |p.points| ==> t.points[i] == rot(p.points[i])
  {
    Polygon(PointTransforms.MapAll(p.points, rot))
  }

  /** `scale`: every point scaled about `origin`; the point count is kept. */
  function Scale(p: Polygon, factor: real, origin: Point): (t: Polygon)
    ensures |t.points| == |p.points| && (Valid(p) <==> Valid(t))
    ensures forall i :: 0 <= i < |p.points| ==> t.points[i] == PointTransforms.ScalePoint(p.points[i], factor, origin)
  {
    Polygon(PointTransforms.ScaleAll(p.points, factor, origin))
  }

  /** `getBoundingBox`: the box of all the points. */
  function BoundingBox(p: Polygon): Result<Rectangles.Rectangle>
  {
    GeometryUtils.BoundingBoxFromPoints(p.points)
  }

  /** The box exists exactly when the points spread in both x and y, and then holds every
      point. */
  lemma BoundingBoxProperties(p: Polygon)
    ensures BoundingBox(p).Ok? <==>
              |p.points| > 0 && GeometryUtils.Varies(GeometryUtils.Xs(p.points)) && GeometryUtils.Varies(GeometryUtils.Ys(p.points))
    ensures BoundingBox(p).Ok? ==> forall i :: 0 <= i < |p.points| ==> Rectangles.ContainsPoint(BoundingBox(p).value, p.points[i])
  {
    GeometryUtils.BoundingBoxFromPointsSpec(p.points);
  }

  /** `containsPoint`: the even-odd ray-casting test on the points. */
  predicate ContainsPoint(p: Polygon, q: Point)
  {
    GeometryUtils.PointInPolygon(q, p.points)
  }

  /** `intersectsRect`: the strict Rectangle test between the bounding box and `rect`. The box
      constructor throws when the points do not spread in both x and y, and so does this. */
  function IntersectsRect(p: Polygon, rect: Rectangles.Rectangle): (r: Result<bool>)
    ensures r.Ok? <==> BoundingBox(p).Ok?
    ensures r.Ok? ==> (r.value <==> Rectangles.IntersectsRect(BoundingBox(p).value, rect))
  {
    var box := BoundingBox(p);
    if box.Err? then Err(box.message) else Ok(Rectangles.IntersectsRect(box.value, rect))
  }

  /** `intersects` (the legacy wrapper): the strict test of this polygon's box against the
      other shape's box. The receiver's box is built first, so its error wins when both fail. */
  function Intersects(p: Polygon, otherBox: Result<Rectangles.Rectangle>): (r: Result<bool>)
    ensures r.Ok? <==> BoundingBox(p).Ok? && otherBox.Ok?
    ensures BoundingBox(p).Err? ==> r == Err(BoundingBox(p).message)
    ensures r.Ok? ==> r == IntersectsRect(p, otherBox.value)
  {
    var box := BoundingBox(p);
    if box.Err? then Err(box.message)
    else if otherBox.Err? then Err(otherBox.message)
    else IntersectsRect(p, otherBox.value)
  }

  /** `equals` (between two Polygons): the same number of points, pairwise equal in order. */
  predicate Equals(a: Polygon, b: Polygon)
  {
    |a.points| == |b.points| && forall i :: 0 <= i < |a.points| ==> Points.Equals(a.points[i], b.points[i])
  }

  /** The loop of `equals`, returning false at the first unequal pair. */
  method EqualsLoop(a: Polygon, b: Polygon) returns (eq: bool)
    ensures eq == Equals(a, b)
  {
    if |b.points| != |a.points| {
      return false;
    }
    for i := 0 to |a.points|
      invariant forall j :: 0 <= j < i ==> Points.Equals(a.points[j], b.points[j])
    {
      if !Points.Equals(a.points[i], b.points[i]) {
        return false;
      }
    }
    return true;
  }

  /** Equality is reflexive and symmetric, and the same corners listed from another start are
      not equal. */
  lemma EqualsProperties(a: Polygon, b: Polygon)
    ensures Equals(a, a)
    ensures Equals(a, b) <==> Equals(b, a)
    ensures var sq := [Point(Zero, Zero), Point(Measurement(1.0), Zero), Point(Measurement(1.0), Measurement(1.0))];
            !Equals(Polygon(sq), Polygon([sq[1], sq[2], sq[0]]))
  {
    forall i | 0 <= i < |a.points|
      ensures Points.Equals(a.points[i], a.points[i])
    {
      Points.EqualsProperties(a.points[i], a.points[i]);
    }
    if |a.points| == |b.points| {
      forall i | 0 <= i < |a.points|
        ensures Points.Equals(a.points[i], b.points[i]) <==> Points.Equals(b.points[i], a.points[i])
      {
        Points.EqualsProperties(a.points[i], b.points[i]);
      }
    }
    var sq := [Point(Zero, Zero), Point(Measurement(1.0), Zero), Point(Measurement(1.0), Measurement(1.0))];
    assert !Points.Equals(sq[0], sq[1]);
  }
}
