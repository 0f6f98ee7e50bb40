/** The geometric helpers of src/app/core/geometry/utils.ts that the shapes share: the bounding
    box of a point list, the closed box-overlap test and the ray-casting point-in-polygon
    test, and the cubic Bezier sampler. */
module GeometryUtils {
  import opened Wrappers
  import opened Measurements
  import opened Points
  import Rectangles

  /** The x (resp. y) coordinates of a point list, in millimetres. */
  function Xs(pts: seq<Point>): (xs: seq<real>)
    ensures |xs| == |pts| && forall i :: 0 <= i < |pts| ==> xs[i] == pts[i].x.valueMm
  {
    seq(|pts|, i requires 0 <= i < |pts| => pts[i].x.valueMm)
  }

  function Ys(pts: seq<Point>): (ys: seq<real>)
    ensures |ys| == |pts| && forall i :: 0 <= i < |pts| ==> ys[i] == pts[i].y.valueMm
  {
    seq(|pts|, i requires 0 <= i < |pts| => pts[i].y.valueMm)
  }

  /** The running minimum the loop keeps: the last element replaces it when strictly smaller. */
  function Min(s: seq<real>): real
    requires |s| > 0
  {
    if |s| == 1 then s[0]
    else
      var m := Min(s[..|s| - 1]);
      if s[|s| - 1] < m then s[|s| - 1] else m
  }

  /** The running maximum the loop keeps: the last element replaces it when strictly larger. */
  function Max(s: seq<real>): real
    requires |s| > 0
  {
    if |s| == 1 then s[0]
    else
      var m := Max(s[..|s| - 1]);
      if s[|s| - 1] > m then s[|s| - 1] else m
  }

  /** The running extremes are the least and the greatest element. */
  lemma {:induction false} MinMaxBounds(s: seq<real>)
    requires |s| > 0
    ensures Min(s) in s && Max(s) in s
    ensures forall i :: 0 <= i < |s| ==> Min(s) <= s[i] <= Max(s)
  {
    if |s| > 1 {
      var init := s[..|s| - 1];
      MinMaxBounds(init);
      assert forall i :: 0 <= i < |s| - 1 ==> init[i] == s[i];
      assert s == init + [s[|s| - 1]];
    }
  }

  /** Not every element of `s` is the same. */
  predicate Varies(s: seq<real>)
  {
    exists i, j :: 0 <= i < |s| && 0 <= j < |s| && s[i] != s[j]
  }

  lemma VariesIffMinBelowMax(s: seq<real>)
    requires |s| > 0
    ensures Varies(s) <==> Min(s) < Max(s)
  {
    MinMaxBounds(s);
    if Min(s) < Max(s) {
      var i :| 0 <= i < |s| && s[i] == Min(s);
      var j :| 0 <= j < |s| && s[j] == Max(s);
      assert s[i] != s[j];
    }
  }

  /** `boundingBoxFromPoints`: the rectangle spanned by the extreme coordinates of the
      points. An empty list leaves the extremes infinite, which the Measurement constructor
      rejects before any rectangle is built; the Rectangle constructor rejects a side that
      comes out zero. */
  function BoundingBoxFromPoints(pts: seq<Point>): (r: Result<Rectangles.Rectangle>)
    ensures r.Ok? ==> |pts| > 0 && Rectangles.Valid(r.value)
  {
    if |pts| == 0 then Err("Measurement value must be a finite number")
    else
      var minX, maxX, minY, maxY := Min(Xs(pts)), Max(Xs(pts)), Min(Ys(pts)), Max(Ys(pts));
      Rectangles.New(Point(Measurement(minX), Measurement(minY)), Measurement(maxX - minX), Measurement(maxY - minY))
  }

  /** The bounding box exists exactly when there are points and they neither all share an x
      nor all share a y coordinate; it then holds every point, and each of its edges passes
      through one of the points, so no smaller box holds them all. */
  lemma BoundingBoxFromPointsSpec(pts: seq<Point>)
    ensures BoundingBoxFromPoints(pts).Ok? <==> |pts| > 0 && Varies(Xs(pts)) && Varies(Ys(pts))
    ensures BoundingBoxFromPoints(pts).Ok? ==>
      var box := BoundingBoxFromPoints(pts).value;
      (forall i :: 0 <= i < |pts| ==> Rectangles.ContainsPoint(box, pts[i])) &&
      Rectangles.X0(box) in Xs(pts) && Rectangles.X1(box) in Xs(pts) &&
      Rectangles.Y0(box) in Ys(pts) && Rectangles.Y1(box) in Ys(pts)
  {
    if |pts| > 0 {
      VariesIffMinBelowMax(Xs(pts));
      VariesIffMinBelowMax(Ys(pts));
      MinMaxBounds(Xs(pts));
      MinMaxBounds(Ys(pts));
    }
  }

  /** Appending an element updates the running extremes as the loop does. */
  lemma ExtremesSnoc(s: seq<real>, i: nat)
    requires 0 < i < |s|
    ensures Min(s[..i + 1]) == if s[i] < Min(s[..i]) then s[i] else Min(s[..i])
    ensures Max(s[..i + 1]) == if s[i] > Max(s[..i]) then s[i] else Max(s[..i])
  {
    assert s[..i + 1][..i] == s[..i];
  }

  /** The loop of `boundingBoxFromPoints`: the extremes start at +/- infinity, which the first
      point always replaces (written here as the case `i == 0`). */
  method ScanExtremes(pts: seq<Point>) returns (minX: real, maxX: real, minY: real, maxY: real)
    requires |pts| > 0
    ensures minX == Min(Xs(pts)) && maxX == Max(Xs(pts))
    ensures minY == Min(Ys(pts)) && maxY == Max(Ys(pts))
  {
    minX, minY, maxX, maxY := 0.0, 0.0, 0.0, 0.0;
    ghost var xs, ys := Xs(pts), Ys(pts);
    var i := 0;
    while i < |pts|
      invariant 0 <= i <= |pts|
      invariant i > 0 ==> minX == Min(xs[..i]) && maxX == Max(xs[..i])
      invariant i > 0 ==> minY == Min(ys[..i]) && maxY == Max(ys[..i])
    {
      var x := pts[i].x.valueMm;
      var y := pts[i].y.valueMm;
      if i == 0 {
        minX, maxX, minY, maxY := x, x, y, y;
      } else {
        ExtremesSnoc(xs, i);
        ExtremesSnoc(ys, i);
        if x < minX { minX := x; }
        if x > maxX { maxX := x; }
        if y < minY { minY := y; }
        if y > maxY { maxY := y; }
      }
      i := i + 1;
    }
    assert xs[..|pts|] == xs && ys[..|pts|] == ys;
  }

  /** `boundingBoxFromPoints` as the source computes it: scan, then construct. */
  method ComputeBoundingBox(pts: seq<Point>) returns (r: Result<Rectangles.Rectangle>)
    ensures r == BoundingBoxFromPoints(pts)
  {
    if |pts| == 0 {
      r := Err("Measurement value must be a finite number");
    } else {
      var minX, maxX, minY, maxY := ScanExtremes(pts);
      r := Rectangles.New(Point(Measurement(minX), Measurement(minY)), Measurement(maxX - minX), Measurement(maxY - minY));
    }
  }

  /** The points (1,2), (5,3), (2,6) have the bounding box at (1,2) of size 4 x 4; a single
      point and the empty list have none. */
  lemma BoundingBoxExamples()
    ensures var pts := [Point(Measurement(1.0), Measurement(2.0)), Point(Measurement(5.0), Measurement(3.0)), Point(Measurement(2.0), Measurement(6.0))];
            BoundingBoxFromPoints(pts) == Ok(Rectangles.Rectangle(Point(Measurement(1.0), Measurement(2.0)), Measurement(4.0), Measurement(4.0)))
    ensures BoundingBoxFromPoints([Point(Measurement(1.0), Measurement(2.0))]).Err?
    ensures BoundingBoxFromPoints([]).Err?
  {
    var pts := [Point(Measurement(1.0), Measurement(2.0)), Point(Measurement(5.0), Measurement(3.0)), Point(Measurement(2.0), Measurement(6.0))];
    var xs, ys := Xs(pts), Ys(pts);
    assert xs[0] == 1.0 && xs[1] == 5.0 && xs[2] == 2.0;
    assert ys[0] == 2.0 && ys[1] == 3.0 && ys[2] == 6.0;
    assert Min(xs[..1]) == 1.0 && Max(xs[..1]) == 1.0;
    assert Min(ys[..1]) == 2.0 && Max(ys[..1]) == 2.0;
    ExtremesSnoc(xs, 1);
    ExtremesSnoc(ys, 1);
    ExtremesSnoc(xs, 2);
    ExtremesSnoc(ys, 2);
    assert xs[..3] == xs && ys[..3] == ys;
    var one := [Point(Measurement(1.0), Measurement(2.0))];
    assert !Varies(Xs(one));
  }

  /** `bboxIntersects`: the closed boxes overlap (boxes that only touch do intersect). */
  predicate BBoxIntersects(a: Rectangles.Rectangle, b: Rectangles.Rectangle)
  {
    !(Rectangles.X0(b) > Rectangles.X1(a) || Rectangles.X1(b) < Rectangles.X0(a) ||
      Rectangles.Y0(b) > Rectangles.Y1(a) || Rectangles.Y1(b) < Rectangles.Y0(a))
  }

  /** For valid rectangles the closed test holds exactly when the rectangles share a point; it
      is symmetric and weaker than the strict Rectangle.intersectsRect, which it extends with
      touching rectangles. */
  lemma BBoxIntersectsProperties(a: Rectangles.Rectangle, b: Rectangles.Rectangle, p: Point)
    requires Rectangles.Valid(a) && Rectangles.Valid(b)
    ensures BBoxIntersects(a, b) <==> BBoxIntersects(b, a)
    ensures Rectangles.ContainsPoint(a, p) && Rectangles.ContainsPoint(b, p) ==> BBoxIntersects(a, b)
    ensures BBoxIntersects(a, b) ==>
      var corner := Point(Measurement(if Rectangles.X0(a) < Rectangles.X0(b) then Rectangles.X0(b) else Rectangles.X0(a)),
                          Measurement(if Rectangles.Y0(a) < Rectangles.Y0(b) then Rectangles.Y0(b) else Rectangles.Y0(a)));
      Rectangles.ContainsPoint(a, corner) && Rectangles.ContainsPoint(b, corner)
    ensures Rectangles.IntersectsRect(a, b) ==> BBoxIntersects(a, b)
  {
  }

  /** Two 10 x 10 boxes side by side touch: the closed test says they intersect, the strict
      one says they do not. */
  lemma TouchingBoxes()
    ensures var a := Rectangles.Rectangle(Point(Measurement(0.0), Measurement(0.0)), Measurement(10.0), Measurement(10.0));
            var b := Rectangles.Rectangle(Point(Measurement(10.0), Measurement(0.0)), Measurement(10.0), Measurement(10.0));
            BBoxIntersects(a, b) && !Rectangles.IntersectsRect(a, b)
  {
  }

  /** Number.EPSILON, 2^-52, added to the edge's y-extent before dividing. */
  const NUMBER_EPSILON: real := 1.0 / 4503599627370496.0

  /** Whether the horizontal ray from `p` to the right crosses the edge from `a` (index i) to
      `b` (index j): the edge straddles the ray's y, and the ray's x is left of the edge's x
      at that y. When the nudged denominator is exactly zero the quotient is an infinity
      whose sign is that of the numerator (a zero numerator gives NaN, which compares false). */
  predicate EdgeCrosses(p: Point, a: Point, b: Point)
  {
    var x, y := p.x.valueMm, p.y.valueMm;
    var xi, yi := a.x.valueMm, a.y.valueMm;
    var xj, yj := b.x.valueMm, b.y.valueMm;
    ((yi > y) != (yj > y)) &&
      var num, den := (xj - xi) * (y - yi), yj - yi + NUMBER_EPSILON;
      if den == 0.0 then num > 0.0 else x < num / den + xi
  }

  /** The edge the loop examines at step i joins pts[i] to pts[j], j being the previous index
      (the last one when i is 0). */
  function Prev(i: nat, n: nat): nat
    requires i < n
  {
    if i == 0 then n - 1 else i - 1
  }

  /** The `inside` flag after the first k steps of the loop. */
  function CrossingParity(p: Point, pts: seq<Point>, k: nat): bool
    requires k <= |pts|
  {
    if k == 0 then false
    else CrossingParity(p, pts, k - 1) != EdgeCrosses(p, pts[k - 1], pts[Prev(k - 1, |pts|)])
  }

  /** The number of edges among the first k the ray crosses. */
  function CrossingCount(p: Point, pts: seq<Point>, k: nat): nat
    requires k <= |pts|
  {
    if k == 0 then 0
    else CrossingCount(p, pts, k - 1) + (if EdgeCrosses(p, pts[k - 1], pts[Prev(k - 1, |pts|)]) then 1 else 0)
  }

  /** `pointInPolygon`: the even-odd rule. */
  predicate PointInPolygon(p: Point, pts: seq<Point>)
  {
    CrossingParity(p, pts, |pts|)
  }

  /** Flipping a flag when a count grows by one keeps "flag iff count is odd". */
  lemma OddAfterStep(c: nat, step: bool)
    ensures ((if step then c + 1 else c) % 2 == 1) <==> ((c % 2 == 1) != step)
  {
  }

  /** The flag flipped once per crossing ends up true exactly when the number of crossings is
      odd. */
  lemma {:induction false} ParityIsOddCount(p: Point, pts: seq<Point>, k: nat)
    requires k <= |pts|
    ensures CrossingParity(p, pts, k) <==> CrossingCount(p, pts, k) % 2 == 1
  {
    if k > 0 {
      ParityIsOddCount(p, pts, k - 1);
      OddAfterStep(CrossingCount(p, pts, k - 1), EdgeCrosses(p, pts[k - 1], pts[Prev(k - 1, |pts|)]));
    }
  }

  /** A point is inside exactly when the ray crosses an odd number of edges. */
  lemma PointInPolygonIsEvenOdd(p: Point, pts: seq<Point>)
    ensures PointInPolygon(p, pts) <==> CrossingCount(p, pts, |pts|) % 2 == 1
  {
    ParityIsOddCount(p, pts, |pts|);
  }

  /** The ray-casting loop of `pointInPolygon`, walking i forward with j one behind. */
  method PointInPolygonLoop(p: Point, pts: seq<Point>) returns (inside: bool)
    ensures inside == PointInPolygon(p, pts)
  {
    inside := false;
    var i := 0;
    var j := |pts| - 1;
    while i < |pts|
      invariant 0 <= i <= |pts|
      invariant i < |pts| ==> j == Prev(i, |pts|)
      invariant inside == CrossingParity(p, pts, i)
    {
      var intersect := EdgeCrosses(p, pts[i], pts[j]);
      if intersect {
        inside := !inside;
      }
      j := i;
      i := i + 1;
    }
  }

  /** For the 4 x 4 square with corners (0,0), (4,0), (4,4), (0,4): (2,2) is inside and (5,2)
      is not. */
  lemma PointInPolygonExamples()
    ensures var sq := [Point(Measurement(0.0), Measurement(0.0)), Point(Measurement(4.0), Measurement(0.0)),
                       Point(Measurement(4.0), Measurement(4.0)), Point(Measurement(0.0), Measurement(4.0))];
            PointInPolygon(Point(Measurement(2.0), Measurement(2.0)), sq) &&
            !PointInPolygon(Point(Measurement(5.0), Measurement(2.0)), sq)
  {
    var sq := [Point(Measurement(0.0), Measurement(0.0)), Point(Measurement(4.0), Measurement(0.0)),
               Point(Measurement(4.0), Measurement(4.0)), Point(Measurement(0.0), Measurement(4.0))];
    var inner := Point(Measurement(2.0), Measurement(2.0));
    var outer := Point(Measurement(5.0), Measurement(2.0));
    assert !EdgeCrosses(inner, sq[0], sq[3]) && !EdgeCrosses(inner, sq[1], sq[0]);
    assert EdgeCrosses(inner, sq[2], sq[1]) && !EdgeCrosses(inner, sq[3], sq[2]);
    assert !CrossingParity(inner, sq, 1) && !CrossingParity(inner, sq, 2);
    assert CrossingParity(inner, sq, 3) && CrossingParity(inner, sq, 4);
    assert !EdgeCrosses(outer, sq[0], sq[3]) && !EdgeCrosses(outer, sq[1], sq[0]);
    assert !EdgeCrosses(outer, sq[2], sq[1]) && !EdgeCrosses(outer, sq[3], sq[2]);
    assert !CrossingParity(outer, sq, 1) && !CrossingParity(outer, sq, 2);
    assert !CrossingParity(outer, sq, 3) && !CrossingParity(outer, sq, 4);
  }

  /** One coordinate of a cubic Bezier curve at parameter t, from the control coordinates
      a, b, c, e: (1-t)^3 a + 3 (1-t)^2 t b + 3 (1-t) t^2 c + t^3 e. */
  function Bernstein(t: real, a: real, b: real, c: real, e: real): real
  {
    var u := 1.0 - t;
    u * u * u * a + 3.0 * u * u * t * b + 3.0 * u * t * t * c + t * t * t * e
  }

  /** The point at parameter t of the cubic Bezier curve with control points p0..p3. */
  function CubicBezierPoint(p0: Point, p1: Point, p2: Point, p3: Point, t: real): Point
  {
    Point(Measurement(Bernstein(t, p0.x.valueMm, p1.x.valueMm, p2.x.valueMm, p3.x.valueMm)),
          Measurement(Bernstein(t, p0.y.valueMm, p1.y.valueMm, p2.y.valueMm, p3.y.valueMm)))
  }

  /** `sampleCubicBezier`: the curve at t = i / steps for i = 0 .. steps; the samples start at
      p0 and end at p3. */
  function CubicBezierSamples(p0: Point, p1: Point, p2: Point, p3: Point, steps: nat): (pts: seq<Point>)
    requires steps > 0
    ensures |pts| == steps + 1 && pts[0] == p0 && pts[steps] == p3
  {
    assert (steps as real) / (steps as real) == 1.0;
    seq(steps + 1, i requires 0 <= i <= steps => CubicBezierPoint(p0, p1, p2, p3, (i as real) / (steps as real)))
  }

  /** The loop of `sampleCubicBezier`, pushing one point per step. */
  method SampleCubicBezier(p0: Point, p1: Point, p2: Point, p3: Point, steps: nat) returns (pts: seq<Point>)
    requires steps > 0
    ensures pts == CubicBezierSamples(p0, p1, p2, p3, steps)
  {
    pts := [];
    for i := 0 to steps + 1
      invariant |pts| == i
      invariant forall j :: 0 <= j < i ==> pts[j] == CubicBezierPoint(p0, p1, p2, p3, (j as real) / (steps as real))
    {
      pts := pts + [CubicBezierPoint(p0, p1, p2, p3, (i as real) / (steps as real))];
    }
  }

  /** The four Bernstein weights add up to one: ((1 - t) + t)^3 = 1. */
  lemma BernsteinWeightsSumToOne(t: real)
    ensures var u := 1.0 - t;
            u * u * u + 3.0 * u * u * t + 3.0 * u * t * t + t * t * t == 1.0
  {
    var u := 1.0 - t;
    assert u + t == 1.0;
    assert u * u * u + 3.0 * u * u * t + 3.0 * u * t * t + t * t * t == (u + t) * (u + t) * (u + t);
  }

  /** Weights adding up to one commute with a shift: the weighted sum of shifted values is the
      shifted weighted sum. */
  lemma ShiftedWeightedSum(w0: real, w1: real, w2: real, w3: real, a: real, b: real, c: real, e: real, d: real)
    requires w0 + w1 + w2 + w3 == 1.0
    ensures w0 * (a + d) + w1 * (b + d) + w2 * (c + d) + w3 * (e + d) == w0 * a + w1 * b + w2 * c + w3 * e + d
  {
    assert w0 * (a + d) + w1 * (b + d) + w2 * (c + d) + w3 * (e + d)
        == w0 * a + w1 * b + w2 * c + w3 * e + (w0 + w1 + w2 + w3) * d;
  }

  /** Shifting all four control coordinates shifts the curve coordinate by the same amount. */
  lemma BernsteinShift(t: real, a: real, b: real, c: real, e: real, d: real)
    ensures Bernstein(t, a + d, b + d, c + d, e + d) == Bernstein(t, a, b, c, e) + d
  {
    var u := 1.0 - t;
    BernsteinWeightsSumToOne(t);
    ShiftedWeightedSum(u * u * u, 3.0 * u * u * t, 3.0 * u * t * t, t * t * t, a, b, c, e, d);
  }

  /** A curve point of the translated control points is the translated curve point. */
  lemma CubicBezierPointTranslate(p0: Point, p1: Point, p2: Point, p3: Point, t: real, dx: Measurement, dy: Measurement)
    ensures CubicBezierPoint(Translate(p0, dx, dy), Translate(p1, dx, dy), Translate(p2, dx, dy), Translate(p3, dx, dy), t)
         == Translate(CubicBezierPoint(p0, p1, p2, p3, t), dx, dy)
  {
    BernsteinShift(t, p0.x.valueMm, p1.x.valueMm, p2.x.valueMm, p3.x.valueMm, dx.valueMm);
    BernsteinShift(t, p0.y.valueMm, p1.y.valueMm, p2.y.valueMm, p3.y.valueMm, dy.valueMm);
  }
}
