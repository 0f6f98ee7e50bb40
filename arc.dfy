/** Arc: a circular arc given by its centre, a positive radius, start and end angles and a
    direction flag (src/app/core/geometry/Arc.ts). */
module Arcs {
  import opened Wrappers
  import opened Measurements
  import opened Points
  import PointTransforms
  import Rectangles
  import GeometryUtils
  import Angles
  import Circles
  import RealFacts

  datatype Arc = Arc(center: Point, radius: Measurement, start: Angles.Angle, end: Angles.Angle, clockwise: bool)

  /** The constructor's invariant: the radius compares greater than zero. */
  predicate Valid(a: Arc)
  {
    CompareTo(a.radius, Zero) > 0.0
  }

  /** The constructor: rejects a radius that is not positive. `clockwise` is optional in the
      source and defaults to false; here it is always passed. */
  function New(center: Point, radius: Measurement, start: Angles.Angle, end: Angles.Angle, clockwise: bool): (r: Result<Arc>)
    ensures r.Ok? <==> radius.valueMm > 0.0
    ensures r.Ok? ==> Valid(r.value) && r.value == Arc(center, radius, start, end, clockwise)
    ensures r.Err? ==> r.message == "Radius must be positive"
  {
    if CompareTo(radius, Zero) <= 0.0 then Err("Radius must be positive")
    else Ok(Arc(center, radius, start, end, clockwise))
  }

  /** One full turn, `2 * Math.PI`. */
  const FULL_TURN: real := 2.0 * Angles.PI

  /** The remainder of a non-negative `x` divided by FULL_TURN, as JavaScript's `%`
      computes it on non-negative operands: whole turns are taken away while one fits. */
  function RemainderOfTurns(x: real): (r: real)
    requires x >= 0.0
    ensures 0.0 <= r < FULL_TURN
    decreases x.Floor
  {
    if x >= FULL_TURN then RemainderOfTurns(x - FULL_TURN) else x
  }

  /** The swept angle for a signed angle difference `diff`: |diff|, reduced modulo a full
      turn only when it exceeds one. */
  function SweepOf(diff: real): (theta: real)
    ensures 0.0 <= theta <= FULL_TURN
    ensures Abs(diff) <= FULL_TURN ==> theta == Abs(diff)
  {
    var theta := Abs(diff);
    if theta > FULL_TURN then RemainderOfTurns(theta) else theta
  }

  /** `k` whole turns. */
  function Turns(k: nat): real
  {
    k as real * FULL_TURN
  }

  /** What JavaScript's `%` takes away is a whole number of turns: a non-negative `x` is its
      remainder plus k full turns for some k. */
  lemma {:induction false} RemainderIsWholeTurnsOff(x: real)
    requires x >= 0.0
    ensures exists k: nat :: x == Turns(k) + RemainderOfTurns(x)
    decreases x.Floor
  {
    if x >= FULL_TURN {
      RemainderIsWholeTurnsOff(x - FULL_TURN);
      var k: nat :| x - FULL_TURN == Turns(k) + RemainderOfTurns(x - FULL_TURN);
      assert x == Turns(k + 1) + RemainderOfTurns(x);
    } else {
      assert x == Turns(0) + RemainderOfTurns(x);
    }
  }

  /** The swept angle is |diff| less a whole number of turns (none when |diff| is at most a
      full turn), so it names the same direction as |diff|. */
  lemma SweepCongruent(diff: real)
    ensures exists k: nat :: Abs(diff) == Turns(k) + SweepOf(diff)
  {
    if Abs(diff) > FULL_TURN {
      RemainderIsWholeTurnsOff(Abs(diff));
    } else {
      assert Abs(diff) == Turns(0) + SweepOf(diff);
    }
  }

  /** The swept angle that `area` and `perimeter` use: that of end - start in radians. */
  function Sweep(a: Arc): real
  {
    SweepOf(Angles.ToRadians(a.end) - Angles.ToRadians(a.start))
  }

  /** The sweep depends on the size of the difference only, not on its sign. */
  lemma SweepOfSymmetric(diff: real)
    ensures SweepOf(-diff) == SweepOf(diff)
  {
    assert Abs(-diff) == Abs(diff);
  }

  /** `area`: the sector area r^2 * theta / 2. */
  function Area(a: Arc): Measurement
  {
    var r := a.radius.valueMm;
    Measurement(0.5 * r * r * Sweep(a))
  }

  /** `perimeter`: the arc length r * theta. */
  function Perimeter(a: Arc): Measurement
  {
    Measurement(a.radius.valueMm * Sweep(a))
  }

  /** The sector area 0.5 r^2 t is half of the arc length r t times r, and neither is
      negative for r > 0 and t >= 0. */
  lemma SectorFacts(r: real, t: real)
    requires t >= 0.0
    ensures 0.5 * r * r * t == r * t * r / 2.0
    ensures r > 0.0 ==> 0.5 * r * r * t >= 0.0 && r * t >= 0.0
  {
    if r > 0.0 {
      RealFacts.MulPositive(r, r);
      assert 0.5 * r * r * t == 0.5 * (r * r) * t;
    }
  }

  /** Scaling the radius by f multiplies the arc length by f and the sector area by f^2. */
  lemma ScaledSectorFacts(r: real, f: real, t: real)
    ensures (r * f) * t == r * t * f
    ensures 0.5 * (r * f) * (r * f) * t == 0.5 * r * r * t * (f * f)
  {
  }

  /** Area and arc length are tied by area = length * r / 2, and both are non-negative for a
      valid arc. */
  lemma AreaPerimeterRelation(a: Arc)
    ensures Area(a).valueMm == Perimeter(a).valueMm * a.radius.valueMm / 2.0
    ensures Valid(a) ==> Area(a).valueMm >= 0.0 && Perimeter(a).valueMm >= 0.0
  {
    SectorFacts(a.radius.valueMm, Sweep(a));
  }

  /** Reversing the direction of travel (swapping start and end) changes neither the area nor
      the length. */
  lemma ReverseKeepsMeasures(a: Arc)
    ensures var back := Arc(a.center, a.radius, a.end, a.start, !a.clockwise);
            Sweep(back) == Sweep(a) && Area(back) == Area(a) && Perimeter(back) == Perimeter(a)
  {
    SweepOfSymmetric(a.end.radians - a.start.radians);
    assert a.start.radians - a.end.radians == -(a.end.radians - a.start.radians);
  }

  /** A sweep of exactly one turn is the whole circle (area pi r^2, length 2 pi r), while two
      whole turns wrap around to an empty sweep. */
  lemma FullTurnExamples(c: Point, r: Measurement)
    ensures var full := Arc(c, r, Angles.Angle(0.0), Angles.Angle(FULL_TURN), false);
            Area(full) == Circles.Area(Circles.Circle(c, r)) && Perimeter(full) == Circles.Perimeter(Circles.Circle(c, r))
    ensures Sweep(Arc(c, r, Angles.Angle(0.0), Angles.Angle(2.0 * FULL_TURN), false)) == 0.0
  {
    assert RemainderOfTurns(FULL_TURN) == RemainderOfTurns(0.0) == 0.0;
  }

  /** `translate`: the centre moves by (dx, dy); radius, angles and direction are kept. */
  function Translate(a: Arc, dx: Measurement, dy: Measurement): (t: Arc)
    ensures Valid(a) ==> Valid(t)
    ensures t.radius == a.radius && t.start == a.start && t.end == a.end && t.clockwise == a.clockwise
    ensures Subtract(t.center.x, a.center.x) == dx && Subtract(t.center.y, a.center.y) == dy
  {
    Arc(Points.Translate(a.center, dx, dy), a.radius, a.start, a.end, a.clockwise)
  }

  /** `rotate`: the centre moves to `rotatedCenter` (the centre rotated about the origin) and
      the angle is added to both start and end; radius and direction are kept. */
  function Rotate(a: Arc, rotatedCenter: Point, angle: Angles.Angle): (t: Arc)
    ensures Valid(a) ==> Valid(t)
    ensures t.center == rotatedCenter && t.radius == a.radius && t.clockwise == a.clockwise
    ensures t.start == Angles.Add(a.start, angle) && t.end == Angles.Add(a.end, angle)
  {
    Arc(rotatedCenter, a.radius, Angles.Add(a.start, angle), Angles.Add(a.end, angle), a.clockwise)
  }

  /** Translating and rotating move the arc without changing its sweep, area or length. */
  lemma MovesKeepMeasures(a: Arc, dx: Measurement, dy: Measurement, rotatedCenter: Point, angle: Angles.Angle)
    ensures Sweep(Translate(a, dx, dy)) == Sweep(a)
    ensures Area(Rotate(a, rotatedCenter, angle)) == Area(a)
    ensures Perimeter(Rotate(a, rotatedCenter, angle)) == Perimeter(a)
  {
    var t := Rotate(a, rotatedCenter, angle);
    assert t.end.radians - t.start.radians == a.end.radians - a.start.radians;
    assert Sweep(t) == Sweep(a);
  }

  /** `scale`: the centre is scaled about `origin` and the radius multiplied by the factor,
      through the constructor; angles and direction are kept. */
  function Scale(a: Arc, factor: real, origin: Point): (s: Result<Arc>)
    ensures s.Ok? ==> s.value.center == PointTransforms.ScalePoint(a.center, factor, origin)
    ensures s.Ok? ==> s.value.radius == Multiply(a.radius, factor)
    ensures s.Ok? ==> s.value.start == a.start && s.value.end == a.end && s.value.clockwise == a.clockwise
  {
    New(PointTransforms.ScalePoint(a.center, factor, origin), Multiply(a.radius, factor), a.start, a.end, a.clockwise)
  }

  /** A valid arc scales successfully exactly when the factor is positive; the arc length is
      then multiplied by the factor and the area by its square. */
  lemma ScaleProperties(a: Arc, factor: real, origin: Point)
    requires Valid(a)
    ensures Scale(a, factor, origin).Ok? <==> factor > 0.0
    ensures Scale(a, factor, origin).Ok? ==> Perimeter(Scale(a, factor, origin).value).valueMm == Perimeter(a).valueMm * factor
    ensures Scale(a, factor, origin).Ok? ==> Area(Scale(a, factor, origin).value).valueMm == Area(a).valueMm * (factor * factor)
  {
    var r := a.radius.valueMm;
    if factor > 0.0 {
      RealFacts.MulPositive(r, factor);
      var scaled := Scale(a, factor, origin).value;
      assert scaled.radius.valueMm == r * factor && Sweep(scaled) == Sweep(a);
      ScaledSectorFacts(r, factor, Sweep(a));
    } else {
      RealFacts.MulNonPositive(r, factor);
    }
  }

  /** The number of steps `boundingBox` samples the arc in. */
  const BOX_STEPS: nat := 32

  /** The point of the arc's circle at angle `t` (radians): (cx + r cos t, cy + r sin t). */
  function PointAt(a: Arc, t: real, trig: PointTransforms.Trig): Point
  {
    var r := a.radius.valueMm;
    Point(Measurement(a.center.x.valueMm + r * trig.cos(t)), Measurement(a.center.y.valueMm + r * trig.sin(t)))
  }

  /** The angle of sample i: start + (end - start) * i / 32. */
  function SampleAngle(a: Arc, i: nat): (t: real)
    ensures i == 0 ==> t == a.start.radians
    ensures i == BOX_STEPS ==> t == a.end.radians
  {
    var s, e := Angles.ToRadians(a.start), Angles.ToRadians(a.end);
    s + (e - s) * ((i as real) / (BOX_STEPS as real))
  }

  /** The sampling loop of `boundingBox`: 33 points at angles running evenly from start to end. */
  function Samples(a: Arc, trig: PointTransforms.Trig): (pts: seq<Point>)
    ensures |pts| == BOX_STEPS + 1
    ensures forall i :: 0 <= i <= BOX_STEPS ==> pts[i] == PointAt(a, SampleAngle(a, i), trig)
  {
    seq(BOX_STEPS + 1, i requires 0 <= i <= BOX_STEPS => PointAt(a, SampleAngle(a, i), trig))
  }

  /** `boundingBox`: the box of the sampled points. */
  function BoundingBox(a: Arc, trig: PointTransforms.Trig): Result<Rectangles.Rectangle>
  {
    GeometryUtils.BoundingBoxFromPoints(Samples(a, trig))
  }

  /** Every point of the circle lies in the square of side 2r around the centre. */
  lemma PointAtWithinCircleBox(a: Arc, t: real, trig: PointTransforms.Trig)
    requires Valid(a) && PointTransforms.IsTrig(trig)
    ensures var q, r := PointAt(a, t, trig), a.radius.valueMm;
            a.center.x.valueMm - r <= q.x.valueMm <= a.center.x.valueMm + r
            && a.center.y.valueMm - r <= q.y.valueMm <= a.center.y.valueMm + r
  {
    var r, c, s := a.radius.valueMm, trig.cos(t), trig.sin(t);
    assert c * c + s * s == 1.0;
    assert (r * c) * (r * c) + (r * s) * (r * s) == (r * r) * (c * c + s * s);
    RealFacts.SumOfSquaresBound(r * c, r * s, r);
  }

  /** The circle's box around the centre, as bounds on x and y. */
  predicate InCircleBox(a: Arc, q: Point)
  {
    var r := a.radius.valueMm;
    a.center.x.valueMm - r <= q.x.valueMm <= a.center.x.valueMm + r
      && a.center.y.valueMm - r <= q.y.valueMm <= a.center.y.valueMm + r
  }

  /** Every sample lies in the circle's box. */
  lemma SamplesInCircleBox(a: Arc, trig: PointTransforms.Trig)
    requires Valid(a) && PointTransforms.IsTrig(trig)
    ensures forall i :: 0 <= i < |Samples(a, trig)| ==> InCircleBox(a, Samples(a, trig)[i])
  {
    var pts := Samples(a, trig);
    forall i | 0 <= i < |pts|
      ensures InCircleBox(a, pts[i])
    {
      PointAtWithinCircleBox(a, SampleAngle(a, i), trig);
    }
  }

  /** The sampled box, when it exists, holds the start and end points of the arc and lies
      within the bounding box of the whole circle. */
  lemma BoundingBoxProperties(a: Arc, trig: PointTransforms.Trig)
    requires Valid(a) && PointTransforms.IsTrig(trig)
    ensures BoundingBox(a, trig).Ok? ==>
      var box, r := BoundingBox(a, trig).value, a.radius.valueMm;
      Rectangles.ContainsPoint(box, PointAt(a, a.start.radians, trig))
      && Rectangles.ContainsPoint(box, PointAt(a, a.end.radians, trig))
      && a.center.x.valueMm - r <= Rectangles.X0(box) && Rectangles.X1(box) <= a.center.x.valueMm + r
      && a.center.y.valueMm - r <= Rectangles.Y0(box) && Rectangles.Y1(box) <= a.center.y.valueMm + r
  {
    var pts := Samples(a, trig);
    GeometryUtils.BoundingBoxFromPointsSpec(pts);
    SamplesInCircleBox(a, trig);
    if BoundingBox(a, trig).Ok? {
      var box := BoundingBox(a, trig).value;
      assert pts[0] == PointAt(a, a.start.radians, trig);
      assert pts[BOX_STEPS] == PointAt(a, a.end.radians, trig);
      var xs, ys := GeometryUtils.Xs(pts), GeometryUtils.Ys(pts);
      var i0 :| 0 <= i0 < |xs| && xs[i0] == Rectangles.X0(box);
      var i1 :| 0 <= i1 < |xs| && xs[i1] == Rectangles.X1(box);
      var j0 :| 0 <= j0 < |ys| && ys[j0] == Rectangles.Y0(box);
      var j1 :| 0 <= j1 < |ys| && ys[j1] == Rectangles.Y1(box);
      assert InCircleBox(a, pts[i0]) && InCircleBox(a, pts[i1]) && InCircleBox(a, pts[j0]) && InCircleBox(a, pts[j1]);
    }
  }

  /** `intersects`: the closed overlap of this arc's box with the other shape's box; both
      boxes must exist, or the Rectangle constructor throws. */
  function Intersects(a: Arc, trig: PointTransforms.Trig, otherBox: Result<Rectangles.Rectangle>): (r: Result<bool>)
    ensures r.Ok? <==> BoundingBox(a, trig).Ok? && otherBox.Ok?
    ensures r.Ok? ==> (r.value <==> GeometryUtils.BBoxIntersects(BoundingBox(a, trig).value, otherBox.value))
  {
    var box := BoundingBox(a, trig);
    if box.Err? then Err(box.message)
    else if otherBox.Err? then Err(otherBox.message)
    else Ok(GeometryUtils.BBoxIntersects(box.value, otherBox.value))
  }

  /** The tolerance of `contains` on the distance from the centre: 1e-6 mm. */
  const ON_CIRCLE_EPSILON: real := 0.000001

  /** `contains`: the point lies on the circle (its distance from the centre is within 1e-6 of
      the radius) and its direction from the centre, by atan2, lies between the start and end
      angles, whichever is smaller. */
  predicate Contains(a: Arc, p: Point, dist: (Point, Point) -> real, trig: PointTransforms.Trig)
  {
    var d, r := dist(a.center, p), a.radius.valueMm;
    var angle := trig.atan2(p.y.valueMm - a.center.y.valueMm, p.x.valueMm - a.center.x.valueMm);
    var s, e := Angles.ToRadians(a.start), Angles.ToRadians(a.end);
    Abs(d - r) <= ON_CIRCLE_EPSILON
      && (if s < e then s else e) <= angle && angle <= (if s < e then e else s)
  }

  /** Only points on the circle can be contained: a contained point's squared distance from
      the centre is within (r +- 1e-6)^2; and swapping start and end changes nothing. */
  lemma ContainsProperties(a: Arc, p: Point, dist: (Point, Point) -> real, trig: PointTransforms.Trig)
    requires IsDistanceFunction(dist)
    ensures var r := a.radius.valueMm;
            Contains(a, p, dist, trig) ==>
              r - ON_CIRCLE_EPSILON <= dist(a.center, p) <= r + ON_CIRCLE_EPSILON
              && (r - ON_CIRCLE_EPSILON >= 0.0 ==>
                    (r - ON_CIRCLE_EPSILON) * (r - ON_CIRCLE_EPSILON) <= SqDist(a.center, p)
                    <= (r + ON_CIRCLE_EPSILON) * (r + ON_CIRCLE_EPSILON))
    ensures Contains(Arc(a.center, a.radius, a.end, a.start, a.clockwise), p, dist, trig) <==> Contains(a, p, dist, trig)
  {
    var d, r := dist(a.center, p), a.radius.valueMm;
    assert IsDistance(a.center, p, d);
    if Contains(a, p, dist, trig) && r - ON_CIRCLE_EPSILON >= 0.0 {
      RealFacts.SquareAtLeast(d, r - ON_CIRCLE_EPSILON);
      if d < r + ON_CIRCLE_EPSILON {
        RealFacts.SquareStrictlyIncreasing(d, r + ON_CIRCLE_EPSILON);
      }
    }
  }

  /** `equals` (between two Arcs): equal centres, radii, start and end angles, and the same
      direction. */
  predicate Equals(a: Arc, b: Arc)
  {
    Points.Equals(a.center, b.center) && Measurements.Equals(a.radius, b.radius)
      && Angles.Equals(a.start, b.start) && Angles.Equals(a.end, b.end) && a.clockwise == b.clockwise
  }

  /** Equality is reflexive and symmetric; the same arc traversed the other way is not equal,
      although it has the same area. */
  lemma EqualsProperties(a: Arc, b: Arc)
    ensures Equals(a, a)
    ensures Equals(a, b) <==> Equals(b, a)
    ensures !Equals(a, Arc(a.center, a.radius, a.start, a.end, !a.clockwise))
  {
    Points.EqualsProperties(a.center, b.center);
    Points.EqualsProperties(a.center, a.center);
    Measurements.EqualsReflexiveSymmetric(a.radius, b.radius);
  }
}
