/** The point helpers of src/app/core/geometry/utils.ts that the shapes use to rotate, scale
    and translate their defining points. Sine and cosine are not computed here: `rotatePoint`
    takes them as a parameter. */
module PointTransforms {
  import opened Measurements
  import opened Points
  import Angles
  import RealFacts

  /** `Math.cos` and `Math.sin` of an angle in radians and `Math.atan2(y, x)`, supplied by the
      caller. */
  datatype Trig = Trig(cos: real -> real, sin: real -> real, atan2: (real, real) -> real)

  /** What every caller may rely on: cos^2 + sin^2 = 1, and cos 0 = 1, sin 0 = 0. */
  ghost predicate IsTrig(trig: Trig)
  {
    trig.cos(0.0) == 1.0 && trig.sin(0.0) == 0.0
      && forall t: real {:trigger trig.cos(t)} :: trig.cos(t) * trig.cos(t) + trig.sin(t) * trig.sin(t) == 1.0
  }

  /** `rotatePoint`: `p` turned about `origin` by `angle`, counter-clockwise in the usual
      mathematical orientation, as the 2 x 2 rotation matrix of (cos, sin) applied to p - origin. */
  function RotatePoint(p: Point, angle: Angles.Angle, origin: Point, trig: Trig): (q: Point)
  {
    var c := trig.cos(Angles.ToRadians(angle));
    var s := trig.sin(Angles.ToRadians(angle));
    var u := p.x.valueMm - origin.x.valueMm;
    var v := p.y.valueMm - origin.y.valueMm;
    Point(Measurement(c * u - s * v + origin.x.valueMm), Measurement(s * u + c * v + origin.y.valueMm))
  }

  /** The rotation matrix keeps lengths: (c u - s v)^2 + (s u + c v)^2 = (c^2 + s^2)(u^2 + v^2),
      which is u^2 + v^2 when c^2 + s^2 = 1. */
  lemma RotationKeepsLength(c: real, s: real, u: real, v: real)
    requires c * c + s * s == 1.0
    ensures (c * u - s * v) * (c * u - s * v) + (s * u + c * v) * (s * u + c * v) == u * u + v * v
  {
    var k := c * c + s * s;
    assert (c * u - s * v) * (c * u - s * v) + (s * u + c * v) * (s * u + c * v) == k * (u * u + v * v);
  }

  /** Rotation fixes the origin and rotating by the zero angle is the identity. */
  lemma RotatePointFixes(p: Point, angle: Angles.Angle, origin: Point, trig: Trig)
    requires IsTrig(trig)
    ensures RotatePoint(origin, angle, origin, trig) == origin
    ensures RotatePoint(p, Angles.Angle(0.0), origin, trig) == p
  {
  }

  /** Rotation keeps every point's distance to the origin of the rotation. */
  lemma RotatePointKeepsDistance(p: Point, angle: Angles.Angle, origin: Point, trig: Trig)
    requires IsTrig(trig)
    ensures SqDist(RotatePoint(p, angle, origin, trig), origin) == SqDist(p, origin)
  {
    var t := Angles.ToRadians(angle);
    var c, s := trig.cos(t), trig.sin(t);
    var u := p.x.valueMm - origin.x.valueMm;
    var v := p.y.valueMm - origin.y.valueMm;
    RotationKeepsLength(c, s, u, v);
    var q := RotatePoint(p, angle, origin, trig);
    var du, dv := q.x.valueMm - origin.x.valueMm, q.y.valueMm - origin.y.valueMm;
    assert du == c * u - s * v && dv == s * u + c * v;
    assert SqDist(q, origin) == du * du + dv * dv;
  }

  /** `scalePoint`: the point moved away from (or towards) `origin` by `factor`:
      origin + (p - origin) * factor, per coordinate, in millimetres. */
  function ScalePoint(p: Point, factor: real, origin: Point): (q: Point)
    ensures q.x.valueMm - origin.x.valueMm == (p.x.valueMm - origin.x.valueMm) * factor
    ensures q.y.valueMm - origin.y.valueMm == (p.y.valueMm - origin.y.valueMm) * factor
  {
    Point(Measurement(origin.x.valueMm + (p.x.valueMm - origin.x.valueMm) * factor),
          Measurement(origin.y.valueMm + (p.y.valueMm - origin.y.valueMm) * factor))
  }

  /** The origin is a fixed point, factor 1 is the identity, scalings about one origin compose
      by multiplying their factors, and a nonzero factor is undone by its reciprocal. */
  lemma ScalePointProperties(p: Point, origin: Point, f: real, g: real)
    ensures ScalePoint(origin, f, origin) == origin
    ensures ScalePoint(p, 1.0, origin) == p
    ensures ScalePoint(ScalePoint(p, f, origin), g, origin) == ScalePoint(p, f * g, origin)
    ensures f != 0.0 ==> ScalePoint(ScalePoint(p, f, origin), 1.0 / f, origin) == p
  {
    var dx := p.x.valueMm - origin.x.valueMm;
    var dy := p.y.valueMm - origin.y.valueMm;
    assert (dx * f) * g == dx * (f * g);
    assert (dy * f) * g == dy * (f * g);
    var twice, once := ScalePoint(ScalePoint(p, f, origin), g, origin), ScalePoint(p, f * g, origin);
    assert twice.x.valueMm == once.x.valueMm && twice.y.valueMm == once.y.valueMm;
    if f != 0.0 {
      assert (dx * f) * (1.0 / f) == dx;
      assert (dy * f) * (1.0 / f) == dy;
    }
  }

  /** `translatePoint` delegates to Point.translate. */
  function TranslatePoint(p: Point, dx: Measurement, dy: Measurement): (q: Point)
    ensures q == Points.Translate(p, dx, dy)
  {
    Points.Translate(p, dx, dy)
  }

  /** Scaling about an origin commutes with translating point and origin together. */
  lemma ScaleCommutesWithTranslate(p: Point, origin: Point, f: real, dx: Measurement, dy: Measurement)
    ensures ScalePoint(Points.Translate(p, dx, dy), f, Points.Translate(origin, dx, dy))
         == Points.Translate(ScalePoint(p, f, origin), dx, dy)
  {
  }

  /** `points.map(p => p.translate(dx, dy))`, as the point-list shapes write it. */
  function TranslateAll(pts: seq<Point>, dx: Measurement, dy: Measurement): (r: seq<Point>)
    ensures |r| == |pts| && forall i :: 0 <= i < |pts| ==> r[i] == Points.Translate(pts[i], dx, dy)
  {
    seq(|pts|, i requires 0 <= i < |pts| => Points.Translate(pts[i], dx, dy))
  }

  /** `points.map(p => scalePoint(p, factor, origin))`. */
  function ScaleAll(pts: seq<Point>, factor: real, origin: Point): (r: seq<Point>)
    ensures |r| == |pts| && forall i :: 0 <= i < |pts| ==> r[i] == ScalePoint(pts[i], factor, origin)
  {
    seq(|pts|, i requires 0 <= i < |pts| => ScalePoint(pts[i], factor, origin))
  }

  /** `points.map(f)` for a point map `f` such as a rotation. */
  function MapAll(pts: seq<Point>, f: Point -> Point): (r: seq<Point>)
    ensures |r| == |pts| && forall i :: 0 <= i < |pts| ==> r[i] == f(pts[i])
  {
    seq(|pts|, i requires 0 <= i < |pts| => f(pts[i]))
  }
}
