/** Triangle: three non-collinear vertices (src/app/core/geometry/Triangle.ts). */
module Triangles {
  import opened Wrappers
  import opened Measurements
  import opened Points
  import PointTransforms
  import Rectangles
  import GeometryUtils
  import RealFacts

  datatype Triangle = Triangle(a: Point, b: Point, c: Point)

  /** `computeAreaValue`: half the cross product of b - a and c - a, in square millimetres;
      positive when a, b, c turn counter-clockwise in a y-up frame, zero when collinear. */
  function SignedArea(a: Point, b: Point, c: Point): real
  {
    var xa, ya := a.x.valueMm, a.y.valueMm;
    var xb, yb := b.x.valueMm, b.y.valueMm;
    var xc, yc := c.x.valueMm, c.y.valueMm;
    0.5 * ((xb - xa) * (yc - ya) - (xc - xa) * (yb - ya))
  }

  /** The signed area only depends on the cyclic order of the vertices: rotating them keeps
      it, swapping two negates it, and it is unchanged when all three move by the same offset. */
  lemma SignedAreaProperties(a: Point, b: Point, c: Point, dx: Measurement, dy: Measurement)
    ensures SignedArea(b, c, a) == SignedArea(a, b, c)
    ensures SignedArea(b, a, c) == -SignedArea(a, b, c)
    ensures SignedArea(Points.Translate(a, dx, dy), Points.Translate(b, dx, dy), Points.Translate(c, dx, dy)) == SignedArea(a, b, c)
  {
  }

  /** A cross product of two vectors both scaled by f is scaled by f squared. */
  lemma CrossProductScales(u: real, v: real, w: real, z: real, f: real)
    ensures (u * f) * (v * f) - (w * f) * (z * f) == (u * v - w * z) * f * f
  {
  }

  /** Scaling all three vertices about one origin multiplies the signed area by the factor
      squared. */
  lemma SignedAreaScales(a: Point, b: Point, c: Point, factor: real, origin: Point)
    ensures SignedArea(PointTransforms.ScalePoint(a, factor, origin), PointTransforms.ScalePoint(b, factor, origin),
                       PointTransforms.ScalePoint(c, factor, origin)) == SignedArea(a, b, c) * factor * factor
  {
    var sa := PointTransforms.ScalePoint(a, factor, origin);
    var sb := PointTransforms.ScalePoint(b, factor, origin);
    var sc := PointTransforms.ScalePoint(c, factor, origin);
    var u, v := b.x.valueMm - a.x.valueMm, c.y.valueMm - a.y.valueMm;
    var w, z := c.x.valueMm - a.x.valueMm, b.y.valueMm - a.y.valueMm;
    assert sb.x.valueMm - sa.x.valueMm == u * factor;
    assert sc.y.valueMm - sa.y.valueMm == v * factor;
    assert sc.x.valueMm - sa.x.valueMm == w * factor;
    assert sb.y.valueMm - sa.y.valueMm == z * factor;
    CrossProductScales(u, v, w, z, factor);
  }

  /** The constructor's invariant: the vertices are not collinear. */
  predicate Valid(t: Triangle)
  {
    Abs(SignedArea(t.a, t.b, t.c)) != 0.0
  }

  /** The constructor: rejects collinear vertices (signed area exactly zero). */
  function New(a: Point, b: Point, c: Point): (r: Result<Triangle>)
    ensures r.Ok? <==> SignedArea(a, b, c) != 0.0
    ensures r.Ok? ==> Valid(r.value) && r.value == Triangle(a, b, c)
  {
    if Abs(SignedArea(a, b, c)) == 0.0 then Err("Points must not be collinear")
    else Ok(Triangle(a, b, c))
  }

  /** `area`: the absolute signed area; positive exactly for a valid triangle and the same
      for every order of the vertices. */
  function Area(t: Triangle): (r: Measurement)
    ensures r.valueMm >= 0.0
    ensures r.valueMm > 0.0 <==> Valid(t)
    ensures r.valueMm == SignedArea(t.a, t.b, t.c) || r.valueMm == -SignedArea(t.a, t.b, t.c)
  {
    Measurement(Abs(SignedArea(t.a, t.b, t.c)))
  }

  /** Reordering the vertices leaves the area unchanged. */
  lemma AreaIgnoresOrder(t: Triangle)
    ensures Area(Triangle(t.b, t.c, t.a)) == Area(t)
    ensures Area(Triangle(t.b, t.a, t.c)) == Area(t)
  {
    SignedAreaProperties(t.a, t.b, t.c, Zero, Zero);
  }

  /** `perimeter`: the sum of the three side lengths, each given by `dist`. */
  function Perimeter(t: Triangle, dist: (Point, Point) -> real): (r: Measurement)
    requires IsDistanceFunction(dist)
    ensures r.valueMm >= 0.0
  {
    Measurement(dist(t.a, t.b) + dist(t.b, t.c) + dist(t.c, t.a))
  }

  /** The right triangle (0,0), (4,0), (0,3) has area 6 and perimeter 12; three points on one
      line are rejected. */
  lemma AreaPerimeterExamples(dist: (Point, Point) -> real)
    requires IsDistanceFunction(dist)
    ensures var t := Triangle(Point(Zero, Zero), Point(Measurement(4.0), Zero), Point(Zero, Measurement(3.0)));
            Area(t) == Measurement(6.0) && Perimeter(t, dist) == Measurement(12.0)
    ensures New(Point(Zero, Zero), Point(Measurement(1.0), Measurement(1.0)), Point(Measurement(2.0), Measurement(2.0))).Err?
  {
    var a, b, c := Point(Zero, Zero), Point(Measurement(4.0), Zero), Point(Zero, Measurement(3.0));
    var ab, bc, ca := dist(a, b), dist(b, c), dist(c, a);
    assert IsDistance(a, b, ab) && IsDistance(b, c, bc) && IsDistance(c, a, ca);
    RealFacts.SquareRootUnique(ab, 4.0);
    RealFacts.SquareRootUnique(bc, 5.0);
    RealFacts.SquareRootUnique(ca, 3.0);
  }

  /** `translate`: every vertex moves by (dx, dy). The signed area is unchanged, so the
      constructor it calls cannot fail. */
  function Translate(t: Triangle, dx: Measurement, dy: Measurement): (r: Triangle)
    ensures r == Triangle(Points.Translate(t.a, dx, dy), Points.Translate(t.b, dx, dy), Points.Translate(t.c, dx, dy))
    ensures Valid(t) ==> Valid(r)
    ensures Area(r) == Area(t)
  {
    SignedAreaProperties(t.a, t.b, t.c, dx, dy);
    Triangle(Points.Translate(t.a, dx, dy), Points.Translate(t.b, dx, dy), Points.Translate(t.c, dx, dy))
  }

  /** `rotate`: the vertices mapped by `rot` (the rotation about the origin), through the
      constructor. */
  function Rotate(t: Triangle, rot: Point -> Point): (r: Result<Triangle>)
    ensures r.Ok? <==> SignedArea(rot(t.a), rot(t.b), rot(t.c)) != 0.0
    ensures r.Ok? ==> r.value == Triangle(rot(t.a), rot(t.b), rot(t.c))
  {
    New(rot(t.a), rot(t.b), rot(t.c))
  }

  /** An area s scaled by f squared is zero exactly when s or f is, and its absolute value
      scales the same way. */
  lemma ScaledAbs(scaled: real, s: real, f: real)
    requires scaled == s * f * f
    ensures scaled != 0.0 <==> s != 0.0 && f != 0.0
    ensures Abs(scaled) == Abs(s) * f * f
  {
    var sf := s * f;
    assert scaled == sf * f;
    RealFacts.ProductSign(s, f);
    RealFacts.ProductSign(sf, f);
    if s < 0.0 {
      assert Abs(s) * f * f == -(sf * f);
    }
  }

  /** An area under a linear scale factor f: multiplied by f squared. */
  function ScaledArea(area: real, f: real): real
  {
    area * f * f
  }

  /** The triangle with every vertex scaled about `origin`; `Scale` passes it to the
      constructor. */
  function ScaledVertices(t: Triangle, factor: real, origin: Point): (r: Triangle)
    ensures SignedArea(r.a, r.b, r.c) == SignedArea(t.a, t.b, t.c) * factor * factor
    ensures SignedArea(r.a, r.b, r.c) != 0.0 <==> SignedArea(t.a, t.b, t.c) != 0.0 && factor != 0.0
    ensures Abs(SignedArea(r.a, r.b, r.c)) == ScaledArea(Abs(SignedArea(t.a, t.b, t.c)), factor)
  {
    SignedAreaScales(t.a, t.b, t.c, factor, origin);
    ScaledAbs(SignedArea(PointTransforms.ScalePoint(t.a, factor, origin), PointTransforms.ScalePoint(t.b, factor, origin),
                         PointTransforms.ScalePoint(t.c, factor, origin)), SignedArea(t.a, t.b, t.c), factor);
    Triangle(PointTransforms.ScalePoint(t.a, factor, origin), PointTransforms.ScalePoint(t.b, factor, origin),
             PointTransforms.ScalePoint(t.c, factor, origin))
  }

  /** `scale`: every vertex scaled about `origin`, through the constructor. */
  function Scale(t: Triangle, factor: real, origin: Point): (r: Result<Triangle>)
    ensures r.Ok? ==> r.value == ScaledVertices(t, factor, origin)
  {
    var u := ScaledVertices(t, factor, origin);
    New(u.a, u.b, u.c)
  }

  /** A valid triangle scales successfully exactly when the factor is nonzero (a negative
      factor mirrors it), and its area is then multiplied by the factor squared. */
  lemma ScaleProperties(t: Triangle, factor: real, origin: Point)
    requires Valid(t)
    ensures Scale(t, factor, origin).Ok? <==> factor != 0.0
    ensures Scale(t, factor, origin).Ok? ==> Area(Scale(t, factor, origin).value).valueMm == ScaledArea(Area(t).valueMm, factor)
  {
    var u := ScaledVertices(t, factor, origin);
    assert Area(u).valueMm == Abs(SignedArea(u.a, u.b, u.c));
  }

  /** `boundingBox`: the box of the three vertices. */
  function BoundingBox(t: Triangle): (r: Result<Rectangles.Rectangle>)
    ensures r == GeometryUtils.BoundingBoxFromPoints([t.a, t.b, t.c])
  {
    GeometryUtils.BoundingBoxFromPoints([t.a, t.b, t.c])
  }

  /** Three points sharing an x or a y coordinate are collinear. */
  lemma SharedCoordinateCollinear(a: Point, b: Point, c: Point)
    ensures a.x == b.x == c.x ==> SignedArea(a, b, c) == 0.0
    ensures a.y == b.y == c.y ==> SignedArea(a, b, c) == 0.0
  {
  }

  /** A valid triangle always has a bounding box, and it holds the three vertices: vertices
      sharing one x (or one y) coordinate would be collinear. */
  lemma BoundingBoxOfValid(t: Triangle)
    requires Valid(t)
    ensures BoundingBox(t).Ok?
    ensures var box := BoundingBox(t).value;
            Rectangles.ContainsPoint(box, t.a) && Rectangles.ContainsPoint(box, t.b) && Rectangles.ContainsPoint(box, t.c)
  {
    var pts := [t.a, t.b, t.c];
    GeometryUtils.BoundingBoxFromPointsSpec(pts);
    var xs, ys := GeometryUtils.Xs(pts), GeometryUtils.Ys(pts);
    SharedCoordinateCollinear(t.a, t.b, t.c);
    if xs[1] != xs[0] {
      assert xs[0] != xs[1];
    } else {
      assert xs[0] != xs[2];
    }
    if ys[1] != ys[0] {
      assert ys[0] != ys[1];
    } else {
      assert ys[0] != ys[2];
    }
    assert pts[0] == t.a && pts[1] == t.b && pts[2] == t.c;
  }

  /** `contains`: the even-odd test on the three vertices. */
  predicate Contains(t: Triangle, p: Point)
  {
    GeometryUtils.PointInPolygon(p, [t.a, t.b, t.c])
  }

  /** `equals` (between two Triangles): the vertices pairwise equal, in order. */
  predicate Equals(s: Triangle, t: Triangle)
  {
    Points.Equals(s.a, t.a) && Points.Equals(s.b, t.b) && Points.Equals(s.c, t.c)
  }

  /** Equality is order-sensitive: the same vertices listed from another corner do not compare
      equal, although the area is the same. */
  lemma EqualsIsOrderSensitive()
    ensures var t := Triangle(Point(Zero, Zero), Point(Measurement(4.0), Zero), Point(Zero, Measurement(3.0)));
            Equals(t, t) && !Equals(t, Triangle(t.b, t.c, t.a)) && Area(Triangle(t.b, t.c, t.a)) == Area(t)
  {
    var t := Triangle(Point(Zero, Zero), Point(Measurement(4.0), Zero), Point(Zero, Measurement(3.0)));
    Points.EqualsProperties(t.a, t.a);
    Points.EqualsProperties(t.b, t.b);
    Points.EqualsProperties(t.c, t.c);
    AreaIgnoresOrder(t);
  }
}
