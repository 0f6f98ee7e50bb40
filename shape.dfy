/** Shape: the contract every drawable shape fulfils (src/app/core/geometry/Shape.ts) and its
    dispatch over the concrete shapes. A Square is a Rectangle whose sides are equal
    (Rectangles.NewSquare), so it has no variant of its own. */
module Shapes {
  import opened Wrappers
  import opened Measurements
  import opened Points
  import Angles
  import RealFacts
  import PointTransforms
  import GeometryUtils
  import Rectangles
  import Circles
  import Ellipses
  import Triangles
  import Polygons
  import LineStrings
  import PolygonsWithHoles
  import Arcs
  import BezierCurves

  datatype Shape =
    | RectangleShape(rectangle: Rectangles.Rectangle)
    | CircleShape(circle: Circles.Circle)
    | EllipseShape(ellipse: Ellipses.Ellipse)
    | TriangleShape(triangle: Triangles.Triangle)
    | PolygonShape(polygon: Polygons.Polygon)
    | LineStringShape(lineString: LineStrings.LineString)
    | PolygonWithHolesShape(withHoles: PolygonsWithHoles.PolygonWithHoles)
    | ArcShape(arc: Arcs.Arc)
    | BezierShape(curve: BezierCurves.BezierCurve)

  /** The floating-point library functions the shapes call: Math.hypot (Point.distanceTo),
      Math.sqrt, and Math.cos, Math.sin and Math.atan2. */
  datatype Numerics = Numerics(dist: (Point, Point) -> real, sqrt: real -> real, trig: PointTransforms.Trig)

  /** What the shapes rely on about those functions. */
  ghost predicate ValidNumerics(n: Numerics)
  {
    IsDistanceFunction(n.dist) && RealFacts.IsSquareRoot(n.sqrt) && PointTransforms.IsTrig(n.trig)
  }

  /** What the constructors establish (a PolygonWithHoles checks nothing itself, but its
      polygons were built by the Polygon constructor). */
  predicate Valid(s: Shape)
  {
    match s
    case RectangleShape(r) => Rectangles.Valid(r)
    case CircleShape(c) => Circles.Valid(c)
    case EllipseShape(e) => Ellipses.Valid(e)
    case TriangleShape(t) => Triangles.Valid(t)
    case PolygonShape(p) => Polygons.Valid(p)
    case LineStringShape(l) => LineStrings.Valid(l)
    case PolygonWithHolesShape(h) =>
      Polygons.Valid(h.outer) && forall i :: 0 <= i < |h.holes| ==> Polygons.Valid(h.holes[i])
    case ArcShape(a) => Arcs.Valid(a)
    case BezierShape(_) => true
  }

  /** Both shapes are instances of the same class. */
  predicate SameKind(a: Shape, b: Shape)
  {
    (a.RectangleShape? && b.RectangleShape?) || (a.CircleShape? && b.CircleShape?) ||
    (a.EllipseShape? && b.EllipseShape?) || (a.TriangleShape? && b.TriangleShape?) ||
    (a.PolygonShape? && b.PolygonShape?) || (a.LineStringShape? && b.LineStringShape?) ||
    (a.PolygonWithHolesShape? && b.PolygonWithHolesShape?) || (a.ArcShape? && b.ArcShape?) ||
    (a.BezierShape? && b.BezierShape?)
  }

  /** `area()`, dispatched. */
  function Area(s: Shape): Measurement
  {
    match s
    case RectangleShape(r) => Rectangles.Area(r)
    case CircleShape(c) => Circles.Area(c)
    case EllipseShape(e) => Ellipses.Area(e)
    case TriangleShape(t) => Triangles.Area(t)
    case PolygonShape(p) => Polygons.Area(p)
    case LineStringShape(l) => LineStrings.Area(l)
    case PolygonWithHolesShape(h) => PolygonsWithHoles.Area(h)
    case ArcShape(a) => Arcs.Area(a)
    case BezierShape(b) => BezierCurves.Area(b)
  }

  /** `perimeter()`, dispatched. */
  function Perimeter(s: Shape, n: Numerics): Measurement
    requires Valid(s) && ValidNumerics(n)
  {
    match s
    case RectangleShape(r) => Rectangles.Perimeter(r)
    case CircleShape(c) => Circles.Perimeter(c)
    case EllipseShape(e) => Ellipses.Perimeter(e, n.sqrt)
    case TriangleShape(t) => Triangles.Perimeter(t, n.dist)
    case PolygonShape(p) => Polygons.Perimeter(p, n.dist)
    case LineStringShape(l) => LineStrings.Perimeter(l, n.dist)
    case PolygonWithHolesShape(h) => PolygonsWithHoles.Perimeter(h, n.dist)
    case ArcShape(a) => Arcs.Perimeter(a)
    case BezierShape(b) => BezierCurves.Perimeter(b, n.dist)
  }

  /** `translate(dx, dy)`: a shape of the same class. Every translate goes through its
      constructor, which accepts the moved shape because the sizes it checks are unchanged. */
  function Translate(s: Shape, dx: Measurement, dy: Measurement): (t: Shape)
    ensures SameKind(s, t)
  {
    match s
    case RectangleShape(r) => RectangleShape(Rectangles.Translate(r, dx, dy))
    case CircleShape(c) => CircleShape(Circles.Translate(c, dx, dy))
    case EllipseShape(e) => EllipseShape(Ellipses.Translate(e, dx, dy))
    case TriangleShape(t) => TriangleShape(Triangles.Translate(t, dx, dy))
    case PolygonShape(p) => PolygonShape(Polygons.Translate(p, dx, dy))
    case LineStringShape(l) => LineStringShape(LineStrings.Translate(l, dx, dy))
    case PolygonWithHolesShape(h) => PolygonWithHolesShape(PolygonsWithHoles.Translate(h, dx, dy))
    case ArcShape(a) => ArcShape(Arcs.Translate(a, dx, dy))
    case BezierShape(b) => BezierShape(BezierCurves.Translate(b, dx, dy))
  }

  /** Translation keeps a shape valid and keeps its area. */
  lemma TranslateKeepsValidityAndArea(s: Shape, dx: Measurement, dy: Measurement)
    ensures Valid(s) ==> Valid(Translate(s, dx, dy))
    ensures Area(Translate(s, dx, dy)) == Area(s)
  {
    match s
    case TriangleShape(t) =>
      Triangles.SignedAreaProperties(t.a, t.b, t.c, dx, dy);
    case PolygonShape(p) =>
      Polygons.AreaTranslate(p, dx, dy);
    case PolygonWithHolesShape(h) =>
      var t := PolygonsWithHoles.Translate(h, dx, dy);
      assert Translate(s, dx, dy) == PolygonWithHolesShape(t);
      assert forall i :: 0 <= i < |h.holes| ==> (Polygons.Valid(h.holes[i]) <==> Polygons.Valid(t.holes[i]));
    case ArcShape(a) =>
      Arcs.MovesKeepMeasures(a, dx, dy, a.center, a.start);
    case _ =>
  }

  /** `utils.rotatePoint` with a fixed angle and origin, as the point map every rotate uses. */
  function Rotation(angle: Angles.Angle, origin: Point, trig: PointTransforms.Trig): (rot: Point -> Point)
    ensures forall p :: rot(p) == PointTransforms.RotatePoint(p, angle, origin, trig)
  {
    p => PointTransforms.RotatePoint(p, angle, origin, trig)
  }

  /** The four corners of a rectangle in the order `rotate` lists them: top-left, top-right,
      bottom-left, bottom-right. */
  function Corners(r: Rectangles.Rectangle): (c: seq<Point>)
    ensures |c| == 4 && c[0] == r.topLeft
  {
    var tl := r.topLeft;
    [tl, Point(Add(tl.x, r.width), tl.y), Point(tl.x, Add(tl.y, r.height)), Point(Add(tl.x, r.width), Add(tl.y, r.height))]
  }

  /** `Rectangle.rotate`: the bounding box of the four rotated corners, which fails when they
      end up sharing an x or a y coordinate. */
  function RotateRectangle(r: Rectangles.Rectangle, rot: Point -> Point): Result<Rectangles.Rectangle>
  {
    GeometryUtils.BoundingBoxFromPoints(PointTransforms.MapAll(Corners(r), rot))
  }

  /** The rotated rectangle's box, when it exists, holds all four rotated corners. */
  lemma RotateRectangleHoldsCorners(r: Rectangles.Rectangle, rot: Point -> Point)
    ensures RotateRectangle(r, rot).Ok? ==>
      forall i :: 0 <= i < 4 ==> Rectangles.ContainsPoint(RotateRectangle(r, rot).value, rot(Corners(r)[i]))
  {
    GeometryUtils.BoundingBoxFromPointsSpec(PointTransforms.MapAll(Corners(r), rot));
  }

  /** `rotate(angle, origin)`: a shape of the same class, or the constructor's error. Circles,
      ellipses and arcs only move their centre (an arc also turns its angles); a rectangle
      becomes the box of its rotated corners; the point-list shapes map every point. */
  function Rotate(s: Shape, angle: Angles.Angle, origin: Point, trig: PointTransforms.Trig): (t: Result<Shape>)
    ensures t.Ok? ==> SameKind(s, t.value)
  {
    var rot := Rotation(angle, origin, trig);
    match s
    case RectangleShape(r) =>
      var box := RotateRectangle(r, rot);
      if box.Err? then Err(box.message) else Ok(RectangleShape(box.value))
    case CircleShape(c) => Ok(CircleShape(Circles.Rotate(c, rot(c.center))))
    case EllipseShape(e) => Ok(EllipseShape(Ellipses.Rotate(e, rot(e.center))))
    case TriangleShape(t) =>
      var r := Triangles.Rotate(t, rot);
      if r.Err? then Err(r.message) else Ok(TriangleShape(r.value))
    case PolygonShape(p) => Ok(PolygonShape(Polygons.Rotate(p, rot)))
    case LineStringShape(l) => Ok(LineStringShape(LineStrings.Rotate(l, rot)))
    case PolygonWithHolesShape(h) => Ok(PolygonWithHolesShape(PolygonsWithHoles.Rotate(h, rot)))
    case ArcShape(a) => Ok(ArcShape(Arcs.Rotate(a, rot(a.center), angle)))
    case BezierShape(b) => Ok(BezierShape(BezierCurves.Rotate(b, rot)))
  }

  /** A box of the four corners of a valid rectangle is the rectangle itself. */
  lemma CornersBox(r: Rectangles.Rectangle)
    requires Rectangles.Valid(r)
    ensures GeometryUtils.BoundingBoxFromPoints(Corners(r)) == Ok(r)
  {
    var c := Corners(r);
    var xs, ys := GeometryUtils.Xs(c), GeometryUtils.Ys(c);
    assert xs[0] != xs[1] && ys[0] != ys[2];
    GeometryUtils.BoundingBoxFromPointsSpec(c);
    var box := GeometryUtils.BoundingBoxFromPoints(c).value;
    assert Rectangles.ContainsPoint(box, c[0]) && Rectangles.ContainsPoint(box, c[3]);
    var i :| 0 <= i < 4 && xs[i] == Rectangles.X0(box);
    var j :| 0 <= j < 4 && xs[j] == Rectangles.X1(box);
    var k :| 0 <= k < 4 && ys[k] == Rectangles.Y0(box);
    var m :| 0 <= m < 4 && ys[m] == Rectangles.Y1(box);
    assert box.topLeft == r.topLeft;
    assert box.width == r.width && box.height == r.height;
  }

  /** Rotating a rectangle by the zero angle gives back the rectangle. */
  lemma RotateRectangleByZero(r: Rectangles.Rectangle, origin: Point, trig: PointTransforms.Trig)
    requires Rectangles.Valid(r) && PointTransforms.IsTrig(trig)
    ensures RotateRectangle(r, Rotation(Angles.Angle(0.0), origin, trig)) == Ok(r)
  {
    var rot := Rotation(Angles.Angle(0.0), origin, trig);
    var c := Corners(r);
    forall i | 0 <= i < 4
      ensures rot(c[i]) == c[i]
    {
      PointTransforms.RotatePointFixes(c[i], Angles.Angle(0.0), origin, trig);
    }
    assert PointTransforms.MapAll(c, rot) == c;
    CornersBox(r);
  }

  /** Rotating a valid shape by the zero angle gives back the same shape. */
  lemma RotateByZero(s: Shape, origin: Point, trig: PointTransforms.Trig)
    requires Valid(s) && PointTransforms.IsTrig(trig)
    ensures Rotate(s, Angles.Angle(0.0), origin, trig) == Ok(s)
  {
    var zero := Angles.Angle(0.0);
    var rot := Rotation(zero, origin, trig);
    forall p: Point
      ensures rot(p) == p
    {
      PointTransforms.RotatePointFixes(p, zero, origin, trig);
    }
    match s
    case RectangleShape(r) =>
      RotateRectangleByZero(r, origin, trig);
    case TriangleShape(t) =>
    case PolygonShape(p) =>
      assert Polygons.Rotate(p, rot).points == p.points;
    case LineStringShape(l) =>
      assert LineStrings.Rotate(l, rot).points == l.points;
    case PolygonWithHolesShape(h) =>
      var t := PolygonsWithHoles.Rotate(h, rot);
      assert t.outer.points == h.outer.points;
      forall i | 0 <= i < |h.holes|
        ensures t.holes[i] == h.holes[i]
      {
        assert t.holes[i].points == h.holes[i].points;
      }
      assert t.holes == h.holes;
    case ArcShape(a) =>
      assert Angles.Add(a.start, zero) == a.start && Angles.Add(a.end, zero) == a.end;
    case _ =>
  }

  /** `scale(factor, origin)`: a shape of the same class, or the constructor's error (a
      non-positive factor for the sized shapes, a zero factor for a triangle). */
  function Scale(s: Shape, factor: real, origin: Point): (t: Result<Shape>)
    ensures t.Ok? ==> SameKind(s, t.value)
  {
    match s
    case RectangleShape(r) =>
      var q := Rectangles.Scale(r, factor, origin);
      if q.Err? then Err(q.message) else Ok(RectangleShape(q.value))
    case CircleShape(c) =>
      var q := Circles.Scale(c, factor, origin);
      if q.Err? then Err(q.message) else Ok(CircleShape(q.value))
    case EllipseShape(e) =>
      var q := Ellipses.Scale(e, factor, origin);
      if q.Err? then Err(q.message) else Ok(EllipseShape(q.value))
    case TriangleShape(t) =>
      var q := Triangles.Scale(t, factor, origin);
      if q.Err? then Err(q.message) else Ok(TriangleShape(q.value))
    case PolygonShape(p) => Ok(PolygonShape(Polygons.Scale(p, factor, origin)))
    case LineStringShape(l) => Ok(LineStringShape(LineStrings.Scale(l, factor, origin)))
    case PolygonWithHolesShape(h) => Ok(PolygonWithHolesShape(PolygonsWithHoles.Scale(h, factor, origin)))
    case ArcShape(a) =>
      var q := Arcs.Scale(a, factor, origin);
      if q.Err? then Err(q.message) else Ok(ArcShape(q.value))
    case BezierShape(b) => Ok(BezierShape(BezierCurves.Scale(b, factor, origin)))
  }

  /** Scaling a valid shape by 1 gives back the same shape. */
  lemma ScaleByOne(s: Shape, origin: Point)
    requires Valid(s)
    ensures Scale(s, 1.0, origin) == Ok(s)
  {
    forall p: Point
      ensures PointTransforms.ScalePoint(p, 1.0, origin) == p
    {
      PointTransforms.ScalePointProperties(p, origin, 1.0, 1.0);
    }
    match s
    case TriangleShape(t) =>
      assert Triangles.ScaledVertices(t, 1.0, origin) == t;
    case PolygonShape(p) =>
      assert Polygons.Scale(p, 1.0, origin).points == p.points;
    case LineStringShape(l) =>
      assert LineStrings.Scale(l, 1.0, origin).points == l.points;
    case PolygonWithHolesShape(h) =>
      var t := PolygonsWithHoles.Scale(h, 1.0, origin);
      assert t.outer.points == h.outer.points;
      forall i | 0 <= i < |h.holes|
        ensures t.holes[i] == h.holes[i]
      {
        assert t.holes[i].points == h.holes[i].points;
      }
      assert t.holes == h.holes;
    case _ =>
  }

  /** `getBoundingBox()`: a Rectangle is its own box; every other shape delegates to its
      `boundingBox()`, which throws (Err) when the box would have a zero side. */
  function GetBoundingBox(s: Shape, n: Numerics): (b: Result<Rectangles.Rectangle>)
    ensures s.RectangleShape? ==> b == Ok(s.rectangle)
    ensures b.Ok? && !s.RectangleShape? ==> Rectangles.Valid(b.value)
  {
    match s
    case RectangleShape(r) => Ok(r)
    case CircleShape(c) => Circles.BoundingBox(c)
    case EllipseShape(e) => Ellipses.BoundingBox(e)
    case TriangleShape(t) => Triangles.BoundingBox(t)
    case PolygonShape(p) => Polygons.BoundingBox(p)
    case LineStringShape(l) => LineStrings.BoundingBox(l)
    case PolygonWithHolesShape(h) => PolygonsWithHoles.BoundingBox(h)
    case ArcShape(a) => Arcs.BoundingBox(a, n.trig)
    case BezierShape(b) => BezierCurves.BoundingBox(b)
  }

  /** The shapes whose box always exists: a valid rectangle, circle, ellipse or triangle. */
  lemma BoundingBoxExists(s: Shape, n: Numerics)
    requires Valid(s) && (s.RectangleShape? || s.CircleShape? || s.EllipseShape? || s.TriangleShape?)
    ensures GetBoundingBox(s, n).Ok? && Rectangles.Valid(GetBoundingBox(s, n).value)
  {
    if s.TriangleShape? {
      Triangles.BoundingBoxOfValid(s.triangle);
    }
  }

  /** `containsPoint(p)`: a Rectangle's own closed test, a Polygon's even-odd test, and every
      other shape's `contains`. */
  predicate ContainsPoint(s: Shape, p: Point, n: Numerics)
  {
    match s
    case RectangleShape(r) => Rectangles.ContainsPoint(r, p)
    case CircleShape(c) => Circles.Contains(c, p)
    case EllipseShape(e) => Ellipses.Contains(e, p)
    case TriangleShape(t) => Triangles.Contains(t, p)
    case PolygonShape(q) => Polygons.ContainsPoint(q, p)
    case LineStringShape(l) => LineStrings.Contains(l, p, n.dist)
    case PolygonWithHolesShape(h) => PolygonsWithHoles.Contains(h, p)
    case ArcShape(a) => Arcs.Contains(a, p, n.dist, n.trig)
    case BezierShape(b) => BezierCurves.Contains(b, p, n.dist)
  }

  /** A point a rectangle, a circle or an ellipse contains lies in the shape's box. */
  lemma ContainedPointInBox(s: Shape, p: Point, n: Numerics)
    requires Valid(s) && (s.RectangleShape? || s.CircleShape? || s.EllipseShape?)
    ensures ContainsPoint(s, p, n) ==> Rectangles.ContainsPoint(GetBoundingBox(s, n).value, p)
  {
    if s.CircleShape? {
      Circles.ContainedPointsInBoundingBox(s.circle, p);
    } else if s.EllipseShape? {
      Ellipses.ContainedPointsInBoundingBox(s.ellipse, p);
    }
  }

  /** Rectangle and Polygon override `intersectsRect` with the strict overlap test; every
      other shape uses the closed `bboxIntersects`. */
  predicate UsesStrictOverlap(s: Shape)
  {
    s.RectangleShape? || s.PolygonShape?
  }

  /** `intersectsRect(rect)`: the shape's box against `rect`, strict for a Rectangle or a
      Polygon and closed (touching counts) otherwise; Err when the shape's box throws. */
  function IntersectsRect(s: Shape, rect: Rectangles.Rectangle, n: Numerics): (r: Result<bool>)
    ensures r.Ok? <==> GetBoundingBox(s, n).Ok?
    ensures r.Ok? ==> (r.value <==> if UsesStrictOverlap(s) then Rectangles.IntersectsRect(GetBoundingBox(s, n).value, rect)
                                    else GeometryUtils.BBoxIntersects(GetBoundingBox(s, n).value, rect))
  {
    match s
    case RectangleShape(q) => Ok(Rectangles.IntersectsRect(q, rect))
    case PolygonShape(p) => Polygons.IntersectsRect(p, rect)
    case _ =>
      var box := GetBoundingBox(s, n);
      if box.Err? then Err(box.message) else Ok(GeometryUtils.BBoxIntersects(box.value, rect))
  }

  /** Whatever the test, a shape reported to intersect `rect` has a box that overlaps `rect`
      in the closed sense; for the closed-test shapes the converse holds too, while a Rectangle
      that only touches `rect` is not reported. */
  lemma IntersectsRectProperties(s: Shape, rect: Rectangles.Rectangle, n: Numerics)
    ensures IntersectsRect(s, rect, n) == Ok(true) ==> GeometryUtils.BBoxIntersects(GetBoundingBox(s, n).value, rect)
    ensures GetBoundingBox(s, n).Ok? && !UsesStrictOverlap(s) && GeometryUtils.BBoxIntersects(GetBoundingBox(s, n).value, rect)
            ==> IntersectsRect(s, rect, n) == Ok(true)
    ensures var o := Point(Zero, Zero);
            var unit := Rectangles.Rectangle(o, Measurement(1.0), Measurement(1.0));
            var right := Rectangles.Rectangle(Point(Measurement(1.0), Zero), Measurement(1.0), Measurement(1.0));
            IntersectsRect(RectangleShape(unit), right, n) == Ok(false) && GeometryUtils.BBoxIntersects(unit, right)
  {
  }

  /** `intersects(other)`: a Rectangle or a Polygon tests its box strictly against the other
      shape's `getBoundingBox()`; every other shape compares the two boxes with the closed
      `bboxIntersects`. Either box throwing makes the call fail. */
  function Intersects(s: Shape, other: Shape, n: Numerics): (r: Result<bool>)
    ensures r.Ok? <==> GetBoundingBox(s, n).Ok? && GetBoundingBox(other, n).Ok?
    ensures r.Ok? ==> r == IntersectsRect(s, GetBoundingBox(other, n).value, n)
  {
    var otherBox := GetBoundingBox(other, n);
    match s
    case RectangleShape(q) =>
      if otherBox.Err? then Err(otherBox.message) else Ok(Rectangles.IntersectsRect(q, otherBox.value))
    case PolygonShape(p) =>
      Polygons.Intersects(p, otherBox)
    case LineStringShape(l) => LineStrings.Intersects(l, otherBox)
    case PolygonWithHolesShape(h) => PolygonsWithHoles.Intersects(h, otherBox)
    case ArcShape(a) => Arcs.Intersects(a, n.trig, otherBox)
    case BezierShape(b) => BezierCurves.Intersects(b, otherBox)
    case _ =>
      var box := GetBoundingBox(s, n);
      if box.Err? then Err(box.message)
      else if otherBox.Err? then Err(otherBox.message)
      else Ok(GeometryUtils.BBoxIntersects(box.value, otherBox.value))
  }

  /** Two closed-test shapes intersect symmetrically. */
  lemma IntersectsSymmetric(s: Shape, other: Shape, n: Numerics)
    requires !UsesStrictOverlap(s) && !UsesStrictOverlap(other)
    ensures Intersects(s, other, n) == Intersects(other, s, n) || (Intersects(s, other, n).Err? && Intersects(other, s, n).Err?)
  {
  }

  /** `equals(other)`: false for shapes of different classes (a Square equals a Rectangle
      with the same corner and sides), otherwise the class's own comparison. */
  predicate Equals(a: Shape, b: Shape)
  {
    match (a, b)
    case (RectangleShape(x), RectangleShape(y)) => Rectangles.Equals(x, y)
    case (CircleShape(x), CircleShape(y)) => Circles.Equals(x, y)
    case (EllipseShape(x), EllipseShape(y)) => Ellipses.Equals(x, y)
    case (TriangleShape(x), TriangleShape(y)) => Triangles.Equals(x, y)
    case (PolygonShape(x), PolygonShape(y)) => Polygons.Equals(x, y)
    case (LineStringShape(x), LineStringShape(y)) => LineStrings.Equals(x, y)
    case (PolygonWithHolesShape(x), PolygonWithHolesShape(y)) => PolygonsWithHoles.Equals(x, y)
    case (ArcShape(x), ArcShape(y)) => Arcs.Equals(x, y)
    case (BezierShape(x), BezierShape(y)) => BezierCurves.Equals(x, y)
    case _ => false
  }

  /** Equality is reflexive and symmetric and never holds across classes. */
  lemma EqualsProperties(a: Shape, b: Shape)
    ensures Equals(a, a)
    ensures Equals(a, b) <==> Equals(b, a)
    ensures !SameKind(a, b) ==> !Equals(a, b)
  {
    EqualsReflexive(a);
    if SameKind(a, b) {
      EqualsSymmetric(a, b);
    }
  }

  /** The class's own comparison is symmetric. */
  lemma EqualsSymmetric(a: Shape, b: Shape)
    requires SameKind(a, b)
    ensures Equals(a, b) <==> Equals(b, a)
  {
    match a
    case RectangleShape(x) =>
      var y := b.rectangle;
      PointEqualsFacts(x.topLeft, y.topLeft);
      Measurements.EqualsReflexiveSymmetric(x.width, y.width);
      Measurements.EqualsReflexiveSymmetric(x.height, y.height);
    case CircleShape(x) =>
      var y := b.circle;
      PointEqualsFacts(x.center, y.center);
      Measurements.EqualsReflexiveSymmetric(x.radius, y.radius);
    case EllipseShape(x) =>
      var y := b.ellipse;
      PointEqualsFacts(x.center, y.center);
      Measurements.EqualsReflexiveSymmetric(x.radiusX, y.radiusX);
      Measurements.EqualsReflexiveSymmetric(x.radiusY, y.radiusY);
    case TriangleShape(x) =>
      var y := b.triangle;
      PointEqualsFacts(x.a, y.a);
      PointEqualsFacts(x.b, y.b);
      PointEqualsFacts(x.c, y.c);
    case PolygonShape(x) =>
      Polygons.EqualsProperties(x, b.polygon);
    case LineStringShape(x) =>
      LineStrings.EqualsProperties(x, b.lineString);
    case PolygonWithHolesShape(x) =>
      PolygonsWithHoles.EqualsProperties(x, b.withHoles, x.outer);
    case ArcShape(x) =>
      Arcs.EqualsProperties(x, b.arc);
    case BezierShape(x) =>
      BezierCurves.EqualsProperties(x, b.curve, Zero, Zero);
  }

  /** Every shape equals itself. */
  lemma EqualsReflexive(a: Shape)
    ensures Equals(a, a)
  {
    match a
    case RectangleShape(x) =>
      Rectangles.TranslateRoundTrip(x, Zero, Zero);
    case CircleShape(x) =>
      PointEqualsFacts(x.center, x.center);
      Measurements.EqualsReflexiveSymmetric(x.radius, x.radius);
    case EllipseShape(x) =>
      PointEqualsFacts(x.center, x.center);
      Measurements.EqualsReflexiveSymmetric(x.radiusX, x.radiusX);
      Measurements.EqualsReflexiveSymmetric(x.radiusY, x.radiusY);
    case TriangleShape(x) =>
      PointEqualsFacts(x.a, x.a);
      PointEqualsFacts(x.b, x.b);
      PointEqualsFacts(x.c, x.c);
    case PolygonShape(x) =>
      Polygons.EqualsProperties(x, x);
    case LineStringShape(x) =>
      LineStrings.EqualsProperties(x, x);
    case PolygonWithHolesShape(x) =>
      PolygonsWithHoles.EqualsProperties(x, x, x.outer);
    case ArcShape(x) =>
      Arcs.EqualsProperties(x, x);
    case BezierShape(x) =>
      BezierCurves.EqualsProperties(x, x, Zero, Zero);
  }

  lemma PointEqualsFacts(p: Point, q: Point)
    ensures Points.Equals(p, p) && (Points.Equals(p, q) <==> Points.Equals(q, p))
  {
    Points.EqualsProperties(p, q);
  }
}
