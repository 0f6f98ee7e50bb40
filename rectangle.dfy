/** Rectangle: the axis-aligned rectangle shape (src/app/core/geometry/Rectangle.ts), also the
    bounding-box type of every shape, and Square, a Rectangle with equal sides
    (src/app/core/geometry/Square.ts). */
module Rectangles {
  import opened Wrappers
  import opened Measurements
  import opened Points
  import PointTransforms
  import RealFacts

  datatype Rectangle = Rectangle(topLeft: Point, width: Measurement, height: Measurement)

  /** The constructor's invariant: width and height compare greater than zero. */
  predicate Valid(r: Rectangle)
  {
    CompareTo(r.width, Zero) > 0.0 && CompareTo(r.height, Zero) > 0.0
  }

  /** The constructor: rejects a width or height that is not positive. */
  function New(topLeft: Point, width: Measurement, height: Measurement): (r: Result<Rectangle>)
    ensures r.Ok? <==> width.valueMm > 0.0 && height.valueMm > 0.0
    ensures r.Ok? ==> Valid(r.value) && r.value.topLeft == topLeft && r.value.width == width && r.value.height == height
  {
    if CompareTo(width, Zero) <= 0.0 || CompareTo(height, Zero) <= 0.0 then Err("Width and height must be positive")
    else Ok(Rectangle(topLeft, width, height))
  }

  /** Square's constructor: a Rectangle whose width and height are both `size`. */
  function NewSquare(topLeft: Point, size: Measurement): (r: Result<Rectangle>)
    ensures r.Ok? <==> size.valueMm > 0.0
    ensures r.Ok? ==> r.value.width == size && r.value.height == size && r.value.topLeft == topLeft
  {
    New(topLeft, size, size)
  }

  /** Edges in millimetres. */
  function X0(r: Rectangle): real { r.topLeft.x.valueMm }
  function Y0(r: Rectangle): real { r.topLeft.y.valueMm }
  function X1(r: Rectangle): real { r.topLeft.x.valueMm + r.width.valueMm }
  function Y1(r: Rectangle): real { r.topLeft.y.valueMm + r.height.valueMm }

  /** `area`: width times height, in square millimetres; positive for a valid rectangle. */
  function Area(r: Rectangle): (a: Measurement)
    ensures Valid(r) ==> a.valueMm > 0.0
    ensures r.width == r.height ==> a == Multiply(r.width, r.width.valueMm)
  {
    Measurement(r.width.valueMm * r.height.valueMm)
  }

  /** `perimeter`: (width + height) * 2; it exceeds twice the longer side of a valid rectangle. */
  function Perimeter(r: Rectangle): (p: Measurement)
    ensures Valid(r) ==> p.valueMm > 2.0 * r.width.valueMm && p.valueMm > 2.0 * r.height.valueMm
  {
    Multiply(Add(r.width, r.height), 2.0)
  }

  /** The 4 x 3 rectangle has area 12 and perimeter 14; the 5 x 10 one has area 50 and
      perimeter 30; a negative width is rejected. */
  lemma AreaPerimeterExamples(o: Point)
    ensures Area(Rectangle(o, Measurement(4.0), Measurement(3.0))) == Measurement(12.0)
    ensures Perimeter(Rectangle(o, Measurement(4.0), Measurement(3.0))) == Measurement(14.0)
    ensures Area(Rectangle(o, Measurement(5.0), Measurement(10.0))) == Measurement(50.0)
    ensures Perimeter(Rectangle(o, Measurement(5.0), Measurement(10.0))) == Measurement(30.0)
    ensures New(o, Measurement(-5.0), Measurement(5.0)).Err?
  {
  }

  /** `translate`: the same size at the translated top-left corner. The constructor it calls
      cannot fail, because the size is unchanged. */
  function Translate(r: Rectangle, dx: Measurement, dy: Measurement): (t: Rectangle)
    ensures Valid(r) ==> Valid(t)
    ensures t.width == r.width && t.height == r.height && Area(t) == Area(r)
    ensures Subtract(t.topLeft.x, r.topLeft.x) == dx && Subtract(t.topLeft.y, r.topLeft.y) == dy
  {
    Rectangle(Points.Translate(r.topLeft, dx, dy), r.width, r.height)
  }

  /** `scale`: the top-left corner scaled about `origin` and both sides multiplied by the
      factor, through the constructor (which rejects a side that is not positive). */
  function Scale(r: Rectangle, factor: real, origin: Point): (s: Result<Rectangle>)
    ensures s.Ok? ==> s.value.topLeft == PointTransforms.ScalePoint(r.topLeft, factor, origin)
    ensures s.Ok? ==> s.value.width == Multiply(r.width, factor) && s.value.height == Multiply(r.height, factor)
  {
    New(PointTransforms.ScalePoint(r.topLeft, factor, origin), Multiply(r.width, factor), Multiply(r.height, factor))
  }

  /** A valid rectangle scales successfully exactly when the factor is positive, and its area
      is then multiplied by the factor squared. */
  lemma ScaleProperties(r: Rectangle, factor: real, origin: Point)
    requires Valid(r)
    ensures Scale(r, factor, origin).Ok? <==> factor > 0.0
    ensures Scale(r, factor, origin).Ok? ==> Area(Scale(r, factor, origin).value).valueMm == Area(r).valueMm * (factor * factor)
  {
    var w, h := r.width.valueMm, r.height.valueMm;
    if factor > 0.0 {
      RealFacts.MulPositive(w, factor);
      RealFacts.MulPositive(h, factor);
    } else {
      RealFacts.MulNonPositive(w, factor);
    }
    assert (w * factor) * (h * factor) == w * h * (factor * factor);
  }

  /** `containsPoint`: the point lies in the closed rectangle (edges included). */
  predicate ContainsPoint(r: Rectangle, p: Point)
  {
    X0(r) <= p.x.valueMm <= X1(r) && Y0(r) <= p.y.valueMm <= Y1(r)
  }

  /** `intersectsRect`: the open interiors overlap (strict comparisons, so rectangles that only
      touch along an edge do not intersect). */
  predicate IntersectsRect(a: Rectangle, b: Rectangle)
  {
    X0(a) < X1(b) && X1(a) > X0(b) && Y0(a) < Y1(b) && Y1(a) > Y0(b)
  }

  /** Intersection is symmetric, every valid rectangle intersects itself, intersecting
      valid rectangles share a point (the larger of the two top-left corners), and rectangles that
      only touch do not intersect. */
  lemma IntersectsRectProperties(a: Rectangle, b: Rectangle)
    ensures IntersectsRect(a, b) <==> IntersectsRect(b, a)
    ensures Valid(a) ==> IntersectsRect(a, a)
    ensures Valid(a) && Valid(b) && IntersectsRect(a, b) ==>
      var corner := Point(Measurement(if X0(a) < X0(b) then X0(b) else X0(a)),
                          Measurement(if Y0(a) < Y0(b) then Y0(b) else Y0(a)));
      ContainsPoint(a, corner) && ContainsPoint(b, corner)
    ensures var o := Point(Measurement(0.0), Measurement(0.0));
            var right := Point(Measurement(10.0), Measurement(0.0));
            !IntersectsRect(Rectangle(o, Measurement(10.0), Measurement(10.0)), Rectangle(right, Measurement(10.0), Measurement(10.0)))
  {
  }

  /** The corners of a valid rectangle are inside it (inclusive edges); the 10 x 10 rectangle
      at the origin contains (5,5) but not (11,5). */
  lemma ContainsPointProperties(r: Rectangle)
    requires Valid(r)
    ensures ContainsPoint(r, r.topLeft)
    ensures ContainsPoint(r, Point(Measurement(X1(r)), Measurement(Y1(r))))
    ensures var sq := Rectangle(Point(Measurement(0.0), Measurement(0.0)), Measurement(10.0), Measurement(10.0));
            ContainsPoint(sq, Point(Measurement(5.0), Measurement(5.0))) && !ContainsPoint(sq, Point(Measurement(11.0), Measurement(5.0)))
  {
  }

  /** `equals` (between two Rectangles): equal top-left corners, widths and heights. */
  predicate Equals(a: Rectangle, b: Rectangle)
  {
    Points.Equals(a.topLeft, b.topLeft) && Measurements.Equals(a.width, b.width) && Measurements.Equals(a.height, b.height)
  }

  /** Translating keeps equality with the translated copy: a rectangle equals itself after any
      round trip by (dx, dy) and back. */
  lemma TranslateRoundTrip(r: Rectangle, dx: Measurement, dy: Measurement)
    ensures Translate(Translate(r, dx, dy), Subtract(Zero, dx), Subtract(Zero, dy)) == r
    ensures Equals(r, r)
  {
  }
}
