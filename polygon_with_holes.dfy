/** PolygonWithHoles: an outer polygon with polygonal holes cut out of it
    (src/app/core/geometry/PolygonWithHoles.ts). */
module PolygonsWithHoles {
  import opened Wrappers
  import opened Measurements
  import opened Points
  import Rectangles
  import GeometryUtils
  import Polygons

  datatype PolygonWithHoles = PolygonWithHoles(outer: Polygons.Polygon, holes: seq<Polygons.Polygon>)

  /** The constructor: no validation at all; the holes list is copied (a sequence value). */
  function New(outer: Polygons.Polygon, holes: seq<Polygons.Polygon>): (r: PolygonWithHoles)
    ensures r.outer == outer && r.holes == holes
  {
    PolygonWithHoles(outer, holes)
  }

  /** The areas of the first k holes, added up. */
  function HolesArea(holes: seq<Polygons.Polygon>, k: nat): real
    requires k <= |holes|
  {
    if k == 0 then 0.0 else HolesArea(holes, k - 1) + Polygons.Area(holes[k - 1]).valueMm
  }

  /** `area`: the outer area minus the area of every hole. */
  function Area(s: PolygonWithHoles): Measurement
  {
    Measurement(Polygons.Area(s.outer).valueMm - HolesArea(s.holes, |s.holes|))
  }

  /** The for-of loop of `area`, subtracting each hole's area from the running value. */
  method ComputeArea(s: PolygonWithHoles) returns (a: Measurement)
    ensures a == Area(s)
  {
    var area := Polygons.Area(s.outer).valueMm;
    for i := 0 to |s.holes|
      invariant area == Polygons.Area(s.outer).valueMm - HolesArea(s.holes, i)
    {
      area := area - Polygons.Area(s.holes[i]).valueMm;
    }
    a := Measurement(area);
  }

  /** Hole areas are non-negative. */
  lemma {:induction false} HolesAreaNonNegative(holes: seq<Polygons.Polygon>, k: nat)
    requires k <= |holes|
    ensures HolesArea(holes, k) >= 0.0
  {
    if k > 0 {
      HolesAreaNonNegative(holes, k - 1);
    }
  }

  /** Holes only take area away: the area is at most the outer polygon's, and equal to it
      without holes. The 4 x 4 square with the unit square as a hole has area 15. */
  lemma AreaProperties(s: PolygonWithHoles)
    ensures Area(s).valueMm <= Polygons.Area(s.outer).valueMm
    ensures |s.holes| == 0 ==> Area(s) == Polygons.Area(s.outer)
    ensures var outer := Polygons.Polygon([Point(Zero, Zero), Point(Zero, Measurement(4.0)), Point(Measurement(4.0), Measurement(4.0)),
                                           Point(Measurement(4.0), Zero)]);
            var hole := Polygons.Polygon([Point(Zero, Zero), Point(Measurement(1.0), Zero), Point(Measurement(1.0), Measurement(1.0)),
                                          Point(Zero, Measurement(1.0))]);
            Area(PolygonWithHoles(outer, [hole])) == Measurement(15.0)
  {
    HolesAreaNonNegative(s.holes, |s.holes|);
    Polygons.AreaExamples();
    var hole := Polygons.Polygon([Point(Zero, Zero), Point(Measurement(1.0), Zero), Point(Measurement(1.0), Measurement(1.0)),
                                  Point(Zero, Measurement(1.0))]);
    assert HolesArea([hole], 1) == HolesArea([hole], 0) + Polygons.Area(hole).valueMm;
  }

  /** The perimeters of the first k holes, added up. */
  function HolesPerimeter(holes: seq<Polygons.Polygon>, dist: (Point, Point) -> real, k: nat): real
    requires IsDistanceFunction(dist)
    requires k <= |holes|
  {
    if k == 0 then 0.0 else HolesPerimeter(holes, dist, k - 1) + Polygons.Perimeter(holes[k - 1], dist).valueMm
  }

  /** `perimeter`: the outer perimeter plus the perimeter of every hole. */
  function Perimeter(s: PolygonWithHoles, dist: (Point, Point) -> real): Measurement
    requires IsDistanceFunction(dist)
  {
    Measurement(Polygons.Perimeter(s.outer, dist).valueMm + HolesPerimeter(s.holes, dist, |s.holes|))
  }

  /** The for-of loop of `perimeter`, adding each hole's perimeter to the running value. */
  method ComputePerimeter(s: PolygonWithHoles, dist: (Point, Point) -> real) returns (r: Measurement)
    requires IsDistanceFunction(dist)
    ensures r == Perimeter(s, dist)
  {
    var peri := Polygons.Perimeter(s.outer, dist).valueMm;
    for i := 0 to |s.holes|
      invariant peri == Polygons.Perimeter(s.outer, dist).valueMm + HolesPerimeter(s.holes, dist, i)
    {
      peri := peri + Polygons.Perimeter(s.holes[i], dist).valueMm;
    }
    r := Measurement(peri);
  }

  /** Hole perimeters are non-negative. */
  lemma {:induction false} HolesPerimeterNonNegative(holes: seq<Polygons.Polygon>, dist: (Point, Point) -> real, k: nat)
    requires IsDistanceFunction(dist)
    requires k <= |holes|
    ensures HolesPerimeter(holes, dist, k) >= 0.0
  {
    if k > 0 {
      HolesPerimeterNonNegative(holes, dist, k - 1);
      Polygons.PerimeterProperties(holes[k - 1], dist, Zero, Zero);
    }
  }

  /** Holes add boundary: the perimeter is at least the outer polygon's, and equal to it
      without holes. */
  lemma PerimeterProperties(s: PolygonWithHoles, dist: (Point, Point) -> real)
    requires IsDistanceFunction(dist)
    ensures Perimeter(s, dist).valueMm >= Polygons.Perimeter(s.outer, dist).valueMm
    ensures |s.holes| == 0 ==> Perimeter(s, dist) == Polygons.Perimeter(s.outer, dist)
  {
    HolesPerimeterNonNegative(s.holes, dist, |s.holes|);
  }

  /** `holes.map(h => h.translate(dx, dy))`. */
  function TranslateHoles(holes: seq<Polygons.Polygon>, dx: Measurement, dy: Measurement): (r: seq<Polygons.Polygon>)
    ensures |r| == |holes| && forall i :: 0 <= i < |holes| ==> r[i] == Polygons.Translate(holes[i], dx, dy)
  {
    seq(|holes|, i requires 0 <= i < |holes| => Polygons.Translate(holes[i], dx, dy))
  }

  /** Translating every hole keeps the total hole area. */
  lemma {:induction false} HolesAreaTranslate(holes: seq<Polygons.Polygon>, dx: Measurement, dy: Measurement, k: nat)
    requires k <= |holes|
    ensures HolesArea(TranslateHoles(holes, dx, dy), k) == HolesArea(holes, k)
  {
    if k > 0 {
      HolesAreaTranslate(holes, dx, dy, k - 1);
      var t := TranslateHoles(holes, dx, dy);
      var a := Polygons.Area(holes[k - 1]);
      assert Polygons.Area(t[k - 1]) == a;
    }
  }

  /** `translate`: the outer polygon and every hole moved by (dx, dy); the hole count and the
      area are kept. */
  function Translate(s: PolygonWithHoles, dx: Measurement, dy: Measurement): (t: PolygonWithHoles)
    ensures t.outer == Polygons.Translate(s.outer, dx, dy)
    ensures |t.holes| == |s.holes| && forall i :: 0 <= i < |s.holes| ==> t.holes[i] == Polygons.Translate(s.holes[i], dx, dy)
    ensures Area(t) == Area(s)
  {
    HolesAreaTranslate(s.holes, dx, dy, |s.holes|);
    PolygonWithHoles(Polygons.Translate(s.outer, dx, dy), TranslateHoles(s.holes, dx, dy))
  }

  /** `rotate`: the outer polygon and every hole mapped by `rot`. */
  function Rotate(s: PolygonWithHoles, rot: Point -> Point): (t: PolygonWithHoles)
    ensures t.outer == Polygons.Rotate(s.outer, rot)
    ensures |t.holes| == |s.holes| && forall i :: 0 <= i < |s.holes| ==> t.holes[i] == Polygons.Rotate(s.holes[i], rot)
  {
    PolygonWithHoles(Polygons.Rotate(s.outer, rot),
                     seq(|s.holes|, i requires 0 <= i < |s.holes| => Polygons.Rotate(s.holes[i], rot)))
  }

  /** `scale`: the outer polygon and every hole scaled about `origin`. */
  function Scale(s: PolygonWithHoles, factor: real, origin: Point): (t: PolygonWithHoles)
    ensures t.outer == Polygons.Scale(s.outer, factor, origin)
    ensures |t.holes| == |s.holes| && forall i :: 0 <= i < |s.holes| ==> t.holes[i] == Polygons.Scale(s.holes[i], factor, origin)
  {
    PolygonWithHoles(Polygons.Scale(s.outer, factor, origin),
                     seq(|s.holes|, i requires 0 <= i < |s.holes| => Polygons.Scale(s.holes[i], factor, origin)))
  }

  /** `boundingBox`: the outer polygon's box. */
  function BoundingBox(s: PolygonWithHoles): Result<Rectangles.Rectangle>
  {
    Polygons.BoundingBox(s.outer)
  }

  /** The holes never change the box, which holds every outer point whenever it exists. */
  lemma BoundingBoxProperties(s: PolygonWithHoles, otherHoles: seq<Polygons.Polygon>)
    ensures BoundingBox(PolygonWithHoles(s.outer, otherHoles)) == BoundingBox(s) == Polygons.BoundingBox(s.outer)
    ensures BoundingBox(s).Ok? ==> forall i :: 0 <= i < |s.outer.points| ==> Rectangles.ContainsPoint(BoundingBox(s).value, s.outer.points[i])
  {
    Polygons.BoundingBoxProperties(s.outer);
  }

  /** `intersects`: the closed overlap of this shape's box with the other shape's box; both
      boxes must exist, or the Rectangle constructor throws. */
  function Intersects(s: PolygonWithHoles, otherBox: Result<Rectangles.Rectangle>): (r: Result<bool>)
    ensures r.Ok? <==> BoundingBox(s).Ok? && otherBox.Ok?
    ensures r.Ok? ==> (r.value <==> GeometryUtils.BBoxIntersects(BoundingBox(s).value, otherBox.value))
  {
    var box := BoundingBox(s);
    if box.Err? then Err(box.message)
    else if otherBox.Err? then Err(otherBox.message)
    else Ok(GeometryUtils.BBoxIntersects(box.value, otherBox.value))
  }

  /** `contains`: inside the outer polygon and inside none of the holes. */
  predicate Contains(s: PolygonWithHoles, q: Point)
  {
    Polygons.ContainsPoint(s.outer, q) && forall i :: 0 <= i < |s.holes| ==> !Polygons.ContainsPoint(s.holes[i], q)
  }

  /** A contained point is inside the outer polygon; without holes that is all it takes; and
      adding a hole around the point excludes it. */
  lemma ContainsProperties(s: PolygonWithHoles, q: Point, hole: Polygons.Polygon)
    ensures Contains(s, q) ==> Polygons.ContainsPoint(s.outer, q)
    ensures |s.holes| == 0 ==> (Contains(s, q) <==> Polygons.ContainsPoint(s.outer, q))
    ensures Polygons.ContainsPoint(hole, q) ==> !Contains(PolygonWithHoles(s.outer, s.holes + [hole]), q)
  {
    var more := s.holes + [hole];
    assert more[|s.holes|] == hole;
  }

  /** `equals` (between two PolygonWithHoles): equal outer polygons and the same number of
      holes, pairwise equal in order. */
  predicate Equals(a: PolygonWithHoles, b: PolygonWithHoles)
  {
    Polygons.Equals(a.outer, b.outer) && |a.holes| == |b.holes|
      && forall i :: 0 <= i < |a.holes| ==> Polygons.Equals(a.holes[i], b.holes[i])
  }

  /** The checks of `equals` in order, returning false at the first failure. */
  method EqualsLoop(a: PolygonWithHoles, b: PolygonWithHoles) returns (eq: bool)
    ensures eq == Equals(a, b)
  {
    var outerEq := Polygons.EqualsLoop(a.outer, b.outer);
    if !outerEq {
      return false;
    }
    if |a.holes| != |b.holes| {
      return false;
    }
    for i := 0 to |a.holes|
      invariant forall j :: 0 <= j < i ==> Polygons.Equals(a.holes[j], b.holes[j])
    {
      var holeEq := Polygons.EqualsLoop(a.holes[i], b.holes[i]);
      if !holeEq {
        return false;
      }
    }
    return true;
  }

  /** Equality is reflexive and symmetric, and a shape with a hole differs from the same outer
      polygon without it. */
  lemma EqualsProperties(a: PolygonWithHoles, b: PolygonWithHoles, hole: Polygons.Polygon)
    ensures Equals(a, a)
    ensures Equals(a, b) <==> Equals(b, a)
    ensures !Equals(a, PolygonWithHoles(a.outer, a.holes + [hole]))
  {
    Polygons.EqualsProperties(a.outer, b.outer);
    forall i | 0 <= i < |a.holes|
      ensures Polygons.Equals(a.holes[i], a.holes[i])
    {
      Polygons.EqualsProperties(a.holes[i], a.holes[i]);
    }
    if |a.holes| == |b.holes| {
      forall i | 0 <= i < |a.holes|
        ensures Polygons.Equals(a.holes[i], b.holes[i]) <==> Polygons.Equals(b.holes[i], a.holes[i])
      {
        Polygons.EqualsProperties(a.holes[i], b.holes[i]);
      }
    }
  }
}
