/** CanvasHitTestController (src/app/ui/canvas/canvas-hit-test-controller.ts): which shapes lie
    under a world point and which meet a world rectangle. World coordinates are pixels; shapes
    measure in millimetres, so the DPI comes in as a parameter. */
module CanvasHitTest {
  import opened Wrappers
  import opened Measurements
  import opened Points
  import Rectangles
  import GeometryUtils
  import Shapes
  import opened ShapeRefs
  import opened Sequences
  import opened JsMath

  /** The world point (x, y) in pixels as a Point in millimetres. */
  function WorldPoint(worldX: real, worldY: real, dpi: real): (p: Point)
    requires dpi > 0.0
    ensures ToPixels(p.x, dpi) == worldX && ToPixels(p.y, dpi) == worldY
  {
    Point(FromPx(worldX, dpi), FromPx(worldY, dpi))
  }

  predicate Contains(s: ShapeRef, p: Point, n: Shapes.Numerics)
  {
    Shapes.ContainsPoint(s.shape, p, n)
  }

  /** The position of the last shape containing `p`: `[...shapes].reverse().find(...)`. */
  function TopmostIndex(shapes: seq<ShapeRef>, p: Point, n: Shapes.Numerics): (r: Option<nat>)
    ensures r.Some? ==> r.value < |shapes| && Contains(shapes[r.value], p, n)
    ensures r.Some? ==> forall j :: r.value < j < |shapes| ==> !Contains(shapes[j], p, n)
    ensures r.None? ==> forall j :: 0 <= j < |shapes| ==> !Contains(shapes[j], p, n)
  {
    if |shapes| == 0 then None
    else if Contains(shapes[|shapes| - 1], p, n) then Some(|shapes| - 1)
    else TopmostIndex(shapes[..|shapes| - 1], p, n)
  }

  /** `hitTestTopmost(shapes, worldX, worldY)`: the shape drawn last among those containing the
      point, or none when no shape contains it. */
  function HitTestTopmost(shapes: seq<ShapeRef>, worldX: real, worldY: real, n: Shapes.Numerics, dpi: real): (r: Option<ShapeRef>)
    requires dpi > 0.0
    ensures r.None? <==> forall j :: 0 <= j < |shapes| ==> !Contains(shapes[j], WorldPoint(worldX, worldY, dpi), n)
    ensures r.Some? ==> exists i :: 0 <= i < |shapes| && shapes[i] == r.value && Contains(shapes[i], WorldPoint(worldX, worldY, dpi), n) &&
                          forall j :: i < j < |shapes| ==> !Contains(shapes[j], WorldPoint(worldX, worldY, dpi), n)
  {
    match TopmostIndex(shapes, WorldPoint(worldX, worldY, dpi), n)
    case None => None
    case Some(i) => Some(shapes[i])
  }

  /** A shape added on top that contains the point is the one hit there. */
  lemma TopmostIsLastAdded(shapes: seq<ShapeRef>, s: ShapeRef, worldX: real, worldY: real, n: Shapes.Numerics, dpi: real)
    requires dpi > 0.0
    requires Contains(s, WorldPoint(worldX, worldY, dpi), n)
    ensures HitTestTopmost(shapes + [s], worldX, worldY, n, dpi) == Some(s)
  {
    var all := shapes + [s];
    assert all[|all| - 1] == s;
  }

  /** The closed interval [lo, hi] meets the interval spanned by c0 and c1, in either order:
      it lies neither wholly before both ends nor wholly after both. */
  predicate MeetsSpan(lo: real, hi: real, c0: real, c1: real)
  {
    !(hi < c0 && hi < c1) && !(lo > c0 && lo > c1)
  }

  /** The pixel test of `hitTestIntersectingRect` on one bounding box against ordered bounds:
      the box is not wholly left, right, above or below them; touching counts. */
  predicate BoxMeetsPx(bb: Rectangles.Rectangle, minX: real, minY: real, maxX: real, maxY: real, dpi: real)
    requires dpi > 0.0
  {
    var bx0 := ToPixels(bb.topLeft.x, dpi);
    var by0 := ToPixels(bb.topLeft.y, dpi);
    var bx1 := bx0 + ToPixels(bb.width, dpi);
    var by1 := by0 + ToPixels(bb.height, dpi);
    !(bx1 < minX || bx0 > maxX || by1 < minY || by0 > maxY)
  }

  /** A shape has a bounding box and the box meets the ordered bounds. */
  predicate HitsBounds(s: ShapeRef, minX: real, minY: real, maxX: real, maxY: real, n: Shapes.Numerics, dpi: real)
    requires dpi > 0.0
  {
    var bb := Shapes.GetBoundingBox(s.shape, n);
    bb.Ok? && BoxMeetsPx(bb.value, minX, minY, maxX, maxY, dpi)
  }

  /** The reference meaning of a hit, free of any corner order: the shape has a bounding box
      whose pixel extent meets the spans of the two corners on both axes. */
  predicate MeetsRect(s: ShapeRef, x0: real, y0: real, x1: real, y1: real, n: Shapes.Numerics, dpi: real)
    requires dpi > 0.0
  {
    var bb := Shapes.GetBoundingBox(s.shape, n);
    bb.Ok? &&
    MeetsSpan(ToPixels(bb.value.topLeft.x, dpi), ToPixels(bb.value.topLeft.x, dpi) + ToPixels(bb.value.width, dpi), x0, x1) &&
    MeetsSpan(ToPixels(bb.value.topLeft.y, dpi), ToPixels(bb.value.topLeft.y, dpi) + ToPixels(bb.value.height, dpi), y0, y1)
  }

  /** `shapes.filter(...)` with the ordered bounds. */
  function FilterHits(shapes: seq<ShapeRef>, minX: real, minY: real, maxX: real, maxY: real, n: Shapes.Numerics, dpi: real): (r: seq<ShapeRef>)
    requires dpi > 0.0
    ensures forall k :: 0 <= k < |r| ==> r[k] in shapes && HitsBounds(r[k], minX, minY, maxX, maxY, n, dpi)
    ensures forall i :: 0 <= i < |shapes| && HitsBounds(shapes[i], minX, minY, maxX, maxY, n, dpi) ==> shapes[i] in r
    ensures IsSubsequence(r, shapes)
  {
    if |shapes| == 0 then []
    else
      var rest := FilterHits(shapes[1..], minX, minY, maxX, maxY, n, dpi);
      assert forall i :: 1 <= i < |shapes| ==> shapes[i] == shapes[1..][i - 1];
      if HitsBounds(shapes[0], minX, minY, maxX, maxY, n, dpi) then
        assert ([shapes[0]] + rest)[1..] == rest;
        [shapes[0]] + rest
      else
        rest
  }

  /** `hitTestIntersectingRect(shapes, x0, y0, x1, y1)`: the corners are ordered with min/max,
      and the shapes whose bounding box meets the closed rectangle are kept in list order.
      Shapes without a bounding box are never returned. */
  function HitTestIntersectingRect(shapes: seq<ShapeRef>, x0: real, y0: real, x1: real, y1: real, n: Shapes.Numerics, dpi: real): (r: seq<ShapeRef>)
    requires dpi > 0.0
    ensures forall k :: 0 <= k < |r| ==> r[k] in shapes && MeetsRect(r[k], x0, y0, x1, y1, n, dpi)
    ensures forall i :: 0 <= i < |shapes| && MeetsRect(shapes[i], x0, y0, x1, y1, n, dpi) ==> shapes[i] in r
    ensures forall k :: 0 <= k < |r| ==> Shapes.GetBoundingBox(r[k].shape, n).Ok?
    ensures IsSubsequence(r, shapes)
  {
    var r := FilterHits(shapes, Min(x0, x1), Min(y0, y1), Max(x0, x1), Max(y0, y1), n, dpi);
    assert forall k :: 0 <= k < |r| ==> MeetsRect(r[k], x0, y0, x1, y1, n, dpi);
    r
  }

  /** Giving the corners in the other order on either axis gives the same list. */
  lemma HitTestIgnoresCornerOrder(shapes: seq<ShapeRef>, x0: real, y0: real, x1: real, y1: real, n: Shapes.Numerics, dpi: real)
    requires dpi > 0.0
    ensures HitTestIntersectingRect(shapes, x1, y0, x0, y1, n, dpi) == HitTestIntersectingRect(shapes, x0, y0, x1, y1, n, dpi)
    ensures HitTestIntersectingRect(shapes, x0, y1, x1, y0, n, dpi) == HitTestIntersectingRect(shapes, x0, y0, x1, y1, n, dpi)
  {
  }

  /** One axis of the conversion: the pixel extent of [lo, lo + size] (millimetres) meets the
      span from c0 to c1 (pixels, c0 < c1) exactly when, in millimetres, it is neither wholly
      before nor wholly after the span starting at c0 with length c1 - c0. */
  lemma AxisMeetsInMillimetres(lo: real, size: real, c0: real, c1: real, dpi: real)
    requires dpi > 0.0 && c0 < c1
    ensures MeetsSpan(MmToPx(lo, dpi), MmToPx(lo, dpi) + MmToPx(size, dpi), c0, c1) <==>
              !(PxToMm(c0, dpi) > lo + size || PxToMm(c0, dpi) + PxToMm(c1 - c0, dpi) < lo)
  {
    PixelsAdd(lo, size, dpi);
    PixelsAdd(PxToMm(c0, dpi), PxToMm(c1 - c0, dpi), dpi);
    PxMmRoundTrip(c0, 0.0, dpi);
    PxMmRoundTrip(c1 - c0, 0.0, dpi);
    PixelsPreserveOrder(lo + size, PxToMm(c0, dpi), dpi);
    PixelsPreserveOrder(PxToMm(c0, dpi) + PxToMm(c1 - c0, dpi), lo, dpi);
  }

  /** In millimetres the pixel test is the closed overlap of bounding boxes (utils'
      bboxIntersects) with the rectangle the two pixel corners span, once that rectangle has a
      width and a height. */
  lemma MeetsRectIsClosedOverlap(s: ShapeRef, x0: real, y0: real, x1: real, y1: real, n: Shapes.Numerics, dpi: real)
    requires dpi > 0.0 && x0 < x1 && y0 < y1
    ensures MeetsRect(s, x0, y0, x1, y1, n, dpi) <==>
              Shapes.GetBoundingBox(s.shape, n).Ok? &&
              GeometryUtils.BBoxIntersects(Shapes.GetBoundingBox(s.shape, n).value,
                Rectangles.Rectangle(WorldPoint(x0, y0, dpi), FromPx(x1 - x0, dpi), FromPx(y1 - y0, dpi)))
  {
    var bb := Shapes.GetBoundingBox(s.shape, n);
    if bb.Ok? {
      var b := bb.value;
      AxisMeetsInMillimetres(b.topLeft.x.valueMm, b.width.valueMm, x0, x1, dpi);
      AxisMeetsInMillimetres(b.topLeft.y.valueMm, b.height.valueMm, y0, y1, dpi);
    }
  }

  /** `hitTestIntersectingRectIndices`: the first positions of the hits in the list. Each is in
      range and points at a hit; there is one per hit, in the order of the hits. */
  function HitTestIntersectingRectIndices(shapes: seq<ShapeRef>, x0: real, y0: real, x1: real, y1: real, n: Shapes.Numerics, dpi: real): (r: seq<int>)
    requires dpi > 0.0
    ensures |r| == |HitTestIntersectingRect(shapes, x0, y0, x1, y1, n, dpi)|
    ensures forall k :: 0 <= k < |r| ==> 0 <= r[k] < |shapes| && MeetsRect(shapes[r[k]], x0, y0, x1, y1, n, dpi)
    ensures forall k :: 0 <= k < |r| ==> r[k] == IndexOf(shapes, HitTestIntersectingRect(shapes, x0, y0, x1, y1, n, dpi)[k])
  {
    var hits := HitTestIntersectingRect(shapes, x0, y0, x1, y1, n, dpi);
    IndexesInComplete(hits, shapes);
    IndexesIn(hits, shapes)
  }
}
