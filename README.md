# fullprint-app drawing core in Dafny

This project models the deterministic core of the fullprint-app 2D drawing editor and proves
properties about it. The core has four layers.

- **Units.** `Measurement` is a length held in millimetres. It converts between mm, cm, inches
  and pixels at a given DPI, supports add, subtract, multiply and divide, and compares with a
  1e-9 mm tolerance. `Angle` is held in radians, with degree conversion and arithmetic. Each
  is a datatype with functions over it (`Measurements`, `Angles`).
- **Geometry.** The shapes are `Point`, `Line`, `Rect`, `Rectangle` and `Square`, `Circle`,
  `Ellipse`, `Triangle`, `Polygon`, `LineString`, `PolygonWithHoles`, `Arc` and `BezierCurve`.
  They come with the helpers of `utils.ts` (`PointTransforms`, `GeometryUtils`) and the
  `Shape` union that dispatches `getBoundingBox`, `containsPoint`, `intersectsRect` and the
  transforms (`Shapes`). Each is one datatype. Each constructor returns a `Result` that
  rejects what the source rejects. The source's loops become methods proved equal to the
  functions that specify them: shoelace sums, perimeters, equality scans, the bounding-box
  scan and the even-odd point-in-polygon scan.
- **Canvas interaction.** These are classes whose methods update their fields as the source
  does:
  - `CanvasViewport` holds the scale and offset.
  - The selection model keeps an ordered selection and its index list.
  - There are the interaction, selection, transform, marquee and pan/zoom controllers.
  - The canvas tab component handles wheel, pointer-down, pointer-move, pointer-up and click
    events, and applies group transforms.
  - Hit testing is a set of functions over the shape list.
  - A shape on the canvas is a `ShapeRef` object, so comparing two of them with `==` is
    reference equality, as `===` and `indexOf` are in the source.
  - DOM events become records carrying the screen and client coordinates.
- **Services.** `CommandManager` keeps an undo stack and a redo stack of abstract commands.
  `TabManager` keeps an insertion-ordered map of tabs and the active tab id.

Numbers are `real`. The pixel density is a parameter with `dpi > 0`. π is the named constant
3.141592653589793. The source calls `Math.cos`, `Math.sin`, `Math.atan2`, `Math.sqrt` and
`Math.hypot`. The model takes these as function parameters, each constrained by a predicate:
- `dist` is a distance: d ≥ 0 and d² = Δx² + Δy².
- `sqrt` is a square root.
- `cos` and `sin` satisfy cos² + sin² = 1.

The results proved about rotation, sampling, lengths and containment hold for every function
that meets its predicate.

## Model

| member | source | states |
|---|---|---|
| Angles.New | src/app/core/units/Angle.ts:5-8 | an angle built from degrees reads back the same number of degrees, one built from radians the same radians |
| Angles.DegreesRoundTrip | src/app/core/units/Angle.ts:5-16 | degrees to radians and back is the identity, and 180 degrees is pi radians |
| Angles.Add | src/app/core/units/Angle.ts:18-20 | the sum minus the second angle is the first |
| Angles.Subtract | src/app/core/units/Angle.ts:22-24 | the difference plus the second angle is the first |
| Angles.Multiply | src/app/core/units/Angle.ts:26-28 | the product's size in degrees is the angle's size in degrees times the factor |
| Angles.ArithmeticExamples | src/app/core/units/Angle.ts:18-32 | 90 + 90 degrees equals 180 degrees within 1e-9 rad, subtracting undoes adding, and `equals` is symmetric |
| Measurements.UnitFromName | src/app/core/units/Measurement.ts:20-38 | a unit is recognised only under its lower-case name or the enum spellings MM, INCH and PX |
| Measurements.UnitNameRoundTrip | src/app/core/units/Measurement.ts:91-102 | each unit is recognised under the name `toUnit` takes for it |
| Measurements.PxToMm | src/app/core/units/Measurement.ts:32-36 | millimetres times DPI equal pixels times 25.4 |
| Measurements.MmToPx | src/app/core/units/Measurement.ts:85-88 | pixels times 25.4 equal millimetres times DPI |
| Measurements.PxMmRoundTrip | src/app/core/units/Measurement.ts:75-88 | pixels to millimetres and back, and millimetres to pixels and back, are the identity |
| Measurements.PixelsPreserveOrder | src/app/core/units/Measurement.ts:85-88 | at a positive DPI one length is shorter than another exactly when it is fewer pixels |
| Measurements.PixelsAdd | src/app/core/units/Measurement.ts:85-88 | the pixels of a sum of lengths are the sum of their pixels |
| Measurements.New | src/app/core/units/Measurement.ts:12-40 | the constructor succeeds exactly for a supported unit; the value reads back unchanged in that unit; cm are 10 mm and inches 25.4 mm |
| Measurements.FromPx | src/app/core/units/Measurement.ts:75-78 | the result reads back as the given pixel count in pixels |
| Measurements.FromMm | src/app/core/units/Measurement.ts:80-82 | the result reads back as the given millimetres |
| Measurements.ToPixels | src/app/core/units/Measurement.ts:85-88 | agrees with `toUnit('px')`, and `fromPx` of the result is the measurement again |
| Measurements.As | src/app/core/units/Measurement.ts:110-120 | succeeds exactly for a known unit name; constructing from the result in that unit gives the measurement back |
| Measurements.FromPxRoundTrip | src/app/core/units/Measurement.ts:75-78 | `fromPx` reads back in pixels, and the constructor with unit 'px' gives the same measurement |
| Measurements.PixelExamples | src/app/core/units/Measurement.ts:85-101 | 25.4 mm, 2.54 cm and 1 in are 96 px at 96 DPI; 1 in is 192 px at 192 DPI |
| Measurements.Add | src/app/core/units/Measurement.ts:43-45 | the sum minus the second length is the first |
| Measurements.Subtract | src/app/core/units/Measurement.ts:47-49 | the difference plus the second length is the first |
| Measurements.Multiply | src/app/core/units/Measurement.ts:51-53 | the product, read in any unit at any DPI, is the length in that unit times the factor |
| Measurements.Divide | src/app/core/units/Measurement.ts:55-58 | fails exactly for a zero factor; otherwise the quotient times the factor is the dividend |
| Measurements.AddSubtractInverse | src/app/core/units/Measurement.ts:43-49 | adding then subtracting the same length gives the original, also under `equals` |
| Measurements.EqualsReflexiveSymmetric | src/app/core/units/Measurement.ts:61-63 | `equals` is reflexive and symmetric |
| Measurements.EqualsNotTransitive | src/app/core/units/Measurement.ts:61-63 | `equals` is not transitive: 0, 0.6e-9 and 1.2e-9 mm |
| Measurements.CompareTo | src/app/core/units/Measurement.ts:65-67 | negative, zero or positive exactly when the first length is shorter, equal or longer |
| Measurements.Compare | src/app/core/units/Measurement.ts:70-72 | the alias gives the same number as `compareTo` |
| Measurements.CompareToAntisymmetric | src/app/core/units/Measurement.ts:65-67 | swapping the arguments negates the result |
| Points.Translate | src/app/core/geometry/Point.ts:13-20 | the translated point differs from the original by exactly dx and dy |
| Points.TranslateCompose | src/app/core/geometry/Point.ts:13-20 | two translations make one translation by the summed offsets |
| Points.DistanceProperties | src/app/core/geometry/Point.ts:22-27 | the distance is symmetric, unique and unchanged by translating both points |
| Points.TranslatedDistance | src/app/core/geometry/Point.ts:22-27 | a distance function gives a translated pair the distance of the original pair |
| Points.DistanceFunctionFacts | src/app/core/geometry/Point.ts:22-27 | a distance function is zero from a point to itself and symmetric |
| Points.DistanceExample | src/app/core/geometry/Point.ts:22-27 | the distance from (0,0) to (3,4) is 5 and nothing else |
| Points.EqualsProperties | src/app/core/geometry/Point.ts:29-31 | point equality is reflexive and symmetric, and equal points lie closer than sqrt(2) * 1e-9 mm |
| PointTransforms.RotatePointFixes | src/app/core/geometry/utils.ts:6-15 | the origin is fixed by any rotation, and the zero angle fixes every point |
| PointTransforms.RotatePointKeepsDistance | src/app/core/geometry/utils.ts:6-15 | a rotated point keeps its distance to the origin of the rotation |
| PointTransforms.ScalePoint | src/app/core/geometry/utils.ts:17-25 | the offset from the origin is multiplied by the factor on each axis |
| PointTransforms.ScalePointProperties | src/app/core/geometry/utils.ts:17-25 | the origin is fixed, factor 1 is the identity, two scalings multiply their factors, and 1/f undoes f |
| PointTransforms.TranslatePoint | src/app/core/geometry/utils.ts:27-29 | the result is Point.translate's |
| PointTransforms.ScaleCommutesWithTranslate | src/app/core/geometry/utils.ts:17-29 | scaling commutes with translating the point and the origin together |
| PointTransforms.TranslateAll | src/app/core/geometry/Polygon.ts:37-39 | the mapped list has the same length and holds each point translated by (dx, dy) at its own position |
| PointTransforms.MapAll | src/app/core/geometry/Polygon.ts:41-43 | the mapped list has the same length and holds the map of each point at its own position |
| PointTransforms.ScaleAll | src/app/core/geometry/Polygon.ts:45-47 | the mapped list has the same length and holds each point scaled about the origin at its own position |
| GeometryUtils.MinMaxBounds | src/app/core/geometry/utils.ts:32-40 | the running extremes are elements of the list and bound every element |
| GeometryUtils.VariesIffMinBelowMax | src/app/core/geometry/utils.ts:32-42 | the extremes differ exactly when not all values are equal |
| GeometryUtils.BoundingBoxFromPoints | src/app/core/geometry/utils.ts:31-43 | a box exists only for a non-empty list and is a valid Rectangle; the empty list fails with the Measurement constructor's message |
| GeometryUtils.BoundingBoxFromPointsSpec | src/app/core/geometry/utils.ts:31-43 | the box exists exactly when the list is non-empty and neither all x nor all y coincide; it holds every point and each edge passes through a point |
| GeometryUtils.ScanExtremes | src/app/core/geometry/utils.ts:32-40 | the loop ends with the least and greatest x and y |
| GeometryUtils.ComputeBoundingBox | src/app/core/geometry/utils.ts:31-43 | scanning then constructing gives the specified box or error |
| GeometryUtils.BoundingBoxExamples | src/app/core/geometry/utils.ts:31-43 | (1,2), (5,3), (2,6) give the 4 x 4 box at (1,2); one point and no points give none |
| GeometryUtils.BBoxIntersectsProperties | src/app/core/geometry/utils.ts:45-57 | for valid boxes the test is symmetric, holds exactly when the boxes share a point, and is implied by the strict Rectangle test |
| GeometryUtils.TouchingBoxes | src/app/core/geometry/utils.ts:45-57 | boxes that only touch intersect by this test but not by the strict one |
| GeometryUtils.ParityIsOddCount | src/app/core/geometry/utils.ts:59-71 | after k steps the flag is set exactly when an odd number of the first k edges were crossed |
| GeometryUtils.PointInPolygonIsEvenOdd | src/app/core/geometry/utils.ts:59-71 | a point is inside exactly when the ray crosses an odd number of edges |
| GeometryUtils.PointInPolygonLoop | src/app/core/geometry/utils.ts:59-71 | the loop with j one behind i returns the even-odd answer |
| GeometryUtils.PointInPolygonExamples | src/app/core/geometry/utils.ts:59-71 | (2,2) is inside the 4 x 4 square at the origin and (5,2) is not |
| GeometryUtils.CubicBezierSamples | src/app/core/geometry/utils.ts:73-82 | steps + 1 samples, starting at p0 and ending at p3 |
| GeometryUtils.SampleCubicBezier | src/app/core/geometry/utils.ts:73-82 | the loop pushes exactly the specified samples |
| GeometryUtils.CubicBezierPointTranslate | src/app/core/geometry/utils.ts:77-78 | the curve of translated control points is the translated curve |
| Rects.New | src/app/core/geometry/Rect.ts:9-18 | rejects exactly a negative width or height; the edges are x, x + width, y and y + height |
| Rects.ContainsCorners | src/app/core/geometry/Rect.ts:36-44 | all four corners of a valid Rect are contained: the edges are inclusive |
| Rects.RectExamples | src/app/core/geometry/Rect.ts:9-44 | Rect(10, 20, 100, 50) spans [10, 110] x [20, 70]; negative sizes are rejected; containment at the edge and outside |
| Lines.New | src/app/core/geometry/Line.ts:9-15 | rejects exactly a start equal to the end, with the source's message; otherwise keeps both points |
| Lines.LengthPositive | src/app/core/geometry/Line.ts:17-24 | a constructed line has a positive length |
| Lines.LineExamples | src/app/core/geometry/Line.ts:9-24 | the line from (0,0) to (3,4) has length 5 and only 5; a zero-length line is rejected |
| Lines.EqualsExamples | src/app/core/geometry/Line.ts:26-28 | a line equals itself and not its reverse |
| Rectangles.New | src/app/core/geometry/Rectangle.ts:12-20 | rejects exactly a width or height that is not positive; otherwise keeps the corner and sizes |
| Rectangles.NewSquare | src/app/core/geometry/Square.ts:6-8 | a square is a Rectangle with both sides `size`, rejected exactly when the size is not positive |
| Rectangles.Area | src/app/core/geometry/Rectangle.ts:22-27 | positive for a valid rectangle; a square's area is its side times its side |
| Rectangles.Perimeter | src/app/core/geometry/Rectangle.ts:29-31 | exceeds twice each side of a valid rectangle |
| Rectangles.AreaPerimeterExamples | src/app/core/geometry/Rectangle.ts:12-31 | 4 x 3 has area 12 and perimeter 14, 5 x 10 has 50 and 30, a negative width is rejected |
| Rectangles.Translate | src/app/core/geometry/Rectangle.ts:33-35 | same size and area, valid stays valid, the corner moves by exactly (dx, dy) |
| Rectangles.Scale | src/app/core/geometry/Rectangle.ts:47-50 | the corner is scaled about the origin and both sides are multiplied by the factor |
| Rectangles.ScaleProperties | src/app/core/geometry/Rectangle.ts:47-50 | a valid rectangle scales exactly for a positive factor, and its area grows by the factor squared |
| Rectangles.IntersectsRectProperties | src/app/core/geometry/Rectangle.ts:75-87 | `intersectsRect` (Rectangles.IntersectsRect): the strict test is symmetric, a valid rectangle intersects itself, intersecting rectangles share a point, and touching ones do not intersect |
| Rectangles.ContainsPointProperties | src/app/core/geometry/Rectangle.ts:62-70 | `containsPoint` (Rectangles.ContainsPoint) includes the top-left and bottom-right corners (inclusive edges); (5,5) is in the 10 x 10 square, (11,5) is not |
| Rectangles.TranslateRoundTrip | src/app/core/geometry/Rectangle.ts:33-35 | translating by (dx, dy) and back gives the rectangle again, and a rectangle equals itself |
| Circles.New | src/app/core/geometry/Circle.ts:12-19 | rejects exactly a radius that is not positive; otherwise keeps centre and radius |
| Circles.Perimeter | src/app/core/geometry/Circle.ts:26-29 | the circumference of a valid circle is positive |
| Circles.AreaPerimeterRelation | src/app/core/geometry/Circle.ts:21-29 | `area` (Circles.Area) = circumference * r / 2; the unit circle has area pi and circumference 2 pi |
| Circles.Translate | src/app/core/geometry/Circle.ts:31-33 | radius and area kept, validity kept, the centre moves by exactly (dx, dy) |
| Circles.Rotate | src/app/core/geometry/Circle.ts:35-37 | only the centre moves, to the rotated centre; radius, area and validity kept |
| Circles.Scale | src/app/core/geometry/Circle.ts:39-41 | the centre is scaled about the origin and the radius multiplied by the factor |
| Circles.ScaleProperties | src/app/core/geometry/Circle.ts:39-41 | a valid circle scales exactly for a positive factor, and its area grows by the factor squared |
| Circles.BoundingBox | src/app/core/geometry/Circle.ts:43-50 | exists exactly for a valid circle; it is the 2r x 2r square centred on the centre |
| Circles.ContainsIffWithinRadius | src/app/core/geometry/Circle.ts:56-60 | `contains` (Circles.Contains) holds exactly when the distance from the centre is at most the radius |
| Circles.ContainedPointsInBoundingBox | src/app/core/geometry/Circle.ts:43-60 | every contained point lies in the bounding box; the centre and a boundary point are contained |
| Circles.EqualsAndContainsExamples | src/app/core/geometry/Circle.ts:56-82 | `equals` (Circles.Equals) holds between a circle and itself translated there and back; radius 10 contains (6,8) on the boundary, not (8,8) |
| Ellipses.New | src/app/core/geometry/Ellipse.ts:28-36 | rejects exactly a radius that is not positive; otherwise keeps centre and radii |
| Ellipses.AreaOfCircle | src/app/core/geometry/Ellipse.ts:38-42 | `area` (Ellipses.Area) of an ellipse with equal radii is the area of the circle of that radius |
| Ellipses.RamanujanRatioBound | src/app/core/geometry/Ellipse.ts:44-51 | for positive radii the ratio h of the perimeter formula lies in [0, 1], so the square root is of a positive number |
| Ellipses.PerimeterOfCircle | src/app/core/geometry/Ellipse.ts:44-51 | for equal radii Ramanujan's approximation (Ellipses.Perimeter) is exactly the circle's circumference |
| Ellipses.Translate | src/app/core/geometry/Ellipse.ts:53-55 | radii, area and validity kept, the centre moves by exactly (dx, dy) |
| Ellipses.Rotate | src/app/core/geometry/Ellipse.ts:57-59 | only the centre moves, to the rotated centre; the radii (axis alignment) are kept |
| Ellipses.Scale | src/app/core/geometry/Ellipse.ts:61-63 | the centre is scaled about the origin and both radii multiplied by the factor |
| Ellipses.ScaleProperties | src/app/core/geometry/Ellipse.ts:61-63 | a valid ellipse scales exactly for a positive factor, and its area grows by the factor squared |
| Ellipses.BoundingBox | src/app/core/geometry/Ellipse.ts:65-73 | exists exactly for a valid ellipse; it is the 2rx x 2ry box centred on the centre |
| Ellipses.ContainsExamples | src/app/core/geometry/Ellipse.ts:79-85 | for radii (5, 3) `contains` (Ellipses.Contains) holds for the centre and (2, 1) and not for (6, 0); a zero radius contains nothing |
| Ellipses.BoundingBoxEdges | src/app/core/geometry/Ellipse.ts:65-73 | the box of a valid ellipse spans [cx - rx, cx + rx] across and [cy - ry, cy + ry] down |
| Ellipses.ContainedOffsets | src/app/core/geometry/Ellipse.ts:79-85 | a contained point is at most rx from the centre across and at most ry down |
| Ellipses.ContainsCentreAndVertex | src/app/core/geometry/Ellipse.ts:79-85 | a valid ellipse contains its centre and its vertex (cx + rx, cy) on the boundary |
| Ellipses.ContainedPointsInBoundingBox | src/app/core/geometry/Ellipse.ts:65-85 | every point a valid ellipse contains lies in its bounding box |
| Ellipses.EqualsExamples | src/app/core/geometry/Ellipse.ts:105-112 | `equals` (Ellipses.Equals) ignores differences below 1e-9 mm but tells swapped radii apart |
| Triangles.SignedAreaProperties | src/app/core/geometry/Triangle.ts:24-32 | the signed area is kept by a cyclic rotation of the vertices, negated by a swap, and kept by a common translation |
| Triangles.SignedAreaScales | src/app/core/geometry/Triangle.ts:24-32 | scaling all vertices about one origin multiplies the signed area by the factor squared |
| Triangles.New | src/app/core/geometry/Triangle.ts:12-22 | rejects exactly collinear vertices (signed area zero); otherwise keeps a, b, c |
| Triangles.Area | src/app/core/geometry/Triangle.ts:34-37 | never negative, positive exactly for a valid triangle, and equal to plus or minus the signed area |
| Triangles.AreaIgnoresOrder | src/app/core/geometry/Triangle.ts:34-37 | listing the vertices from another corner or in reverse leaves the area unchanged |
| Triangles.Perimeter | src/app/core/geometry/Triangle.ts:39-44 | the sum of the three side lengths is never negative |
| Triangles.AreaPerimeterExamples | src/app/core/geometry/Triangle.ts:12-44 | the 3-4-5 right triangle has area 6 and perimeter 12; three points on one line are rejected |
| Triangles.Translate | src/app/core/geometry/Triangle.ts:46-48 | every vertex moves by (dx, dy); validity and area are kept, so the constructor it calls cannot fail |
| Triangles.Rotate | src/app/core/geometry/Triangle.ts:50-56 | the rotated vertices, rejected exactly when they come out collinear |
| Triangles.ScaledVertices | src/app/core/geometry/Triangle.ts:58-64 | the scaled triangle's signed area is the old one times the factor squared, nonzero exactly when both are |
| Triangles.ScaleProperties | src/app/core/geometry/Triangle.ts:58-64 | a valid triangle scales exactly for a nonzero factor (a negative one mirrors it), and its area grows by the factor squared |
| Triangles.Scale | src/app/core/geometry/Triangle.ts:58-64 | a successful scale holds the three vertices each scaled about the origin, in order |
| Triangles.SharedCoordinateCollinear | src/app/core/geometry/Triangle.ts:12-22 | three points sharing an x or a y coordinate are rejected as collinear |
| Triangles.BoundingBoxOfValid | src/app/core/geometry/Triangle.ts:66-68 | `boundingBox` (Triangles.BoundingBox) is the box of the three vertices; a valid triangle always has one, and it holds all three |
| Triangles.EqualsIsOrderSensitive | src/app/core/geometry/Triangle.ts:96-99 | equality compares vertices in order: the same triangle listed from another corner is not equal although its area is |
| Polygons.New | src/app/core/geometry/Polygon.ts:10-14 | rejects exactly fewer than three points, with the source's message; otherwise keeps the points in order |
| Polygons.Next | src/app/core/geometry/Polygon.ts:20-24 | `(i + 1) % n` is the next index around the ring: i + 1, or 0 after the last point |
| Polygons.Area | src/app/core/geometry/Polygon.ts:16-26 | never negative, and twice it is plus or minus the shoelace sum over all edges, the closing edge included |
| Polygons.ComputeArea | src/app/core/geometry/Polygon.ts:16-26 | the accumulating loop returns exactly the shoelace area |
| Polygons.AreaExamples | src/app/core/geometry/Polygon.ts:16-26 | the unit square has area 1 and the 4 x 4 square area 16, whichever direction they are listed in |
| Polygons.CrossTranslate | src/app/core/geometry/Polygon.ts:23 | moving both ends of an edge adds a term linear in the offset to its shoelace term |
| Polygons.ShoelaceSumTranslate | src/app/core/geometry/Polygon.ts:20-24 | over the first k edges of a moved ring those terms telescope to an expression in the first and k-th points only |
| Polygons.AreaTranslate | src/app/core/geometry/Polygon.ts:16-26 | translating every point leaves the area unchanged (the terms cancel around the closed ring) |
| Polygons.ComputePerimeter | src/app/core/geometry/Polygon.ts:28-35 | the accumulating loop returns the sum of all edge lengths, the closing edge included |
| Polygons.PerimeterSumProperties | src/app/core/geometry/Polygon.ts:28-35 | partial sums of edge lengths are never negative and are kept by translating every point |
| Polygons.PerimeterProperties | src/app/core/geometry/Polygon.ts:28-35 | the perimeter is never negative and a translated polygon has the same perimeter |
| Polygons.PerimeterExample | src/app/core/geometry/Polygon.ts:28-35 | the 3 x 4 rectangle listed as a polygon has perimeter 14 |
| Polygons.Translate | src/app/core/geometry/Polygon.ts:37-39 | every point moves by (dx, dy), in order; the point count, validity and area are kept |
| Polygons.Rotate | src/app/core/geometry/Polygon.ts:41-43 | every point is mapped by the rotation, in order; the point count and validity are kept |
| Polygons.Scale | src/app/core/geometry/Polygon.ts:45-47 | every point is scaled about the origin, in order; the point count and validity are kept |
| Polygons.BoundingBoxProperties | src/app/core/geometry/Polygon.ts:52-54 | the box (Polygons.BoundingBox) exists exactly when the points spread in both x and y, and then holds every point |
| Polygons.IntersectsRect | src/app/core/geometry/Polygon.ts:66-68 | fails exactly when the polygon has no box; otherwise the strict rectangle test between its box and the rectangle |
| Polygons.Intersects | src/app/core/geometry/Polygon.ts:77-80 | fails exactly when either box is missing, the polygon's own error first; otherwise the strict rectangle test of its box against the other box |
| Polygons.EqualsLoop | src/app/core/geometry/Polygon.ts:101-108 | the early-exit loop answers exactly `equals` (Polygons.Equals): same length and pairwise equal points in order |
| Polygons.EqualsProperties | src/app/core/geometry/Polygon.ts:101-108 | equality is reflexive and symmetric, and the same corners listed from another start are not equal |
| LineStrings.New | src/app/core/geometry/LineString.ts:25-29 | rejects exactly fewer than two points, with the source's message; otherwise keeps the points in order |
| LineStrings.Area | src/app/core/geometry/LineString.ts:31-33 | a path encloses no area |
| LineStrings.ComputePerimeter | src/app/core/geometry/LineString.ts:35-41 | the loop to the last point but one returns the sum of the consecutive segment lengths, with no closing segment |
| LineStrings.LengthSumProperties | src/app/core/geometry/LineString.ts:35-41 | partial sums of segment lengths are never negative and are kept by translating every point |
| LineStrings.PerimeterProperties | src/app/core/geometry/LineString.ts:35-41 | the length is never negative and a translated path has the same length |
| LineStrings.PerimeterExample | src/app/core/geometry/LineString.ts:35-41 | the path (0,0)-(3,0)-(3,4) has length 7, not the 12 a closed ring would give |
| LineStrings.Translate | src/app/core/geometry/LineString.ts:43-45 | every point moves by (dx, dy), in order; the point count and validity are kept |
| LineStrings.Rotate | src/app/core/geometry/LineString.ts:47-49 | every point is mapped by the rotation, in order; the point count and validity are kept |
| LineStrings.Scale | src/app/core/geometry/LineString.ts:51-53 | every point is scaled about the origin, in order; the point count and validity are kept |
| LineStrings.BoundingBoxProperties | src/app/core/geometry/LineString.ts:55-57 | the box exists exactly when the points spread in both x and y and then holds them all; a horizontal path has none |
| LineStrings.Intersects | src/app/core/geometry/LineString.ts:59-61 | fails exactly when either box is missing; otherwise the closed overlap of the two boxes |
| LineStrings.IntersectsRect | src/app/core/geometry/LineString.ts:17-22 | for a rectangle argument: fails exactly when the path has no box, otherwise the closed overlap with the rectangle |
| LineStrings.ContainsLoop | src/app/core/geometry/LineString.ts:63-75 | the early-exit loop answers exactly `contains` (LineStrings.Contains): the point lies on some consecutive segment within 1e-6 mm |
| LineStrings.ContainsProperties | src/app/core/geometry/LineString.ts:63-75 | every vertex of a valid path lies on it; a path with fewer than two points contains nothing |
| LineStrings.EqualsLoop | src/app/core/geometry/LineString.ts:93-98 | the early-exit loop answers exactly "same length and pairwise equal points in order" |
| LineStrings.EqualsProperties | src/app/core/geometry/LineString.ts:93-98 | equality is reflexive and symmetric, and a path differs from its reverse |
| PolygonsWithHoles.New | src/app/core/geometry/PolygonWithHoles.ts:12-16 | never fails: any outer polygon and any hole list are accepted and kept as given |
| PolygonsWithHoles.ComputeArea | src/app/core/geometry/PolygonWithHoles.ts:18-22 | the for-of loop returns the outer area minus the area of every hole |
| PolygonsWithHoles.HolesAreaNonNegative | src/app/core/geometry/PolygonWithHoles.ts:18-22 | the summed hole areas are never negative |
| PolygonsWithHoles.AreaProperties | src/app/core/geometry/PolygonWithHoles.ts:18-22 | holes only take area away (equal to the outer area without holes); the 4 x 4 square with a unit hole has area 15 |
| PolygonsWithHoles.ComputePerimeter | src/app/core/geometry/PolygonWithHoles.ts:24-28 | the for-of loop returns the outer perimeter plus the perimeter of every hole |
| PolygonsWithHoles.HolesPerimeterNonNegative | src/app/core/geometry/PolygonWithHoles.ts:24-28 | the summed hole perimeters are never negative |
| PolygonsWithHoles.PerimeterProperties | src/app/core/geometry/PolygonWithHoles.ts:24-28 | holes only add boundary: at least the outer perimeter, and equal to it without holes |
| PolygonsWithHoles.TranslateHoles | src/app/core/geometry/PolygonWithHoles.ts:31 | the mapped hole list has the same length and holds each hole translated, in order |
| PolygonsWithHoles.HolesAreaTranslate | src/app/core/geometry/PolygonWithHoles.ts:18-32 | translating every hole keeps the total hole area |
| PolygonsWithHoles.Translate | src/app/core/geometry/PolygonWithHoles.ts:30-32 | outer polygon and every hole moved by (dx, dy), hole count kept, and the area kept |
| PolygonsWithHoles.Rotate | src/app/core/geometry/PolygonWithHoles.ts:34-36 | outer polygon and every hole rotated, hole count and order kept |
| PolygonsWithHoles.Scale | src/app/core/geometry/PolygonWithHoles.ts:38-40 | outer polygon and every hole scaled about the origin, hole count and order kept |
| PolygonsWithHoles.BoundingBoxProperties | src/app/core/geometry/PolygonWithHoles.ts:42-44 | the holes never change the box, which is the outer polygon's and holds every outer point |
| PolygonsWithHoles.Intersects | src/app/core/geometry/PolygonWithHoles.ts:46-48 | fails exactly when either box is missing; otherwise the closed overlap of the two boxes |
| PolygonsWithHoles.ContainsProperties | src/app/core/geometry/PolygonWithHoles.ts:50-54 | a point `contains` (PolygonsWithHoles.Contains) accepts is inside the outer polygon; without holes that suffices; a hole around the point excludes it |
| PolygonsWithHoles.EqualsLoop | src/app/core/geometry/PolygonWithHoles.ts:71-77 | the early-exit checks answer exactly "equal outer polygons and equal hole lists, in order" |
| PolygonsWithHoles.EqualsProperties | src/app/core/geometry/PolygonWithHoles.ts:71-77 | equality is reflexive and symmetric, and adding a hole makes a different shape |
| Arcs.New | src/app/core/geometry/Arc.ts:14-22 | rejects exactly a radius that is not positive, with the source's message; otherwise keeps all five fields |
| Arcs.RemainderOfTurns | src/app/core/geometry/Arc.ts:28 | JavaScript's `%` by a full turn on a non-negative angle lands in [0, 2 pi) |
| Arcs.RemainderIsWholeTurnsOff | src/app/core/geometry/Arc.ts:28 | what `%` takes away is a whole number of turns: x is its remainder plus k full turns for some natural k |
| Arcs.SweepOf | src/app/core/geometry/Arc.ts:27-28 | the swept angle lies in [0, 2 pi] and is the plain difference's size whenever that is at most one turn |
| Arcs.SweepCongruent | src/app/core/geometry/Arc.ts:27-28 | the swept angle is the angle difference's size less a whole number of turns, so it names the same direction |
| Arcs.SweepOfSymmetric | src/app/core/geometry/Arc.ts:27-28 | the sweep depends on the size of the angle difference only, not its sign |
| Arcs.SectorFacts | src/app/core/geometry/Arc.ts:24-37 | the sector area is half the arc length times r, and neither is negative for a positive radius |
| Arcs.ScaledSectorFacts | src/app/core/geometry/Arc.ts:24-37 | multiplying r by f multiplies the arc length by f and the sector area by f squared |
| Arcs.AreaPerimeterRelation | src/app/core/geometry/Arc.ts:24-37 | area (Arcs.Area) = length (Arcs.Perimeter) * r / 2, and both are non-negative for a valid arc |
| Arcs.ReverseKeepsMeasures | src/app/core/geometry/Arc.ts:24-37 | swapping start and end changes neither the sweep, the area nor the length |
| Arcs.FullTurnExamples | src/app/core/geometry/Arc.ts:24-37 | a sweep of exactly one turn has the full circle's area and circumference; two turns wrap to an empty sweep |
| Arcs.Translate | src/app/core/geometry/Arc.ts:39-41 | the centre moves by exactly (dx, dy); radius, angles, direction and validity are kept |
| Arcs.Rotate | src/app/core/geometry/Arc.ts:43-46 | the centre goes to the rotated centre and the angle is added to start and end; radius and direction kept |
| Arcs.MovesKeepMeasures | src/app/core/geometry/Arc.ts:39-46 | translating and rotating keep the sweep, area and length |
| Arcs.Scale | src/app/core/geometry/Arc.ts:48-51 | the centre is scaled about the origin and the radius multiplied by the factor; angles and direction kept |
| Arcs.ScaleProperties | src/app/core/geometry/Arc.ts:48-51 | a valid arc scales exactly for a positive factor; the length then grows by the factor and the area by its square |
| Arcs.SampleAngle | src/app/core/geometry/Arc.ts:61 | sample 0 is at the start angle and sample 32 at the end angle |
| Arcs.Samples | src/app/core/geometry/Arc.ts:55-65 | 33 samples, sample i being the circle point at the i-th evenly spaced angle |
| Arcs.PointAtWithinCircleBox | src/app/core/geometry/Arc.ts:62-63 | every point of the arc's circle lies in the 2r square around the centre |
| Arcs.SamplesInCircleBox | src/app/core/geometry/Arc.ts:55-65 | every sample lies in the circle's box |
| Arcs.BoundingBoxProperties | src/app/core/geometry/Arc.ts:53-67 | the sampled box (Arcs.BoundingBox) holds the start and end points and lies within the whole circle's box |
| Arcs.Intersects | src/app/core/geometry/Arc.ts:69-71 | fails exactly when either box is missing; otherwise the closed overlap of the two boxes |
| Arcs.ContainsProperties | src/app/core/geometry/Arc.ts:73-83 | a point `contains` (Arcs.Contains) accepts is within 1e-6 of the circle; swapping start and end changes nothing |
| Arcs.EqualsProperties | src/app/core/geometry/Arc.ts:118-127 | equality is reflexive and symmetric, and the same arc in the other direction is not equal |
| BezierCurves.New | src/app/core/geometry/BezierCurve.ts:13-19 | never fails: any four control points make a curve, kept in order |
| BezierCurves.Area | src/app/core/geometry/BezierCurve.ts:21-23 | a curve encloses no area |
| BezierCurves.Samples | src/app/core/geometry/BezierCurve.ts:25-30 | steps + 1 samples, the first being p0 and the last p3 |
| BezierCurves.ComputePerimeter | src/app/core/geometry/BezierCurve.ts:25-30 | the loop returns the length of the polyline through the 65 samples |
| BezierCurves.Translate | src/app/core/geometry/BezierCurve.ts:32-34 | all four control points move by (dx, dy) |
| BezierCurves.SamplesTranslate | src/app/core/geometry/BezierCurve.ts:25-34 | the samples of the translated curve are the translated samples |
| BezierCurves.PerimeterProperties | src/app/core/geometry/BezierCurve.ts:25-34 | the sampled length is never negative and is kept by translation |
| BezierCurves.Rotate | src/app/core/geometry/BezierCurve.ts:36-43 | all four control points are mapped by the rotation |
| BezierCurves.Scale | src/app/core/geometry/BezierCurve.ts:45-52 | all four control points are scaled about the origin |
| BezierCurves.BoundingBoxProperties | src/app/core/geometry/BezierCurve.ts:54-57 | the box holds both end points; a curve whose control points share one y has no box |
| BezierCurves.Intersects | src/app/core/geometry/BezierCurve.ts:59-61 | fails exactly when either box is missing; otherwise the closed overlap of the two boxes |
| BezierCurves.ContainsLoop | src/app/core/geometry/BezierCurve.ts:63-71 | the early-exit loop answers exactly "some of the 65 samples is closer than 1e-6 mm" |
| BezierCurves.ContainsEndPoints | src/app/core/geometry/BezierCurve.ts:63-71 | both end points lie on the curve |
| BezierCurves.EqualsProperties | src/app/core/geometry/BezierCurve.ts:95-99 | equality is reflexive and symmetric, kept by a translation there and back, and a curve differs from its reverse when its ends differ |
| Shapes.Translate | src/app/core/geometry/Shape.ts:8 | translating gives a shape of the same class |
| Shapes.TranslateKeepsValidityAndArea | src/app/core/geometry/Shape.ts:6-8 | for every class, translation keeps the constructor's invariant and the area |
| Shapes.RotateRectangleHoldsCorners | src/app/core/geometry/Rectangle.ts:37-45 | a rotated rectangle's box holds all four rotated corners |
| Shapes.Rotate | src/app/core/geometry/Shape.ts:9 | rotating gives a shape of the same class, or the constructor's error |
| Shapes.CornersBox | src/app/core/geometry/Rectangle.ts:37-45 | the box of the four corners of a valid rectangle is the rectangle itself |
| Shapes.RotateRectangleByZero | src/app/core/geometry/Rectangle.ts:37-45 | rotating a valid rectangle by the zero angle gives back the same rectangle |
| Shapes.RotateByZero | src/app/core/geometry/Shape.ts:9 | rotating any valid shape by the zero angle gives back the same shape |
| Shapes.Scale | src/app/core/geometry/Shape.ts:10 | scaling gives a shape of the same class, or the constructor's error |
| Shapes.ScaleByOne | src/app/core/geometry/Shape.ts:10 | scaling any valid shape by 1 gives back the same shape |
| Shapes.GetBoundingBox | src/app/core/geometry/Shape.ts:15-18 | a Rectangle is its own box; any other box that exists is a valid Rectangle |
| Shapes.BoundingBoxExists | src/app/core/geometry/Shape.ts:15-18 | a valid rectangle, circle, ellipse or triangle always has a valid box |
| Shapes.ContainedPointInBox | src/app/core/geometry/Shape.ts:24-27 | a point that `containsPoint` (Shapes.ContainsPoint) accepts for a rectangle, circle or ellipse lies in its box |
| Shapes.IntersectsRect | src/app/core/geometry/Shape.ts:33-38 | fails exactly when the shape's box throws; otherwise the strict overlap for a Rectangle or Polygon and the closed overlap for the rest |
| Shapes.IntersectsRectProperties | src/app/core/geometry/Shape.ts:33-38 | a reported intersection means the boxes overlap; for closed-test shapes the converse holds; a touching Rectangle is not reported |
| Shapes.Intersects | src/app/core/geometry/Rectangle.ts:90-99 | fails exactly when either box throws; otherwise the shape's rectangle test against the other shape's box |
| Shapes.IntersectsSymmetric | src/app/core/geometry/utils.ts:45-57 | two closed-test shapes intersect symmetrically |
| Shapes.EqualsProperties | src/app/core/geometry/Shape.ts:42 | `equals` (Shapes.Equals) is reflexive and symmetric and never holds across classes |
| Shapes.EqualsSymmetric | src/app/core/geometry/Shape.ts:42 | each class's own comparison is symmetric |
| Shapes.EqualsReflexive | src/app/core/geometry/Shape.ts:42 | every shape equals itself |
| CanvasViewports.ToWorld | src/app/ui/canvas/canvas-viewport.ts:109-115 | screen to world on one axis is the inverse of world to screen |
| CanvasViewports.RoundTrip | src/app/ui/canvas/canvas-viewport.ts:109-124 | for a nonzero scale, world to screen and screen to world undo each other in both orders |
| CanvasViewports.ZoomKeepsAnchor | src/app/ui/canvas/canvas-viewport.ts:87-93 | the zoom offset formula keeps the world point under the anchor at the anchor |
| CanvasViewports.Viewport.constructor | src/app/ui/canvas/canvas-viewport.ts:10-16 | scale 1 and offset (0, 0), each replaced by the value `init` supplies |
| CanvasViewports.Viewport.SetScale | src/app/ui/canvas/canvas-viewport.ts:18-20 | sets the scale, offsets unchanged |
| CanvasViewports.Viewport.SetOffset | src/app/ui/canvas/canvas-viewport.ts:30-33 | sets both offsets, scale unchanged |
| CanvasViewports.Viewport.SetOffsetX | src/app/ui/canvas/canvas-viewport.ts:35-37 | sets the x offset, everything else unchanged |
| CanvasViewports.Viewport.SetOffsetY | src/app/ui/canvas/canvas-viewport.ts:47-49 | sets the y offset, everything else unchanged |
| CanvasViewports.Viewport.ScreenToWorld | src/app/ui/canvas/canvas-viewport.ts:109-115 | the world point returned is shown exactly at the given screen point |
| CanvasViewports.Viewport.WorldToScreen | src/app/ui/canvas/canvas-viewport.ts:120-124 | for a nonzero scale, converting the screen point back gives the world point again; a zero scale sends every point to the offset |
| CanvasViewports.Viewport.ScreenRectToWorldRect | src/app/ui/canvas/canvas-viewport.ts:67-71 | the corners are ordered per axis and are, as sets, the two converted corners' coordinates |
| CanvasViewports.Viewport.GetVisibleWorldRect | src/app/ui/canvas/canvas-viewport.ts:76-82 | the two world points are shown at the canvas's (0, 0) and (width, height) |
| CanvasViewports.Viewport.ZoomAt | src/app/ui/canvas/canvas-viewport.ts:87-93 | scale multiplied by the factor, the world point under (sx, sy) stays there, and a positive scale stays positive |
| CanvasViewports.Viewport.PanBy | src/app/ui/canvas/canvas-viewport.ts:95-98 | both offsets move by the pan, scale unchanged |
| CanvasViewports.PanFacts | src/app/ui/canvas/canvas-viewport.ts:95-124 | two pans add up, and a pan moves every world point's screen position by the pan |
| Sequences.IndexOf | src/app/ui/canvas/canvas-selection-model.ts:30 | -1 exactly when the element is absent; otherwise the first position holding it |
| Sequences.IndexesIn | src/app/ui/canvas/canvas-selection-model.ts:41-45 | at most one index per element; each is in range, points at one of the elements and is that element's first position |
| Sequences.IndexesInComplete | src/app/ui/canvas/canvas-selection-model.ts:41-45 | every element found in the list has its position listed; when all are found there is exactly one index per element, in order |
| CanvasHitTest.WorldPoint | src/app/ui/canvas/canvas-hit-test-controller.ts:6 | the Point built from pixel coordinates converts back to the same pixels |
| CanvasHitTest.TopmostIndex | src/app/ui/canvas/canvas-hit-test-controller.ts:5-8 | the found position holds a shape containing the point and no later shape contains it; none means no shape contains it |
| CanvasHitTest.HitTestTopmost | src/app/ui/canvas/canvas-hit-test-controller.ts:5-8 | null exactly when no shape contains the point; otherwise a shape containing it with no containing shape drawn after it |
| CanvasHitTest.TopmostIsLastAdded | src/app/ui/canvas/canvas-hit-test-controller.ts:5-8 | a shape appended on top that contains the point is the one hit there |
| CanvasHitTest.FilterHits | src/app/ui/canvas/canvas-hit-test-controller.ts:20-30 | keeps exactly the shapes whose box meets the ordered bounds, in list order |
| CanvasHitTest.HitTestIntersectingRect | src/app/ui/canvas/canvas-hit-test-controller.ts:11-31 | exactly the shapes whose box meets the rectangle (touching included), in list order; shapes without a box are never returned |
| CanvasHitTest.HitTestIgnoresCornerOrder | src/app/ui/canvas/canvas-hit-test-controller.ts:15-18 | giving the corners in the other order on either axis gives the same list |
| CanvasHitTest.AxisMeetsInMillimetres | src/app/ui/canvas/canvas-hit-test-controller.ts:24-29 | on one axis, the pixel test is the millimetre overlap test of utils' bboxIntersects |
| CanvasHitTest.MeetsRectIsClosedOverlap | src/app/ui/canvas/canvas-hit-test-controller.ts:20-30 | for a rectangle with width and height, a hit is exactly a closed overlap of the shape's box with it in millimetres |
| CanvasHitTest.HitTestIntersectingRectIndices | src/app/ui/canvas/canvas-hit-test-controller.ts:34-40 | one index per hit, in the order of the hits, each the first position of that hit and pointing at a shape meeting the rectangle |
| CanvasSelectionModels.RemoveAt | src/app/ui/canvas/canvas-selection-model.ts:31 | `splice(idx, 1)` removes exactly the element at idx, keeping the ones before and shifting the ones after |
| CanvasSelectionModels.AddAllProperties | src/app/ui/canvas/canvas-selection-model.ts:22-26 | `add` keeps the old selection as a prefix, selects exactly the old and the added shapes, and never introduces a duplicate |
| CanvasSelectionModels.AddSelectedIsNoOp | src/app/ui/canvas/canvas-selection-model.ts:22-26 | adding shapes that are all selected already changes nothing |
| CanvasSelectionModels.ToggleOneProperties | src/app/ui/canvas/canvas-selection-model.ts:29-33 | in a duplicate-free selection, toggling flips the shape's membership, leaves all others alone and keeps the selection duplicate-free |
| CanvasSelectionModels.ToggleTwiceRestores | src/app/ui/canvas/canvas-selection-model.ts:28-34 | toggling the same unselected shape twice restores the selection exactly |
| CanvasSelectionModels.Successors | src/app/ui/canvas/canvas-selection-model.ts:53 | position by position, each shape is replaced by its successor when it has one and kept otherwise |
| CanvasSelectionModels.KeepPresent | src/app/ui/canvas/canvas-selection-model.ts:54 | keeps in order exactly the shapes present in the list, and keeps everything when all are present |
| CanvasSelectionModels.RemapProperties | src/app/ui/canvas/canvas-selection-model.ts:51-56 | remapping never lengthens the selection and only keeps listed shapes; when all successors are listed it is exactly the successors |
| CanvasSelectionModels.SelectionModel.constructor | src/app/ui/canvas/canvas-selection-model.ts:9-10 | nothing selected and no indices |
| CanvasSelectionModels.SelectionModel.Apply | src/app/ui/canvas/canvas-selection-model.ts:16-36 | the new selection is the operation applied to the old one; the indices are left untouched |
| CanvasSelectionModels.SelectionModel.AddShapes | src/app/ui/canvas/canvas-selection-model.ts:22-26 | the loop pushes exactly the not-yet-selected shapes, one step per shape in order |
| CanvasSelectionModels.SelectionModel.ToggleShapes | src/app/ui/canvas/canvas-selection-model.ts:28-34 | the loop splices out or pushes each shape in order, ending at the toggled selection |
| CanvasSelectionModels.SelectionModel.SyncIndices | src/app/ui/canvas/canvas-selection-model.ts:41-45 | the indices become the first positions of the selected shapes found in the list; each points at a selected shape; the selection is unchanged |
| CanvasSelectionModels.SelectionModel.RemapAfterShapeReplacement | src/app/ui/canvas/canvas-selection-model.ts:51-56 | the selection becomes the successors still in the list, never longer than before, and the indices are rebuilt against the list |
| CanvasSelectionControllers.DragTargets | src/app/ui/canvas/canvas-selection-controller.ts:67-71 | `getDragTargets` (SelectionController.GetDragTargets) returns these: the dragged shape is always a target; the whole selection is returned exactly when more than one shape is selected including it (or the selection is just it), otherwise just the dragged shape |
| CanvasSelectionControllers.ShapesByIndices | src/app/ui/canvas/canvas-selection-controller.ts:111-113 | never more shapes than indices and only shapes of the list; with all indices in range, exactly the shapes at those indices in order |
| CanvasSelectionControllers.ShapesByIndicesKeepsOrder | src/app/ui/canvas/canvas-selection-controller.ts:111-113 | valid indices around any others keep their shapes at the ends; out-of-range ones are dropped without disturbing order |
| CanvasSelectionControllers.ShapesByIndicesAppend | src/app/ui/canvas/canvas-selection-controller.ts:111-113 | appending a valid index appends its shape |
| CanvasSelectionControllers.SelectionController.constructor | src/app/ui/canvas/canvas-selection-controller.ts:6 | the controller works on the model it is given |
| CanvasSelectionControllers.SelectionController.PointerDownOnShape | src/app/ui/canvas/canvas-selection-controller.ts:9-20 | shift toggles the hit shape (flipping its membership); without shift an unselected hit becomes the whole selection and a selected one keeps the selection for dragging; `isSelected` (SelectionController.IsSelected, SelectionModel.Includes) is membership in the selection |
| CanvasSelectionControllers.SelectionController.PointerDownOnEmpty | src/app/ui/canvas/canvas-selection-controller.ts:24-27 | clears the selection unless shift is held |
| CanvasSelectionControllers.SelectionController.ClickOnShape | src/app/ui/canvas/canvas-selection-controller.ts:30-35 | toggles the shape with shift, makes it the whole selection without |
| CanvasSelectionControllers.SelectionController.CommitMarquee | src/app/ui/canvas/canvas-selection-controller.ts:39-41 | with shift the marquee shapes are added keeping the old selection as a prefix; without, they replace it |
| CanvasSelectionControllers.SelectionController.RemapAfterShapeReplacement | src/app/ui/canvas/canvas-selection-controller.ts:44-46 | the model's remap: selection becomes the listed successors and the indices are rebuilt |
| CanvasSelectionControllers.SelectionController.SyncIndices | src/app/ui/canvas/canvas-selection-controller.ts:52-54 | the indices are rebuilt against the list; the selection is unchanged |
| CanvasSelectionControllers.SelectionController.PreviewMarqueeIndices | src/app/ui/canvas/canvas-selection-controller.ts:90-109 | exactly the positions, ascending, of the shapes whose box meets the bounds taken as given |
| CanvasSelectionControllers.ToggleSingle | src/app/ui/canvas/canvas-selection-controller.ts:12 | toggling a one-shape list is a single toggle step |
| CanvasSelectionControllers.PreviewMatchesHitTestWhenOrdered | src/app/ui/canvas/canvas-selection-controller.ts:104 | with ordered corners the preview marks exactly the shapes the hit test's rectangle query returns |
| CanvasInteraction.ThresholdIsDistance | src/app/ui/canvas/canvas-interaction-controller.ts:102-104 | the squared comparison is the same as "the pointer moved at least 4 px from the press" |
| CanvasInteraction.InteractionController.constructor | src/app/ui/canvas/canvas-interaction-controller.ts:42-57 | no gesture, no flags raised, no press recorded, threshold 4 px, no drag delta and no preview |
| CanvasInteraction.InteractionController.ClearPreview | src/app/ui/canvas/canvas-interaction-controller.ts:59-61 | the preview is cleared and nothing else changes |
| CanvasInteraction.InteractionController.PointerDown | src/app/ui/canvas/canvas-interaction-controller.ts:63-97 | the press is always recorded; only the left button starts a gesture: a shape drag from the press's world point on a shape (forgetting the last delta), a selection rectangle collapsed to that point elsewhere (forgetting the preview) |
| CanvasInteraction.InteractionController.PointerMove | src/app/ui/canvas/canvas-interaction-controller.ts:99-111 | reports no gesture exactly when none is active, a selection drag exactly when that is active, and past-threshold exactly when the squared movement reaches 16 px² |
| CanvasInteraction.InteractionController.PointerUp | src/app/ui/canvas/canvas-interaction-controller.ts:114-124 | the gesture, the preview and the press are cleared; the click flags and the last drag delta survive |
| CanvasInteraction.InteractionController.ClickShouldBeSuppressed | src/app/ui/canvas/canvas-interaction-controller.ts:126-136 | a click is swallowed exactly while a flag is raised, and each swallowed click lowers one flag (didDrag first) |
| CanvasInteraction.InteractionController.MarkDidDrag | src/app/ui/canvas/canvas-interaction-controller.ts:138-140 | raises didDrag and changes nothing else |
| CanvasInteraction.InteractionController.SetSuppressNextClickSelection | src/app/ui/canvas/canvas-interaction-controller.ts:142-144 | raises the suppress flag and changes nothing else |
| CanvasTransform.ReplaceTargets | src/app/ui/canvas/canvas-transform-controller.ts:29-30 | same length; each target becomes a new instance holding its transformed geometry, every other shape stays the same instance |
| CanvasTransform.SuccessorMapProperties | src/app/ui/canvas/canvas-transform-controller.ts:50-54 | the map's keys are exactly the target shapes of the list, each mapped into the new list, and in a duplicate-free list to the instance at its own position |
| CanvasTransform.BuildSuccessorMap | src/app/ui/canvas/canvas-transform-controller.ts:50-54 | the loop builds exactly the successor map, a later position overwriting an earlier one |
| CanvasTransform.TransformController.constructor | src/app/ui/canvas/canvas-transform-controller.ts:12-13 | no delta stored |
| CanvasTransform.TransformController.UpdateDragDelta | src/app/ui/canvas/canvas-transform-controller.ts:15-19 | returns and stores lengths whose pixel values are the pointer's distance from the drag start per axis |
| CanvasTransform.TransformController.ComputeDragDelta | src/app/ui/canvas/canvas-transform-controller.ts:64-74 | the same delta measured from the drag's recorded start, stored for the commit |
| CanvasTransform.TransformController.ClearDelta | src/app/ui/canvas/canvas-transform-controller.ts:21-24 | both stored deltas are forgotten |
| CanvasTransform.TransformController.ClearLastDelta | src/app/ui/canvas/canvas-transform-controller.ts:76-79 | both stored deltas are forgotten |
| CanvasTransform.TransformController.PreviewTranslate | src/app/ui/canvas/canvas-transform-controller.ts:27-31 | no targets gives the very same list; otherwise each target is a new translated instance and every other shape the same instance |
| CanvasTransform.TransformController.CommitTranslate | src/app/ui/canvas/canvas-transform-controller.ts:38-59 | without targets or a stored delta nothing changes; otherwise targets are translated by the stored delta into new instances and the selection is remapped to them against the new list |
| CanvasTransform.CommitKeepsSelection | src/app/ui/canvas/canvas-transform-controller.ts:38-59 | a commit loses no selected shape that was on the canvas: the remapped selection keeps its length |
| CanvasMarquee.MarqueeController.constructor | src/app/ui/canvas/canvas-marquee-controller.ts:6-9 | the controller works on the interaction controller it is given |
| CanvasMarquee.MarqueeController.PointerDown | src/app/ui/canvas/canvas-marquee-controller.ts:12-20 | a marquee starts exactly on empty canvas with a drag-select gesture open |
| CanvasMarquee.MarqueeController.PointerMove | src/app/ui/canvas/canvas-marquee-controller.ts:23-44 | acts exactly once a drag-select gesture has passed the threshold: the moving corner follows the pointer and the preview becomes the hit indices of the rectangle; otherwise nothing changes; the flags and press are never touched |
| CanvasMarquee.MarqueeController.ComputeSelected | src/app/ui/canvas/canvas-marquee-controller.ts:47-57 | during a drag-select gesture, exactly the shapes the hit test's rectangle query returns for its corners; otherwise none |
| CanvasMarquee.MarqueeController.GetDragRect | src/app/ui/canvas/canvas-marquee-controller.ts:60-64 | during a drag-select gesture, its corners as recorded, press corner first; otherwise none |
| CanvasMarquee.MarqueeController.ClearPreview | src/app/ui/canvas/canvas-marquee-controller.ts:66-68 | the preview is cleared; the gesture, the drag and suppress flags, the press position and the last delta are kept |
| CanvasPanZoom.ZoomFactor | src/app/ui/canvas/canvas-pan-zoom-controller.ts:45 | a positive factor: below 1 (zoom out) for a downward scroll, above 1 otherwise |
| CanvasPanZoom.PanZoomController.constructor | src/app/ui/canvas/canvas-pan-zoom-controller.ts:4-8 | not panning, last pointer position (0, 0), on the given viewport |
| CanvasPanZoom.PanZoomController.PointerDown | src/app/ui/canvas/canvas-pan-zoom-controller.ts:11-17 | exactly the middle button starts a pan from the pointer's client position; other buttons change nothing |
| CanvasPanZoom.PanZoomController.PointerMove | src/app/ui/canvas/canvas-pan-zoom-controller.ts:20-33 | while panning the offset minus the last pointer position is invariant, so a run of moves pans by the pointer's total motion; the scale never changes; not panning nothing changes |
| CanvasPanZoom.PanZoomController.PointerUp | src/app/ui/canvas/canvas-pan-zoom-controller.ts:36-40 | ends any pan and always answers false |
| CanvasPanZoom.PanZoomController.Wheel | src/app/ui/canvas/canvas-pan-zoom-controller.ts:43-48 | zooms by the wheel step about the screen point, which keeps showing the same world point; a positive scale stays positive |
| CommandManagers.AfterExecute | src/app/core/application/services/command-manager.ts:7-11 | the command goes on top of the undo stack above the old history, and nothing can be redone |
| CommandManagers.AfterUndo | src/app/core/application/services/command-manager.ts:13-19 | with something to undo, the top of the undo stack is popped and pushed onto the redo stack, the rest of both kept; with nothing, the stacks are unchanged |
| CommandManagers.AfterRedo | src/app/core/application/services/command-manager.ts:21-27 | with something to redo, the top of the redo stack is popped and pushed back onto the undo stack, the rest of both kept; with nothing, the stacks are unchanged |
| CommandManagers.UndoRedoRoundTrip | src/app/core/application/services/command-manager.ts:13-27 | undo then redo restores both stacks when there was something to undo; redo then undo does when there was something to redo |
| CommandManagers.UndoRedoKeepCommands | src/app/core/application/services/command-manager.ts:13-27 | undo and redo move commands between the stacks without losing or adding any (sizes and multisets kept) |
| CommandManagers.ExecuteThenUndo | src/app/core/application/services/command-manager.ts:7-19 | executing then undoing leaves the earlier history and a redo stack holding just that command |
| CommandManagers.CommandManager.constructor | src/app/core/application/services/command-manager.ts:4-5 | both stacks empty, no command run |
| CommandManagers.CommandManager.Execute | src/app/core/application/services/command-manager.ts:7-11 | the command is run, pushed onto the undo stack, and the redo stack is emptied |
| CommandManagers.CommandManager.Undo | src/app/core/application/services/command-manager.ts:13-19 | the top command is reverted and moved to the redo stack; with nothing to undo nothing happens |
| CommandManagers.CommandManager.Redo | src/app/core/application/services/command-manager.ts:21-27 | the top undone command is run again and moved back; with nothing to redo nothing happens |
| CommandManagers.CommandManager.Clear | src/app/core/application/services/command-manager.ts:29-32 | both stacks emptied without running any command |
| TabManagers.Without | src/app/core/application/services/tab-manager.ts:16 | the id is removed, every other id kept in order, distinctness kept, and nothing changes when it was absent |
| TabManagers.TabManager.constructor | src/app/core/application/services/tab-manager.ts:5-6 | no tabs and no active tab |
| TabManagers.TabManager.CreateTab | src/app/core/application/services/tab-manager.ts:8-13 | the tab is stored under the document's id, re-creating an id replaces it in place without a duplicate, and it becomes active |
| TabManagers.TabManager.CloseTab | src/app/core/application/services/tab-manager.ts:15-23 | the tab is removed; if it was active the first remaining tab in insertion order becomes active, or none; otherwise the active tab stays |
| TabManagers.TabManager.GetActiveTab | src/app/core/application/services/tab-manager.ts:25-28 | none exactly when no id is active or it is the empty string; otherwise the tab stored under the active id |
| TabManagers.TabManager.SetActiveTab | src/app/core/application/services/tab-manager.ts:30-34 | an open tab becomes active; an unknown id is ignored; the tabs are unchanged |
| TabManagers.TabManager.GetAllTabs | src/app/core/application/services/tab-manager.ts:36-38 | every open tab exactly once, in the order the ids were first opened |
| TabManagers.DistinctKeysCount | src/app/core/application/services/tab-manager.ts:36-38 | a duplicate-free id list holding exactly the map's keys is as long as the map |
| CanvasTabs.JsMin | src/app/ui/canvas/canvas-tab.component.ts:375-376 | `Math.min` is NaN exactly when an argument is NaN, and otherwise the smaller argument |
| CanvasTabs.JsMax | src/app/ui/canvas/canvas-tab.component.ts:377-378 | `Math.max` is NaN exactly when an argument is NaN, and otherwise the larger argument |
| CanvasTabs.ComponentKeepsFiniteIsHitTest | src/app/ui/canvas/canvas-tab.component.ts:443-451 | with finite bounds the component's own filter is exactly the hit test's box test |
| CanvasTabs.AsWrittenBounds | src/app/ui/canvas/canvas-tab.component.ts:436-441 | the bounds read from fields the drag-select record does not have are all NaN |
| CanvasTabs.AsWrittenDragSelection | src/app/ui/canvas/canvas-tab.component.ts:443-451 | as written, the kept shapes have a box and come from the list in order |
| CanvasTabs.AsWrittenSelectsEveryBoxedShape | src/app/ui/canvas/canvas-tab.component.ts:435-461 | as written, a drag-select keeps every shape that has a box, wherever the rectangle was drawn |
| CanvasTabs.AsWrittenSelectMoveRecord | src/app/ui/canvas/canvas-tab.component.ts:368-391 | as written, the drag-select branch of a pointer move leaves the record's second corner where it was |
| CanvasTabs.AsWrittenCornerNeverMoves | src/app/ui/canvas/canvas-tab.component.ts:368-391 | after a press, a move elsewhere leaves the record's corners together as written, unlike the corrected move |
| CanvasTabs.DragSelectFindingExample | src/app/ui/canvas/canvas-tab.component.ts:435-461 | a 1 px drag far from a rectangle selects it as written, while the hit test returns nothing |
| CanvasTabs.DragSelectGroupExample | src/app/ui/canvas/canvas-group.spec.ts:56-82 | in the drag-select scenario of the component's own test, as written both squares are selected, while the corrected selection is the first square alone, as the test expects |
| CanvasTabs.TranslateBy | src/app/ui/canvas/canvas-tab.component.ts:474 | the callback maps every shape to its translation |
| CanvasTabs.CanvasTab.constructor | src/app/ui/canvas/canvas-tab.component.ts:131 | a fresh viewport, selection and interaction controller; no shapes, no preview, no hover, no pointer, not panning |
| CanvasTabs.CanvasTab.Render | src/app/ui/canvas/canvas-tab.component.ts:231-245 | records the preview list (or none) for the overlays; nothing else changes |
| CanvasTabs.CanvasTab.ApplyGroupTransform | src/app/ui/canvas/canvas-tab.component.ts:134-159 | no targets gives the current list; otherwise targets become new transformed instances, others are kept; unless previewing that list becomes the shapes and the selection is remapped to the new instances |
| CanvasTabs.CanvasTab.OnWheel | src/app/ui/canvas/canvas-tab.component.ts:265-271 | zooms by the wheel step about the pointer, which keeps showing the same world point, and renders without a preview |
| CanvasTabs.CanvasTab.PrimaryPress | src/app/ui/canvas/canvas-tab.component.ts:281-322 | on empty canvas a selection rectangle starts at the world point; on a shape shift toggles it, swallows the next click and drops the drag if it ended unselected; without shift a selected shape is dragged as is and an unselected one becomes the selection |
| CanvasTabs.CanvasTab.ToggleOnPress | src/app/ui/canvas/canvas-tab.component.ts:301-313 | the shape is toggled, the indices follow, the next click is swallowed, and the drag is dropped if it is now unselected |
| CanvasTabs.CanvasTab.SelectOnPress | src/app/ui/canvas/canvas-tab.component.ts:316-320 | the selection becomes the shape alone, the indices follow and the next click is swallowed |
| CanvasTabs.CanvasTab.OnPointerDown | src/app/ui/canvas/canvas-tab.component.ts:273-331 | the preview is cleared; the left button records the press position, clears the moved previews and is a primary press: on empty space a selection rectangle starts at the world point, with shift the hit shape is toggled and dragged only if now selected, without shift a selected hit is dragged with the selection kept and an unselected one becomes the selection and is dragged; the middle button starts a pan from the client position; other buttons touch neither the selection nor the gesture nor the press position |
| CanvasTabs.CanvasTab.OnMouseMove | src/app/ui/canvas/canvas-tab.component.ts:333-348 | the pointer position is recorded; with no gesture running the hovered shape becomes the topmost shape under it |
| CanvasTabs.CanvasTab.PanMove | src/app/ui/canvas/canvas-tab.component.ts:351-357 | the view moves by the client-space motion since the last event, which becomes the reference; the scale is kept |
| CanvasTabs.CanvasTab.SelectMove | src/app/ui/canvas/canvas-tab.component.ts:368-397 | marks a drag, the rectangle's moving corner follows the pointer, and the preview holds the positions of the shapes meeting the rectangle (corrected, see Findings) |
| CanvasTabs.CanvasTab.ShapeMove | src/app/ui/canvas/canvas-tab.component.ts:399-421 | marks a drag, stores the world displacement since the press, and previews the drag targets translated by it without touching the shapes or the selection |
| CanvasTabs.CanvasTab.GestureMove | src/app/ui/canvas/canvas-tab.component.ts:359-425 | records the pointer; past the threshold a selection rectangle gets its moving corner at the world point and previews exactly the shapes the hit test puts in it, and a shape drag stores the delta and previews every drag target translated by it; below the threshold nothing else changes |
| CanvasTabs.CanvasTab.OnPointerMove | src/app/ui/canvas/canvas-tab.component.ts:350-425 | while panning the view follows the pointer; with no gesture nothing changes; otherwise a gesture move: past the threshold the rectangle corner and hit-test preview, or the stored delta and translated drag targets; below it no preview or gesture change; the selection never changes on a move |
| CanvasTabs.CanvasTab.SelectRelease | src/app/ui/canvas/canvas-tab.component.ts:435-462 | the shapes meeting the gesture's rectangle are added (shift) or replace the selection, previews are cleared and the indices follow (corrected, see Findings) |
| CanvasTabs.CanvasTab.ShapeRelease | src/app/ui/canvas/canvas-tab.component.ts:465-482 | with a recorded delta the drag targets become translated instances and the selection follows them; otherwise shapes and selection are unchanged; the delta and previews are cleared |
| CanvasTabs.CanvasTab.EndShapeDrag | src/app/ui/canvas/canvas-tab.component.ts:477-481 | the drag delta and both previews are cleared and the indices follow the selection |
| CanvasTabs.CanvasTab.UpdateHoverFromPointer | src/app/ui/canvas/canvas-tab.component.ts:549-557 | the hovered shape is the topmost shape under the last pointer position, or none without one |
| CanvasTabs.CanvasTab.OnPointerUp | src/app/ui/canvas/canvas-tab.component.ts:427-490 | a running selection rectangle or shape drag is committed: a drag with a stored delta replaces each target by a fresh translated shape, keeps the others and remaps the selection to the successors, a drag without one changes nothing; the gesture ends, panning stops and the hover is looked up again, and is cleared without a pointer position |
| CanvasTabs.CanvasTab.OnClick | src/app/ui/canvas/canvas-tab.component.ts:492-525 | a swallowed click, a click while panning or a shift-click on empty canvas changes nothing; a plain click on empty canvas clears the selection; a click on a shape toggles it (shift) or selects it alone |

## Left out

- IEEE-754 arithmetic is not modelled: numbers are exact reals.
  - The `Number.isFinite` guards of the Measurement and Angle constructors have nothing to
    reject over the reals.
  - Rounding in unit conversions, in the shoelace sum and in the `toBeCloseTo` comparisons of
    the tests is not modelled.
  - NaN appears in exactly one place: the component's drag-select filter, in the finding below.
- The process-wide DPI provider (`Measurement.dpiProvider`, `setDpiProvider`) is mutable global
  state. Every conversion takes the DPI as a positive parameter instead.
- `Math.cos`, `Math.sin`, `Math.atan2`, `Math.sqrt` and `Math.hypot` are foreign. They are
  parameters constrained by the predicates above, so results that depend on their exact values
  (for example that a rotation by π/2 moves (1, 0) to (0, 1)) are not derived.
- Rendering and serialisation are drawing calls on a foreign context or number formatting:
  - every shape's `toSvg`, `toCanvas` and `toJson`;
  - the overlay renderer and the renderer service;
  - `CanvasViewport.applyToContext`;
  - the component's `drawOverlays`.

  `render` is modelled only for the preview it passes on. Its early return when the canvas is
  not mounted is DOM state.
- `sampleQuadraticBezier` in `utils.ts` is not called by any shape.
- Thrown errors are `Err` results. At the canvas level a shape whose `getBoundingBox` would
  throw is skipped by the bounding-box hit tests, where the source would propagate the
  exception out of the event handler.
- `screenToWorld` divides by the scale. The model requires a nonzero scale there, and the
  component keeps its viewport's scale positive.
- The component's DOM plumbing:
  - event-listener wiring and pointer capture;
  - the Angular lifecycle hooks, `ResizeObserver` and `resizeCanvas`;
  - `CanvasViewport.getScreenCoordsFromEvent`: the screen coordinates arrive in the event records;
  - the temporary debug shape list.
- `CanvasSelectionController` calls `isSelected` and `getGroupBoundingBoxFor`, which
  `CanvasSelectionModel` does not define.
  - `isSelected` is modelled as the model's `includes`.
  - The group bounding-box query is left out.
- Commands are abstract. `CommandManager` records each `execute`/`undo`/`redo` call in an effect
  log instead of running foreign code.
- Commands are assumed not to throw. In `command-manager.ts` (lines 14-17 and 22-25) `undo` and
  `redo` pop the command before calling its `undo()` or `execute()`, so a command that throws would
  be lost from both stacks. `CommandManagers.UndoRedoKeepCommands` rests on this assumption.
- A tab's document content is a type parameter. The tab state holds only its id, which is the
  document id. The project domain type and the Angular configuration files are not part of this
  model.

## Findings

| source | as written | input that shows it | evidently intended | confidence | as-written member | corrected member |
|---|---|---|---|---|---|---|
| src/app/ui/canvas/canvas-tab.component.ts:435-451 | The drag-select branches of `onPointerUp` and `onPointerMove` read `r.x0`, `r.y0`, `r.x1` and `r.y1`. The drag-select record only has `wx0`..`wy1`, so every bound is `Math.min`/`Math.max` of `undefined`, which is NaN. Every comparison with NaN is false, so every shape that has a bounding box is selected. | The component's own group test: 10 mm squares at x = 0 and x = 20 mm, dragged over from (0, 0) to (30, 15) px. As written both squares are selected. | Only the shapes whose boxes meet the dragged rectangle are selected, as the marquee and hit-test controllers compute. Here that is the first square alone, as the test expects. | not executed; TypeScript's type checker would also reject these field reads | CanvasTabs.AsWrittenDragSelection | CanvasTabs.CanvasTab.SelectRelease |
| src/app/ui/canvas/canvas-tab.component.ts:368-391 | The drag-select branch of `onPointerMove` reads the gesture record but never assigns its second corner, so the rectangle stays where the pointer was pressed. | A press at the world point (0, 0) and a move to (30, 15): the record still reads (0, 0) to (0, 0). | The second corner follows the pointer, as `canvas-marquee-controller.ts` does in its `pointerMove`. | not executed | CanvasTabs.AsWrittenCornerNeverMoves | CanvasTabs.CanvasTab.SelectMove |
