/** Rect: a plain axis-aligned rectangle of numbers in millimetres
    (src/app/core/geometry/Rect.ts). */
module Rects {
  import opened Wrappers
  import opened Measurements
  import opened Points

  datatype Rect = Rect(x: real, y: real, width: real, height: real)

  predicate Valid(r: Rect)
  {
    r.width >= 0.0 && r.height >= 0.0
  }

  /** The constructor: a negative width or height is rejected; zero is allowed. */
  function New(x: real, y: real, width: real, height: real): (r: Result<Rect>)
    ensures r.Ok? <==> width >= 0.0 && height >= 0.0
    ensures r.Ok? ==> Valid(r.value) && Left(r.value) == x && Top(r.value) == y
    ensures r.Ok? ==> Right(r.value) - Left(r.value) == width && Bottom(r.value) - Top(r.value) == height
  {
    if width < 0.0 || height < 0.0 then Err("Rect width and height must be non-negative")
    else Ok(Rect(x, y, width, height))
  }

  function Left(r: Rect): real { r.x }
  function Right(r: Rect): real { r.x + r.width }
  function Top(r: Rect): real { r.y }
  function Bottom(r: Rect): real { r.y + r.height }

  /** `contains`: the point lies within the closed rectangle [left, right] x [top, bottom]. */
  predicate Contains(r: Rect, p: Point)
  {
    Left(r) <= p.x.valueMm <= Right(r) && Top(r) <= p.y.valueMm <= Bottom(r)
  }

  /** The edges are inclusive: every corner of a valid Rect is contained, and a valid Rect
      contains some point (even when its width or height is zero). */
  lemma ContainsCorners(r: Rect)
    requires Valid(r)
    ensures Contains(r, Point(Measurement(Left(r)), Measurement(Top(r))))
    ensures Contains(r, Point(Measurement(Right(r)), Measurement(Top(r))))
    ensures Contains(r, Point(Measurement(Left(r)), Measurement(Bottom(r))))
    ensures Contains(r, Point(Measurement(Right(r)), Measurement(Bottom(r))))
  {
  }

  /** Rect(10, 20, 100, 50) spans [10, 110] x [20, 70]; a negative width is rejected;
      Rect(0, 0, 10, 10) contains (5,5) and (10,10) but not (-1,5) or (5,11). */
  lemma RectExamples()
    ensures var r := Rect(10.0, 20.0, 100.0, 50.0);
            Left(r) == 10.0 && Right(r) == 110.0 && Top(r) == 20.0 && Bottom(r) == 70.0
    ensures New(0.0, 0.0, -1.0, 10.0).Err? && New(0.0, 0.0, 10.0, -1.0).Err?
    ensures Contains(Rect(0.0, 0.0, 10.0, 10.0), Point(Measurement(5.0), Measurement(5.0)))
    ensures Contains(Rect(0.0, 0.0, 10.0, 10.0), Point(Measurement(10.0), Measurement(10.0)))
    ensures !Contains(Rect(0.0, 0.0, 10.0, 10.0), Point(Measurement(-1.0), Measurement(5.0)))
    ensures !Contains(Rect(0.0, 0.0, 10.0, 10.0), Point(Measurement(5.0), Measurement(11.0)))
  {
  }
}
