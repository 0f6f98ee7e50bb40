/** CanvasViewport: the zoom factor and pan offset of a canvas, and the conversions between
    screen (CSS pixel) and world (pixel) coordinates (src/app/ui/canvas/canvas-viewport.ts).
    A world point w appears on screen at w * scale + offset. */
module CanvasViewports {
  import opened Wrappers
  import opened JsMath

  /** world -> screen on one axis. */
  function ToScreen(scale: real, offset: real, w: real): real
  {
    w * scale + offset
  }

  /** screen -> world on one axis: the inverse of ToScreen. */
  function ToWorld(scale: real, offset: real, s: real): (w: real)
    requires scale != 0.0
    ensures ToScreen(scale, offset, w) == s
  {
    (s - offset) / scale
  }

  /** Both conversions are inverse to each other. */
  lemma RoundTrip(scale: real, offset: real, v: real)
    requires scale != 0.0
    ensures ToWorld(scale, offset, ToScreen(scale, offset, v)) == v
    ensures ToScreen(scale, offset, ToWorld(scale, offset, v)) == v
  {
    assert (v * scale + offset - offset) / scale == v;
  }

  /** The offset after zooming by `factor` about the screen coordinate `s`:
      offset * factor + s * (1 - factor). */
  function ZoomedOffset(offset: real, factor: real, s: real): real
  {
    offset * factor + s * (1.0 - factor)
  }

  /** Zooming about a screen coordinate keeps the world point under it: the anchor shows the
      same world coordinate before and after. */
  lemma ZoomKeepsAnchor(scale: real, offset: real, factor: real, s: real)
    requires scale != 0.0 && factor != 0.0
    ensures ToWorld(scale * factor, ZoomedOffset(offset, factor, s), s) == ToWorld(scale, offset, s)
  {
    var w := ToWorld(scale, offset, s);
    assert s - ZoomedOffset(offset, factor, s) == (s - offset) * factor;
    assert ((s - offset) * factor) / (scale * factor) == (s - offset) / scale;
  }

  /** A world rectangle in pixels with ordered corners. */
  datatype WorldRect = WorldRect(xMin: real, xMax: real, yMin: real, yMax: real)

  /** The two corners of the visible area. */
  datatype VisibleRect = VisibleRect(topLeftX: real, topLeftY: real, bottomRightX: real, bottomRightY: real)

  /** The optional fields of the constructor's `init` object. */
  datatype ViewportInit = ViewportInit(scale: Option<real>, offsetX: Option<real>, offsetY: Option<real>)

  class Viewport {
    var scale: real
    var offsetX: real
    var offsetY: real

    /** `new CanvasViewport(init?)`: scale 1 and offset (0, 0), overridden by whatever fields
        `init` supplies. */
    constructor(init: Option<ViewportInit>)
      ensures scale == (if init.Some? && init.value.scale.Some? then init.value.scale.value else 1.0)
      ensures offsetX == (if init.Some? && init.value.offsetX.Some? then init.value.offsetX.value else 0.0)
      ensures offsetY == (if init.Some? && init.value.offsetY.Some? then init.value.offsetY.value else 0.0)
    {
      scale := 1.0;
      offsetX := 0.0;
      offsetY := 0.0;
      if init.Some? {
        if init.value.scale.Some? {
          scale := init.value.scale.value;
        }
        if init.value.offsetX.Some? {
          offsetX := init.value.offsetX.value;
        }
        if init.value.offsetY.Some? {
          offsetY := init.value.offsetY.value;
        }
      }
    }

    method SetScale(s: real)
      modifies this
      ensures scale == s && offsetX == old(offsetX) && offsetY == old(offsetY)
    {
      scale := s;
    }

    function GetScale(): real
      reads this
    {
      scale
    }

    method SetOffset(x: real, y: real)
      modifies this
      ensures offsetX == x && offsetY == y && scale == old(scale)
    {
      SetOffsetX(x);
      SetOffsetY(y);
    }

    method SetOffsetX(n: real)
      modifies this
      ensures offsetX == n && offsetY == old(offsetY) && scale == old(scale)
    {
      offsetX := n;
    }

    function GetOffsetX(): real
      reads this
    {
      offsetX
    }

    method SetOffsetY(n: real)
      modifies this
      ensures offsetY == n && offsetX == old(offsetX) && scale == old(scale)
    {
      offsetY := n;
    }

    function GetOffsetY(): real
      reads this
    {
      offsetY
    }

    /** `screenToWorld(sx, sy)`: the world point (in pixels) shown at the screen point. */
    function ScreenToWorld(sx: real, sy: real): (w: (real, real))
      reads this
      requires scale != 0.0
      ensures WorldToScreen(w.0, w.1) == (sx, sy)
    {
      (ToWorld(scale, offsetX, sx), ToWorld(scale, offsetY, sy))
    }

    /** `worldToScreen(wx, wy)`: the screen point showing the world point. */
    function WorldToScreen(wx: real, wy: real): (s: (real, real))
      reads this
      ensures scale != 0.0 ==> ToWorld(scale, offsetX, s.0) == wx && ToWorld(scale, offsetY, s.1) == wy
      ensures scale == 0.0 ==> s == (offsetX, offsetY)
    {
      (ToScreen(scale, offsetX, wx), ToScreen(scale, offsetY, wy))
    }

    /** `screenRectToWorldRect`: both corners converted, then ordered per axis. */
    function ScreenRectToWorldRect(sx0: real, sy0: real, sx1: real, sy1: real): (r: WorldRect)
      reads this
      requires scale != 0.0
      ensures r.xMin <= r.xMax && r.yMin <= r.yMax
      ensures {r.xMin, r.xMax} == {ScreenToWorld(sx0, sy0).0, ScreenToWorld(sx1, sy1).0}
      ensures {r.yMin, r.yMax} == {ScreenToWorld(sx0, sy0).1, ScreenToWorld(sx1, sy1).1}
    {
      var tl := ScreenToWorld(sx0, sy0);
      var br := ScreenToWorld(sx1, sy1);
      WorldRect(Min(tl.0, br.0), Max(tl.0, br.0), Min(tl.1, br.1), Max(tl.1, br.1))
    }

    /** `getVisibleWorldRect`: the world points at the canvas's top-left corner (0, 0) and at
        its bottom-right corner (width, height); the canvas size is passed in. */
    function GetVisibleWorldRect(width: real, height: real): (r: VisibleRect)
      reads this
      requires scale != 0.0
      ensures WorldToScreen(r.topLeftX, r.topLeftY) == (0.0, 0.0)
      ensures WorldToScreen(r.bottomRightX, r.bottomRightY) == (width, height)
    {
      var tl := ScreenToWorld(0.0, 0.0);
      var br := ScreenToWorld(width, height);
      VisibleRect(tl.0, tl.1, br.0, br.1)
    }

    /** `zoomAt(factor, sx, sy)`: the scale is multiplied by `factor` and the offset moves so
        that the world point under (sx, sy) stays there. */
    method ZoomAt(factor: real, sx: real, sy: real)
      modifies this
      ensures scale == old(scale) * factor
      ensures offsetX == ZoomedOffset(old(offsetX), factor, sx) && offsetY == ZoomedOffset(old(offsetY), factor, sy)
      ensures old(scale) != 0.0 && factor != 0.0 ==> ScreenToWorld(sx, sy) == old(ScreenToWorld(sx, sy))
      ensures old(scale) > 0.0 && factor > 0.0 ==> scale > 0.0
    {
      var s0, x0, y0 := scale, offsetX, offsetY;
      offsetX := ZoomedOffset(offsetX, factor, sx);
      offsetY := ZoomedOffset(offsetY, factor, sy);
      scale := scale * factor;
      if s0 != 0.0 && factor != 0.0 {
        ZoomKeepsAnchor(s0, x0, factor, sx);
        ZoomKeepsAnchor(s0, y0, factor, sy);
        assert ToWorld(scale, offsetX, sx) == ToWorld(s0, x0, sx);
        assert ToWorld(scale, offsetY, sy) == ToWorld(s0, y0, sy);
      }
    }

    /** `panBy(dx, dy)`: the offset moves by (dx, dy); the scale is kept. */
    method PanBy(dx: real, dy: real)
      modifies this
      ensures offsetX == old(offsetX) + dx && offsetY == old(offsetY) + dy && scale == old(scale)
    {
      offsetX := offsetX + dx;
      offsetY := offsetY + dy;
    }
  }

  /** Two pans add up, and a pan moves every world point's screen position by the pan. */
  lemma PanFacts(scale: real, offset: real, a: real, b: real, w: real)
    ensures (offset + a) + b == offset + (a + b)
    ensures ToScreen(scale, offset + a, w) == ToScreen(scale, offset, w) + a
  {
  }

  /** From scale 1 and offset 0, zooming by 2 about (50, 25) gives offset (-50, -25); from
      offset (10, 20), zooming by 2 about (5, 5) and then panning by (3, -2) gives (18, 33). */
  method ZoomAndPanExamples()
  {
    var v := new Viewport(None);
    v.ZoomAt(2.0, 50.0, 25.0);
    assert v.scale == 2.0 && v.offsetX == -50.0 && v.offsetY == -25.0;
    var w := new Viewport(Some(ViewportInit(None, Some(10.0), Some(20.0))));
    w.ZoomAt(2.0, 5.0, 5.0);
    w.PanBy(3.0, -2.0);
    assert w.offsetX == 18.0 && w.offsetY == 33.0;
  }
}
