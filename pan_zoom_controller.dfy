/** CanvasPanZoomController (src/app/ui/canvas/canvas-pan-zoom-controller.ts): panning with the
    middle button and zooming with the wheel, applied to a viewport. */
module CanvasPanZoom {
  import opened CanvasViewports
  import Wrappers

  /** The fields of a pointer event the controller reads. */
  datatype PointerEvent = PointerEvent(button: int, clientX: real, clientY: real)

  /** The field of a wheel event the controller reads. */
  datatype WheelEvent = WheelEvent(deltaY: real)

  /** The wheel's zoom step: scrolling down (deltaY > 0) zooms out by 0.9, anything else
      zooms in by 1.1. */
  function ZoomFactor(deltaY: real): (f: real)
    ensures f > 0.0
    ensures deltaY > 0.0 ==> f < 1.0
    ensures deltaY <= 0.0 ==> f > 1.0
  {
    if deltaY > 0.0 then 0.9 else 1.1
  }

  class PanZoomController {
    var isPanning: bool
    var lastClientX: real
    var lastClientY: real
    const viewport: Viewport

    constructor(viewport: Viewport)
      ensures this.viewport == viewport
      ensures !isPanning && lastClientX == 0.0 && lastClientY == 0.0
    {
      this.viewport := viewport;
      isPanning := false;
      lastClientX := 0.0;
      lastClientY := 0.0;
    }

    /** `pointerDown(e)`: only the middle button (1) starts a pan, from the pointer's client
        position. */
    method PointerDown(e: PointerEvent) returns (started: bool)
      modifies this
      ensures started <==> e.button == 1
      ensures started ==> isPanning && lastClientX == e.clientX && lastClientY == e.clientY
      ensures !started ==> isPanning == old(isPanning) && lastClientX == old(lastClientX) && lastClientY == old(lastClientY)
    {
      if e.button != 1 {
        return false;
      }
      isPanning := true;
      lastClientX := e.clientX;
      lastClientY := e.clientY;
      return true;
    }

    /** `pointerMove(e)`: while panning, the view moves by the pointer's motion since the last
        event. The offset minus the last pointer position never changes, so a run of moves
        pans by the pointer's total motion. Not panning, nothing changes. */
    method PointerMove(e: PointerEvent) returns (moved: bool)
      modifies this, viewport
      ensures moved == old(isPanning) && isPanning == old(isPanning)
      ensures viewport.scale == old(viewport.scale)
      ensures viewport.offsetX - lastClientX == old(viewport.offsetX - lastClientX)
      ensures viewport.offsetY - lastClientY == old(viewport.offsetY - lastClientY)
      ensures moved ==> lastClientX == e.clientX && lastClientY == e.clientY
      ensures !moved ==> lastClientX == old(lastClientX) && lastClientY == old(lastClientY) &&
                         viewport.offsetX == old(viewport.offsetX) && viewport.offsetY == old(viewport.offsetY)
    {
      if !isPanning {
        return false;
      }
      var dx := e.clientX - lastClientX;
      var dy := e.clientY - lastClientY;
      lastClientX := e.clientX;
      lastClientY := e.clientY;
      viewport.PanBy(dx, dy);
      return true;
    }

    /** `pointerUp(e)`: ends a pan; the answer is always false. */
    method PointerUp(e: PointerEvent) returns (r: bool)
      modifies this
      ensures !r && !isPanning
      ensures lastClientX == old(lastClientX) && lastClientY == old(lastClientY)
    {
      if !isPanning {
        return false;
      }
      isPanning := false;
      return false;
    }

    /** `wheel(e, sx, sy)`: zooms by the wheel's step about the screen point, which keeps
        showing the same world point; the answer is always true. */
    method Wheel(e: WheelEvent, sx: real, sy: real) returns (handled: bool)
      modifies viewport
      ensures handled
      ensures viewport.scale == old(viewport.scale) * ZoomFactor(e.deltaY)
      ensures viewport.offsetX == ZoomedOffset(old(viewport.offsetX), ZoomFactor(e.deltaY), sx)
      ensures viewport.offsetY == ZoomedOffset(old(viewport.offsetY), ZoomFactor(e.deltaY), sy)
      ensures old(viewport.scale) != 0.0 ==> viewport.ScreenToWorld(sx, sy) == old(viewport.ScreenToWorld(sx, sy))
      ensures old(viewport.scale) > 0.0 ==> viewport.scale > 0.0
    {
      var delta := ZoomFactor(e.deltaY);
      viewport.ZoomAt(delta, sx, sy);
      return true;
    }

    function GetIsPanning(): bool
      reads this
    {
      isPanning
    }
  }

  /** A middle-button press at (10, 10) and moves to (15, 12) and (20, 30) pan the view by
      (10, 20) in all. */
  method PanExample()
  {
    var v := new Viewport(Wrappers.None);
    var c := new PanZoomController(v);
    var _ := c.PointerDown(PointerEvent(1, 10.0, 10.0));
    var _ := c.PointerMove(PointerEvent(1, 15.0, 12.0));
    var _ := c.PointerMove(PointerEvent(1, 20.0, 30.0));
    assert v.offsetX == 10.0 && v.offsetY == 20.0;
  }
}
