/** CanvasMarqueeController (src/app/ui/canvas/canvas-marquee-controller.ts): the selection
    rectangle of a drag-select gesture, kept in the interaction controller's gesture record,
    and the shapes it selects. */
module CanvasMarquee {
  import opened Wrappers
  import opened ShapeRefs
  import Shapes
  import opened CanvasInteraction
  import CanvasHitTest
  import opened JsMath

  /** The rectangle as dragged: the press corner and the current corner, not reordered. */
  datatype DragRect = DragRect(x0: real, y0: real, x1: real, y1: real)

  class MarqueeController {
    const interaction: InteractionController

    constructor(interaction: InteractionController)
      ensures this.interaction == interaction
    {
      this.interaction := interaction;
    }

    /** A drag-select gesture is in progress. */
    predicate Selecting()
      reads interaction
    {
      interaction.activeInteraction.Some? && interaction.activeInteraction.value.DragSelect?
    }

    /** `pointerDown(hit, ...)`: a marquee starts only on empty canvas, and only when the
        interaction controller has opened a drag-select gesture. */
    function PointerDown(hit: Option<ShapeRef>, worldX: real, worldY: real, shift: bool): (started: bool)
      reads interaction
      ensures started <==> hit.None? && Selecting()
    {
      if hit.Some? then false
      else
        var a := interaction.activeInteraction;
        a.Some? && a.value.DragSelect?
    }

    /** `pointerMove(shapes, worldX, worldY)`: once a drag-select gesture has passed the drag
        threshold, the rectangle's moving corner follows the pointer and the preview becomes
        the positions of the shapes the rectangle meets. Otherwise nothing changes. */
    method PointerMove(shapes: seq<ShapeRef>, worldX: real, worldY: real, n: Shapes.Numerics, dpi: real) returns (changed: bool)
      requires dpi > 0.0
      modifies interaction
      ensures changed <==> old(Selecting()) && old(interaction.didDrag)
      ensures !changed ==> interaction.activeInteraction == old(interaction.activeInteraction) &&
                           interaction.previewSelectedIndices == old(interaction.previewSelectedIndices)
      ensures changed ==>
                var a := old(interaction.activeInteraction.value);
                interaction.activeInteraction == Some(DragSelect(a.wx0, a.wy0, worldX, worldY, a.shift)) &&
                interaction.previewSelectedIndices == Some(CanvasHitTest.HitTestIntersectingRectIndices(shapes, a.wx0, a.wy0, worldX, worldY, n, dpi))
      ensures interaction.didDrag == old(interaction.didDrag) && interaction.suppressNextClickSelection == old(interaction.suppressNextClickSelection)
      ensures interaction.downScreenX == old(interaction.downScreenX) && interaction.downScreenY == old(interaction.downScreenY)
      ensures interaction.lastDragDx == old(interaction.lastDragDx) && interaction.lastDragDy == old(interaction.lastDragDy)
    {
      var a := interaction.activeInteraction;
      if a.None? || !a.value.DragSelect? {
        return false;
      }
      if !interaction.didDrag {
        return false;
      }
      var r := a.value.(wx1 := worldX, wy1 := worldY);
      interaction.activeInteraction := Some(r);
      var x0, y0 := Min(r.wx0, r.wx1), Min(r.wy0, r.wy1);
      var x1, y1 := Max(r.wx0, r.wx1), Max(r.wy0, r.wy1);
      interaction.previewSelectedIndices := Some(CanvasHitTest.HitTestIntersectingRectIndices(shapes, x0, y0, x1, y1, n, dpi));
      return true;
    }

    /** `computeSelected(shapes)`: during a drag-select gesture, the shapes the rectangle meets;
        otherwise none. */
    function ComputeSelected(shapes: seq<ShapeRef>, n: Shapes.Numerics, dpi: real): (r: Option<seq<ShapeRef>>)
      requires dpi > 0.0
      reads interaction
      ensures r.Some? <==> Selecting()
      ensures r.Some? ==>
                var a := interaction.activeInteraction.value;
                r.value == CanvasHitTest.HitTestIntersectingRect(shapes, a.wx0, a.wy0, a.wx1, a.wy1, n, dpi)
    {
      var a := interaction.activeInteraction;
      if a.None? || !a.value.DragSelect? then None
      else
        var x0, y0 := Min(a.value.wx0, a.value.wx1), Min(a.value.wy0, a.value.wy1);
        var x1, y1 := Max(a.value.wx0, a.value.wx1), Max(a.value.wy0, a.value.wy1);
        Some(CanvasHitTest.HitTestIntersectingRect(shapes, x0, y0, x1, y1, n, dpi))
    }

    /** `getDragRect()`: the rectangle's corners as recorded, press corner first. */
    function GetDragRect(): (r: Option<DragRect>)
      reads interaction
      ensures r.Some? <==> Selecting()
      ensures r.Some? ==> r.value.x0 == interaction.activeInteraction.value.wx0 && r.value.y0 == interaction.activeInteraction.value.wy0
      ensures r.Some? ==> r.value.x1 == interaction.activeInteraction.value.wx1 && r.value.y1 == interaction.activeInteraction.value.wy1
    {
      var a := interaction.activeInteraction;
      if a.None? || !a.value.DragSelect? then None
      else Some(DragRect(a.value.wx0, a.value.wy0, a.value.wx1, a.value.wy1))
    }

    /** `clearPreview()`. */
    method ClearPreview()
      modifies interaction
      ensures interaction.previewSelectedIndices.None?
      ensures interaction.activeInteraction == old(interaction.activeInteraction) && interaction.didDrag == old(interaction.didDrag)
      ensures interaction.suppressNextClickSelection == old(interaction.suppressNextClickSelection)
      ensures interaction.downScreenX == old(interaction.downScreenX) && interaction.downScreenY == old(interaction.downScreenY)
      ensures interaction.lastDragDx == old(interaction.lastDragDx) && interaction.lastDragDy == old(interaction.lastDragDy)
    {
      interaction.ClearPreview();
    }
  }
}
