/** CanvasInteractionController (src/app/ui/canvas/canvas-interaction-controller.ts): the
    gesture in progress (dragging a shape or a selection rectangle), the press position for the
    drag threshold, and two one-shot flags that swallow the click ending a drag or a
    selection-changing press. */
module CanvasInteraction {
  import opened Wrappers
  import opened Measurements
  import opened ShapeRefs
  import RealFacts

  /** The gesture in progress: a shape dragged from a world point, or a selection rectangle
      from (wx0, wy0) to (wx1, wy1) in world pixels. */
  datatype DragInteraction =
    | DragShape(original: ShapeRef, startWorldX: real, startWorldY: real)
    | DragSelect(wx0: real, wy0: real, wx1: real, wy1: real, shift: bool)

  /** What the component passes on pointer-down; `hit` is the topmost shape under the pointer. */
  datatype PointerDownContext = PointerDownContext(
    sx: real, sy: real, worldX: real, worldY: real,
    button: int, shiftKey: bool, pointerId: int, hit: Option<ShapeRef>)

  datatype PointerMoveContext = PointerMoveContext(sx: real, sy: real, clientX: real, clientY: real)

  datatype InteractionUpdate = NoUpdate | Render

  /** The `kind` of pointerMove's answer. */
  datatype MoveKind = NoGesture | SelectGesture | ShapeGesture

  datatype MoveUpdate = MoveUpdate(kind: MoveKind, isPastThreshold: bool)

  /** The pointer's offset from the press on one axis; 0 when no press was recorded. */
  function Displacement(down: Option<real>, now: real): real
  {
    if down.None? then 0.0 else now - down.value
  }

  /** The squared test of pointerMove agrees with comparing the distance moved, d, with the
      threshold: d >= 4 exactly when dx² + dy² >= 16. */
  lemma ThresholdIsDistance(dx: real, dy: real, d: real)
    requires d >= 0.0 && d * d == dx * dx + dy * dy
    ensures dx * dx + dy * dy >= 4.0 * 4.0 <==> d >= 4.0
  {
    if d < 4.0 {
      RealFacts.SquareStrictlyIncreasing(d, 4.0);
    } else if d > 4.0 {
      RealFacts.SquareStrictlyIncreasing(4.0, d);
    }
  }

  class InteractionController {
    var activeInteraction: Option<DragInteraction>
    var didDrag: bool
    var suppressNextClickSelection: bool
    var downScreenX: Option<real>
    var downScreenY: Option<real>
    const dragThresholdPx: real
    var lastDragDx: Option<Measurement>
    var lastDragDy: Option<Measurement>
    var previewSelectedIndices: Option<seq<int>>

    constructor()
      ensures activeInteraction.None? && !didDrag && !suppressNextClickSelection
      ensures downScreenX.None? && downScreenY.None? && dragThresholdPx == 4.0
      ensures lastDragDx.None? && lastDragDy.None? && previewSelectedIndices.None?
    {
      activeInteraction := None;
      didDrag := false;
      suppressNextClickSelection := false;
      downScreenX := None;
      downScreenY := None;
      dragThresholdPx := 4.0;
      lastDragDx := None;
      lastDragDy := None;
      previewSelectedIndices := None;
    }

    /** The number of clicks still to be swallowed: one per raised flag. */
    function PendingSuppressions(): nat
      reads this
    {
      (if didDrag then 1 else 0) + (if suppressNextClickSelection then 1 else 0)
    }

    method ClearPreview()
      modifies this
      ensures previewSelectedIndices.None?
      ensures activeInteraction == old(activeInteraction) && didDrag == old(didDrag)
      ensures suppressNextClickSelection == old(suppressNextClickSelection)
      ensures downScreenX == old(downScreenX) && downScreenY == old(downScreenY)
      ensures lastDragDx == old(lastDragDx) && lastDragDy == old(lastDragDy)
    {
      previewSelectedIndices := None;
    }

    /** `pointerDown(ctx)`: the press position is always recorded. Only the left button starts
        a gesture: on a shape a shape drag from the press's world point (forgetting the last
        drag delta), elsewhere a selection rectangle with both corners at that point
        (forgetting the preview). The click flags are left alone. */
    method PointerDown(ctx: PointerDownContext) returns (u: InteractionUpdate)
      modifies this
      ensures u == NoUpdate
      ensures downScreenX == Some(ctx.sx) && downScreenY == Some(ctx.sy)
      ensures didDrag == old(didDrag) && suppressNextClickSelection == old(suppressNextClickSelection)
      ensures ctx.button != 0 ==>
                activeInteraction == old(activeInteraction) && previewSelectedIndices == old(previewSelectedIndices) &&
                lastDragDx == old(lastDragDx) && lastDragDy == old(lastDragDy)
      ensures ctx.button == 0 && ctx.hit.Some? ==>
                activeInteraction == Some(DragShape(ctx.hit.value, ctx.worldX, ctx.worldY)) &&
                lastDragDx.None? && lastDragDy.None? && previewSelectedIndices == old(previewSelectedIndices)
      ensures ctx.button == 0 && ctx.hit.None? ==>
                activeInteraction == Some(DragSelect(ctx.worldX, ctx.worldY, ctx.worldX, ctx.worldY, ctx.shiftKey)) &&
                previewSelectedIndices.None? && lastDragDx == old(lastDragDx) && lastDragDy == old(lastDragDy)
    {
      downScreenX := Some(ctx.sx);
      downScreenY := Some(ctx.sy);
      if ctx.button != 0 {
        return NoUpdate;
      }
      if ctx.hit.Some? {
        activeInteraction := Some(DragShape(ctx.hit.value, ctx.worldX, ctx.worldY));
        lastDragDx := None;
        lastDragDy := None;
        return NoUpdate;
      }
      activeInteraction := Some(DragSelect(ctx.worldX, ctx.worldY, ctx.worldX, ctx.worldY, ctx.shiftKey));
      previewSelectedIndices := None;
      return NoUpdate;
    }

    /** `pointerMove(ctx)`: which gesture is running, and whether the pointer has moved at
        least the threshold (4 px, boundary included) from the press. */
    function PointerMove(ctx: PointerMoveContext): (r: MoveUpdate)
      reads this
      ensures r.kind == NoGesture <==> activeInteraction.None?
      ensures r.kind == SelectGesture <==> activeInteraction.Some? && activeInteraction.value.DragSelect?
      ensures r.isPastThreshold ==> activeInteraction.Some?
      ensures activeInteraction.Some? ==>
                (r.isPastThreshold <==>
                   Displacement(downScreenX, ctx.sx) * Displacement(downScreenX, ctx.sx) +
                   Displacement(downScreenY, ctx.sy) * Displacement(downScreenY, ctx.sy) >= dragThresholdPx * dragThresholdPx)
    {
      if activeInteraction.None? then MoveUpdate(NoGesture, false)
      else
        var dx0 := Displacement(downScreenX, ctx.sx);
        var dy0 := Displacement(downScreenY, ctx.sy);
        var isPastThreshold := dx0 * dx0 + dy0 * dy0 >= dragThresholdPx * dragThresholdPx;
        if activeInteraction.value.DragSelect? then MoveUpdate(SelectGesture, isPastThreshold)
        else MoveUpdate(ShapeGesture, isPastThreshold)
    }

    /** `pointerUp`: the gesture, the preview and the press position are cleared; the click
        flags survive for the click that follows. */
    method PointerUp(pointerId: int) returns (u: InteractionUpdate)
      modifies this
      ensures u == NoUpdate
      ensures activeInteraction.None? && previewSelectedIndices.None?
      ensures downScreenX.None? && downScreenY.None?
      ensures didDrag == old(didDrag) && suppressNextClickSelection == old(suppressNextClickSelection)
      ensures lastDragDx == old(lastDragDx) && lastDragDy == old(lastDragDy)
    {
      activeInteraction := None;
      previewSelectedIndices := None;
      downScreenX := None;
      downScreenY := None;
      return NoUpdate;
    }

    /** `clickShouldBeSuppressed()`: a click is swallowed while a flag is raised, and each
        swallowed click lowers one flag (didDrag first), so each flag swallows exactly one. */
    method ClickShouldBeSuppressed() returns (suppressed: bool)
      modifies this
      ensures suppressed <==> old(PendingSuppressions()) > 0
      ensures PendingSuppressions() == if suppressed then old(PendingSuppressions()) - 1 else 0
      ensures old(didDrag) ==> !didDrag && suppressNextClickSelection == old(suppressNextClickSelection)
      ensures !old(didDrag) ==> !didDrag && !suppressNextClickSelection
      ensures activeInteraction == old(activeInteraction) && previewSelectedIndices == old(previewSelectedIndices)
      ensures downScreenX == old(downScreenX) && downScreenY == old(downScreenY)
      ensures lastDragDx == old(lastDragDx) && lastDragDy == old(lastDragDy)
    {
      if didDrag {
        didDrag := false;
        return true;
      }
      if suppressNextClickSelection {
        suppressNextClickSelection := false;
        return true;
      }
      return false;
    }

    method MarkDidDrag()
      modifies this
      ensures didDrag && suppressNextClickSelection == old(suppressNextClickSelection)
      ensures activeInteraction == old(activeInteraction) && previewSelectedIndices == old(previewSelectedIndices)
      ensures downScreenX == old(downScreenX) && downScreenY == old(downScreenY)
      ensures lastDragDx == old(lastDragDx) && lastDragDy == old(lastDragDy)
    {
      didDrag := true;
    }

    method SetSuppressNextClickSelection()
      modifies this
      ensures suppressNextClickSelection && didDrag == old(didDrag)
      ensures activeInteraction == old(activeInteraction) && previewSelectedIndices == old(previewSelectedIndices)
      ensures downScreenX == old(downScreenX) && downScreenY == old(downScreenY)
      ensures lastDragDx == old(lastDragDx) && lastDragDy == old(lastDragDy)
    {
      suppressNextClickSelection := true;
    }
  }

  /** A drag followed by a selection-changing press swallows the next two clicks and lets the
      third through; a drag left unconsumed survives another press and release. */
  method ClickSuppressionExample(hit: ShapeRef)
  {
    var c := new InteractionController();
    c.MarkDidDrag();
    var _ := c.PointerDown(PointerDownContext(0.0, 0.0, 0.0, 0.0, 0, false, 1, Some(hit)));
    var _ := c.PointerUp(1);
    c.SetSuppressNextClickSelection();
    var first := c.ClickShouldBeSuppressed();
    var second := c.ClickShouldBeSuppressed();
    var third := c.ClickShouldBeSuppressed();
    assert first && second && !third;
  }
}
