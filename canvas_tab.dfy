/** CanvasTabComponent (src/app/ui/canvas/canvas-tab.component.ts): the canvas's event
    handlers and the state they change. Events arrive as records carrying the fields the
    handlers read, with the pointer's canvas position (sx, sy) already worked out from the
    event; drawing is not modelled, only which shapes `render` is given. */
module CanvasTabs {
  import opened Wrappers
  import opened Measurements
  import opened ShapeRefs
  import opened Sequences
  import Shapes
  import Rectangles
  import Points
  import opened JsMath
  import opened CanvasViewports
  import opened CanvasSelectionModels
  import CanvasSelectionControllers
  import opened CanvasInteraction
  import CanvasHitTest
  import CanvasTransform
  import CanvasPanZoom

  datatype WheelEvent = WheelEvent(deltaY: real, sx: real, sy: real)

  datatype PointerEvent = PointerEvent(button: int, shiftKey: bool, pointerId: int, clientX: real, clientY: real, sx: real, sy: real)

  datatype MouseEvent = MouseEvent(shiftKey: bool, sx: real, sy: real)

  /** A JavaScript number as the drag-select filter meets it: a finite value, or NaN, which
      is what `Math.min` and `Math.max` return when an argument is `undefined`. */
  datatype JsNumber = Finite(value: real) | NaN

  /** `Math.min`: NaN when either argument is NaN, otherwise the smaller one. */
  function JsMin(a: JsNumber, b: JsNumber): (r: JsNumber)
    ensures r.NaN? <==> a.NaN? || b.NaN?
    ensures r.Finite? ==> r.value <= a.value && r.value <= b.value && (r.value == a.value || r.value == b.value)
  {
    if a.NaN? || b.NaN? then NaN else Finite(Min(a.value, b.value))
  }

  /** `Math.max`: NaN when either argument is NaN, otherwise the larger one. */
  function JsMax(a: JsNumber, b: JsNumber): (r: JsNumber)
    ensures r.NaN? <==> a.NaN? || b.NaN?
    ensures r.Finite? ==> r.value >= a.value && r.value >= b.value && (r.value == a.value || r.value == b.value)
  {
    if a.NaN? || b.NaN? then NaN else Finite(Max(a.value, b.value))
  }

  /** `a < b`: false as soon as either side is NaN. */
  predicate JsLess(a: JsNumber, b: JsNumber)
  {
    a.Finite? && b.Finite? && a.value < b.value
  }

  /** The component's own filter on one bounding box:
      !(bx1 < x0 || bx0 > x1 || by1 < y0 || by0 > y1), box edges in pixels. */
  predicate ComponentKeeps(bb: Rectangles.Rectangle, x0: JsNumber, y0: JsNumber, x1: JsNumber, y1: JsNumber, dpi: real)
    requires dpi > 0.0
  {
    var bx0 := ToPixels(bb.topLeft.x, dpi);
    var by0 := ToPixels(bb.topLeft.y, dpi);
    var bx1 := bx0 + ToPixels(bb.width, dpi);
    var by1 := by0 + ToPixels(bb.height, dpi);
    !(JsLess(Finite(bx1), x0) || JsLess(x1, Finite(bx0)) || JsLess(Finite(by1), y0) || JsLess(y1, Finite(by0)))
  }

  /** With finite bounds the component's filter is the hit test's box test, so the corrected
      handlers can use the hit test. */
  lemma ComponentKeepsFiniteIsHitTest(bb: Rectangles.Rectangle, minX: real, minY: real, maxX: real, maxY: real, dpi: real)
    requires dpi > 0.0
    ensures ComponentKeeps(bb, Finite(minX), Finite(minY), Finite(maxX), Finite(maxY), dpi) <==>
            CanvasHitTest.BoxMeetsPx(bb, minX, minY, maxX, maxY, dpi)
  {
  }

  /** The bounds the drag-select handlers compute from the gesture record `r`:
      Math.min(r.x0, r.x1), Math.min(r.y0, r.y1), Math.max(r.x0, r.x1), Math.max(r.y0, r.y1).
      The record's fields are wx0, wy0, wx1 and wy1; x0, y0, x1 and y1 are not among them, so
      every read is `undefined` and every bound NaN. */
  function AsWrittenBounds(r: DragInteraction): (b: (JsNumber, JsNumber, JsNumber, JsNumber))
    requires r.DragSelect?
    ensures b.0.NaN? && b.1.NaN? && b.2.NaN? && b.3.NaN?
  {
    var missing := NaN;
    (JsMin(missing, missing), JsMin(missing, missing), JsMax(missing, missing), JsMax(missing, missing))
  }

  /** The shapes the drag-select handlers keep as written (the pointer-up selection and the
      pointer-move preview): the component's filter with the bounds above, in list order. A
      shape without a bounding box makes the source throw; here it is skipped. */
  function AsWrittenDragSelection(shapes: seq<ShapeRef>, r: DragInteraction, n: Shapes.Numerics, dpi: real): (sel: seq<ShapeRef>)
    requires dpi > 0.0 && r.DragSelect?
    ensures forall k :: 0 <= k < |sel| ==> sel[k] in shapes && Shapes.GetBoundingBox(sel[k].shape, n).Ok?
    ensures IsSubsequence(sel, shapes)
  {
    if |shapes| == 0 then []
    else
      var rest := AsWrittenDragSelection(shapes[1..], r, n, dpi);
      var bb := Shapes.GetBoundingBox(shapes[0].shape, n);
      var b := AsWrittenBounds(r);
      if bb.Ok? && ComponentKeeps(bb.value, b.0, b.1, b.2, b.3, dpi) then
        assert ([shapes[0]] + rest)[1..] == rest;
        [shapes[0]] + rest
      else
        rest
  }

  /** As written, a drag-select keeps every shape that has a bounding box, wherever the
      rectangle was drawn. */
  lemma {:induction false} AsWrittenSelectsEveryBoxedShape(shapes: seq<ShapeRef>, r: DragInteraction, n: Shapes.Numerics, dpi: real)
    requires dpi > 0.0 && r.DragSelect?
    ensures forall i :: 0 <= i < |shapes| && Shapes.GetBoundingBox(shapes[i].shape, n).Ok? ==>
              shapes[i] in AsWrittenDragSelection(shapes, r, n, dpi)
  {
    if |shapes| > 0 {
      AsWrittenSelectsEveryBoxedShape(shapes[1..], r, n, dpi);
      forall i | 1 <= i < |shapes| && Shapes.GetBoundingBox(shapes[i].shape, n).Ok?
        ensures shapes[i] in AsWrittenDragSelection(shapes, r, n, dpi)
      {
        assert shapes[i] == shapes[1..][i - 1];
      }
    }
  }

  /** The gesture record after the drag-select branch of `onPointerMove` as written, with the
      pointer at the world point `w`: the branch reads the record but never assigns to it, so
      its second corner stays where it was. */
  function AsWrittenSelectMoveRecord(r: DragInteraction, w: (real, real)): (r': DragInteraction)
    requires r.DragSelect?
    ensures r'.DragSelect? && r'.wx1 == r.wx1 && r'.wy1 == r.wy1
  {
    r
  }

  /** After a press at (x, y) the record's corners coincide; as written a move to any other
      point leaves them so, while the corrected `SelectMove` takes the second corner to the
      pointer. */
  lemma AsWrittenCornerNeverMoves(x: real, y: real, shift: bool, w: (real, real))
    requires w != (x, y)
    ensures var moved := AsWrittenSelectMoveRecord(DragSelect(x, y, x, y, shift), w);
            moved.wx1 == x && moved.wy1 == y && moved != DragSelect(x, y, w.0, w.1, shift)
  {
  }

  /** The 120 x 80 px rectangle at (100, 100) px and a selection rectangle from (0, 0) to
      (1, 1) px at 96 DPI: as written the drag selects the rectangle, although the two do not
      meet; the corrected hit test leaves it out. */
  lemma DragSelectFindingExample(s: ShapeRef, n: Shapes.Numerics)
    requires s.shape == Shapes.RectangleShape(Rectangles.Rectangle(Points.Point(FromPx(100.0, 96.0), FromPx(100.0, 96.0)), FromPx(120.0, 96.0), FromPx(80.0, 96.0)))
    ensures s in AsWrittenDragSelection([s], DragSelect(0.0, 0.0, 1.0, 1.0, false), n, 96.0)
    ensures CanvasHitTest.HitTestIntersectingRect([s], 0.0, 0.0, 1.0, 1.0, n, 96.0) == []
  {
    AsWrittenSelectsEveryBoxedShape([s], DragSelect(0.0, 0.0, 1.0, 1.0, false), n, 96.0);
    var bb := Shapes.GetBoundingBox(s.shape, n).value;
    assert ToPixels(bb.topLeft.x, 96.0) == 100.0;
    assert !CanvasHitTest.MeetsRect(s, 0.0, 0.0, 1.0, 1.0, n, 96.0);
  }

  /** Two 10 x 10 mm squares at x = 0 and x = 20 mm, and a drag from the world point (0, 0)
      to (30, 15) px at 96 DPI, so that only the first square meets the rectangle: as written
      both are selected, the corrected hit test selects the first alone. */
  lemma DragSelectGroupExample(r1: ShapeRef, r2: ShapeRef, n: Shapes.Numerics)
    requires r1.shape == Shapes.RectangleShape(Rectangles.Rectangle(Points.Point(Measurement(0.0), Measurement(0.0)), Measurement(10.0), Measurement(10.0)))
    requires r2.shape == Shapes.RectangleShape(Rectangles.Rectangle(Points.Point(Measurement(20.0), Measurement(0.0)), Measurement(10.0), Measurement(10.0)))
    ensures r1 in AsWrittenDragSelection([r1, r2], DragSelect(0.0, 0.0, 30.0, 15.0, false), n, 96.0)
    ensures r2 in AsWrittenDragSelection([r1, r2], DragSelect(0.0, 0.0, 30.0, 15.0, false), n, 96.0)
    ensures CanvasHitTest.HitTestIntersectingRect([r1, r2], 0.0, 0.0, 30.0, 15.0, n, 96.0) == [r1]
  {
    var shapes := [r1, r2];
    AsWrittenSelectsEveryBoxedShape(shapes, DragSelect(0.0, 0.0, 30.0, 15.0, false), n, 96.0);
    assert shapes[0] == r1 && shapes[1] == r2;
    assert r1 != r2 by {
      assert r1.shape != r2.shape;
    }
    assert CanvasHitTest.MeetsRect(r1, 0.0, 0.0, 30.0, 15.0, n, 96.0);
    assert ToPixels(Measurement(20.0), 96.0) > 30.0;
    assert !CanvasHitTest.MeetsRect(r2, 0.0, 0.0, 30.0, 15.0, n, 96.0);
    var h := CanvasHitTest.HitTestIntersectingRect(shapes, 0.0, 0.0, 30.0, 15.0, n, 96.0);
    assert r1 in h;
    assert forall k :: 0 <= k < |h| ==> h[k] == r1;
  }

  /** `s => s.translate(dx, dy)`. */
  function TranslateBy(dx: Measurement, dy: Measurement): (f: Shapes.Shape -> Shapes.Shape)
    ensures forall s :: f(s) == Shapes.Translate(s, dx, dy)
  {
    s => Shapes.Translate(s, dx, dy)
  }

  class CanvasTab {
    var shapes: seq<ShapeRef>
    var previewShapes: Option<seq<ShapeRef>>
    var hoveredShape: Option<ShapeRef>
    var pointerScreenX: Option<real>
    var pointerScreenY: Option<real>
    var isPanning: bool
    var lastX: real
    var lastY: real
    const viewport: Viewport
    const selection: SelectionModel
    const interaction: InteractionController
    /** The screen's DPI and the numeric helpers of the geometry. */
    const dpi: real
    const numerics: Shapes.Numerics

    /** The DPI is positive and the zoom stays positive, so screen points convert to world
        points. */
    ghost predicate Valid()
      reads this, viewport
    {
      dpi > 0.0 && viewport.scale > 0.0
    }

    constructor(dpi: real, numerics: Shapes.Numerics)
      requires dpi > 0.0
      ensures Valid() && this.dpi == dpi && this.numerics == numerics
      ensures fresh(viewport) && fresh(selection) && fresh(interaction)
      ensures shapes == [] && previewShapes.None? && hoveredShape.None?
      ensures pointerScreenX.None? && pointerScreenY.None? && !isPanning
      ensures selection.selectedShapes == [] && interaction.activeInteraction.None?
    {
      this.dpi := dpi;
      this.numerics := numerics;
      viewport := new Viewport(None);
      selection := new SelectionModel();
      interaction := new InteractionController();
      shapes := [];
      previewShapes := None;
      hoveredShape := None;
      pointerScreenX := None;
      pointerScreenY := None;
      isPanning := false;
      lastX := 0.0;
      lastY := 0.0;
    }

    /** The world point (pixels) under a canvas position. */
    function WorldAt(sx: real, sy: real): (real, real)
      requires Valid()
      reads this, viewport
    {
      viewport.ScreenToWorld(sx, sy)
    }

    /** `[...this.shapes].reverse().find(s => s.containsPoint?.(p))` at a canvas position. */
    function HitAt(sx: real, sy: real): Option<ShapeRef>
      requires Valid()
      reads this, viewport
    {
      CanvasHitTest.HitTestTopmost(shapes, WorldAt(sx, sy).0, WorldAt(sx, sy).1, numerics, dpi)
    }

    /** `render(preview?)`: records the preview list, if any, as the one the overlays use. */
    method Render(preview: Option<seq<ShapeRef>>)
      modifies this
      ensures previewShapes == preview
      ensures shapes == old(shapes) && hoveredShape == old(hoveredShape) && isPanning == old(isPanning)
      ensures pointerScreenX == old(pointerScreenX) && pointerScreenY == old(pointerScreenY)
      ensures lastX == old(lastX) && lastY == old(lastY)
    {
      previewShapes := preview;
    }

    /** `applyGroupTransform(targets, f, previewOnly)`: with no targets the current list.
        Otherwise a list of the same length in which each target is a new instance holding its
        transformed shape and every other shape is kept by reference. Unless previewing, that
        list becomes the canvas's shapes and the selection follows each target to its new
        instance. */
    method ApplyGroupTransform(targets: seq<ShapeRef>, f: Shapes.Shape -> Shapes.Shape, previewOnly: bool)
      returns (newShapes: seq<ShapeRef>)
      modifies this, selection
      ensures |targets| == 0 ==> newShapes == old(shapes)
      ensures |newShapes| == |old(shapes)|
      ensures |targets| > 0 ==>
                (forall i :: 0 <= i < |old(shapes)| && old(shapes)[i] in targets ==>
                   fresh(newShapes[i]) && newShapes[i].shape == f(old(shapes)[i].shape)) &&
                (forall i :: 0 <= i < |old(shapes)| && old(shapes)[i] !in targets ==> newShapes[i] == old(shapes)[i])
      ensures |targets| == 0 || previewOnly ==>
                shapes == old(shapes) && selection.selectedShapes == old(selection.selectedShapes) &&
                selection.selectedIndices == old(selection.selectedIndices)
      ensures |targets| > 0 && !previewOnly ==>
                shapes == newShapes &&
                selection.selectedShapes == Remapped(old(selection.selectedShapes), CanvasTransform.SuccessorMap(old(shapes), targets, newShapes), newShapes) &&
                selection.selectedIndices == IndexesIn(selection.selectedShapes, newShapes)
      ensures previewShapes == old(previewShapes) && hoveredShape == old(hoveredShape) && isPanning == old(isPanning)
      ensures pointerScreenX == old(pointerScreenX) && pointerScreenY == old(pointerScreenY)
      ensures lastX == old(lastX) && lastY == old(lastY)
    {
      if |targets| == 0 {
        return shapes;
      }
      newShapes := CanvasTransform.ReplaceTargets(shapes, targets, f);
      if !previewOnly {
        var oldToNew := CanvasTransform.BuildSuccessorMap(shapes, targets, newShapes);
        shapes := newShapes;
        selection.RemapAfterShapeReplacement(oldToNew, shapes);
      }
    }

    /** `onWheel`: zooms by the wheel's step about the pointer, keeping the world point under
        it in place, then renders the canvas's own shapes. */
    method OnWheel(e: WheelEvent)
      requires Valid()
      modifies this, viewport
      ensures Valid()
      ensures viewport.scale == old(viewport.scale) * CanvasPanZoom.ZoomFactor(e.deltaY)
      ensures viewport.offsetX == ZoomedOffset(old(viewport.offsetX), CanvasPanZoom.ZoomFactor(e.deltaY), e.sx)
      ensures viewport.offsetY == ZoomedOffset(old(viewport.offsetY), CanvasPanZoom.ZoomFactor(e.deltaY), e.sy)
      ensures WorldAt(e.sx, e.sy) == old(WorldAt(e.sx, e.sy))
      ensures previewShapes.None? && shapes == old(shapes)
    {
      var delta := CanvasPanZoom.ZoomFactor(e.deltaY);
      viewport.ZoomAt(delta, e.sx, e.sy);
      Render(None);
    }

    /** The left-button part of `onPointerDown`, after the preview is cleared. The interaction
        controller starts a gesture at the pressed world point. On a shape with shift held,
        the shape is toggled at once, the following click is swallowed, and the shape drag is
        dropped when the shape ended up unselected. On an unselected shape without shift the
        selection becomes that shape and the following click is swallowed; on a selected one
        the selection is kept for dragging. */
    method PrimaryPress(e: PointerEvent)
      requires Valid() && e.button == 0
      modifies this, selection, interaction
      ensures Valid() && shapes == old(shapes) && isPanning == old(isPanning) && lastX == old(lastX) && lastY == old(lastY)
      ensures previewShapes.None?
      ensures interaction.downScreenX == Some(e.sx) && interaction.downScreenY == Some(e.sy)
      ensures interaction.didDrag == old(interaction.didDrag)
      ensures var hit := old(HitAt(e.sx, e.sy));
              var world := old(WorldAt(e.sx, e.sy));
              (hit.None? ==>
                 interaction.activeInteraction == Some(DragSelect(world.0, world.1, world.0, world.1, e.shiftKey)) &&
                 interaction.previewSelectedIndices.None? &&
                 selection.selectedShapes == old(selection.selectedShapes) &&
                 interaction.suppressNextClickSelection == old(interaction.suppressNextClickSelection)) &&
              (hit.Some? ==>
                 interaction.previewSelectedIndices == old(interaction.previewSelectedIndices) &&
                 interaction.lastDragDx.None? && interaction.lastDragDy.None?) &&
              (hit.Some? && e.shiftKey ==>
                 selection.selectedShapes == ToggleAll(old(selection.selectedShapes), [hit.value]) &&
                 selection.selectedIndices == IndexesIn(selection.selectedShapes, shapes) &&
                 interaction.suppressNextClickSelection &&
                 (hit.value in selection.selectedShapes ==> interaction.activeInteraction == Some(DragShape(hit.value, world.0, world.1))) &&
                 (hit.value !in selection.selectedShapes ==> interaction.activeInteraction.None?)) &&
              (hit.Some? && !e.shiftKey && hit.value in old(selection.selectedShapes) ==>
                 selection.selectedShapes == old(selection.selectedShapes) &&
                 selection.selectedIndices == old(selection.selectedIndices) &&
                 interaction.suppressNextClickSelection == old(interaction.suppressNextClickSelection) &&
                 interaction.activeInteraction == Some(DragShape(hit.value, world.0, world.1))) &&
              (hit.Some? && !e.shiftKey && hit.value !in old(selection.selectedShapes) ==>
                 selection.selectedShapes == [hit.value] &&
                 selection.selectedIndices == IndexesIn([hit.value], shapes) &&
                 interaction.suppressNextClickSelection &&
                 interaction.activeInteraction == Some(DragShape(hit.value, world.0, world.1)))
    {
      var world := WorldAt(e.sx, e.sy);
      var hit := HitAt(e.sx, e.sy);
      var _ := interaction.PointerDown(PointerDownContext(e.sx, e.sy, world.0, world.1, e.button, e.shiftKey, e.pointerId, hit));
      previewShapes := None;
      if hit.Some? {
        if e.shiftKey {
          ToggleOnPress(hit.value);
          Render(None);
          return;
        }
        if hit.value !in selection.selectedShapes {
          SelectOnPress(hit.value);
        }
      }
    }

    /** A shift-press on a shape: the shape is toggled in the selection, the indices follow,
        the next click is swallowed, and the shape drag is dropped if the shape is now
        unselected. */
    method ToggleOnPress(hit: ShapeRef)
      modifies selection, interaction
      ensures selection.selectedShapes == ToggleAll(old(selection.selectedShapes), [hit])
      ensures selection.selectedIndices == IndexesIn(selection.selectedShapes, shapes)
      ensures interaction.suppressNextClickSelection && interaction.didDrag == old(interaction.didDrag)
      ensures hit in selection.selectedShapes ==> interaction.activeInteraction == old(interaction.activeInteraction)
      ensures hit !in selection.selectedShapes ==> interaction.activeInteraction.None?
      ensures interaction.previewSelectedIndices == old(interaction.previewSelectedIndices)
      ensures interaction.downScreenX == old(interaction.downScreenX) && interaction.downScreenY == old(interaction.downScreenY)
      ensures interaction.lastDragDx == old(interaction.lastDragDx) && interaction.lastDragDy == old(interaction.lastDragDy)
    {
      selection.Apply(Toggle([hit]));
      selection.SyncIndices(shapes);
      interaction.SetSuppressNextClickSelection();
      if hit !in selection.selectedShapes {
        interaction.activeInteraction := None;
      }
    }

    /** A plain press on an unselected shape: the selection becomes that shape, the indices
        follow and the next click is swallowed. */
    method SelectOnPress(hit: ShapeRef)
      modifies selection, interaction
      ensures selection.selectedShapes == [hit]
      ensures selection.selectedIndices == IndexesIn([hit], shapes)
      ensures interaction.suppressNextClickSelection && interaction.didDrag == old(interaction.didDrag)
      ensures interaction.activeInteraction == old(interaction.activeInteraction)
      ensures interaction.previewSelectedIndices == old(interaction.previewSelectedIndices)
      ensures interaction.downScreenX == old(interaction.downScreenX) && interaction.downScreenY == old(interaction.downScreenY)
      ensures interaction.lastDragDx == old(interaction.lastDragDx) && interaction.lastDragDy == old(interaction.lastDragDy)
    {
      selection.Apply(Replace([hit]));
      selection.SyncIndices(shapes);
      interaction.SetSuppressNextClickSelection();
    }

    /** `onPointerDown`: the interaction preview is cleared; the left button goes to
        PrimaryPress, the middle button starts a pan from the pointer's client position. */
    method OnPointerDown(e: PointerEvent)
      requires Valid()
      modifies this, selection, interaction
      ensures Valid() && shapes == old(shapes)
      ensures interaction.previewSelectedIndices.None?
      ensures e.button == 1 ==> isPanning && lastX == e.clientX && lastY == e.clientY
      ensures e.button != 1 ==> isPanning == old(isPanning) && lastX == old(lastX) && lastY == old(lastY)
      ensures e.button != 0 ==>
                selection.selectedShapes == old(selection.selectedShapes) && selection.selectedIndices == old(selection.selectedIndices) &&
                interaction.activeInteraction == old(interaction.activeInteraction) && previewShapes == old(previewShapes) &&
                interaction.downScreenX == old(interaction.downScreenX) && interaction.downScreenY == old(interaction.downScreenY) &&
                interaction.suppressNextClickSelection == old(interaction.suppressNextClickSelection) &&
                interaction.lastDragDx == old(interaction.lastDragDx) && interaction.lastDragDy == old(interaction.lastDragDy)
      ensures interaction.didDrag == old(interaction.didDrag)
      ensures e.button == 0 ==>
                previewShapes.None? && interaction.downScreenX == Some(e.sx) && interaction.downScreenY == Some(e.sy)
      ensures e.button == 0 ==>
              var hit := old(HitAt(e.sx, e.sy));
              var world := old(WorldAt(e.sx, e.sy));
              (hit.None? ==>
                 interaction.activeInteraction == Some(DragSelect(world.0, world.1, world.0, world.1, e.shiftKey)) &&
                 selection.selectedShapes == old(selection.selectedShapes) &&
                 interaction.suppressNextClickSelection == old(interaction.suppressNextClickSelection)) &&
              (hit.Some? ==> interaction.lastDragDx.None? && interaction.lastDragDy.None?) &&
              (hit.Some? && e.shiftKey ==>
                 selection.selectedShapes == ToggleAll(old(selection.selectedShapes), [hit.value]) &&
                 selection.selectedIndices == IndexesIn(selection.selectedShapes, shapes) &&
                 interaction.suppressNextClickSelection &&
                 (hit.value in selection.selectedShapes ==> interaction.activeInteraction == Some(DragShape(hit.value, world.0, world.1))) &&
                 (hit.value !in selection.selectedShapes ==> interaction.activeInteraction.None?)) &&
              (hit.Some? && !e.shiftKey && hit.value in old(selection.selectedShapes) ==>
                 selection.selectedShapes == old(selection.selectedShapes) &&
                 selection.selectedIndices == old(selection.selectedIndices) &&
                 interaction.suppressNextClickSelection == old(interaction.suppressNextClickSelection) &&
                 interaction.activeInteraction == Some(DragShape(hit.value, world.0, world.1))) &&
              (hit.Some? && !e.shiftKey && hit.value !in old(selection.selectedShapes) ==>
                 selection.selectedShapes == [hit.value] &&
                 selection.selectedIndices == IndexesIn([hit.value], shapes) &&
                 interaction.suppressNextClickSelection &&
                 interaction.activeInteraction == Some(DragShape(hit.value, world.0, world.1)))
    {
      interaction.ClearPreview();
      if e.button == 0 {
        PrimaryPress(e);
      }
      if e.button == 1 {
        isPanning := true;
        lastX := e.clientX;
        lastY := e.clientY;
      }
    }
      /** `onMouseMove`: the pointer's canvas position is recorded; unless a gesture is running,
        the hovered shape becomes the topmost shape under it and the canvas is rendered. */
    method OnMouseMove(e: MouseEvent)
      requires Valid()
      modifies this
      ensures Valid() && shapes == old(shapes) && isPanning == old(isPanning)
      ensures pointerScreenX == Some(e.sx) && pointerScreenY == Some(e.sy)
      ensures interaction.activeInteraction.Some? ==> hoveredShape == old(hoveredShape) && previewShapes == old(previewShapes)
      ensures interaction.activeInteraction.None? ==> hoveredShape == HitAt(e.sx, e.sy) && previewShapes.None?
    {
      pointerScreenX := Some(e.sx);
      pointerScreenY := Some(e.sy);
      if interaction.activeInteraction.Some? {
        return;
      }
      hoveredShape := HitAt(e.sx, e.sy);
      Render(None);
    }

    /** The panning branch of `onPointerMove`: the view moves by the client-space movement
        since the last event, which becomes the new reference position. */
    method PanMove(e: PointerEvent)
      requires Valid()
      modifies this, viewport
      ensures Valid()
      ensures viewport.offsetX == old(viewport.offsetX) + (e.clientX - old(lastX))
      ensures viewport.offsetY == old(viewport.offsetY) + (e.clientY - old(lastY))
      ensures viewport.offsetX - lastX == old(viewport.offsetX - lastX) && viewport.offsetY - lastY == old(viewport.offsetY - lastY)
      ensures lastX == e.clientX && lastY == e.clientY && isPanning == old(isPanning)
      ensures shapes == old(shapes) && previewShapes.None?
    {
      viewport.PanBy(e.clientX - lastX, e.clientY - lastY);
      lastX := e.clientX;
      lastY := e.clientY;
      Render(None);
    }

    /** The drag-select branch of `onPointerMove` once the pointer is past the threshold: the
        gesture is marked as a drag, the rectangle's moving corner follows the pointer, and the
        preview holds the positions of the shapes whose box meets the rectangle. The overlay
        list is set to the canvas's shapes and `render()` then clears it again. */
    method SelectMove(sx: real, sy: real)
      requires Valid() && interaction.activeInteraction.Some? && interaction.activeInteraction.value.DragSelect?
      modifies this, interaction
      ensures Valid() && shapes == old(shapes) && isPanning == old(isPanning) && previewShapes.None?
      ensures var r := old(interaction.activeInteraction.value);
              var w := old(WorldAt(sx, sy));
              interaction.activeInteraction == Some(DragSelect(r.wx0, r.wy0, w.0, w.1, r.shift)) &&
              interaction.previewSelectedIndices == Some(CanvasHitTest.HitTestIntersectingRectIndices(shapes, r.wx0, r.wy0, w.0, w.1, numerics, dpi))
      ensures interaction.didDrag && interaction.suppressNextClickSelection == old(interaction.suppressNextClickSelection)
      ensures pointerScreenX == old(pointerScreenX) && pointerScreenY == old(pointerScreenY) && hoveredShape == old(hoveredShape)
      ensures lastX == old(lastX) && lastY == old(lastY)
      ensures interaction.downScreenX == old(interaction.downScreenX) && interaction.downScreenY == old(interaction.downScreenY)
      ensures interaction.lastDragDx == old(interaction.lastDragDx) && interaction.lastDragDy == old(interaction.lastDragDy)
    {
      interaction.MarkDidDrag();
      var r := interaction.activeInteraction.value;
      var w := WorldAt(sx, sy);
      interaction.activeInteraction := Some(DragSelect(r.wx0, r.wy0, w.0, w.1, r.shift));
      interaction.previewSelectedIndices := Some(CanvasHitTest.HitTestIntersectingRectIndices(shapes, r.wx0, r.wy0, w.0, w.1, numerics, dpi));
      previewShapes := Some(shapes);
      Render(None);
    }

    /** The drag-shape branch of `onPointerMove` once the pointer is past the threshold: the
        world displacement since the press is stored as the last drag delta, and the canvas is
        rendered with the drag targets translated by it, without touching the shapes or the
        selection. */
    method ShapeMove(sx: real, sy: real)
      requires Valid() && interaction.activeInteraction.Some? && interaction.activeInteraction.value.DragShape?
      modifies this, selection, interaction
      ensures Valid() && shapes == old(shapes) && isPanning == old(isPanning)
      ensures selection.selectedShapes == old(selection.selectedShapes) && selection.selectedIndices == old(selection.selectedIndices)
      ensures interaction.didDrag && interaction.activeInteraction == old(interaction.activeInteraction)
      ensures pointerScreenX == old(pointerScreenX) && pointerScreenY == old(pointerScreenY) && hoveredShape == old(hoveredShape)
      ensures lastX == old(lastX) && lastY == old(lastY)
      ensures interaction.lastDragDx.Some? && interaction.lastDragDy.Some?
      ensures var d := old(interaction.activeInteraction.value);
              var w := old(WorldAt(sx, sy));
              ToPixels(interaction.lastDragDx.value, dpi) == w.0 - d.startWorldX &&
              ToPixels(interaction.lastDragDy.value, dpi) == w.1 - d.startWorldY
      ensures previewShapes.Some? && |previewShapes.value| == |shapes|
      ensures var targets := CanvasSelectionControllers.DragTargets(selection.selectedShapes, interaction.activeInteraction.value.original);
              var dx, dy := interaction.lastDragDx.value, interaction.lastDragDy.value;
              (forall i :: 0 <= i < |shapes| && shapes[i] in targets ==>
                 fresh(previewShapes.value[i]) && previewShapes.value[i].shape == Shapes.Translate(shapes[i].shape, dx, dy)) &&
              (forall i :: 0 <= i < |shapes| && shapes[i] !in targets ==> previewShapes.value[i] == shapes[i])
    {
      interaction.MarkDidDrag();
      var drag := interaction.activeInteraction.value;
      var worldNow := WorldAt(sx, sy);
      var dx := FromPx(worldNow.0 - drag.startWorldX, dpi);
      var dy := FromPx(worldNow.1 - drag.startWorldY, dpi);
      interaction.lastDragDx := Some(dx);
      interaction.lastDragDy := Some(dy);
      var targets := CanvasSelectionControllers.DragTargets(selection.selectedShapes, drag.original);
      var preview := ApplyGroupTransform(targets, TranslateBy(dx, dy), true);
      Render(Some(preview));
    }

    /** The gesture part of `onPointerMove` (not panning, a gesture running): the pointer's
        canvas position is recorded and, once the pointer is past the threshold, the
        selection rectangle or the dragged shapes follow it. Below the threshold nothing else
        changes. */
    method GestureMove(e: PointerEvent)
      requires Valid() && interaction.activeInteraction.Some?
      modifies this, selection, interaction
      ensures Valid() && shapes == old(shapes) && isPanning == old(isPanning) && lastX == old(lastX) && lastY == old(lastY)
      ensures selection.selectedShapes == old(selection.selectedShapes) && selection.selectedIndices == old(selection.selectedIndices)
      ensures pointerScreenX == Some(e.sx) && pointerScreenY == Some(e.sy)
      ensures var pm := old(interaction.PointerMove(PointerMoveContext(e.sx, e.sy, e.clientX, e.clientY)));
              (pm.isPastThreshold ==> interaction.didDrag) &&
              (!pm.isPastThreshold ==>
                 interaction.didDrag == old(interaction.didDrag) && interaction.activeInteraction == old(interaction.activeInteraction) &&
                 previewShapes == old(previewShapes))
      ensures old(interaction.activeInteraction).value.DragSelect? ==>
                interaction.activeInteraction.Some? && interaction.activeInteraction.value.DragSelect?
      ensures old(interaction.activeInteraction).value.DragShape? ==> interaction.activeInteraction == old(interaction.activeInteraction)
      ensures var pm := old(interaction.PointerMove(PointerMoveContext(e.sx, e.sy, e.clientX, e.clientY)));
              var r := old(interaction.activeInteraction.value);
              var w := old(WorldAt(e.sx, e.sy));
              pm.isPastThreshold && r.DragSelect? ==>
                interaction.activeInteraction == Some(DragSelect(r.wx0, r.wy0, w.0, w.1, r.shift)) &&
                interaction.previewSelectedIndices == Some(CanvasHitTest.HitTestIntersectingRectIndices(shapes, r.wx0, r.wy0, w.0, w.1, numerics, dpi)) &&
                previewShapes.None?
      ensures var pm := old(interaction.PointerMove(PointerMoveContext(e.sx, e.sy, e.clientX, e.clientY)));
              var d := old(interaction.activeInteraction.value);
              var w := old(WorldAt(e.sx, e.sy));
              pm.isPastThreshold && d.DragShape? ==>
                interaction.lastDragDx.Some? && interaction.lastDragDy.Some? &&
                ToPixels(interaction.lastDragDx.value, dpi) == w.0 - d.startWorldX &&
                ToPixels(interaction.lastDragDy.value, dpi) == w.1 - d.startWorldY &&
                previewShapes.Some? && |previewShapes.value| == |shapes| &&
                var targets := CanvasSelectionControllers.DragTargets(selection.selectedShapes, d.original);
                var dx, dy := interaction.lastDragDx.value, interaction.lastDragDy.value;
                (forall i :: 0 <= i < |shapes| && shapes[i] in targets ==>
                   fresh(previewShapes.value[i]) && previewShapes.value[i].shape == Shapes.Translate(shapes[i].shape, dx, dy)) &&
                (forall i :: 0 <= i < |shapes| && shapes[i] !in targets ==> previewShapes.value[i] == shapes[i])
    {
      var pm := interaction.PointerMove(PointerMoveContext(e.sx, e.sy, e.clientX, e.clientY));
      pointerScreenX := Some(e.sx);
      pointerScreenY := Some(e.sy);
      if pm.kind == SelectGesture {
        if !pm.isPastThreshold {
          return;
        }
        SelectMove(e.sx, e.sy);
        return;
      }
      if pm.kind == ShapeGesture {
        if !pm.isPastThreshold {
          return;
        }
        ShapeMove(e.sx, e.sy);
      }
    }

    /** `onPointerMove`: while panning, the view follows the pointer; otherwise a running
        gesture goes to GestureMove. The selection itself never changes on a move. */
    method OnPointerMove(e: PointerEvent)
      requires Valid()
      modifies this, viewport, selection, interaction
      ensures Valid() && shapes == old(shapes) && isPanning == old(isPanning)
      ensures selection.selectedShapes == old(selection.selectedShapes) && selection.selectedIndices == old(selection.selectedIndices)
      ensures old(isPanning) ==>
                lastX == e.clientX && lastY == e.clientY &&
                viewport.offsetX == old(viewport.offsetX) + (e.clientX - old(lastX)) &&
                viewport.offsetY == old(viewport.offsetY) + (e.clientY - old(lastY)) &&
                interaction.activeInteraction == old(interaction.activeInteraction)
      ensures !old(isPanning) ==>
                viewport.offsetX == old(viewport.offsetX) && viewport.offsetY == old(viewport.offsetY) &&
                viewport.scale == old(viewport.scale)
      ensures !old(isPanning) && old(interaction.activeInteraction).None? ==>
                pointerScreenX == old(pointerScreenX) && interaction.activeInteraction.None? &&
                previewShapes == old(previewShapes) && interaction.didDrag == old(interaction.didDrag)
      ensures !old(isPanning) && old(interaction.activeInteraction).Some? ==>
                pointerScreenX == Some(e.sx) && pointerScreenY == Some(e.sy)
      ensures var pm := old(interaction.PointerMove(PointerMoveContext(e.sx, e.sy, e.clientX, e.clientY)));
              !old(isPanning) && pm.isPastThreshold && old(interaction.activeInteraction).Some? &&
              old(interaction.activeInteraction).value.DragSelect? ==>
                var r := old(interaction.activeInteraction.value);
                var w := old(WorldAt(e.sx, e.sy));
                interaction.didDrag &&
                interaction.activeInteraction == Some(DragSelect(r.wx0, r.wy0, w.0, w.1, r.shift)) &&
                interaction.previewSelectedIndices == Some(CanvasHitTest.HitTestIntersectingRectIndices(shapes, r.wx0, r.wy0, w.0, w.1, numerics, dpi)) &&
                previewShapes.None?
      ensures var pm := old(interaction.PointerMove(PointerMoveContext(e.sx, e.sy, e.clientX, e.clientY)));
              !old(isPanning) && pm.isPastThreshold && old(interaction.activeInteraction).Some? &&
              old(interaction.activeInteraction).value.DragShape? ==>
                var d := old(interaction.activeInteraction.value);
                var w := old(WorldAt(e.sx, e.sy));
                interaction.didDrag && interaction.activeInteraction == old(interaction.activeInteraction) &&
                interaction.lastDragDx.Some? && interaction.lastDragDy.Some? &&
                ToPixels(interaction.lastDragDx.value, dpi) == w.0 - d.startWorldX &&
                ToPixels(interaction.lastDragDy.value, dpi) == w.1 - d.startWorldY &&
                previewShapes.Some? && |previewShapes.value| == |shapes| &&
                var targets := CanvasSelectionControllers.DragTargets(selection.selectedShapes, d.original);
                var dx, dy := interaction.lastDragDx.value, interaction.lastDragDy.value;
                (forall i :: 0 <= i < |shapes| && shapes[i] in targets ==>
                   fresh(previewShapes.value[i]) && previewShapes.value[i].shape == Shapes.Translate(shapes[i].shape, dx, dy)) &&
                (forall i :: 0 <= i < |shapes| && shapes[i] !in targets ==> previewShapes.value[i] == shapes[i])
      ensures var pm := old(interaction.PointerMove(PointerMoveContext(e.sx, e.sy, e.clientX, e.clientY)));
              !old(isPanning) && old(interaction.activeInteraction).Some? && !pm.isPastThreshold ==>
                interaction.didDrag == old(interaction.didDrag) && interaction.activeInteraction == old(interaction.activeInteraction) &&
                previewShapes == old(previewShapes)
    {
      if isPanning {
        PanMove(e);
        return;
      }
      if interaction.activeInteraction.None? {
        return;
      }
      GestureMove(e);
    }
      /** The drag-select part of `onPointerUp`: the shapes whose bounding box meets the
        gesture's rectangle are added to the selection (shift) or replace it, both previews are
        cleared and the indices follow the selection. */
    method SelectRelease()
      requires Valid() && interaction.activeInteraction.Some? && interaction.activeInteraction.value.DragSelect?
      modifies this, selection, interaction
      ensures Valid() && shapes == old(shapes) && isPanning == old(isPanning) && hoveredShape == old(hoveredShape)
      ensures pointerScreenX == old(pointerScreenX) && pointerScreenY == old(pointerScreenY)
      ensures var r := old(interaction.activeInteraction.value);
              var hits := CanvasHitTest.HitTestIntersectingRect(shapes, r.wx0, r.wy0, r.wx1, r.wy1, numerics, dpi);
              selection.selectedShapes == (if r.shift then AddAll(old(selection.selectedShapes), hits) else hits)
      ensures selection.selectedIndices == IndexesIn(selection.selectedShapes, shapes)
      ensures previewShapes.None? && interaction.previewSelectedIndices.None?
      ensures interaction.activeInteraction == old(interaction.activeInteraction) && interaction.didDrag == old(interaction.didDrag)
      ensures interaction.suppressNextClickSelection == old(interaction.suppressNextClickSelection)
      ensures interaction.lastDragDx == old(interaction.lastDragDx) && interaction.lastDragDy == old(interaction.lastDragDy)
    {
      var r := interaction.activeInteraction.value;
      var selected := CanvasHitTest.HitTestIntersectingRect(shapes, Min(r.wx0, r.wx1), Min(r.wy0, r.wy1), Max(r.wx0, r.wx1), Max(r.wy0, r.wy1), numerics, dpi);
      CanvasHitTest.HitTestIgnoresCornerOrder(shapes, r.wx0, r.wy0, r.wx1, r.wy1, numerics, dpi);
      selection.Apply(if r.shift then Add(selected) else Replace(selected));
      previewShapes := None;
      interaction.previewSelectedIndices := None;
      selection.SyncIndices(shapes);
    }

    /** The drag-shape part of `onPointerUp`: when a drag delta was recorded, the drag targets
        are replaced by new instances translated by it and the selection follows them; the
        delta and both previews are then cleared and the indices follow the selection. */
    method ShapeRelease()
      requires Valid() && interaction.activeInteraction.Some? && interaction.activeInteraction.value.DragShape?
      modifies this, selection, interaction
      ensures Valid() && isPanning == old(isPanning) && hoveredShape == old(hoveredShape)
      ensures pointerScreenX == old(pointerScreenX) && pointerScreenY == old(pointerScreenY)
      ensures |shapes| == |old(shapes)|
      ensures var targets := CanvasSelectionControllers.DragTargets(old(selection.selectedShapes), old(interaction.activeInteraction.value.original));
              var dx, dy := old(interaction.lastDragDx), old(interaction.lastDragDy);
              (dx.Some? && dy.Some? ==>
                 (forall i :: 0 <= i < |old(shapes)| && old(shapes)[i] in targets ==>
                    fresh(shapes[i]) && shapes[i].shape == Shapes.Translate(old(shapes)[i].shape, dx.value, dy.value)) &&
                 (forall i :: 0 <= i < |old(shapes)| && old(shapes)[i] !in targets ==> shapes[i] == old(shapes)[i]) &&
                 selection.selectedShapes == Remapped(old(selection.selectedShapes), CanvasTransform.SuccessorMap(old(shapes), targets, shapes), shapes)) &&
              (dx.None? || dy.None? ==> shapes == old(shapes) && selection.selectedShapes == old(selection.selectedShapes))
      ensures selection.selectedIndices == IndexesIn(selection.selectedShapes, shapes)
      ensures previewShapes.None? && interaction.previewSelectedIndices.None?
      ensures interaction.lastDragDx.None? && interaction.lastDragDy.None?
      ensures interaction.activeInteraction == old(interaction.activeInteraction) && interaction.didDrag == old(interaction.didDrag)
      ensures interaction.suppressNextClickSelection == old(interaction.suppressNextClickSelection)
    {
      var drag := interaction.activeInteraction.value;
      var targets := CanvasSelectionControllers.DragTargets(selection.selectedShapes, drag.original);
      if interaction.lastDragDx.Some? && interaction.lastDragDy.Some? {
        var _ := ApplyGroupTransform(targets, TranslateBy(interaction.lastDragDx.value, interaction.lastDragDy.value), false);
      }
      EndShapeDrag();
    }

    /** The clean-up after a shape drag: the drag delta and both previews are cleared and the
        indices follow the selection. */
    method EndShapeDrag()
      modifies this, selection, interaction
      ensures interaction.lastDragDx.None? && interaction.lastDragDy.None?
      ensures previewShapes.None? && interaction.previewSelectedIndices.None?
      ensures selection.selectedShapes == old(selection.selectedShapes)
      ensures selection.selectedIndices == IndexesIn(selection.selectedShapes, shapes)
      ensures interaction.activeInteraction == old(interaction.activeInteraction) && interaction.didDrag == old(interaction.didDrag)
      ensures interaction.suppressNextClickSelection == old(interaction.suppressNextClickSelection)
      ensures shapes == old(shapes) && isPanning == old(isPanning) && hoveredShape == old(hoveredShape)
      ensures pointerScreenX == old(pointerScreenX) && pointerScreenY == old(pointerScreenY)
    {
      interaction.lastDragDx := None;
      interaction.lastDragDy := None;
      previewShapes := None;
      interaction.previewSelectedIndices := None;
      selection.SyncIndices(shapes);
    }

    /** `updateHoverFromPointer`: the topmost shape under the last known pointer position, or
        nothing when no position is known. */
    method UpdateHoverFromPointer()
      requires Valid()
      modifies this
      ensures pointerScreenX.None? || pointerScreenY.None? ==> hoveredShape.None?
      ensures pointerScreenX.Some? && pointerScreenY.Some? ==>
                hoveredShape == HitAt(pointerScreenX.value, pointerScreenY.value)
      ensures shapes == old(shapes) && previewShapes == old(previewShapes) && isPanning == old(isPanning)
      ensures pointerScreenX == old(pointerScreenX) && pointerScreenY == old(pointerScreenY)
      ensures lastX == old(lastX) && lastY == old(lastY)
    {
      if pointerScreenX.None? || pointerScreenY.None? {
        hoveredShape := None;
        return;
      }
      hoveredShape := HitAt(pointerScreenX.value, pointerScreenY.value);
    }

    /** `onPointerUp`: a running selection rectangle or shape drag is committed, the gesture
        ends, panning stops, and the hovered shape is looked up again at the last pointer
        position. */
    method OnPointerUp(e: PointerEvent)
      requires Valid()
      modifies this, selection, interaction
      ensures Valid() && !isPanning && |shapes| == |old(shapes)|
      ensures interaction.activeInteraction.None? && previewShapes.None? && interaction.previewSelectedIndices.None?
      ensures interaction.downScreenX.None? && interaction.downScreenY.None?
      ensures interaction.didDrag == old(interaction.didDrag)
      ensures interaction.suppressNextClickSelection == old(interaction.suppressNextClickSelection)
      ensures pointerScreenX.Some? && pointerScreenY.Some? ==> hoveredShape == HitAt(pointerScreenX.value, pointerScreenY.value)
      ensures old(interaction.activeInteraction).None? ==>
                shapes == old(shapes) && selection.selectedShapes == old(selection.selectedShapes) &&
                selection.selectedIndices == old(selection.selectedIndices)
      ensures old(interaction.activeInteraction).Some? && old(interaction.activeInteraction).value.DragSelect? ==>
                var r := old(interaction.activeInteraction.value);
                var hits := CanvasHitTest.HitTestIntersectingRect(shapes, r.wx0, r.wy0, r.wx1, r.wy1, numerics, dpi);
                shapes == old(shapes) &&
                selection.selectedShapes == (if r.shift then AddAll(old(selection.selectedShapes), hits) else hits)
      ensures old(interaction.activeInteraction).Some? ==>
                selection.selectedIndices == IndexesIn(selection.selectedShapes, shapes)
      ensures old(interaction.activeInteraction).Some? && old(interaction.activeInteraction).value.DragShape? ==>
                interaction.lastDragDx.None? && interaction.lastDragDy.None? &&
                (old(interaction.lastDragDx).None? ==> shapes == old(shapes) && selection.selectedShapes == old(selection.selectedShapes))
      ensures old(interaction.activeInteraction).Some? && old(interaction.activeInteraction).value.DragShape? ==>
                var targets := CanvasSelectionControllers.DragTargets(old(selection.selectedShapes), old(interaction.activeInteraction.value.original));
                var dx, dy := old(interaction.lastDragDx), old(interaction.lastDragDy);
                (dx.Some? && dy.Some? ==>
                   (forall i :: 0 <= i < |old(shapes)| && old(shapes)[i] in targets ==>
                      fresh(shapes[i]) && shapes[i].shape == Shapes.Translate(old(shapes)[i].shape, dx.value, dy.value)) &&
                   (forall i :: 0 <= i < |old(shapes)| && old(shapes)[i] !in targets ==> shapes[i] == old(shapes)[i]) &&
                   selection.selectedShapes == Remapped(old(selection.selectedShapes), CanvasTransform.SuccessorMap(old(shapes), targets, shapes), shapes)) &&
                (dx.None? || dy.None? ==> shapes == old(shapes) && selection.selectedShapes == old(selection.selectedShapes))
      ensures pointerScreenX.None? || pointerScreenY.None? ==> hoveredShape.None?
    {
      if interaction.activeInteraction.Some? && interaction.activeInteraction.value.DragSelect? {
        SelectRelease();
      }
      if interaction.activeInteraction.Some? && interaction.activeInteraction.value.DragShape? {
        ShapeRelease();
      }
      var _ := interaction.PointerUp(e.pointerId);
      isPanning := false;
      UpdateHoverFromPointer();
      Render(None);
    }

    /** `onClick`: a click the press already handled is swallowed, and so is one while
        panning. Otherwise a click on empty canvas clears the selection unless shift is held,
        and a click on a shape toggles it (shift) or selects only it. */
    method OnClick(e: MouseEvent)
      requires Valid()
      modifies this, selection, interaction
      ensures Valid() && shapes == old(shapes) && isPanning == old(isPanning)
      ensures var suppressed := old(interaction.PendingSuppressions()) > 0;
              interaction.PendingSuppressions() == (if suppressed then old(interaction.PendingSuppressions()) - 1 else 0)
      ensures interaction.activeInteraction == old(interaction.activeInteraction)
      ensures var suppressed := old(interaction.PendingSuppressions()) > 0;
              var found := old(HitAt(e.sx, e.sy));
              var sel := old(selection.selectedShapes);
              (suppressed || old(isPanning) || (found.None? && e.shiftKey) ==>
                 selection.selectedShapes == sel && selection.selectedIndices == old(selection.selectedIndices)) &&
              (!suppressed && !old(isPanning) && found.None? && !e.shiftKey ==>
                 selection.selectedShapes == [] && selection.selectedIndices == []) &&
              (!suppressed && !old(isPanning) && found.Some? ==>
                 selection.selectedShapes == (if e.shiftKey then ToggleAll(sel, [found.value]) else [found.value]) &&
                 selection.selectedIndices == IndexesIn(selection.selectedShapes, shapes))
    {
      var suppressed := interaction.ClickShouldBeSuppressed();
      if suppressed {
        return;
      }
      if isPanning {
        return;
      }
      var found := HitAt(e.sx, e.sy);
      if found.None? {
        if !e.shiftKey {
          selection.Apply(Replace([]));
          selection.SyncIndices(shapes);
          Render(None);
        }
        return;
      }
      selection.Apply(if e.shiftKey then Toggle([found.value]) else Replace([found.value]));
      selection.SyncIndices(shapes);
      Render(None);
    }
  }
}
