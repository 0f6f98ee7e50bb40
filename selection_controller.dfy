/** CanvasSelectionController (src/app/ui/canvas/canvas-selection-controller.ts): the selection
    rules of pointer-down, click and marquee commit, applied to a wrapped selection model, and
    the marquee preview. The model has no `isSelected`; it is taken to be membership, as the
    model's `includes` states. */
module CanvasSelectionControllers {
  import opened ShapeRefs
  import opened Sequences
  import opened CanvasSelectionModels
  import Shapes
  import CanvasHitTest

  /** The drag-target rule: the whole selection when more than one shape is selected and the
      dragged shape is one of them, otherwise the dragged shape alone. */
  function DragTargets(selected: seq<ShapeRef>, original: ShapeRef): (r: seq<ShapeRef>)
    ensures original in r
    ensures r == selected <==> (|selected| > 1 && original in selected) || selected == [original]
    ensures r != selected ==> r == [original]
  {
    if |selected| > 1 && original in selected then selected else [original]
  }

  /** `indices.map(i => allShapes[i]).filter(Boolean)`: an index out of range reads
      `undefined`, which the filter drops; shapes themselves are never falsy. */
  function ShapesByIndices(allShapes: seq<ShapeRef>, indices: seq<int>): (r: seq<ShapeRef>)
    ensures |r| <= |indices|
    ensures forall k :: 0 <= k < |r| ==> r[k] in allShapes
    ensures (forall k :: 0 <= k < |indices| ==> 0 <= indices[k] < |allShapes|) ==>
              |r| == |indices| && forall k :: 0 <= k < |r| ==> r[k] == allShapes[indices[k]]
  {
    if |indices| == 0 then []
    else
      var rest := ShapesByIndices(allShapes, indices[1..]);
      if 0 <= indices[0] < |allShapes| then [allShapes[indices[0]]] + rest else rest
  }

  /** Out-of-range indices are dropped without disturbing the order of the others. */
  lemma {:induction false} ShapesByIndicesKeepsOrder(allShapes: seq<ShapeRef>, indices: seq<int>, i: int, j: int)
    requires 0 <= i < |allShapes| && 0 <= j < |allShapes|
    ensures ShapesByIndices(allShapes, [i] + indices + [j]) ==
              [allShapes[i]] + ShapesByIndices(allShapes, indices) + [allShapes[j]]
  {
    ShapesByIndicesAppend(allShapes, indices, j);
    assert ([i] + indices + [j])[1..] == indices + [j];
  }

  lemma {:induction false} ShapesByIndicesAppend(allShapes: seq<ShapeRef>, indices: seq<int>, j: int)
    requires 0 <= j < |allShapes|
    ensures ShapesByIndices(allShapes, indices + [j]) == ShapesByIndices(allShapes, indices) + [allShapes[j]]
  {
    if |indices| > 0 {
      ShapesByIndicesAppend(allShapes, indices[1..], j);
      assert (indices + [j])[1..] == indices[1..] + [j];
    } else {
      assert [j][1..] == [];
    }
  }

  class SelectionController {
    const model: SelectionModel

    constructor(model: SelectionModel)
      ensures this.model == model
    {
      this.model := model;
    }

    /** `pointerDownOnShape(hit, shift)`: with shift the hit shape is toggled; without, the
        selection becomes [hit] unless hit is already selected, in which case it is kept for
        dragging. */
    method PointerDownOnShape(hit: ShapeRef, shift: bool)
      modifies model
      ensures shift ==> model.selectedShapes == ToggleAll(old(model.selectedShapes), [hit])
      ensures shift && Distinct(old(model.selectedShapes)) ==> (hit in model.selectedShapes <==> hit !in old(model.selectedShapes))
      ensures !shift && hit in old(model.selectedShapes) ==> model.selectedShapes == old(model.selectedShapes)
      ensures !shift && hit !in old(model.selectedShapes) ==> model.selectedShapes == [hit]
      ensures model.selectedIndices == old(model.selectedIndices)
    {
      if shift {
        model.Apply(Toggle([hit]));
        ToggleSingle(old(model.selectedShapes), hit);
        if Distinct(old(model.selectedShapes)) {
          ToggleOneProperties(old(model.selectedShapes), hit, hit);
        }
        return;
      }
      if !IsSelected(hit) {
        model.Apply(Replace([hit]));
      }
    }

    /** `pointerDownOnEmpty(shift)`: clears the selection unless shift is held. */
    method PointerDownOnEmpty(shift: bool)
      modifies model
      ensures model.selectedShapes == if shift then old(model.selectedShapes) else []
      ensures model.selectedIndices == old(model.selectedIndices)
    {
      if !shift {
        model.Apply(Replace([]));
      }
    }

    /** `clickOnShape(hit, shift)`: toggles with shift, replaces the selection without. */
    method ClickOnShape(hit: ShapeRef, shift: bool)
      modifies model
      ensures model.selectedShapes == if shift then ToggleAll(old(model.selectedShapes), [hit]) else [hit]
      ensures model.selectedIndices == old(model.selectedIndices)
    {
      model.Apply(if shift then Toggle([hit]) else Replace([hit]));
    }

    /** `commitMarquee(selected, shift)`: with shift the marquee's shapes are added to the
        selection, keeping what was selected; without, they replace it. */
    method CommitMarquee(selected: seq<ShapeRef>, shift: bool)
      modifies model
      ensures model.selectedShapes == if shift then AddAll(old(model.selectedShapes), selected) else selected
      ensures shift ==> old(model.selectedShapes) <= model.selectedShapes
      ensures model.selectedIndices == old(model.selectedIndices)
    {
      model.Apply(if shift then Add(selected) else Replace(selected));
      if shift {
        AddAllProperties(old(model.selectedShapes), selected);
      }
    }

    /** `remapAfterShapeReplacement`, passed on to the model. */
    method RemapAfterShapeReplacement(oldToNew: map<ShapeRef, ShapeRef>, allShapes: seq<ShapeRef>)
      modifies model
      ensures model.selectedShapes == Remapped(old(model.selectedShapes), oldToNew, allShapes)
      ensures model.selectedIndices == IndexesIn(model.selectedShapes, allShapes)
    {
      model.RemapAfterShapeReplacement(oldToNew, allShapes);
    }

    /** `syncIndices`, passed on to the model. */
    method SyncIndices(allShapes: seq<ShapeRef>)
      modifies model
      ensures model.selectedIndices == IndexesIn(model.selectedShapes, allShapes)
      ensures model.selectedShapes == old(model.selectedShapes)
    {
      model.SyncIndices(allShapes);
    }

    function GetSelectedShapes(): seq<ShapeRef>
      reads model
    {
      model.selectedShapes
    }

    function GetSelectedIndices(): seq<int>
      reads model
    {
      model.selectedIndices
    }

    predicate IsSelected(shape: ShapeRef)
      reads model
    {
      model.Includes(shape)
    }

    /** `getDragTargets(original)`. */
    function GetDragTargets(original: ShapeRef): seq<ShapeRef>
      reads model
    {
      DragTargets(model.selectedShapes, original)
    }

    /** `previewMarqueeIndices(shapes, x0, y0, x1, y1)`: the positions, ascending, of the shapes
        whose bounding box meets the bounds taken as given: x0 and y0 as the low edges, x1
        and y1 as the high ones. */
    method PreviewMarqueeIndices(shapes: seq<ShapeRef>, x0: real, y0: real, x1: real, y1: real, n: Shapes.Numerics, dpi: real)
      returns (hits: seq<int>)
      requires dpi > 0.0
      ensures forall k :: 0 <= k < |hits| ==> 0 <= hits[k] < |shapes| && CanvasHitTest.HitsBounds(shapes[hits[k]], x0, y0, x1, y1, n, dpi)
      ensures forall i :: 0 <= i < |shapes| && CanvasHitTest.HitsBounds(shapes[i], x0, y0, x1, y1, n, dpi) ==> i in hits
      ensures forall k, l :: 0 <= k < l < |hits| ==> hits[k] < hits[l]
    {
      hits := [];
      for i := 0 to |shapes|
        invariant forall k :: 0 <= k < |hits| ==> 0 <= hits[k] < i && CanvasHitTest.HitsBounds(shapes[hits[k]], x0, y0, x1, y1, n, dpi)
        invariant forall j :: 0 <= j < i && CanvasHitTest.HitsBounds(shapes[j], x0, y0, x1, y1, n, dpi) ==> j in hits
        invariant forall k, l :: 0 <= k < l < |hits| ==> hits[k] < hits[l]
      {
        var bb := Shapes.GetBoundingBox(shapes[i].shape, n);
        if bb.Err? {
          continue;
        }
        if CanvasHitTest.BoxMeetsPx(bb.value, x0, y0, x1, y1, dpi) {
          hits := hits + [i];
        }
      }
    }

    /** `getShapesByIndices(allShapes, indices)`. */
    function GetShapesByIndices(allShapes: seq<ShapeRef>, indices: seq<int>): seq<ShapeRef>
    {
      ShapesByIndices(allShapes, indices)
    }
  }

  /** Toggling a one-shape list is one toggle step. */
  lemma ToggleSingle(sel: seq<ShapeRef>, x: ShapeRef)
    ensures ToggleAll(sel, [x]) == ToggleOne(sel, x)
  {
    assert [x][..0] == [];
    assert ToggleAll(sel, []) == sel;
  }

  /** With the corners already in order, the preview marks exactly the shapes the hit test's
      rectangle query returns; with them out of order it is not the same test. */
  lemma PreviewMatchesHitTestWhenOrdered(s: ShapeRef, x0: real, y0: real, x1: real, y1: real, n: Shapes.Numerics, dpi: real)
    requires dpi > 0.0 && x0 <= x1 && y0 <= y1
    ensures CanvasHitTest.HitsBounds(s, x0, y0, x1, y1, n, dpi) <==> CanvasHitTest.MeetsRect(s, x0, y0, x1, y1, n, dpi)
  {
  }
}
