/** CanvasTransformController (src/app/ui/canvas/canvas-transform-controller.ts): the drag
    delta of a shape drag, the translated preview, and the commit that swaps in new shape
    instances and carries the selection over to them. */
module CanvasTransform {
  import opened Wrappers
  import opened Measurements
  import opened ShapeRefs
  import opened Sequences
  import Shapes
  import opened CanvasSelectionModels
  import CanvasSelectionControllers

  /** `allShapes.map(s => set.has(s) ? f(s) : s)`: every shape in `targets` is replaced by a
      new instance holding its transformed geometry; the others are kept by reference. */
  method ReplaceTargets(all: seq<ShapeRef>, targets: seq<ShapeRef>, f: Shapes.Shape -> Shapes.Shape) returns (r: seq<ShapeRef>)
    ensures |r| == |all|
    ensures forall i :: 0 <= i < |all| && all[i] in targets ==> fresh(r[i]) && r[i].shape == f(all[i].shape)
    ensures forall i :: 0 <= i < |all| && all[i] !in targets ==> r[i] == all[i]
  {
    r := [];
    for i := 0 to |all|
      invariant |r| == i
      invariant forall k :: 0 <= k < i && all[k] in targets ==> fresh(r[k]) && r[k].shape == f(all[k].shape)
      invariant forall k :: 0 <= k < i && all[k] !in targets ==> r[k] == all[k]
    {
      if all[i] in targets {
        var t := new ShapeRef(f(all[i].shape));
        r := r + [t];
      } else {
        r := r + [all[i]];
      }
    }
  }

  /** The map the commit loop fills: the shape at each target position to the instance at the
      same position of the new list; a later position overwrites an earlier one. */
  function SuccessorMap(all: seq<ShapeRef>, targets: seq<ShapeRef>, news: seq<ShapeRef>): map<ShapeRef, ShapeRef>
    requires |news| == |all|
    decreases |all|
  {
    if |all| == 0 then map[]
    else
      var m := SuccessorMap(all[..|all| - 1], targets, news[..|all| - 1]);
      if all[|all| - 1] in targets then m[all[|all| - 1] := news[|all| - 1]] else m
  }

  /** The map's keys are exactly the target shapes of the list, and in a list without
      duplicates each maps to the instance at its own position. */
  lemma {:induction false} SuccessorMapProperties(all: seq<ShapeRef>, targets: seq<ShapeRef>, news: seq<ShapeRef>)
    requires |news| == |all|
    ensures forall k :: 0 <= k < |all| && all[k] in targets ==> all[k] in SuccessorMap(all, targets, news)
    ensures forall x :: x in SuccessorMap(all, targets, news) ==> x in all && x in targets && SuccessorMap(all, targets, news)[x] in news
    ensures Distinct(all) ==> forall k :: 0 <= k < |all| && all[k] in targets ==> SuccessorMap(all, targets, news)[all[k]] == news[k]
  {
    if |all| > 0 {
      var n := |all| - 1;
      var init, initNews := all[..n], news[..n];
      SuccessorMapProperties(init, targets, initNews);
      assert forall k :: 0 <= k < n ==> all[k] == init[k];
      assert forall x :: x in init ==> x in all;
      assert forall x :: x in initNews ==> x in news;
      if Distinct(all) {
        assert Distinct(init);
        forall k | 0 <= k < n && all[k] in targets
          ensures SuccessorMap(all, targets, news)[all[k]] == news[k]
        {
          assert all[k] != all[n];
          assert news[k] == initNews[k];
        }
      }
    }
  }

  /** The loop of commitTranslate that fills the map. */
  method BuildSuccessorMap(all: seq<ShapeRef>, targets: seq<ShapeRef>, news: seq<ShapeRef>) returns (m: map<ShapeRef, ShapeRef>)
    requires |news| == |all|
    ensures m == SuccessorMap(all, targets, news)
  {
    m := map[];
    for i := 0 to |all|
      invariant m == SuccessorMap(all[..i], targets, news[..i])
    {
      assert all[..i + 1][..i] == all[..i] && news[..i + 1][..i] == news[..i];
      if all[i] in targets {
        m := m[all[i] := news[i]];
      }
    }
    assert all[..|all|] == all && news[..|all|] == news;
  }

  /** The drag record commitTranslate's caller keeps. */
  datatype DragTransformState = DragTransformState(original: ShapeRef, startWorldX: real, startWorldY: real)

  class TransformController {
    var lastDx: Option<Measurement>
    var lastDy: Option<Measurement>

    constructor()
      ensures lastDx.None? && lastDy.None?
    {
      lastDx := None;
      lastDy := None;
    }

    /** `updateDragDelta`: the world-pixel distance from the drag start to the pointer, per
        axis, as lengths; they are stored for the commit and returned. */
    method UpdateDragDelta(startWorldX: real, startWorldY: real, worldX: real, worldY: real, dpi: real)
      returns (dx: Measurement, dy: Measurement)
      requires dpi > 0.0
      modifies this
      ensures ToPixels(dx, dpi) == worldX - startWorldX && ToPixels(dy, dpi) == worldY - startWorldY
      ensures lastDx == Some(dx) && lastDy == Some(dy)
    {
      lastDx := Some(FromPx(worldX - startWorldX, dpi));
      lastDy := Some(FromPx(worldY - startWorldY, dpi));
      return lastDx.value, lastDy.value;
    }

    /** `computeDragDelta(drag, x, y)`: the same delta measured from the drag's start. */
    method ComputeDragDelta(drag: DragTransformState, currentWorldX: real, currentWorldY: real, dpi: real)
      returns (dx: Measurement, dy: Measurement)
      requires dpi > 0.0
      modifies this
      ensures ToPixels(dx, dpi) == currentWorldX - drag.startWorldX && ToPixels(dy, dpi) == currentWorldY - drag.startWorldY
      ensures lastDx == Some(dx) && lastDy == Some(dy)
    {
      dx := FromPx(currentWorldX - drag.startWorldX, dpi);
      dy := FromPx(currentWorldY - drag.startWorldY, dpi);
      lastDx := Some(dx);
      lastDy := Some(dy);
    }

    /** `clearDelta`: both stored deltas forgotten. */
    method ClearDelta()
      modifies this
      ensures lastDx.None? && lastDy.None?
    {
      lastDx := None;
      lastDy := None;
    }

    /** `clearLastDelta`: the same reset. */
    method ClearLastDelta()
      modifies this
      ensures lastDx.None? && lastDy.None?
    {
      ClearDelta();
    }

    /** `previewTranslate`: with no targets the very same list; otherwise a new list of the same
        length where each target is a new, translated instance and every other shape is the
        same instance. The selection is not touched. */
    method PreviewTranslate(allShapes: seq<ShapeRef>, targets: seq<ShapeRef>, dx: Measurement, dy: Measurement)
      returns (r: seq<ShapeRef>)
      ensures |targets| == 0 ==> r == allShapes
      ensures |r| == |allShapes|
      ensures forall i :: 0 <= i < |allShapes| && allShapes[i] in targets ==> fresh(r[i]) && r[i].shape == Shapes.Translate(allShapes[i].shape, dx, dy)
      ensures forall i :: 0 <= i < |allShapes| && allShapes[i] !in targets ==> r[i] == allShapes[i]
    {
      if |targets| == 0 {
        return allShapes;
      }
      r := ReplaceTargets(allShapes, targets, s => Shapes.Translate(s, dx, dy));
    }

    /** `commitTranslate`: with no targets or no stored delta the list comes back unchanged and
        the selection is untouched. Otherwise the targets are translated by the stored delta
        into new instances, and the selection is remapped from each old instance to its new
        one against the new list. */
    method CommitTranslate(allShapes: seq<ShapeRef>, targets: seq<ShapeRef>, selection: CanvasSelectionControllers.SelectionController)
      returns (r: seq<ShapeRef>)
      modifies selection.model
      ensures |targets| == 0 || lastDx.None? || lastDy.None? ==>
                r == allShapes && selection.model.selectedShapes == old(selection.model.selectedShapes) &&
                selection.model.selectedIndices == old(selection.model.selectedIndices)
      ensures |r| == |allShapes|
      ensures |targets| > 0 && lastDx.Some? && lastDy.Some? ==>
                (forall i :: 0 <= i < |allShapes| && allShapes[i] in targets ==>
                   fresh(r[i]) && r[i].shape == Shapes.Translate(allShapes[i].shape, lastDx.value, lastDy.value)) &&
                (forall i :: 0 <= i < |allShapes| && allShapes[i] !in targets ==> r[i] == allShapes[i]) &&
                selection.model.selectedShapes == Remapped(old(selection.model.selectedShapes), SuccessorMap(allShapes, targets, r), r) &&
                selection.model.selectedIndices == IndexesIn(selection.model.selectedShapes, r)
    {
      if |targets| == 0 || lastDx.None? || lastDy.None? {
        return allShapes;
      }
      var dx, dy := lastDx.value, lastDy.value;
      r := ReplaceTargets(allShapes, targets, s => Shapes.Translate(s, dx, dy));
      var oldToNew := BuildSuccessorMap(allShapes, targets, r);
      selection.RemapAfterShapeReplacement(oldToNew, r);
    }
  }

  /** A commit loses no selected shape that was on the canvas: each is either kept (not a
      target) or replaced by its new instance, and both are in the new list. */
  lemma CommitKeepsSelection(sel: seq<ShapeRef>, all: seq<ShapeRef>, targets: seq<ShapeRef>, r: seq<ShapeRef>)
    requires |r| == |all|
    requires forall i :: 0 <= i < |all| && all[i] !in targets ==> r[i] == all[i]
    requires forall k :: 0 <= k < |sel| ==> sel[k] in all
    ensures |Remapped(sel, SuccessorMap(all, targets, r), r)| == |sel|
  {
    var m := SuccessorMap(all, targets, r);
    SuccessorMapProperties(all, targets, r);
    var succ := Successors(sel, m);
    forall k | 0 <= k < |sel|
      ensures succ[k] in r
    {
      if sel[k] !in m {
        var i :| 0 <= i < |all| && all[i] == sel[k];
        assert r[i] == all[i];
      }
    }
    RemapProperties(sel, m, r);
  }
}
