/** CanvasSelectionModel (src/app/ui/canvas/canvas-selection-model.ts): the ordered list of
    selected shapes and their positions in the canvas's shape list. Shapes are compared by
    reference. */
module CanvasSelectionModels {
  import opened ShapeRefs
  import opened Sequences

  /** The three ways to change the selection, each with its list of shapes. */
  datatype SelectionOperation =
    | Replace(shapes: seq<ShapeRef>)
    | Add(shapes: seq<ShapeRef>)
    | Toggle(shapes: seq<ShapeRef>)

  /** One step of `add`: the shape is pushed unless already selected. */
  function AddOne(sel: seq<ShapeRef>, x: ShapeRef): seq<ShapeRef>
  {
    if x in sel then sel else sel + [x]
  }

  /** `add` over a list of shapes, one step per shape in order. */
  function AddAll(sel: seq<ShapeRef>, xs: seq<ShapeRef>): seq<ShapeRef>
    decreases |xs|
  {
    if |xs| == 0 then sel else AddOne(AddAll(sel, xs[..|xs| - 1]), xs[|xs| - 1])
  }

  /** The list with the element at `i` spliced out. */
  function RemoveAt(s: seq<ShapeRef>, i: nat): (r: seq<ShapeRef>)
    requires i < |s|
    ensures |r| == |s| - 1
    ensures forall k :: 0 <= k < i ==> r[k] == s[k]
    ensures forall k :: i <= k < |r| ==> r[k] == s[k + 1]
  {
    s[..i] + s[i + 1..]
  }

  /** One step of `toggle`: the first occurrence is spliced out, or the shape is pushed when
      it is not selected. */
  function ToggleOne(sel: seq<ShapeRef>, x: ShapeRef): seq<ShapeRef>
  {
    var i := IndexOf(sel, x);
    if i >= 0 then RemoveAt(sel, i) else sel + [x]
  }

  /** `toggle` over a list of shapes, one step per shape in order. */
  function ToggleAll(sel: seq<ShapeRef>, xs: seq<ShapeRef>): seq<ShapeRef>
    decreases |xs|
  {
    if |xs| == 0 then sel else ToggleOne(ToggleAll(sel, xs[..|xs| - 1]), xs[|xs| - 1])
  }

  /** The selection an operation leaves behind; `replace` takes a copy of its list. */
  function Applied(sel: seq<ShapeRef>, op: SelectionOperation): seq<ShapeRef>
  {
    match op
    case Replace(xs) => xs
    case Add(xs) => AddAll(sel, xs)
    case Toggle(xs) => ToggleAll(sel, xs)
  }

  /** `add` keeps the old selection as a prefix, selects exactly the old shapes and the added
      ones, and never introduces a duplicate. */
  lemma {:induction false} AddAllProperties(sel: seq<ShapeRef>, xs: seq<ShapeRef>)
    ensures sel <= AddAll(sel, xs)
    ensures forall x :: x in AddAll(sel, xs) <==> x in sel || x in xs
    ensures Distinct(sel) ==> Distinct(AddAll(sel, xs))
  {
    if |xs| > 0 {
      var init := xs[..|xs| - 1];
      AddAllProperties(sel, init);
      assert xs == init + [xs[|xs| - 1]];
    }
  }

  /** Adding shapes that are all selected already changes nothing. */
  lemma {:induction false} AddSelectedIsNoOp(sel: seq<ShapeRef>, xs: seq<ShapeRef>)
    requires forall k :: 0 <= k < |xs| ==> xs[k] in sel
    ensures AddAll(sel, xs) == sel
  {
    if |xs| > 0 {
      AddSelectedIsNoOp(sel, xs[..|xs| - 1]);
    }
  }

  /** In a selection without duplicates, toggling a shape flips whether it is selected, leaves
      every other shape's membership alone and keeps the selection free of duplicates. */
  lemma ToggleOneProperties(sel: seq<ShapeRef>, x: ShapeRef, y: ShapeRef)
    requires Distinct(sel)
    ensures x in ToggleOne(sel, x) <==> x !in sel
    ensures y != x ==> (y in ToggleOne(sel, x) <==> y in sel)
    ensures Distinct(ToggleOne(sel, x))
  {
    var i := IndexOf(sel, x);
    if i >= 0 {
      var r := RemoveAt(sel, i);
      assert sel == sel[..i] + [x] + sel[i + 1..];
      assert x !in r by {
        forall k | 0 <= k < |r|
          ensures r[k] != x
        {
          if k < i { assert r[k] == sel[k]; } else { assert r[k] == sel[k + 1]; }
        }
      }
    }
  }

  /** Toggling the same unselected shape twice restores the selection. */
  lemma ToggleTwiceRestores(sel: seq<ShapeRef>, x: ShapeRef)
    requires x !in sel
    ensures ToggleAll(ToggleAll(sel, [x]), [x]) == sel
  {
    var once := ToggleAll(sel, [x]);
    assert [x][..0] == [];
    assert ToggleAll(sel, []) == sel;
    assert once == ToggleOne(ToggleAll(sel, []), x);
    assert once == sel + [x];
    assert ToggleAll(once, []) == once;
    assert ToggleAll(once, [x]) == ToggleOne(ToggleAll(once, []), x);
    assert IndexOf(once, x) == |sel|;
    assert once[..|sel|] == sel;
  }

  /** `map(s => oldToNew.get(s) ?? s)`: each selected shape replaced by its successor, if it
      has one. */
  function Successors(sel: seq<ShapeRef>, oldToNew: map<ShapeRef, ShapeRef>): (r: seq<ShapeRef>)
    ensures |r| == |sel|
    ensures forall k :: 0 <= k < |r| ==> r[k] == (if sel[k] in oldToNew then oldToNew[sel[k]] else sel[k])
  {
    seq(|sel|, k requires 0 <= k < |sel| => if sel[k] in oldToNew then oldToNew[sel[k]] else sel[k])
  }

  /** `filter(s => shapes.includes(s))`: the shapes still present in the list, in order. */
  function KeepPresent(xs: seq<ShapeRef>, shapes: seq<ShapeRef>): (r: seq<ShapeRef>)
    ensures |r| <= |xs|
    ensures forall k :: 0 <= k < |r| ==> r[k] in shapes && r[k] in xs
    ensures forall k :: 0 <= k < |xs| && xs[k] in shapes ==> xs[k] in r
    ensures (forall k :: 0 <= k < |xs| ==> xs[k] in shapes) ==> r == xs
    ensures IsSubsequence(r, xs)
  {
    if |xs| == 0 then []
    else
      var rest := KeepPresent(xs[1..], shapes);
      assert forall k :: 1 <= k < |xs| ==> xs[k] == xs[1..][k - 1];
      if xs[0] in shapes then
        assert ([xs[0]] + rest)[1..] == rest;
        [xs[0]] + rest
      else rest
  }

  /** The selection after `remapAfterShapeReplacement`. */
  function Remapped(sel: seq<ShapeRef>, oldToNew: map<ShapeRef, ShapeRef>, shapes: seq<ShapeRef>): seq<ShapeRef>
  {
    KeepPresent(Successors(sel, oldToNew), shapes)
  }

  /** Remapping never lengthens the selection; when every selected shape's successor (or the
      shape itself) is in the new list, it keeps its length and position by position becomes
      the successors. */
  lemma RemapProperties(sel: seq<ShapeRef>, oldToNew: map<ShapeRef, ShapeRef>, shapes: seq<ShapeRef>)
    ensures |Remapped(sel, oldToNew, shapes)| <= |sel|
    ensures (forall k :: 0 <= k < |sel| ==> Successors(sel, oldToNew)[k] in shapes) ==>
              Remapped(sel, oldToNew, shapes) == Successors(sel, oldToNew)
    ensures forall k :: 0 <= k < |Remapped(sel, oldToNew, shapes)| ==> Remapped(sel, oldToNew, shapes)[k] in shapes
  {
  }

  class SelectionModel {
    var selectedShapes: seq<ShapeRef>
    var selectedIndices: seq<int>

    constructor()
      ensures selectedShapes == [] && selectedIndices == []
    {
      selectedShapes := [];
      selectedIndices := [];
    }

    /** `apply(op)`; the indices are left for syncIndices. */
    method Apply(op: SelectionOperation)
      modifies this
      ensures selectedShapes == Applied(old(selectedShapes), op)
      ensures selectedIndices == old(selectedIndices)
    {
      match op
      case Replace(xs) => selectedShapes := xs;
      case Add(xs) => AddShapes(xs);
      case Toggle(xs) => ToggleShapes(xs);
    }

    /** The loop of `add`: each shape not yet selected is pushed. */
    method AddShapes(xs: seq<ShapeRef>)
      modifies this
      ensures selectedShapes == AddAll(old(selectedShapes), xs)
      ensures selectedIndices == old(selectedIndices)
    {
      for i := 0 to |xs|
        invariant selectedShapes == AddAll(old(selectedShapes), xs[..i])
        invariant selectedIndices == old(selectedIndices)
      {
        assert xs[..i + 1][..i] == xs[..i];
        if xs[i] !in selectedShapes {
          selectedShapes := selectedShapes + [xs[i]];
        }
      }
      assert xs[..|xs|] == xs;
    }

    /** The loop of `toggle`: the first occurrence of a selected shape is spliced out, an
        unselected one is pushed. */
    method ToggleShapes(xs: seq<ShapeRef>)
      modifies this
      ensures selectedShapes == ToggleAll(old(selectedShapes), xs)
      ensures selectedIndices == old(selectedIndices)
    {
      for i := 0 to |xs|
        invariant selectedShapes == ToggleAll(old(selectedShapes), xs[..i])
        invariant selectedIndices == old(selectedIndices)
      {
        ghost var before := selectedShapes;
        assert xs[..i + 1][..i] == xs[..i];
        assert ToggleAll(old(selectedShapes), xs[..i + 1]) == ToggleOne(before, xs[i]);
        var idx := IndexOf(selectedShapes, xs[i]);
        if idx >= 0 {
          selectedShapes := selectedShapes[..idx] + selectedShapes[idx + 1..];
          assert selectedShapes == RemoveAt(before, idx);
        } else {
          selectedShapes := selectedShapes + [xs[i]];
        }
      }
      assert xs[..|xs|] == xs;
    }

    /** `syncIndices(shapes)`: the first positions of the selected shapes found in the list,
        in selection order; a selected shape missing from the list is dropped. */
    method SyncIndices(shapes: seq<ShapeRef>)
      modifies this
      ensures selectedIndices == IndexesIn(selectedShapes, shapes)
      ensures forall k :: 0 <= k < |selectedIndices| ==> 0 <= selectedIndices[k] < |shapes| && shapes[selectedIndices[k]] in selectedShapes
      ensures selectedShapes == old(selectedShapes)
    {
      selectedIndices := IndexesIn(selectedShapes, shapes);
    }

    /** `remapAfterShapeReplacement(oldToNew, shapes)`: each selected shape becomes its
        successor, those no longer in the list are dropped, and the indices are rebuilt. */
    method RemapAfterShapeReplacement(oldToNew: map<ShapeRef, ShapeRef>, shapes: seq<ShapeRef>)
      modifies this
      ensures selectedShapes == Remapped(old(selectedShapes), oldToNew, shapes)
      ensures |selectedShapes| <= |old(selectedShapes)|
      ensures selectedIndices == IndexesIn(selectedShapes, shapes)
    {
      selectedShapes := KeepPresent(Successors(selectedShapes, oldToNew), shapes);
      SyncIndices(shapes);
    }

    /** `includes(shape)`. */
    predicate Includes(shape: ShapeRef)
      reads this
    {
      shape in selectedShapes
    }
  }
}
