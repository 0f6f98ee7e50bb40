/** The canvas layer holds shapes as object references: two shapes are the same exactly when
    they are the same instance (`===`, `Set.has`, `Map.get`, `indexOf`, `includes`), whatever
    their geometry. A ShapeRef is such an instance wrapping an immutable shape value. */
module ShapeRefs {
  import Shapes

  class ShapeRef {
    const shape: Shapes.Shape

    constructor(s: Shapes.Shape)
      ensures shape == s
    {
      shape := s;
    }
  }
}
