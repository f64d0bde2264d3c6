/**
 The editor's arrow as a value. Dragging moves only its box; the endpoints are corrected later,
 when something next needs them. The outline says which box belongs to a shape.
 */
module ArrowModel {
  import opened ArrowGeometry
  import opened HitTest
  import opened Options

  type Outline = Shape -> Box

  /**
   The object's fields: corner is its left and top, size its width and height,
   reference the corner when the geometry was last updated, if it ever was.
   */
  datatype Arrow = Arrow(shape: Shape, corner: Point, size: Point, reference: Option<Point>) {
    /** How far the object was dragged since its endpoints were last corrected. */
    function Pending(): Point {
      if reference.None? then ORIGIN else corner.Minus(reference.value)
    }

    /** The arrow the user sees. */
    function Effective(): Shape { shape.Moved(Pending()) }

    function Synced(): Arrow {
      if reference.None? || Pending() == ORIGIN then this
      else Arrow(Effective(), corner, size, Some(corner))
    }

    function Updated(outline: Outline): Arrow {
      var box := outline(shape);
      Arrow(shape, box.min, box.Size(), Some(box.min))
    }

    /** The reference and the size belong to the stored endpoints. */
    predicate IsAnchored(outline: Outline) {
      reference == Some(outline(shape).min) && size == outline(shape).Size()
    }
  }

  function Created(outline: Outline, s: Shape): Arrow { Arrow(s, ORIGIN, ORIGIN, None).Updated(outline) }

  /** What toObject writes; it is read without touching the object. */
  function Serialised(a: Arrow): Shape { a.Effective() }

  datatype Event =
    | Draw(pointer: Point)        // dragging out a new arrow
    | Drag(shift: Point)
    | MoveStart(pointer: Point)   // dragging one endpoint's handle
    | MoveEnd(pointer: Point)
    | SetStroke(width: real)
    | Touch                       // the end of a drag, or a hit test
    | Reload                      // serialised and rebuilt, as by undo

  function Next(outline: Outline, a: Arrow, e: Event): Arrow {
    match e
    case Draw(pointer) => a.(shape := a.shape.(end := pointer)).Updated(outline)
    case Drag(shift) => a.(corner := a.corner.Plus(shift))
    case MoveStart(pointer) => var s := a.Synced(); s.(shape := s.shape.(start := pointer)).Updated(outline)
    case MoveEnd(pointer) => var s := a.Synced(); s.(shape := s.shape.(end := pointer)).Updated(outline)
    case SetStroke(width) => var s := a.Synced(); s.(shape := s.shape.(strokeWidth := width)).Updated(outline)
    case Touch => a.Synced()
    case Reload => Created(outline, Serialised(a))
  }

  /** What the user asked for, with no regard to how it is stored. */
  function Requested(s: Shape, e: Event): Shape {
    match e
    case Draw(pointer) => s.(end := pointer)
    case Drag(shift) => s.Moved(shift)
    case MoveStart(pointer) => s.(start := pointer)
    case MoveEnd(pointer) => s.(end := pointer)
    case SetStroke(width) => s.(strokeWidth := width)
    case Touch => s
    case Reload => s
  }

  function Run(outline: Outline, a: Arrow, es: seq<Event>): Arrow
    decreases |es|
  {
    if es == [] then a else Next(outline, Run(outline, a, es[..|es| - 1]), es[|es| - 1])
  }

  function RequestedAll(s: Shape, es: seq<Event>): Shape
    decreases |es|
  {
    if es == [] then s else Requested(RequestedAll(s, es[..|es| - 1]), es[|es| - 1])
  }

  /** An arrow is dragged out before it can be dragged anywhere. */
  predicate DrawnFirst(es: seq<Event>) {
    forall i, j :: 0 <= i < j < |es| && es[j].Draw? ==> !es[i].Drag?
  }
}
