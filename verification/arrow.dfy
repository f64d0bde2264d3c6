/** The arrow object as the editor updates it. */
module AnnotationArrow {
  import opened ArrowGeometry
  import opened ArrowModel
  import opened ArrowProofs
  import opened HitTest
  import opened Options

  class ArrowObject {
    const trig: Trig
    const startHead: bool
    var start: Point               // x1, y1
    var end: Point                 // x2, y2
    var strokeWidth: real
    var corner: Point              // left, top
    var size: Point                // width, height
    var reference: Option<Point>   // _geomLeft, _geomTop

    function View(): Arrow
      reads this
    {
      Arrow(Shape(start, end, strokeWidth, startHead), corner, size, reference)
    }

    constructor (trig: Trig, s: Shape)
      ensures this.trig == trig && View() == Created(ArrowOutline(trig), s)
    {
      this.trig := trig;
      start, end, strokeWidth, startHead := s.start, s.end, s.strokeWidth, s.startHead;
      corner, size, reference := ORIGIN, ORIGIN, None;
      new;
      UpdateGeometry();
    }

    method SyncTranslation()
      modifies this
      ensures View() == old(View()).Synced()
      ensures start == old(start.Plus(View().Pending())) && end == old(end.Plus(View().Pending()))
      ensures corner == old(corner) && size == old(size) && strokeWidth == old(strokeWidth)
    {
      if reference.None? {
        return;
      }
      var dx, dy := corner.x - reference.value.x, corner.y - reference.value.y;
      if dx == 0.0 && dy == 0.0 {
        return;
      }
      start := Point(start.x + dx, start.y + dy);
      end := Point(end.x + dx, end.y + dy);
      reference := Some(corner);
    }

    method UpdateGeometry()
      modifies this
      ensures View() == old(View()).Updated(ArrowOutline(trig))
    {
      var box := BoxOf(trig, View().shape);
      corner, size := box.min, Point(box.max.x - box.min.x, box.max.y - box.min.y);
      reference := Some(box.min);
    }

    /** Serialises the endpoints with the pending drag applied, and leaves the object alone. */
    method ToObject() returns (s: Shape)
      ensures s == Serialised(View())
    {
      var shift := if reference.None? then ORIGIN else corner.Minus(reference.value);
      s := Shape(start.Plus(shift), end.Plus(shift), strokeWidth, startHead);
    }

    method DragBy(shift: Point)
      modifies this
      ensures View() == Next(ArrowOutline(trig), old(View()), Drag(shift))
      ensures start == old(start) && end == old(end) && corner == old(corner).Plus(shift) && size == old(size)
    {
      corner := corner.Plus(shift);
    }

    method DrawTo(pointer: Point)
      modifies this
      ensures View() == Next(ArrowOutline(trig), old(View()), Draw(pointer))
      ensures start == old(start) && end == pointer && strokeWidth == old(strokeWidth)
    {
      end := pointer;
      UpdateGeometry();
    }

    method MoveStartTo(pointer: Point)
      modifies this
      ensures View() == Next(ArrowOutline(trig), old(View()), MoveStart(pointer))
      ensures start == pointer && end == old(end.Plus(View().Pending())) && strokeWidth == old(strokeWidth)
    {
      SyncTranslation();
      start := pointer;
      UpdateGeometry();
    }

    method MoveEndTo(pointer: Point)
      modifies this
      ensures View() == Next(ArrowOutline(trig), old(View()), MoveEnd(pointer))
      ensures start == old(start.Plus(View().Pending())) && end == pointer && strokeWidth == old(strokeWidth)
    {
      SyncTranslation();
      end := pointer;
      UpdateGeometry();
    }

    /** The toolbar's width is in shown pixels; the object holds it in image pixels. */
    method ApplyStroke(width: real)
      modifies this
      ensures View() == Next(ArrowOutline(trig), old(View()), SetStroke(width * trig.scale))
      ensures start == old(start.Plus(View().Pending())) && end == old(end.Plus(View().Pending()))
      ensures strokeWidth == width * trig.scale
    {
      SyncTranslation();
      strokeWidth := width * trig.scale;
      UpdateGeometry();
    }

    /**
     Answers for the arrow the user sees, also in the middle of a drag. Unless the
     point is absolute or there is no canvas, it is on the screen.
     */
    method ContainsPoint(point: Point, absolute: bool, canvas: Option<Viewport>) returns (hit: bool)
      requires trig.IsSound() && View().IsAnchored(ArrowOutline(trig))
      requires canvas.Some? ==> canvas.value.zoom > 0.0
      modifies this
      ensures View() == Next(ArrowOutline(trig), old(View()), Touch)
      ensures absolute || canvas.None? ==> (hit <==> IsOn(trig, old(View()).Effective(), point))
      ensures !absolute && canvas.Some? ==>
                forall p :: canvas.value.OnScreen(p) == point ==> (hit <==> IsOn(trig, old(View()).Effective(), p))
    {
      var p := point;
      SyncedHitsAreExact(trig, View(), p);
      if !absolute && canvas.Some? {
        p := canvas.value.InScene(point);
        ViewportInverts(canvas.value, point);
        SyncedHitsAreExact(trig, View(), p);
      }
      SyncTranslation();
      hit := TestParts(GeometryOf(trig, View().shape), View().shape, Margin(trig, strokeWidth), p);
    }
  }

  /** The canvas shows the scene scaled and moved. */
  datatype Viewport = Viewport(zoom: real, pan: Point) {
    function OnScreen(p: Point): Point { Point(zoom * p.x + pan.x, zoom * p.y + pan.y) }

    function InScene(q: Point): Point
      requires zoom > 0.0
    {
      Point((q.x - pan.x) / zoom, (q.y - pan.y) / zoom)
    }
  }

  /** Exactly one point of the scene is seen at a point of the screen. */
  lemma ViewportInverts(v: Viewport, q: Point)
    requires v.zoom > 0.0
    ensures forall p :: v.OnScreen(p) == q <==> p == v.InScene(q)
  {
    forall p ensures v.OnScreen(p) == q <==> p == v.InScene(q) {
      ScaleInverts(v.zoom, p.x, v.pan.x, q.x, v.InScene(q).x);
      ScaleInverts(v.zoom, p.y, v.pan.y, q.y, v.InScene(q).y);
    }
  }

  lemma ScaleInverts(zoom: real, x: real, pan: real, y: real, k: real)
    requires zoom > 0.0 && k == (y - pan) / zoom
    ensures zoom * x + pan == y <==> x == k
  {
    assert zoom * k == y - pan;
    assert zoom * x + pan == y ==> x == zoom * x / zoom;
  }

  lemma SyncedHitsAreExact(trig: Trig, a: Arrow, p: Point)
    requires trig.IsSound() && a.IsAnchored(ArrowOutline(trig))
    ensures var s := a.Synced().shape;
            Hits(GeometryOf(trig, s), s, Margin(trig, s.strokeWidth), p) <==> IsOn(trig, a.Effective(), p)
  {
    ArrowOutlineGoesAlong(trig);
    SyncKeepsArrow(ArrowOutline(trig), a);
    HitsIsExact(trig, a.Synced().shape, p);
  }

  method TestParts(g: Geometry, s: Shape, margin: real, p: Point) returns (hit: bool)
    ensures hit <==> Hits(g, s, margin, p)
  {
    if SegmentDist2(p, g.shaftStart, g.shaftEnd) <= margin * margin {
      return true;
    }
    if s.startHead && PointInTriangle(p, s.start, g.tail1, g.tail2) {
      return true;
    }
    return PointInTriangle(p, s.end, g.head1, g.head2);
  }

  /** Rebuilding a serialised arrow gives one that the user cannot tell from it, even in the middle of a drag. */
  method FromObject(trig: Trig, a: ArrowObject) returns (rebuilt: ArrowObject)
    requires a.trig == trig && a.View().IsAnchored(ArrowOutline(trig))
    ensures rebuilt.View() == a.View().Synced() && rebuilt.View().Effective() == a.View().Effective()
    ensures rebuilt.corner == a.corner && rebuilt.size == a.size
  {
    var s := a.ToObject();
    ArrowOutlineGoesAlong(trig);
    ReloadIsSync(ArrowOutline(trig), a.View());
    SyncKeepsArrow(ArrowOutline(trig), a.View());
    rebuilt := new ArrowObject(trig, s);
  }
}
