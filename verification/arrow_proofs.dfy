/** What the lazily corrected arrow promises. */
module ArrowProofs {
  import opened ArrowGeometry
  import opened ArrowModel
  import opened HitTest

  /** The box goes along when a shape is moved. */
  ghost predicate GoesAlong(outline: Outline) {
    forall s: Shape, v: Point :: outline(s.Moved(v)) == outline(s).Moved(v)
  }

  function ArrowOutline(trig: Trig): Outline { s => BoxOf(trig, s) }

  /** The arrow's own box does. */
  lemma ArrowOutlineGoesAlong(trig: Trig)
    ensures GoesAlong(ArrowOutline(trig))
  {
    forall s: Shape, v: Point ensures ArrowOutline(trig)(s.Moved(v)) == ArrowOutline(trig)(s).Moved(v) {
      BoxMoves(trig, s, v);
    }
  }

  // ---- One step ----

  /** The object's box is that of the arrow the user sees. */
  lemma BoxFollowsArrow(outline: Outline, a: Arrow)
    requires GoesAlong(outline) && a.IsAnchored(outline)
    ensures a.corner == outline(a.Effective()).min && a.size == outline(a.Effective()).Size()
  {
    assert outline(a.shape.Moved(a.Pending())) == outline(a.shape).Moved(a.Pending());
  }

  lemma SyncKeepsArrow(outline: Outline, a: Arrow)
    requires GoesAlong(outline) && a.IsAnchored(outline)
    ensures a.Synced().IsAnchored(outline)
    ensures a.Synced().shape == a.Synced().Effective() == a.Effective()
  {
    BoxFollowsArrow(outline, a);
  }

  /** Serialising and rebuilding, even in the middle of a drag, does to an arrow what correcting its endpoints does. */
  lemma ReloadIsSync(outline: Outline, a: Arrow)
    requires GoesAlong(outline) && a.IsAnchored(outline)
    ensures Created(outline, Serialised(a)) == a.Synced()
    ensures Serialised(Created(outline, Serialised(a))) == Serialised(a)
  {
    BoxFollowsArrow(outline, a);
    SyncKeepsArrow(outline, a);
  }

  lemma NextIsAnchored(outline: Outline, a: Arrow, e: Event)
    requires GoesAlong(outline) && a.IsAnchored(outline)
    ensures Next(outline, a, e).IsAnchored(outline)
  {
    if e.Touch? {
      SyncKeepsArrow(outline, a);
    }
  }

  /** Each step changes the arrow the user sees exactly as requested. */
  lemma NextIsAsRequested(outline: Outline, a: Arrow, e: Event)
    requires GoesAlong(outline) && a.IsAnchored(outline) && (e.Draw? ==> a.Pending() == ORIGIN)
    ensures Next(outline, a, e).Effective() == Requested(a.Effective(), e)
  {
    SyncKeepsArrow(outline, a);
  }

  /** Drawing does not correct the endpoints first: it leaves the start in place exactly if no drag is pending. */
  lemma DrawIsAsRequestedIff(outline: Outline, a: Arrow, pointer: Point)
    requires GoesAlong(outline) && a.IsAnchored(outline)
    ensures Next(outline, a, Draw(pointer)).Effective() == Requested(a.Effective(), Draw(pointer))
       <==> a.Pending() == ORIGIN
  {
    var drawn := Next(outline, a, Draw(pointer)).Effective();
    assert drawn.start == a.shape.start;
    assert a.Effective().start.Minus(a.shape.start) == a.Pending();
  }

  // ---- Runs ----

  /** Whatever is done to an arrow, its reference corner is that of the box of its stored endpoints. */
  lemma {:induction false} RunIsAnchored(outline: Outline, s: Shape, es: seq<Event>)
    requires GoesAlong(outline)
    ensures Run(outline, Created(outline, s), es).IsAnchored(outline)
    decreases |es|
  {
    if es == [] {
    } else {
      RunIsAnchored(outline, s, es[..|es| - 1]);
      NextIsAnchored(outline, Run(outline, Created(outline, s), es[..|es| - 1]), es[|es| - 1]);
    }
  }

  lemma {:induction false} NothingPendingWithoutDrag(outline: Outline, s: Shape, es: seq<Event>)
    requires forall e :: e in es ==> !e.Drag?
    ensures Run(outline, Created(outline, s), es).Pending() == ORIGIN
    decreases |es|
  {
    if es == [] {
    } else {
      NothingPendingWithoutDrag(outline, s, es[..|es| - 1]);
    }
  }

  lemma {:induction false} RunIsAsRequested(outline: Outline, s: Shape, es: seq<Event>)
    requires GoesAlong(outline) && DrawnFirst(es)
    ensures Run(outline, Created(outline, s), es).Effective() == RequestedAll(s, es)
    decreases |es|
  {
    if es == [] {
    } else {
      var before := es[..|es| - 1];
      RunIsAsRequested(outline, s, before);
      RunIsAnchored(outline, s, before);
      if es[|es| - 1].Draw? {
        assert forall e :: e in before ==> !e.Drag?;
        NothingPendingWithoutDrag(outline, s, before);
      }
      NextIsAsRequested(outline, Run(outline, Created(outline, s), before), es[|es| - 1]);
    }
  }

  /** Over a whole life, the arrow the user sees and saves is the one asked for, and its box is that arrow's. */
  lemma ArrowIsAsRequested(trig: Trig, s: Shape, es: seq<Event>)
    requires DrawnFirst(es)
    ensures var a, wanted := Run(ArrowOutline(trig), Created(ArrowOutline(trig), s), es), RequestedAll(s, es);
            && a.Effective() == wanted && Serialised(a) == wanted
            && a.corner == BoxOf(trig, wanted).min && a.size == BoxOf(trig, wanted).Size()
  {
    var outline := ArrowOutline(trig);
    ArrowOutlineGoesAlong(trig);
    RunIsAnchored(outline, s, es);
    RunIsAsRequested(outline, s, es);
    BoxFollowsArrow(outline, Run(outline, Created(outline, s), es));
  }
}
