/** What autosave promises: nothing lost, what the server holds, how promises end, and convergence. */
module EditorSaving {
  import opened Options
  import opened EditorModel
  import opened EditorInvariants

  // ---- Runs extended at the end ----

  lemma {:induction false} RunSnoc(s: State, events: seq<Event>, e: Event)
    requires WellFormed(s) && ValidRun(s, events) && Enabled(Run(s, events), e)
    ensures ValidRun(s, events + [e]) && Run(s, events + [e]) == Next(Run(s, events), e)
    decreases |events|
  {
    if events == [] {
      assert [] + [e] == [e];
      assert Run(Next(s, e), []) == Next(s, e);
    } else {
      assert (events + [e])[1..] == events[1..] + [e];
      RunSnoc(Next(s, events[0]), events[1..], e);
    }
  }

  lemma {:induction false} RunUnsnoc(s: State, events: seq<Event>, e: Event)
    requires WellFormed(s) && ValidRun(s, events + [e])
    ensures ValidRun(s, events) && Enabled(Run(s, events), e)
    ensures Run(s, events + [e]) == Next(Run(s, events), e)
    decreases |events|
  {
    if events == [] {
      assert [] + [e] == [e];
      assert Run(Next(s, e), []) == Next(s, e);
    } else {
      assert (events + [e])[1..] == events[1..] + [e];
      RunUnsnoc(Next(s, events[0]), events[1..], e);
    }
  }

  // ---- Safety over every run from the start ----

  lemma ReachableInv(blob: Blob, events: seq<Event>)
    requires ValidRun(Initial(blob), events)
    ensures Inv(Run(Initial(blob), events))
  {
    InitialInv(blob);
    RunInv(Initial(blob), events);
  }

  /**
   The server's image is drawn from the revision it is tagged with, which is
   `savedRev`, the one in flight, or one whose upload failed since the last success.
   */
  lemma ServerImageIsNamed(blob: Blob, events: seq<Event>)
    requires ValidRun(Initial(blob), events)
    ensures var s := Run(Initial(blob), events);
            && s.remote.image.rev in s.hist.made
            && s.remote.image.blob.objects == s.hist.made[s.remote.image.rev]
            && s.remote.image.rev in {s.remote.savedRev} + s.remote.failed + InFlight(s.upload)
  {
    ReachableInv(blob, events);
  }

  /** Right after a success it is exactly `savedRev`, and holds the drawing that was current when the upload started. */
  lemma SuccessIsExact(blob: Blob, events: seq<Event>)
    requires ValidRun(Initial(blob), events) && Enabled(Run(Initial(blob), events), RespondOk)
    ensures var s := Run(Initial(blob), events);
            var t := Next(s, RespondOk);
            && t.remote.image.rev == t.remote.savedRev == s.upload.snap.rev
            && t.remote.failed == {}
            && IsFaithful(t.hist.made, t.remote.image)
  {
    ReachableInv(blob, events);
  }

  /**
   While the page is not being left on purpose, a change the server lacks has a
   timer, an upload or a visible failure.
   */
  lemma NoChangeIsLost(blob: Blob, events: seq<Event>)
    requires ValidRun(Initial(blob), events)
    ensures var s := Run(Initial(blob), events);
            && s.hist.canvas == Current(s.hist).objects
            && (Unsaved(s) && !s.leaving ==> s.timer || s.upload != Idle || s.status == Failed)
  {
    ReachableInv(blob, events);
  }

  /** The guard of the beforeunload handler. */
  predicate WarnsOnLeave(s: State)
    requires WellFormed(s)
  {
    !s.leaving && (s.upload != Idle || Unsaved(s))
  }

  /** Leaving without a warning (and not on purpose) loses nothing, unless a failed upload landed. */
  lemma UnwarnedLeaveIsSafe(blob: Blob, events: seq<Event>)
    requires ValidRun(Initial(blob), events)
    ensures var s := Run(Initial(blob), events);
            !s.leaving && !WarnsOnLeave(s) ==>
              && (s.remote.failed == {} ==> s.remote.image.blob.objects == s.hist.canvas)
              && (s.remote.image.blob.objects == s.hist.canvas || s.remote.image.rev in s.remote.failed)
              && s.promises.waiters == []
  {
    ReachableInv(blob, events);
    var s := Run(Initial(blob), events);
    if !s.leaving && !WarnsOnLeave(s) {
      assert IsMade(s.hist.made, Current(s.hist));
    }
  }

  // ---- Save promises ----

  /** How a promise settled by this step ended, and why. */
  lemma SettlementMeans(s: State, e: Event, w: nat)
    requires Inv(s) && Enabled(s, e)
    requires w !in s.promises.settled && w in Next(s, e).promises.settled
    ensures var t := Next(s, e);
            && t.upload.Idle?
            && t.promises.waiters == []
            && (t.promises.settled[w] ==>
                  && !Unsaved(t) && t.status == Saved
                  && t.remote.image.rev in {Current(t.hist).rev} + t.remote.failed
                  && (t.remote.failed == {} ==> t.remote.image.blob.objects == t.hist.canvas))
            && (!t.promises.settled[w] ==> e.Settle? && s.saveError != "" && t.status == Failed)
  {
    NextInv(s, e);
    assert IsMade(Next(s, e).hist.made, Current(Next(s, e).hist));
  }

  lemma StepKeepsSettled(s: State, e: Event, w: nat)
    requires WellFormed(s) && PromisesInv(s.promises) && Enabled(s, e) && w in s.promises.settled
    ensures w in Next(s, e).promises.settled
    ensures Next(s, e).promises.settled[w] == s.promises.settled[w]
  {
    assert Pushed(s.promises).waiters == s.promises.waiters + [s.promises.next];
    assert w < s.promises.next;
  }

  /** A settled promise stays as it is: none is settled twice. */
  lemma {:induction false} SettledForGood(s: State, events: seq<Event>, w: nat)
    requires Inv(s) && ValidRun(s, events) && w in s.promises.settled
    ensures w in Run(s, events).promises.settled
    ensures Run(s, events).promises.settled[w] == s.promises.settled[w]
    decreases |events|
  {
    if events == [] {
    } else {
      StepKeepsSettled(s, events[0], w);
      NextInv(s, events[0]);
      SettledForGood(Next(s, events[0]), events[1..], w);
    }
  }

  /** Every promise ever made is settled or waits for a running upload, whose end settles all that wait. */
  lemma PromisesAreKept(blob: Blob, events: seq<Event>, w: nat)
    requires ValidRun(Initial(blob), events) && w < Run(Initial(blob), events).promises.next
    ensures var s := Run(Initial(blob), events);
            w in s.promises.settled || (w in s.promises.waiters && s.upload != Idle)
  {
    ReachableInv(blob, events);
  }

  // ---- What "saved" can and cannot promise ----

  /** The same state as far as the browser can tell: only the server's image may differ. */
  predicate SameView(s: State, t: State) {
    t == s.(remote := s.remote.(image := t.remote.image))
  }

  lemma ViewFlush(s: State, t: State)
    requires WellFormed(s) && WellFormed(t) && SameView(s, t)
    ensures SameView(AfterFlush(s), AfterFlush(t)) && AfterFlush(t).remote.image == t.remote.image
  {
  }

  lemma ViewFlushing(s: State, t: State, e: Event)
    requires WellFormed(s) && WellFormed(t) && SameView(s, t) && Enabled(s, e)
    requires e.TimerFires? || e.Retry? || e.Save? || e.Settle?
    ensures Enabled(t, e) && SameView(Next(s, e), Next(t, e))
    ensures Next(t, e).remote.image == t.remote.image
  {
    match e
    case Save => ViewFlush(s.(promises := Pushed(s.promises)), t.(promises := Pushed(t.promises)));
    case Settle => ViewFlush(s.(upload := Idle), t.(upload := Idle));
    case _ => ViewFlush(s, t);
  }

  lemma ViewRendering(s: State, t: State, e: Event)
    requires WellFormed(s) && WellFormed(t) && SameView(s, t) && Enabled(s, e)
    requires e.AskImage? || e.RenderDone? || e.RenderFail? || e.Deliver?
    ensures Enabled(t, e) && SameView(Next(s, e), Next(t, e))
    ensures Next(t, e).remote.image == t.remote.image
  {
  }

  lemma ViewStep(s: State, t: State, e: Event)
    requires WellFormed(s) && WellFormed(t) && SameView(s, t) && Enabled(s, e)
    requires !e.ServerApplies? && !e.RespondOk?
    ensures Enabled(t, e) && SameView(Next(s, e), Next(t, e))
    ensures Next(t, e).remote.image == t.remote.image
  {
    if e.TimerFires? || e.Retry? || e.Save? || e.Settle? {
      ViewFlushing(s, t, e);
    } else if e.AskImage? || e.RenderDone? || e.RenderFail? || e.Deliver? {
      ViewRendering(s, t, e);
    } else {
      assert e.Commit? || e.Undo? || e.Redo? || e.Discard? || e.RespondError?;
    }
  }

  /** `other` is a run the browser cannot tell from `events`, after which the server holds revision r. */
  ghost predicate IsTwin(blob: Blob, events: seq<Event>, other: seq<Event>, r: nat) {
    && ValidRun(Initial(blob), events) && ValidRun(Initial(blob), other)
    && SameView(Run(Initial(blob), events), Run(Initial(blob), other))
    && Run(Initial(blob), other).remote.image.rev == r
  }

  /** Letting the server apply the running upload before its response. */
  lemma TwinOfResponse(blob: Blob, events: seq<Event>, other: seq<Event>, r: nat, e: Event)
    requires IsTwin(blob, events, other, r) && (e.RespondOk? || e.RespondError?)
    requires Enabled(Run(Initial(blob), events), e)
    ensures IsTwin(blob, events + [e], other + [ServerApplies] + [e], Run(Initial(blob), events).upload.snap.rev)
  {
    ReachableInv(blob, events);
    RunSnoc(Initial(blob), events, e);
    RunSnoc(Initial(blob), other, ServerApplies);
    RunSnoc(Initial(blob), other + [ServerApplies], e);
  }

  lemma TwinOfStep(blob: Blob, events: seq<Event>, other: seq<Event>, r: nat, e: Event)
    requires IsTwin(blob, events, other, r) && !e.ServerApplies? && !e.RespondOk?
    requires Enabled(Run(Initial(blob), events), e)
    ensures IsTwin(blob, events + [e], other + [e], r)
  {
    ViewStep(Run(Initial(blob), events), Run(Initial(blob), other), e);
    RunSnoc(Initial(blob), events, e);
    RunSnoc(Initial(blob), other, e);
  }

  lemma TwinOfApply(blob: Blob, events: seq<Event>, other: seq<Event>, r: nat)
    requires IsTwin(blob, events, other, r) && Enabled(Run(Initial(blob), events), ServerApplies)
    ensures IsTwin(blob, events + [ServerApplies], other, r)
  {
    RunSnoc(Initial(blob), events, ServerApplies);
  }

  /** The revisions a browser cannot rule out once no upload is running. */
  function MayHold(s: State): set<nat> {
    {s.remote.savedRev} + s.remote.failed
  }

  lemma MayHoldBefore(s: State, e: Event, r: nat)
    requires WellFormed(s) && Enabled(s, e) && r in MayHold(Next(s, e))
    ensures r in MayHold(s) || ((e.RespondOk? || e.RespondError?) && r == s.upload.snap.rev)
  {
  }

  /** For every run and every such revision, a run the browser cannot tell apart in which the server holds it. */
  lemma {:induction false} RunWithServerAt(blob: Blob, events: seq<Event>, r: nat) returns (other: seq<Event>)
    requires ValidRun(Initial(blob), events) && r in MayHold(Run(Initial(blob), events))
    ensures IsTwin(blob, events, other, r)
    decreases |events|
  {
    if events == [] {
      return [];
    }
    var before, e := events[..|events| - 1], events[|events| - 1];
    assert events == before + [e];
    RunUnsnoc(Initial(blob), before, e);
    var s := Run(Initial(blob), before);
    MayHoldBefore(s, e, r);
    var here := if r in MayHold(s) then r else s.remote.savedRev;
    var o := RunWithServerAt(blob, before, here);
    if e.RespondOk? || here != r {
      TwinOfResponse(blob, before, o, here, e);
      other := o + [ServerApplies] + [e];
    } else if e.ServerApplies? {
      TwinOfApply(blob, before, o, r);
      other := o;
    } else {
      TwinOfStep(blob, before, o, r, e);
      other := o + [e];
    }
  }

  /** In every run the browser cannot tell from this one, the server holds the current revision. */
  ghost predicate SurelyHeld(blob: Blob, events: seq<Event>)
    requires ValidRun(Initial(blob), events)
  {
    forall other ::
      ValidRun(Initial(blob), other) && SameView(Run(Initial(blob), events), Run(Initial(blob), other)) ==>
      Run(Initial(blob), other).remote.image.rev == Current(Run(Initial(blob), events).hist).rev
  }

  /**
   When the editor says "Saved" (or resolves a save promise) the server surely
   holds the current revision exactly when no upload failed since the last
   success: a failed upload may have replaced the image all the same.
   */
  lemma SavedIsSureIff(blob: Blob, events: seq<Event>)
    requires ValidRun(Initial(blob), events)
    requires Run(Initial(blob), events).upload.Idle? && !Unsaved(Run(Initial(blob), events))
    ensures SurelyHeld(blob, events) <==> Run(Initial(blob), events).remote.failed == {}
  {
    var s := Run(Initial(blob), events);
    ReachableInv(blob, events);
    if s.remote.failed != {} {
      var r :| r in s.remote.failed;
      var other := RunWithServerAt(blob, events, r);
      assert Run(Initial(blob), other).remote.image.rev == r;
    } else {
      forall other | ValidRun(Initial(blob), other) && SameView(s, Run(Initial(blob), other))
        ensures Run(Initial(blob), other).remote.image.rev == Current(s.hist).rev
      {
        ReachableInv(blob, other);
      }
    }
  }

  lemma RunOne(s: State, e: Event, rest: seq<Event>)
    requires WellFormed(s) && Enabled(s, e) && ValidRun(Next(s, e), rest)
    ensures ValidRun(s, [e] + rest) && Run(s, [e] + rest) == Run(Next(s, e), rest)
  {
    assert ([e] + rest)[1..] == rest;
  }

  lemma {:induction false} RunConcat(s: State, a: seq<Event>, b: seq<Event>)
    requires WellFormed(s) && ValidRun(s, a) && ValidRun(Run(s, a), b)
    ensures ValidRun(s, a + b) && Run(s, a + b) == Run(Run(s, a), b)
    decreases |b|
  {
    if b == [] {
      assert a + b == a;
    } else {
      var before, e := b[..|b| - 1], b[|b| - 1];
      assert b == before + [e];
      RunUnsnoc(Run(s, a), before, e);
      RunConcat(s, a, before);
      RunSnoc(s, a + before, e);
      assert a + b == a + before + [e];
    }
  }

  /** One annotation is drawn, rendered and sent. */
  const FIRST_UPLOAD: seq<Event> := [Commit([7]), TimerFires, RenderDone(0, 0), Deliver(0)]

  /** The server applies it but the response is lost. */
  const LOST_RESPONSE: seq<Event> := [ServerApplies, RespondError("network error"), Settle]

  /** The user undoes it and asks for the page to be saved. */
  const UNDO_AND_SAVE: seq<Event> := [Undo, Save]

  function DrawnOnce(blob: Blob): History {
    History([Snapshot(1, blob.objects), Snapshot(2, [7])], 1, [7], 2, map[1 := blob.objects, 2 := [7]])
  }

  function SentOnce(blob: Blob): State {
    var r := Rendering(2, Blob([7], 0));
    State(DrawnOnce(blob), Renders(Some(r), map[], 1), Promises([], 0, map[]), Remote(1, Rendering(1, blob), {}),
          Sent(Snapshot(2, [7]), r), "", Saving, false, false)
  }

  function LostOnce(blob: Blob): State {
    SentOnce(blob).(remote := Remote(1, Rendering(2, Blob([7], 0)), {2}), upload := Idle,
                    saveError := "network error", status := Failed)
  }

  lemma FirstUploadRun(blob: Blob)
    ensures ValidRun(Initial(blob), FIRST_UPLOAD) && Run(Initial(blob), FIRST_UPLOAD) == SentOnce(blob)
  {
    var s1 := Next(Initial(blob), Commit([7]));
    assert s1.hist == DrawnOnce(blob);
    var s2 := Next(s1, TimerFires);
    var s3 := Next(s2, RenderDone(0, 0));
    var s4 := Next(s3, Deliver(0));
    assert s4.renders.jobs == map[];
    RunOne(s3, Deliver(0), []);
    RunOne(s2, RenderDone(0, 0), FIRST_UPLOAD[3..]);
    RunOne(s1, TimerFires, FIRST_UPLOAD[2..]);
    RunOne(Initial(blob), Commit([7]), FIRST_UPLOAD[1..]);
  }

  lemma LostResponseRun(blob: Blob)
    ensures ValidRun(SentOnce(blob), LOST_RESPONSE) && Run(SentOnce(blob), LOST_RESPONSE) == LostOnce(blob)
  {
    var s5 := Next(SentOnce(blob), ServerApplies);
    var s6 := Next(s5, RespondError("network error"));
    var s7 := Next(s6, Settle);
    assert s7.promises.settled == map[];
    RunOne(s6, Settle, []);
    RunOne(s5, RespondError("network error"), LOST_RESPONSE[2..]);
    RunOne(SentOnce(blob), ServerApplies, LOST_RESPONSE[1..]);
  }

  function UndoneAndSaved(blob: Blob): State {
    LostOnce(blob).(hist := DrawnOnce(blob).(index := 0, canvas := blob.objects),
                    status := Saved, promises := Promises([], 1, map[0 := true]))
  }

  lemma UndoAndSaveRun(blob: Blob)
    ensures ValidRun(LostOnce(blob), UNDO_AND_SAVE) && Run(LostOnce(blob), UNDO_AND_SAVE) == UndoneAndSaved(blob)
  {
    var s8 := Next(LostOnce(blob), Undo);
    var s9 := Next(s8, Save);
    assert s9.promises.settled == map[0 := true];
    RunOne(s8, Save, []);
    RunOne(LostOnce(blob), Undo, [Save]);
  }

  /** Then the promise resolves and the status is Saved, but the server still shows the undone annotation. */
  lemma SavedWithoutBeingHeld(blob: Blob)
    ensures ValidRun(Initial(blob), FIRST_UPLOAD + LOST_RESPONSE + UNDO_AND_SAVE)
    ensures var s := Run(Initial(blob), FIRST_UPLOAD + LOST_RESPONSE + UNDO_AND_SAVE);
            && s.promises.settled == map[0 := true] && s.status == Saved && !WarnsOnLeave(s)
            && s.remote.image == Rendering(2, Blob([7], 0)) && Current(s.hist).rev == 1
  {
    FirstUploadRun(blob);
    LostResponseRun(blob);
    UndoAndSaveRun(blob);
    RunConcat(Initial(blob), FIRST_UPLOAD, LOST_RESPONSE);
    RunConcat(Initial(blob), FIRST_UPLOAD + LOST_RESPONSE, UNDO_AND_SAVE);
  }
}
