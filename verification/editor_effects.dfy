/** What each event of the editor achieves: what a save, an edit, a failure and leaving do. */
module EditorEffects {
  import opened EditorModel
  import opened EditorInvariants
  import opened EditorSaving

  // ---- Saving on request ----

  /**
   Every call of save hands out a promise of its own. It is resolved at once if
   the current snapshot is saved, else it waits for an upload, which runs or is
   started with the current snapshot.
   */
  lemma SaveGivesPromise(s: State)
    requires Inv(s)
    ensures var t, w := Next(s, Save), s.promises.next;
            && t.promises.next == w + 1 && w !in s.promises.waiters && w !in s.promises.settled
            && (if s.upload.Idle? && !Unsaved(s) then w in t.promises.settled && t.promises.settled[w]
                else w in t.promises.waiters && t.upload != Idle)
            && (s.upload.Idle? && Unsaved(s) ==> t.upload.Preparing? && t.upload.snap == Current(s.hist))
            && (s.upload != Idle ==> t.upload == s.upload)
            && !t.timer && t.hist == s.hist && t.remote == s.remote
  {
    assert Pushed(s.promises).waiters == s.promises.waiters + [s.promises.next];
  }

  /** No other event hands out a promise. */
  lemma OnlySaveGivesPromises(s: State, e: Event)
    requires WellFormed(s) && Enabled(s, e)
    ensures Next(s, e).promises.next == s.promises.next + if e.Save? then 1 else 0
  {
  }

  function Saves(events: seq<Event>): nat {
    if events == [] then 0 else (if events[0].Save? then 1 else 0) + Saves(events[1..])
  }

  /** Over any run there are as many promises as calls of save. */
  lemma {:induction false} EachSaveHasItsPromise(s: State, events: seq<Event>)
    requires WellFormed(s) && ValidRun(s, events)
    ensures Run(s, events).promises.next == s.promises.next + Saves(events)
    decreases |events|
  {
    if events == [] {
    } else {
      OnlySaveGivesPromises(s, events[0]);
      EachSaveHasItsPromise(Next(s, events[0]), events[1..]);
    }
  }

  /** Whatever follows a call of save, its promise is settled or waits for a running upload. */
  lemma SavePromiseIsKept(s: State, after: seq<Event>)
    requires Inv(s) && ValidRun(Next(s, Save), after)
    ensures var t, w := Run(Next(s, Save), after), s.promises.next;
            w in t.promises.settled || (w in t.promises.waiters && t.upload != Idle)
  {
    NextInv(s, Save);
    RunInv(Next(s, Save), after);
    SaveGivesPromise(s);
    EachSaveHasItsPromise(Next(s, Save), after);
  }

  /** The timer, a retry and a save all start the upload of the current snapshot, one upload at a time. */
  lemma FlushStartsUpload(s: State, e: Event)
    requires Inv(s) && Enabled(s, e) && (e.TimerFires? || e.Retry? || e.Save?)
    ensures var t := Next(s, e);
            && !t.timer
            && (s.upload != Idle ==> t.upload == s.upload && t.status == s.status && t.saveError == s.saveError)
            && (s.upload.Idle? && Unsaved(s) ==>
                  t.upload.Preparing? && t.upload.snap == Current(s.hist) && t.status == Saving)
            && (s.upload.Idle? && !Unsaved(s) ==> t.upload.Idle? && t.status == Saved && t.promises.waiters == [])
  {
  }

  // ---- Edits ----

  /** A commit, and an undo or redo that moves, schedule an upload and touch nothing but the history. */
  lemma EditSchedules(s: State, e: Event)
    requires Inv(s) && (e.Commit? || e.Undo? || e.Redo?)
    ensures var t := Next(s, e);
            if e.Commit? || (e.Undo? && s.hist.index > 0) || (e.Redo? && s.hist.index < |s.hist.list| - 1)
            then t == s.(hist := t.hist, timer := true) && t.hist != s.hist
            else t == s
  {
    if e.Commit? {
      assert |Next(s, e).hist.made| >= 0 && Next(s, e).hist.revCounter == s.hist.revCounter + 1;
    }
  }

  // ---- How an upload ends ----

  lemma {:induction false} SettlingWaits(s: State, events: seq<Event>)
    requires WellFormed(s) && s.upload.Settling? && ValidRun(s, events)
    requires forall i :: 0 <= i < |events| ==> !events[i].Settle?
    ensures var t := Run(s, events);
            t.upload == s.upload && t.saveError == s.saveError && t.remote == s.remote
    decreases |events|
  {
    if events == [] {
    } else {
      SettlingStays(s, events[0]);
      SettlingWaits(Next(s, events[0]), events[1..]);
    }
  }

  lemma SettlingStays(s: State, e: Event)
    requires WellFormed(s) && s.upload.Settling? && Enabled(s, e) && !e.Settle?
    ensures var t := Next(s, e); t.upload == s.upload && t.saveError == s.saveError && t.remote == s.remote
  {
  }

  /**
   The last callback: a failure is shown and rejects all that wait; a success
   resolves them, or uploads the newer snapshot.
   */
  lemma SettleReports(s: State)
    requires Inv(s) && s.upload.Settling?
    ensures var t, waiting := Next(s, Settle), s.promises.waiters;
            if s.saveError != "" then
              && t.upload.Idle? && t.status == Failed && t.saveError == s.saveError && t.timer == s.timer
              && t.promises.waiters == [] && t.remote == s.remote
              && forall w :: w in waiting ==> w in t.promises.settled && !t.promises.settled[w]
            else if Unsaved(s) then
              && t.upload.Preparing? && t.upload.snap == Current(s.hist) && t.status == Saving
              && t.promises == s.promises
            else
              && t.upload.Idle? && t.status == Saved && t.promises.waiters == []
              && forall w :: w in waiting ==> w in t.promises.settled && t.promises.settled[w]
  {
  }

  /** The upload cannot be rendered, or its response is an error. */
  predicate Fails(s: State, e: Event, message: string) {
    || e == RespondError(message)
    || (e.RenderFail? && e.message == message && IsUploadJob(s, e.job))
  }

  /**
   A failed upload is always reported: whatever comes between, its last callback
   shows the message, saves nothing, and rejects every promise that waits by then.
   */
  lemma FailureIsReported(s: State, e: Event, message: string, between: seq<Event>)
    requires Inv(s) && Enabled(s, e) && Fails(s, e, message) && message != ""
    requires ValidRun(Next(s, e), between) && forall i :: 0 <= i < |between| ==> !between[i].Settle?
    ensures var u := Run(Next(s, e), between);
            && Enabled(u, Settle)
            && var t := Next(u, Settle);
               && t.status == Failed && t.saveError == message && t.upload.Idle?
               && t.remote.savedRev == s.remote.savedRev
               && forall w :: w in u.promises.waiters ==> w in t.promises.settled && !t.promises.settled[w]
  {
    NextInv(s, e);
    RunInv(Next(s, e), between);
    SettlingWaits(Next(s, e), between);
    SettleReports(Run(Next(s, e), between));
  }

  // ---- What is shown ----

  /** "Saving" is shown exactly while an upload runs, and a failure only with its message. */
  predicate StatusInv(s: State) {
    (s.status == Saving <==> s.upload != Idle) && (s.status == Failed ==> s.saveError != "")
  }

  lemma NextStatus(s: State, e: Event)
    requires WellFormed(s) && StatusInv(s) && Enabled(s, e)
    ensures StatusInv(Next(s, e))
  {
  }

  lemma {:induction false} RunStatus(s: State, events: seq<Event>)
    requires WellFormed(s) && StatusInv(s) && ValidRun(s, events)
    ensures StatusInv(Run(s, events))
    decreases |events|
  {
    if events == [] {
    } else {
      NextStatus(s, events[0]);
      RunStatus(Next(s, events[0]), events[1..]);
    }
  }

  /** In every reachable state. */
  lemma StatusIsRight(blob: Blob, events: seq<Event>)
    requires ValidRun(Initial(blob), events)
    ensures StatusInv(Run(Initial(blob), events))
  {
    RunStatus(Initial(blob), events);
  }

  // ---- Leaving ----

  /** Discarding drops the timer and the warning, and nothing else. */
  lemma DiscardDrops(s: State)
    requires Inv(s)
    ensures var t := Next(s, Discard);
            && !Enabled(t, TimerFires) && !WarnsOnLeave(t)
            && t.hist == s.hist && t.upload == s.upload && t.remote == s.remote && t.promises == s.promises
  {
  }

  /** Events that neither edit nor ask for an upload. */
  predicate Passive(e: Event) {
    !e.Commit? && !e.Undo? && !e.Redo? && !e.Retry? && !e.Save?
  }

  lemma {:induction false} StaysQuiet(s: State, events: seq<Event>)
    requires WellFormed(s) && !s.timer && s.upload.Idle? && ValidRun(s, events)
    requires forall i :: 0 <= i < |events| ==> Passive(events[i])
    ensures Run(s, events).upload.Idle? && Run(s, events).remote == s.remote
    decreases |events|
  {
    if events == [] {
    } else {
      StaysQuiet(Next(s, events[0]), events[1..]);
    }
  }

  /** After discarding, the pending upload never happens, unless someone edits, retries or saves again. */
  lemma DiscardedIsNotUploaded(s: State, after: seq<Event>)
    requires Inv(s) && s.upload.Idle? && ValidRun(Next(s, Discard), after)
    requires forall i :: 0 <= i < |after| ==> Passive(after[i])
    ensures Run(Next(s, Discard), after).remote == s.remote
  {
    StaysQuiet(Next(s, Discard), after);
  }
}
