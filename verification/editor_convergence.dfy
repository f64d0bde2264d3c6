/** Once edits stop and nothing fails, saving comes to an end with the current snapshot on the server. */
module EditorConvergence {
  import opened EditorModel
  import opened EditorInvariants

  /** Neither an edit, nor a failure, nor leaving the page. */
  predicate Quiet(e: Event) {
    !e.Commit? && !e.Undo? && !e.Redo? && !e.Discard? && !e.RenderFail? && !e.RespondError?
  }

  /** Something is under way for every unsaved change, and no failure is pending. */
  predicate Live(s: State)
    requires WellFormed(s)
  {
    && (Unsaved(s) ==> s.timer || s.upload != Idle)
    && (s.upload.Settling? ==> s.saveError == "")
  }

  /** How many more uploads must complete before the server holds the current snapshot. */
  function UploadsNeeded(s: State): (n: nat)
    requires WellFormed(s)
    ensures n <= 2
  {
    if s.upload.Preparing? || s.upload.Sent? then
      if s.upload.snap.rev == Current(s.hist).rev then 1 else 2
    else if Unsaved(s) then 1
    else 0
  }

  function Count(events: seq<Event>, e: Event): nat {
    if events == [] then 0 else (if events[0] == e then 1 else 0) + Count(events[1..], e)
  }

  lemma QuietFlush(s: State, e: Event)
    requires Inv(s) && Live(s) && Enabled(s, e) && (e.TimerFires? || e.Retry? || e.Save? || e.Settle?)
    ensures Live(Next(s, e)) && Next(s, e).hist == s.hist && UploadsNeeded(s) == UploadsNeeded(Next(s, e))
  {
  }

  lemma QuietRendering(s: State, e: Event)
    requires Inv(s) && Live(s) && Enabled(s, e) && (e.AskImage? || e.RenderDone? || e.Deliver?)
    ensures Live(Next(s, e)) && Next(s, e).hist == s.hist && UploadsNeeded(s) == UploadsNeeded(Next(s, e))
  {
  }

  lemma QuietStep(s: State, e: Event)
    requires Inv(s) && Live(s) && Enabled(s, e) && Quiet(e)
    ensures Live(Next(s, e)) && Next(s, e).hist == s.hist
    ensures UploadsNeeded(s) == UploadsNeeded(Next(s, e)) + (if e.RespondOk? then 1 else 0)
  {
    if e.TimerFires? || e.Retry? || e.Save? || e.Settle? {
      QuietFlush(s, e);
    } else if e.AskImage? || e.RenderDone? || e.Deliver? {
      QuietRendering(s, e);
    } else {
      assert e.ServerApplies? || e.RespondOk?;
    }
  }

  /** Every completed upload of a quiet run was needed: at most two, and never one too many. */
  lemma {:induction false} QuietRun(s: State, events: seq<Event>)
    requires Inv(s) && Live(s) && ValidRun(s, events)
    requires forall i :: 0 <= i < |events| ==> Quiet(events[i])
    ensures Live(Run(s, events)) && Run(s, events).hist == s.hist
    ensures Count(events, RespondOk) + UploadsNeeded(Run(s, events)) == UploadsNeeded(s) <= 2
    decreases |events|
  {
    if events == [] {
    } else {
      QuietStep(s, events[0]);
      NextInv(s, events[0]);
      QuietRun(Next(s, events[0]), events[1..]);
    }
  }

  /** The events that carry a pending save forward. */
  predicate Advances(s: State, e: Event) {
    match e
    case TimerFires => true
    case RenderDone(job, _) => IsUploadJob(s, job)
    case Deliver(job) => IsUploadJob(s, job)
    case ServerApplies => s.upload.Sent? && s.remote.image != s.upload.body
    case RespondOk => true
    case Settle => true
    case _ => false
  }

  function Stage(s: State): nat {
    match s.upload
    case Idle => 0
    case Preparing(_, job) => if job in s.renders.jobs && s.renders.jobs[job].result.Some? then 4 else 5
    case Sent(_, body) => if s.remote.image != body then 3 else 2
    case Settling(_) => 1
  }

  /** Bounds the number of advancing events still to come (QuietRunAdvances): never more than twelve. */
  function Remaining(s: State): (n: nat)
    requires WellFormed(s)
    ensures n <= 12
  {
    var again := UploadsNeeded(s) - (if s.upload.Preparing? || s.upload.Sent? then 1 else 0);
    Stage(s) + 6 * again + (if s.timer then 1 else 0)
  }

  lemma AdvancingDecreases(s: State, e: Event)
    requires Inv(s) && Live(s) && Enabled(s, e) && Advances(s, e)
    ensures Remaining(Next(s, e)) < Remaining(s)
  {
  }

  lemma FlushNeverRaises(s: State, e: Event)
    requires Inv(s) && Live(s) && (e.Retry? || e.Save?)
    ensures Remaining(Next(s, e)) <= Remaining(s)
  {
  }

  /** No quiet event raises it: not a retry, nor another save. */
  lemma QuietNeverRaises(s: State, e: Event)
    requires Inv(s) && Live(s) && Enabled(s, e) && Quiet(e)
    ensures Remaining(Next(s, e)) <= Remaining(s)
  {
    if e.Retry? || e.Save? {
      FlushNeverRaises(s, e);
    } else if Advances(s, e) {
      AdvancingDecreases(s, e);
    } else {
      assert e.AskImage? || e.RenderDone? || e.Deliver? || e.ServerApplies?;
    }
  }

  /** How many events of a run carry a pending save forward. */
  function Advancing(s: State, events: seq<Event>): nat
    requires WellFormed(s) && ValidRun(s, events)
    decreases |events|
  {
    if events == [] then 0
    else (if Advances(s, events[0]) then 1 else 0) + Advancing(Next(s, events[0]), events[1..])
  }

  /** Of every quiet run, at most twelve events advance, whatever saves and retries are mixed in. */
  lemma {:induction false} QuietRunAdvances(s: State, events: seq<Event>)
    requires Inv(s) && Live(s) && ValidRun(s, events)
    requires forall i :: 0 <= i < |events| ==> Quiet(events[i])
    ensures Advancing(s, events) + Remaining(Run(s, events)) <= Remaining(s) <= 12
    decreases |events|
  {
    if events == [] {
    } else {
      var e := events[0];
      QuietNeverRaises(s, e);
      if Advances(s, e) {
        AdvancingDecreases(s, e);
      }
      QuietStep(s, e);
      NextInv(s, e);
      QuietRunAdvances(Next(s, e), events[1..]);
    }
  }

  /** As long as a save is pending there is an advancing event that can happen. */
  lemma CanAdvance(s: State)
    requires Inv(s) && Live(s) && (s.timer || s.upload != Idle)
    ensures exists e :: Enabled(s, e) && Advances(s, e)
  {
    if s.upload.Idle? {
      assert Enabled(s, TimerFires);
    } else if s.upload.Preparing? {
      var job := s.upload.job;
      if s.renders.jobs[job].result.None? {
        assert Enabled(s, RenderDone(job, 0)) && Advances(s, RenderDone(job, 0));
      } else {
        assert Enabled(s, Deliver(job)) && Advances(s, Deliver(job));
      }
    } else if s.upload.Sent? {
      var e := if s.remote.image == s.upload.body then RespondOk else ServerApplies;
      assert Enabled(s, e) && Advances(s, e);
    } else {
      assert Enabled(s, Settle);
    }
  }

  /** When none is left, the server holds the drawing on the canvas, if no earlier failure may still have landed. */
  lemma RestIsSaved(s: State)
    requires Inv(s) && Live(s) && !s.timer && s.upload.Idle?
    ensures s.remote.savedRev == Current(s.hist).rev && UploadsNeeded(s) == 0 && s.promises.waiters == []
    ensures s.remote.failed == {} ==> s.remote.image.blob.objects == s.hist.canvas
  {
    assert IsMade(s.hist.made, Current(s.hist));
  }

  /** A quiet run after which no event can advance any more ends with everything saved. */
  lemma QuietRunEndsSaved(s: State, events: seq<Event>)
    requires Inv(s) && Live(s) && ValidRun(s, events)
    requires forall i :: 0 <= i < |events| ==> Quiet(events[i])
    requires forall e :: Enabled(Run(s, events), e) ==> !Advances(Run(s, events), e)
    ensures var t := Run(s, events);
            && t.hist == s.hist && t.upload.Idle? && !t.timer && !Unsaved(t) && t.promises.waiters == []
            && (t.remote.failed == {} ==> t.remote.image.blob.objects == s.hist.canvas)
  {
    var t := Run(s, events);
    QuietRun(s, events);
    RunInv(s, events);
    if t.timer || t.upload != Idle {
      CanAdvance(t);
      assert false;
    }
    RestIsSaved(t);
  }

  /** A quiet run to a state with the same history in which everything is saved and nothing is under way. */
  ghost predicate SavesAll(s: State, events: seq<Event>)
    requires WellFormed(s)
  {
    && ValidRun(s, events)
    && (forall i :: 0 <= i < |events| ==> Quiet(events[i]))
    && var t := Run(s, events);
       Inv(t) && t.hist == s.hist && t.upload.Idle? && !t.timer && !Unsaved(t)
  }

  lemma SavesAllAfter(s: State, e: Event, rest: seq<Event>)
    requires WellFormed(s) && Enabled(s, e) && Quiet(e) && Next(s, e).hist == s.hist && SavesAll(Next(s, e), rest)
    ensures SavesAll(s, [e] + rest)
  {
    assert ([e] + rest)[1..] == rest;
  }

  /** From any live state a quiet run of at most twelve events ends with everything saved. */
  lemma {:induction false} Converges(s: State) returns (events: seq<Event>)
    requires Inv(s) && Live(s)
    ensures SavesAll(s, events) && |events| <= Remaining(s)
    decreases Remaining(s)
  {
    if !s.timer && s.upload.Idle? {
      return [];
    }
    CanAdvance(s);
    var e :| Enabled(s, e) && Advances(s, e);
    AdvancingDecreases(s, e);
    QuietStep(s, e);
    NextInv(s, e);
    var rest := Converges(Next(s, e));
    SavesAllAfter(s, e, rest);
    events := [e] + rest;
  }

  /** Coming back to the saved snapshot before the timer fires uploads nothing. */
  lemma NothingToUpload(s: State)
    requires Inv(s) && s.upload.Idle? && s.timer && !Unsaved(s)
    ensures var t := Next(s, TimerFires);
            && t == s.(timer := false, status := Saved)
  {
  }
}
