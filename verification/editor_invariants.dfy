/** What every reachable state of the annotation editor satisfies. */
module EditorInvariants {
  import opened EditorModel

  type Made = map<nat, Drawing>

  predicate IsMade(made: Made, snap: Snapshot) {
    snap.rev in made && made[snap.rev] == snap.objects
  }

  predicate IsFaithful(made: Made, r: Rendering) {
    r.rev in made && made[r.rev] == r.blob.objects
  }

  /** Revisions identify snapshots: strictly increasing, never reused, all recorded in `made`. */
  ghost predicate HistoryInv(h: History) {
    && InRange(h)
    && (forall i :: 0 <= i < |h.list| ==> IsMade(h.made, h.list[i]))
    && (forall i, j :: 0 <= i < j < |h.list| ==> h.list[i].rev < h.list[j].rev)
    && (forall r: nat :: r in h.made <==> 1 <= r <= h.revCounter)
    && h.canvas == Current(h).objects
  }

  ghost predicate JobInv(made: Made, job: Job) {
    && IsMade(made, job.snap)
    && (job.result.Some? ==> IsFaithful(made, job.result.value) && job.result.value.rev == job.snap.rev)
  }

  /** The cache and every rendering handed out carry the revision they were drawn from. */
  ghost predicate RenderInv(r: Renders, made: Made) {
    && (r.last.Some? ==> IsFaithful(made, r.last.value))
    && (forall j :: j in r.jobs ==> j < r.nextJob && JobInv(made, r.jobs[j]))
  }

  ghost predicate UploadInv(u: Upload, made: Made, jobs: map<nat, Job>, savedRev: nat, saveError: string) {
    match u
    case Idle => true
    case Preparing(snap, job) =>
      snap.rev != savedRev && saveError == "" && job in jobs && jobs[job].snap == snap
    case Sent(snap, body) =>
      snap.rev != savedRev && saveError == "" && body.rev == snap.rev && IsFaithful(made, body)
    case Settling(snap) => true
  }

  /** The revision whose upload may be changing the server right now. */
  function InFlight(u: Upload): set<nat> {
    if u.Sent? then {u.snap.rev} else {}
  }

  /** The server's image is a faithful rendering of a revision the editor can name. */
  ghost predicate RemoteInv(m: Remote, made: Made, inFlight: set<nat>) {
    && IsFaithful(made, m.image)
    && m.savedRev in made
    && m.savedRev !in m.failed
    && m.image.rev in {m.savedRev} + m.failed + inFlight
  }

  /** Each promise ever made is either waiting, once, or settled. */
  ghost predicate PromisesInv(p: Promises) {
    && (forall i, j :: 0 <= i < j < |p.waiters| ==> p.waiters[i] != p.waiters[j])
    && (forall w :: w in p.waiters ==> w !in p.settled)
    && (forall w: nat :: w in p.waiters || w in p.settled <==> w < p.next)
  }

  /** A change the server does not have is never forgotten. */
  predicate NothingLost(s: State)
    requires WellFormed(s)
  {
    Unsaved(s) && !s.leaving ==> s.timer || s.upload != Idle || s.status == Failed
  }

  ghost predicate Inv(s: State) {
    && HistoryInv(s.hist)
    && RenderInv(s.renders, s.hist.made)
    && UploadInv(s.upload, s.hist.made, s.renders.jobs, s.remote.savedRev, s.saveError)
    && RemoteInv(s.remote, s.hist.made, InFlight(s.upload))
    && PromisesInv(s.promises)
    && (s.promises.waiters != [] ==> s.upload != Idle)
    && NothingLost(s)
  }

  lemma InitialInv(blob: Blob)
    ensures Inv(Initial(blob))
  {
  }

  lemma CommittedInv(h: History, objects: Drawing)
    requires HistoryInv(h)
    ensures HistoryInv(Committed(h, objects))
    ensures forall snap :: IsMade(h.made, snap) ==> IsMade(Committed(h, objects).made, snap)
    ensures forall r :: IsFaithful(h.made, r) ==> IsFaithful(Committed(h, objects).made, r)
  {
    assert h.revCounter + 1 !in h.made;
  }

  lemma AskedInv(r: Renders, made: Made, snap: Snapshot)
    requires RenderInv(r, made) && IsMade(made, snap)
    ensures RenderInv(Asked(r, snap), made)
  {
  }

  lemma RenderedInv(r: Renders, made: Made, job: nat, viewport: int, currentRev: nat)
    requires RenderInv(r, made) && job in r.jobs
    ensures RenderInv(Rendered(r, job, viewport, currentRev), made)
  {
    assert JobInv(made, r.jobs[job]);
  }

  lemma DroppedInv(r: Renders, made: Made, job: nat)
    requires RenderInv(r, made)
    ensures RenderInv(Dropped(r, job), made)
  {
  }

  lemma PushedInv(p: Promises)
    requires PromisesInv(p)
    ensures PromisesInv(Pushed(p))
  {
    var q := Pushed(p);
    assert forall w :: w in q.waiters <==> w in p.waiters || w == p.next;
    assert forall i :: 0 <= i < |p.waiters| ==> q.waiters[i] in p.waiters;
  }

  lemma SettledAllInv(p: Promises, resolved: bool)
    requires PromisesInv(p)
    ensures PromisesInv(SettledAll(p, resolved))
  {
  }

  /** flush keeps the invariant, even when called with fresh waiters and nothing running. */
  lemma FlushInv(s: State)
    requires HistoryInv(s.hist) && RenderInv(s.renders, s.hist.made)
    requires UploadInv(s.upload, s.hist.made, s.renders.jobs, s.remote.savedRev, s.saveError)
    requires RemoteInv(s.remote, s.hist.made, InFlight(s.upload)) && PromisesInv(s.promises)
    ensures Inv(AfterFlush(s))
  {
    AskedInv(s.renders, s.hist.made, Current(s.hist));
    SettledAllInv(s.promises, true);
  }

  lemma CommitInv(s: State, objects: Drawing)
    requires Inv(s)
    ensures Inv(Next(s, Commit(objects)))
  {
    CommittedInv(s.hist, objects);
  }

  lemma MovedInv(h: History, index: nat)
    requires HistoryInv(h) && index < |h.list|
    ensures HistoryInv(MovedTo(h, index))
  {
  }

  lemma UndoInv(s: State)
    requires Inv(s)
    ensures Inv(Next(s, Undo))
  {
    if CanUndo(s.hist) { MovedInv(s.hist, s.hist.index - 1); }
  }

  lemma RedoInv(s: State)
    requires Inv(s)
    ensures Inv(Next(s, Redo))
  {
    if CanRedo(s.hist) { MovedInv(s.hist, s.hist.index + 1); }
  }

  lemma SaveInv(s: State, e: Event)
    requires Inv(s) && Enabled(s, e) && (e.TimerFires? || e.Retry? || e.Save? || e.Settle?)
    ensures Inv(Next(s, e))
  {
    match e
    case TimerFires => FlushInv(s);
    case Retry => FlushInv(s);
    case Save =>
      PushedInv(s.promises);
      FlushInv(s.(promises := Pushed(s.promises)));
    case Settle =>
      if s.saveError == "" { FlushInv(s.(upload := Idle)); } else { SettledAllInv(s.promises, false); }
  }

  lemma RenderDoneInv(s: State, job: nat, viewport: int)
    requires Inv(s) && Enabled(s, RenderDone(job, viewport))
    ensures Inv(Next(s, RenderDone(job, viewport)))
  {
    RenderedInv(s.renders, s.hist.made, job, viewport, Current(s.hist).rev);
  }

  lemma AskInv(s: State)
    requires Inv(s)
    ensures Inv(Next(s, AskImage))
  {
    AskedInv(s.renders, s.hist.made, Current(s.hist));
  }

  lemma RenderFailInv(s: State, job: nat, message: string)
    requires Inv(s) && Enabled(s, RenderFail(job, message))
    ensures Inv(Next(s, RenderFail(job, message)))
  {
    DroppedInv(s.renders, s.hist.made, job);
  }

  lemma DeliverInv(s: State, job: nat)
    requires Inv(s) && Enabled(s, Deliver(job))
    ensures Inv(Next(s, Deliver(job)))
  {
    assert JobInv(s.hist.made, s.renders.jobs[job]);
    DroppedInv(s.renders, s.hist.made, job);
  }

  lemma ServerInv(s: State, e: Event)
    requires Inv(s) && Enabled(s, e) && (e.ServerApplies? || e.RespondOk? || e.RespondError?)
    ensures Inv(Next(s, e))
  {
  }

  /** Each event keeps the invariant. */
  lemma NextInv(s: State, e: Event)
    requires Inv(s) && Enabled(s, e)
    ensures Inv(Next(s, e))
  {
    match e
    case Commit(objects) => CommitInv(s, objects);
    case Undo => UndoInv(s);
    case Redo => RedoInv(s);
    case Discard =>
    case AskImage => AskInv(s);
    case RenderDone(job, viewport) => RenderDoneInv(s, job, viewport);
    case RenderFail(job, message) => RenderFailInv(s, job, message);
    case Deliver(job) => DeliverInv(s, job);
    case _ =>
      if e.ServerApplies? || e.RespondOk? || e.RespondError? { ServerInv(s, e); } else { SaveInv(s, e); }
  }

  /** So does every run, whatever the interleaving. */
  lemma {:induction false} RunInv(s: State, events: seq<Event>)
    requires Inv(s) && ValidRun(s, events)
    ensures Inv(Run(s, events))
    decreases |events|
  {
    if events == [] {
    } else {
      NextInv(s, events[0]);
      RunInv(Next(s, events[0]), events[1..]);
    }
  }
}
