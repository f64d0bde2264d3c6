/** The render cache never hands a caller another revision's image. */
module EditorRendering {
  import opened Options
  import opened EditorModel
  import opened EditorInvariants

  /** A call of renderCurrent, pending or answered, belongs to the snapshot it was made for. */
  ghost predicate Follows(r: Renders, job: nat, snap: Snapshot) {
    job < r.nextJob && (job in r.jobs ==> r.jobs[job].snap == snap)
  }

  lemma FollowsStep(s: State, e: Event, job: nat, snap: Snapshot)
    requires WellFormed(s) && Enabled(s, e) && Follows(s.renders, job, snap)
    ensures Follows(Next(s, e).renders, job, snap)
  {
  }

  lemma {:induction false} FollowsRun(s: State, events: seq<Event>, job: nat, snap: Snapshot)
    requires WellFormed(s) && ValidRun(s, events) && Follows(s.renders, job, snap)
    ensures Follows(Run(s, events).renders, job, snap)
    decreases |events|
  {
    if events == [] {
    } else {
      FollowsStep(s, events[0], job, snap);
      FollowsRun(Next(s, events[0]), events[1..], job, snap);
    }
  }

  /**
   However renderings, edits and uploads interleave after a call of
   renderCurrent, the blob it is answered with shows the drawing that was
   current at the call, and is tagged with that revision.
   */
  lemma CallerGetsItsRevision(s: State, after: seq<Event>)
    requires Inv(s) && ValidRun(Next(s, AskImage), after)
    ensures var job, t := s.renders.nextJob, Run(Next(s, AskImage), after);
            job in t.renders.jobs && t.renders.jobs[job].result.Some? ==>
              var r := t.renders.jobs[job].result.value;
              r.rev == Current(s.hist).rev && r.blob.objects == Current(s.hist).objects
  {
    var job, snap := s.renders.nextJob, Current(s.hist);
    var t := Run(Next(s, AskImage), after);
    FollowsRun(Next(s, AskImage), after, job, snap);
    NextInv(s, AskImage);
    RunInv(Next(s, AskImage), after);
    if job in t.renders.jobs {
      assert JobInv(t.hist.made, t.renders.jobs[job]);
    }
  }

  /** The same for the upload: the body sent shows the snapshot that was current when flush started it. */
  lemma UploadSendsItsSnapshot(s: State)
    requires Inv(s) && s.upload.Sent?
    ensures s.upload.body.rev == s.upload.snap.rev
    ensures s.upload.snap.rev in s.hist.made && s.upload.body.blob.objects == s.hist.made[s.upload.snap.rev]
  {
  }

  /** A second call without an edit in between is answered from the cache, at once. */
  lemma CacheIsUsed(s: State, job: nat, viewport: int)
    requires Inv(s) && Enabled(s, RenderDone(job, viewport)) && s.renders.jobs[job].snap == Current(s.hist)
    ensures var t := Next(Next(s, RenderDone(job, viewport)), AskImage);
            && t.renders.jobs[s.renders.nextJob].result
               == Some(Rendering(Current(s.hist).rev, Blob(Current(s.hist).objects, viewport)))
  {
  }

  /** A call on another snapshot than the cached one renders anew, and changes no other call. */
  lemma CallRendersUnlessCached(s: State)
    requires Inv(s)
    ensures var t, job := Next(s, AskImage), s.renders.nextJob;
            && job !in s.renders.jobs && t.renders.jobs.Keys == s.renders.jobs.Keys + {job}
            && (forall j :: j in s.renders.jobs ==> t.renders.jobs[j] == s.renders.jobs[j])
            && t.renders.jobs[job].snap == Current(s.hist)
            && (t.renders.jobs[job].result.Some? <==>
                  s.renders.last.Some? && s.renders.last.value.rev == Current(s.hist).rev)
            && t == s.(renders := s.renders.(jobs := t.renders.jobs, nextJob := job + 1))
  {
  }

  /** A finished rendering answers its own call, changes no other, and touches nothing but the renderings. */
  lemma RenderingFinishes(s: State, job: nat, viewport: int)
    requires Inv(s) && Enabled(s, RenderDone(job, viewport))
    ensures var t, snap := Next(s, RenderDone(job, viewport)), s.renders.jobs[job].snap;
            && t == s.(renders := t.renders) && t.renders.jobs.Keys == s.renders.jobs.Keys
            && t.renders.jobs[job].snap == snap
            && t.renders.jobs[job].result == Some(Rendering(snap.rev, Blob(snap.objects, viewport)))
            && (forall j :: j in s.renders.jobs && j != job ==> t.renders.jobs[j] == s.renders.jobs[j])
  {
  }

  /** A rendering that comes too late does not displace the cached one; the first one is always kept. */
  lemma StaleRenderingIsNotCached(s: State, job: nat, viewport: int)
    requires Inv(s) && Enabled(s, RenderDone(job, viewport)) && s.renders.jobs[job].snap != Current(s.hist)
    ensures var t := Next(s, RenderDone(job, viewport));
            if s.renders.last.Some? then t.renders.last == s.renders.last
            else t.renders.last.Some? && t.renders.last.value.rev == s.renders.jobs[job].snap.rev
  {
    var snap := s.renders.jobs[job].snap;
    assert JobInv(s.hist.made, s.renders.jobs[job]);
    assert IsMade(s.hist.made, Current(s.hist));
    assert snap.rev == Current(s.hist).rev ==> snap == Current(s.hist);
  }

  /** Only this call is over, and the cache stays. */
  predicate IsAnswered(r: Renders, t: Renders, job: nat) {
    && t.jobs.Keys == r.jobs.Keys - {job} && t.last == r.last && t.nextJob == r.nextJob
    && (forall j :: j in t.jobs ==> t.jobs[j] == r.jobs[j])
  }

  lemma DropAnswers(r: Renders, job: nat)
    ensures IsAnswered(r, Dropped(r, job), job)
  {
  }

  /** A call is answered once, with its own result or its own failure. */
  lemma AnsweredOnce(s: State, e: Event)
    requires WellFormed(s) && Enabled(s, e) && (e.Deliver? || e.RenderFail?)
    ensures IsAnswered(s.renders, Next(s, e).renders, e.job)
    ensures !IsUploadJob(s, e.job) ==> Next(s, e) == s.(renders := Next(s, e).renders)
  {
    DropAnswers(s.renders, e.job);
  }
}
