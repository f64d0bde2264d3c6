/**
 The editor's functions as the page runs them, over mutable fields, one class
 for each section of the script. Each method is proved to take the
 corresponding step of EditorModel, so everything proved about runs of that
 machine holds of these: `Inv` holds of a new editor (InitialInv) and each step
 keeps it (NextInv).
 */
module AnnotationEditor {
  import opened Options
  import opened EditorModel
  import opened EditorInvariants

  /** The undo/redo list and the canvas. */
  class SnapshotList {
    var history: seq<Snapshot>
    var historyIndex: nat
    var revCounter: nat
    var canvas: Drawing
    ghost var made: map<nat, Drawing>

    ghost function View(): History
      reads this
    {
      History(history, historyIndex, canvas, revCounter, made)
    }

    constructor (objects: Drawing)
      ensures View() == History([Snapshot(1, objects)], 0, objects, 1, map[1 := objects])
    {
      history, historyIndex, revCounter, canvas := [Snapshot(1, objects)], 0, 1, objects;
      made := map[1 := objects];
    }

    method TakeSnapshot() returns (snap: Snapshot)
      modifies `revCounter, `made
      ensures snap == Snapshot(old(revCounter) + 1, canvas)
      ensures revCounter == snap.rev && made == old(made)[snap.rev := canvas]
    {
      revCounter := revCounter + 1;
      snap := Snapshot(revCounter, canvas);
      made := made[revCounter := canvas];
    }

    method Restore(snap: Snapshot)
      modifies `canvas
      ensures canvas == snap.objects
    {
      canvas := snap.objects;
    }

    /** The change on the canvas, then the part of commit that records it. */
    method Record(objects: Drawing)
      requires InRange(View())
      modifies this
      ensures View() == Committed(old(View()), objects)
    {
      canvas := objects;
      history := history[..historyIndex + 1];
      var snap := TakeSnapshot();
      history := history + [snap];
      historyIndex := |history| - 1;
    }

    method StepBack() returns (moved: bool)
      requires InRange(View())
      modifies this
      ensures moved == CanUndo(old(View()))
      ensures View() == if moved then MovedTo(old(View()), old(historyIndex) - 1) else old(View())
    {
      if historyIndex <= 0 {
        return false;
      }
      historyIndex := historyIndex - 1;
      Restore(history[historyIndex]);
      return true;
    }

    method StepForward() returns (moved: bool)
      requires InRange(View())
      modifies this
      ensures moved == CanRedo(old(View()))
      ensures View() == if moved then MovedTo(old(View()), old(historyIndex) + 1) else old(View())
    {
      if historyIndex >= |history| - 1 {
        return false;
      }
      historyIndex := historyIndex + 1;
      Restore(history[historyIndex]);
      return true;
    }
  }

  /** The latest rendering, and the calls of renderCurrent not yet answered. */
  class RenderCache {
    var lastRender: Option<Rendering>
    var jobs: map<nat, Job>
    var nextJob: nat

    ghost function View(): Renders
      reads this
    {
      Renders(lastRender, jobs, nextJob)
    }

    constructor ()
      ensures View() == Renders(None, map[], 0)
    {
      lastRender, jobs, nextJob := None, map[], 0;
    }

    /** Answered at once from the cache, or later through Finish. */
    method RenderCurrent(snap: Snapshot) returns (job: nat)
      modifies this
      ensures job == old(nextJob) && View() == Asked(old(View()), snap)
    {
      job := nextJob;
      nextJob := nextJob + 1;
      if lastRender.Some? && lastRender.value.rev == snap.rev {
        jobs := jobs[job := Job(snap, lastRender)];
      } else {
        jobs := jobs[job := Job(snap, None)];
      }
    }

    /** renderSnapshot has produced its blob. */
    method Finish(job: nat, viewport: int, currentRev: nat)
      requires job in jobs
      modifies this
      ensures View() == Rendered(old(View()), job, viewport, currentRev)
    {
      var snap := jobs[job].snap;
      var r := Rendering(snap.rev, Blob(snap.objects, viewport));
      if lastRender.None? || currentRev == r.rev {
        lastRender := Some(r);
      }
      jobs := jobs[job := Job(snap, Some(r))];
    }

    method Drop(job: nat)
      modifies this
      ensures View() == Dropped(old(View()), job)
    {
      jobs := jobs - {job};
    }
  }

  /** The promises handed out by save. */
  class SavePromises {
    var saveWaiters: seq<nat>
    var nextWaiter: nat
    var settled: map<nat, bool>

    ghost function View(): Promises
      reads this
    {
      Promises(saveWaiters, nextWaiter, settled)
    }

    constructor ()
      ensures View() == Promises([], 0, map[])
    {
      saveWaiters, nextWaiter, settled := [], 0, map[];
    }

    method Push() returns (waiter: nat)
      modifies this
      ensures waiter == old(nextWaiter) && View() == Pushed(old(View()))
    {
      waiter := nextWaiter;
      nextWaiter := nextWaiter + 1;
      saveWaiters := saveWaiters + [waiter];
    }

    method SettleSaveWaiters(resolved: bool)
      modifies this
      ensures View() == SettledAll(old(View()), resolved)
    {
      var waiters := saveWaiters;
      saveWaiters := [];
      var i := 0;
      while i < |waiters|
        invariant 0 <= i <= |waiters|
        invariant saveWaiters == [] && nextWaiter == old(nextWaiter)
        invariant settled == old(settled) + map w <- waiters[..i] :: resolved
      {
        settled := settled[waiters[i] := resolved];
        assert waiters[..i + 1] == waiters[..i] + [waiters[i]];
        i := i + 1;
      }
      assert waiters[..i] == waiters;
    }
  }

  class Editor {
    const list: SnapshotList
    const cache: RenderCache
    const promises: SavePromises
    var saveTimer: bool
    var uploading: bool
    var chain: Upload              // what the running upload waits for
    var saveError: string
    var status: Status
    var leaving: bool
    var savedRev: nat
    ghost var image: Rendering     // on the server
    ghost var failed: set<nat>

    ghost function View(): State
      reads this, list, cache, promises
    {
      State(list.View(), cache.View(), promises.View(), Remote(savedRev, image, failed),
            chain, saveError, status, saveTimer, leaving)
    }

    ghost predicate Valid()
      reads this, list, cache, promises
    {
      WellFormed(View()) && (uploading <==> chain != Idle)
    }

    /** The end of initCanvas: `blob` is the image loaded from the server. */
    constructor (blob: Blob)
      ensures View() == Initial(blob) && Valid() && Inv(View())
      ensures fresh(list) && fresh(cache) && fresh(promises)
    {
      list := new SnapshotList(blob.objects);
      cache := new RenderCache();
      promises := new SavePromises();
      saveTimer, uploading, chain, saveError := false, false, Idle, "";
      status, leaving, savedRev := Nothing, false, 1;
      image, failed := Rendering(1, blob), {};
      new;
      InitialInv(blob);
    }

    method ScheduleSave()
      modifies `saveTimer
      ensures saveTimer
    {
      saveTimer := true;
    }

    method CommitChange(objects: Drawing)
      requires Valid()
      modifies this, list
      ensures Valid() && View() == Next(old(View()), Commit(objects))
    {
      list.Record(objects);
      ScheduleSave();
    }

    method UndoChange()
      requires Valid()
      modifies this, list
      ensures Valid() && View() == Next(old(View()), Undo)
    {
      var moved := list.StepBack();
      if moved {
        ScheduleSave();
      }
    }

    method RedoChange()
      requires Valid()
      modifies this, list
      ensures Valid() && View() == Next(old(View()), Redo)
    {
      var moved := list.StepForward();
      if moved {
        ScheduleSave();
      }
    }

    method AskForImage() returns (job: nat)
      requires Valid()
      modifies cache
      ensures Valid() && View() == Next(old(View()), AskImage) && job == old(cache.nextJob)
    {
      job := cache.RenderCurrent(list.history[list.historyIndex]);
    }

    method OnRendered(job: nat, viewport: int)
      requires Valid() && Enabled(View(), RenderDone(job, viewport))
      modifies cache
      ensures Valid() && View() == Next(old(View()), RenderDone(job, viewport))
    {
      cache.Finish(job, viewport, list.history[list.historyIndex].rev);
    }

    method OnRenderFailed(job: nat, message: string)
      requires Valid() && Enabled(View(), RenderFail(job, message))
      modifies this, cache
      ensures Valid() && View() == Next(old(View()), RenderFail(job, message))
    {
      cache.Drop(job);
      if chain.Preparing? && chain.job == job {
        saveError := message;
        chain := Settling(chain.snap);
      }
    }

    /** The caller of renderCurrent gets its blob; flush sends it. */
    method OnDelivered(job: nat) returns (r: Rendering)
      requires Valid() && Enabled(View(), Deliver(job))
      modifies this, cache
      ensures Valid() && View() == Next(old(View()), Deliver(job))
      ensures old(cache.jobs[job].result) == Some(r)
    {
      r := cache.jobs[job].result.value;
      cache.Drop(job);
      if chain.Preparing? && chain.job == job {
        chain := Sent(chain.snap, r);
      }
    }

    method Flush()
      requires Valid()
      modifies this, cache, promises
      ensures Valid() && View() == AfterFlush(old(View()))
    {
      saveTimer := false;
      if uploading {
        return;
      }
      if list.history[list.historyIndex].rev == savedRev {
        status := Saved;
        promises.SettleSaveWaiters(true);
        return;
      }
      var snap := list.history[list.historyIndex];
      uploading := true;
      saveError := "";
      status := Saving;
      var job := cache.RenderCurrent(snap);
      chain := Preparing(snap, job);
    }

    method OnTimer()
      requires Valid() && saveTimer
      modifies this, cache, promises
      ensures Valid() && View() == Next(old(View()), TimerFires)
    {
      Flush();
    }

    method OnRetry()
      requires Valid()
      modifies this, cache, promises
      ensures Valid() && View() == Next(old(View()), Retry)
    {
      Flush();
    }

    /** Returns the promise, as its number. */
    method SavePage() returns (waiter: nat)
      requires Valid()
      modifies this, cache, promises
      ensures Valid() && View() == Next(old(View()), Save)
      ensures waiter == old(promises.nextWaiter) && promises.nextWaiter == waiter + 1
      ensures waiter in promises.saveWaiters || waiter in promises.settled
    {
      waiter := promises.Push();
      Flush();
    }

    method DiscardPendingSave()
      requires Valid()
      modifies this
      ensures Valid() && View() == Next(old(View()), Discard)
    {
      saveTimer := false;
      leaving := true;
    }

    /** The request succeeded: the server holds what was sent. */
    method OnUploaded()
      requires Valid() && Enabled(View(), RespondOk)
      modifies this
      ensures Valid() && View() == Next(old(View()), RespondOk)
    {
      savedRev := chain.snap.rev;
      failed := {};
      chain := Settling(chain.snap);
    }

    method OnUploadFailed(message: string)
      requires Valid() && Enabled(View(), RespondError(message))
      modifies this
      ensures Valid() && View() == Next(old(View()), RespondError(message))
    {
      saveError := message;
      failed := failed + {chain.snap.rev};
      chain := Settling(chain.snap);
    }

    /** The last link of the chain, run for both outcomes. */
    method OnUploadSettled()
      requires Valid() && Enabled(View(), Settle)
      modifies this, cache, promises
      ensures Valid() && View() == Next(old(View()), Settle)
    {
      uploading := false;
      chain := Idle;
      if saveError != "" {
        status := Failed;
        promises.SettleSaveWaiters(false);
        return;
      }
      Flush();
    }
  }
}
