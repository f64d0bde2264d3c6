/**
 The annotation editor's history, render cache and autosave protocol as a step
 machine: one event per callback the browser can run, in any order.

 The state groups the editor's variables. Four fields are kept to state
 properties with: `made` (every snapshot ever taken), `image` (what the server
 holds), `failed` (revisions whose upload failed since the last success) and
 `settled` (how each save promise ended).
 */
module EditorModel {
  import opened Options

  /** Serialized annotation objects, one opaque token each. */
  type Drawing = seq<int>

  datatype Snapshot = Snapshot(rev: nat, objects: Drawing)

  /** A PNG: the drawing over the background, cropped by the live viewport. */
  datatype Blob = Blob(objects: Drawing, viewport: int)

  /** What a finished rendering yields: a blob with the revision it came from. */
  datatype Rendering = Rendering(rev: nat, blob: Blob)

  /** A call of renderCurrent: its snapshot, and its result once there is one. */
  datatype Job = Job(snap: Snapshot, result: Option<Rendering>)

  datatype History = History(list: seq<Snapshot>, index: nat, canvas: Drawing,
                             revCounter: nat, made: map<nat, Drawing>)

  datatype Renders = Renders(last: Option<Rendering>, jobs: map<nat, Job>, nextJob: nat)

  datatype Promises = Promises(waiters: seq<nat>, next: nat, settled: map<nat, bool>)

  datatype Remote = Remote(savedRev: nat, image: Rendering, failed: set<nat>)

  /** Where the upload chain started by flush has got to. */
  datatype Upload =
    | Idle
    | Preparing(snap: Snapshot, job: nat)       // waiting for its rendering
    | Sent(snap: Snapshot, body: Rendering)     // request on its way
    | Settling(snap: Snapshot)                  // outcome recorded, last callback pending

  datatype Status = Nothing | Saving | Saved | Failed

  datatype State = State(hist: History, renders: Renders, promises: Promises, remote: Remote,
                         upload: Upload, saveError: string, status: Status,
                         timer: bool, leaving: bool)

  datatype Event =
    | Commit(objects: Drawing)
    | Undo
    | Redo
    | TimerFires
    | Retry
    | Save
    | Discard
    | AskImage
    | RenderDone(job: nat, viewport: int)
    | RenderFail(job: nat, message: string)
    | Deliver(job: nat)
    | ServerApplies
    | RespondOk
    | RespondError(message: string)
    | Settle

  // ---- History ----

  predicate InRange(h: History) {
    h.index < |h.list|
  }

  function Current(h: History): Snapshot
    requires InRange(h)
  {
    h.list[h.index]
  }

  function Committed(h: History, objects: Drawing): History
    requires InRange(h)
  {
    var rev := h.revCounter + 1;
    History(h.list[..h.index + 1] + [Snapshot(rev, objects)], h.index + 1, objects,
            rev, h.made[rev := objects])
  }

  predicate CanUndo(h: History) {
    h.index > 0
  }

  predicate CanRedo(h: History) {
    h.index < |h.list| - 1
  }

  /** Moves to another snapshot of the list and shows it. */
  function MovedTo(h: History, index: nat): History
    requires index < |h.list|
  {
    h.(index := index, canvas := h.list[index].objects)
  }

  // ---- Rendering ----

  function Cached(r: Renders, snap: Snapshot): Option<Rendering> {
    if r.last.Some? && r.last.value.rev == snap.rev then r.last else None
  }

  /** renderCurrent on the current snapshot; the job created is `r.nextJob`. */
  function Asked(r: Renders, snap: Snapshot): Renders {
    r.(jobs := r.jobs[r.nextJob := Job(snap, Cached(r, snap))], nextJob := r.nextJob + 1)
  }

  function Rendered(r: Renders, job: nat, viewport: int, currentRev: nat): Renders
    requires job in r.jobs
  {
    var snap := r.jobs[job].snap;
    var result := Rendering(snap.rev, Blob(snap.objects, viewport));
    r.(last := if r.last.None? || currentRev == result.rev then Some(result) else r.last,
       jobs := r.jobs[job := Job(snap, Some(result))])
  }

  function Dropped(r: Renders, job: nat): Renders {
    r.(jobs := r.jobs - {job})
  }

  // ---- Save promises ----

  function Pushed(p: Promises): Promises {
    p.(waiters := p.waiters + [p.next], next := p.next + 1)
  }

  function SettledAll(p: Promises, resolved: bool): Promises {
    p.(waiters := [], settled := p.settled + map w <- p.waiters :: resolved)
  }

  // ---- Steps ----

  predicate WellFormed(s: State) {
    InRange(s.hist)
  }

  predicate Unsaved(s: State)
    requires WellFormed(s)
  {
    Current(s.hist).rev != s.remote.savedRev
  }

  /** The state initCanvas leaves: one snapshot, which the server holds. */
  function Initial(blob: Blob): State {
    State(History([Snapshot(1, blob.objects)], 0, blob.objects, 1, map[1 := blob.objects]),
          Renders(None, map[], 0), Promises([], 0, map[]), Remote(1, Rendering(1, blob), {}),
          Idle, "", Nothing, false, false)
  }

  function AfterEdit(s: State, h: History): State {
    s.(hist := h, timer := true)
  }

  function AfterFlush(s: State): State
    requires WellFormed(s)
  {
    if s.upload != Idle then s.(timer := false)
    else if !Unsaved(s) then
      s.(timer := false, status := Saved, promises := SettledAll(s.promises, true))
    else
      s.(timer := false, status := Saving, saveError := "",
         upload := Preparing(Current(s.hist), s.renders.nextJob),
         renders := Asked(s.renders, Current(s.hist)))
  }

  predicate IsUploadJob(s: State, job: nat) {
    s.upload.Preparing? && s.upload.job == job
  }

  function AfterRenderFail(s: State, job: nat, message: string): State {
    var t := s.(renders := Dropped(s.renders, job));
    if IsUploadJob(s, job) then t.(saveError := message, upload := Settling(s.upload.snap)) else t
  }

  function AfterDeliver(s: State, job: nat): State
    requires job in s.renders.jobs && s.renders.jobs[job].result.Some?
  {
    var t := s.(renders := Dropped(s.renders, job));
    if IsUploadJob(s, job) then t.(upload := Sent(s.upload.snap, s.renders.jobs[job].result.value)) else t
  }

  function AfterRespondOk(s: State): State
    requires s.upload.Sent?
  {
    s.(upload := Settling(s.upload.snap),
       remote := s.remote.(savedRev := s.upload.snap.rev, failed := {}))
  }

  function AfterRespondError(s: State, message: string): State
    requires s.upload.Sent?
  {
    s.(saveError := message, upload := Settling(s.upload.snap),
       remote := s.remote.(failed := s.remote.failed + {s.upload.snap.rev}))
  }

  /** The last callback of the chain. An empty message counts as no error. */
  function AfterSettle(s: State): State
    requires WellFormed(s)
  {
    if s.saveError == "" then AfterFlush(s.(upload := Idle))
    else s.(upload := Idle, status := Failed, promises := SettledAll(s.promises, false))
  }

  /** An ok response is only sent once the handler has replaced the image. */
  predicate Enabled(s: State, e: Event) {
    match e
    case TimerFires => s.timer
    case RenderDone(job, _) => job in s.renders.jobs && s.renders.jobs[job].result.None?
    case RenderFail(job, _) => job in s.renders.jobs && s.renders.jobs[job].result.None?
    case Deliver(job) => job in s.renders.jobs && s.renders.jobs[job].result.Some?
    case ServerApplies => s.upload.Sent?
    case RespondOk => s.upload.Sent? && s.remote.image == s.upload.body
    case RespondError(_) => s.upload.Sent?
    case Settle => s.upload.Settling?
    case _ => true
  }

  function Next(s: State, e: Event): (t: State)
    requires WellFormed(s) && Enabled(s, e)
    ensures WellFormed(t)
  {
    match e
    case Commit(objects) => AfterEdit(s, Committed(s.hist, objects))
    case Undo => if CanUndo(s.hist) then AfterEdit(s, MovedTo(s.hist, s.hist.index - 1)) else s
    case Redo => if CanRedo(s.hist) then AfterEdit(s, MovedTo(s.hist, s.hist.index + 1)) else s
    case TimerFires => AfterFlush(s)
    case Retry => AfterFlush(s)
    case Save => AfterFlush(s.(promises := Pushed(s.promises)))
    case Discard => s.(timer := false, leaving := true)
    case AskImage => s.(renders := Asked(s.renders, Current(s.hist)))
    case RenderDone(job, viewport) =>
      s.(renders := Rendered(s.renders, job, viewport, Current(s.hist).rev))
    case RenderFail(job, message) => AfterRenderFail(s, job, message)
    case Deliver(job) => AfterDeliver(s, job)
    case ServerApplies => s.(remote := s.remote.(image := s.upload.body))
    case RespondOk => AfterRespondOk(s)
    case RespondError(message) => AfterRespondError(s, message)
    case Settle => AfterSettle(s)
  }

  // ---- Runs ----

  predicate ValidRun(s: State, events: seq<Event>)
    requires WellFormed(s)
    decreases |events|
  {
    events == [] || (Enabled(s, events[0]) && ValidRun(Next(s, events[0]), events[1..]))
  }

  /** The state after the events, applied from the left. */
  function Run(s: State, events: seq<Event>): (t: State)
    requires WellFormed(s) && ValidRun(s, events)
    ensures WellFormed(t)
    decreases |events|
  {
    if events == [] then s else Run(Next(s, events[0]), events[1..])
  }
}
