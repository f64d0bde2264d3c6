/** Rows and files over whole runs of requests, with and without storage failures. */
module ServerInvariants {
  import opened Options
  import opened Png
  import opened StorageModel
  import opened StorageRuns
  import opened StorageSolo
  import opened DatabaseModel
  import opened ServerModel

  predicate HasBoth(files: Files, id: string) {
    Visible(files, id).image.Some? && Visible(files, id).thumb.Some?
  }

  predicate RowsHaveFiles(t: Tables, files: Files) {
    forall id :: id in t.images ==> HasBoth(files, id)
  }

  predicate WorldInv(cfg: Config, w: World) {
    ForeignKeys(w.tables) && RowsHaveFiles(w.tables, w.files) && FilesInv(cfg.codec, w.accepted, w.files)
  }

  // ---- One call of the store ----

  /** A write leaves other ids alone, and keeps both files of its own id if there were two; on success there are two. */
  lemma WriteEffect(
    codec: Codec, files: Files, accepted: set<(string, Bytes)>, id: string, data: Bytes, outcomes: seq<Outcome>)
    requires FilesInv(codec, accepted, files)
    ensures var run := RunOp(codec, files, Waiting(id, data), outcomes);
            && FilesInv(codec, accepted + {(id, data)}, run.files)
            && (run.op.ok ==> codec(data).Some? && Visible(run.files, id) == Pair(Some(data), codec(data)))
            && (HasBoth(files, id) ==> HasBoth(run.files, id))
            && (forall other :: other != id ==> Visible(run.files, other) == Visible(files, other))
  {
    var op := Waiting(id, data);
    forall p | p in files && !IsTemp(p) ensures IsComplete(codec, accepted + {(id, data)}, p, files[p]) {
      assert IsComplete(codec, accepted, p, files[p]);
    }
    RunKeepsFilesComplete(codec, files, accepted + {(id, data)}, op, outcomes);
    RunWrite(codec, files, op, outcomes, id, data, Visible(files, id));
    forall other | other != id
      ensures Visible(RunOp(codec, files, op, outcomes).files, other) == Visible(files, other)
    {
      RunKeepsOthers(codec, files, op, outcomes, other);
    }
  }

  lemma DeleteEffect(codec: Codec, files: Files, accepted: set<(string, Bytes)>, id: string, outcomes: seq<Outcome>)
    requires FilesInv(codec, accepted, files)
    ensures var run := RunOp(codec, files, RemovingImage(id), outcomes);
            && FilesInv(codec, accepted, run.files)
            && (forall other :: other != id ==> Visible(run.files, other) == Visible(files, other))
  {
    RunKeepsFilesComplete(codec, files, accepted, RemovingImage(id), outcomes);
    forall other | other != id
      ensures Visible(RunOp(codec, files, RemovingImage(id), outcomes).files, other) == Visible(files, other)
    {
      RunKeepsOthers(codec, files, RemovingImage(id), outcomes, other);
    }
  }

  // ---- Failures leave extra files only ----

  lemma {:induction false} FreeIdIsFree(backend: Backend, t: Tables, candidates: seq<string>, owner: string)
    ensures var free := FreeId(backend, t, candidates, owner);
            free.Some? ==> free.value in candidates && free.value !in t.images && owner in t.users
    decreases |candidates|
  {
    if candidates == [] {
    } else {
      FreeIdIsFree(backend, t, candidates[1..], owner);
    }
  }

  lemma UploadInv(cfg: Config, w: World, r: Request)
    requires WorldInv(cfg, w) && r.Upload?
    ensures WorldInv(cfg, AfterUpload(cfg, w, r).world)
  {
    if Validate(r.data) == Valid {
      var t := Upserted(w.tables, r.email, r.user);
      var free := FreeId(cfg.backend, t, Tried(r.candidates), r.email);
      FreeIdIsFree(cfg.backend, t, Tried(r.candidates), r.email);
      if free.Some? && ImagePath(free.value) !in w.files {
        WriteEffect(cfg.codec, w.files, w.accepted, free.value, r.data, r.outcomes);
      }
    }
  }

  lemma AnnotateInv(cfg: Config, w: World, r: Request)
    requires WorldInv(cfg, w) && r.Annotate?
    ensures WorldInv(cfg, AfterAnnotate(cfg, w, r).world)
  {
    if r.received.Some? {
      WriteEffect(cfg.codec, w.files, w.accepted, r.id, r.received.value, r.outcomes);
    }
  }

  lemma RemovalInv(cfg: Config, w: World, id: string, outcomes: seq<Outcome>)
    requires WorldInv(cfg, w)
    ensures WorldInv(cfg, AfterRemoval(cfg, w, id, outcomes))
  {
    DeleteEffect(cfg.codec, w.files, w.accepted, id, outcomes);
  }

  lemma {:induction false} RemovedAllEffect(
    cfg: Config, files: Files, accepted: set<(string, Bytes)>, ids: seq<string>, removals: seq<seq<Outcome>>, n: nat)
    requires n <= |ids| && FilesInv(cfg.codec, accepted, files)
    ensures FilesInv(cfg.codec, accepted, RemovedAll(cfg, files, ids, removals, n))
    ensures forall other :: other !in ids[..n] ==>
              Visible(RemovedAll(cfg, files, ids, removals, n), other) == Visible(files, other)
    decreases n
  {
    if n == 0 {
    } else {
      RemovedAllEffect(cfg, files, accepted, ids, removals, n - 1);
      DeleteEffect(cfg.codec, RemovedAll(cfg, files, ids, removals, n - 1), accepted, ids[n - 1],
                   RemovalAt(removals, n - 1));
      assert forall other :: other !in ids[..n] ==> other !in ids[..n - 1] && other != ids[n - 1];
    }
  }

  lemma DeleteUserInv(cfg: Config, w: World, r: Request)
    requires WorldInv(cfg, w) && r.AdminDeleteUser? && CanHappen(w, r)
    ensures WorldInv(cfg, AfterAdminDeleteUser(cfg, w, r).world)
  {
    DeletingUserCascades(w.tables, r.email);
    RemovedAllEffect(cfg, w.files, w.accepted, r.ids, r.removals, |r.ids|);
    assert r.ids[..|r.ids|] == r.ids;
  }

  lemma ServeInv(cfg: Config, w: World, r: Request)
    requires WorldInv(cfg, w) && CanHappen(w, r)
    ensures WorldInv(cfg, Serve(cfg, w, r).world)
  {
    match r
    case Upload(_, _, _, _, _, _, _) => UploadInv(cfg, w, r);
    case Delete(_, id, outcomes) => RemovalInv(cfg, w, id, outcomes);
    case Annotate(_, _, _, _) => AnnotateInv(cfg, w, r);
    case AdminDeleteUser(_, _, _) => DeleteUserInv(cfg, w, r);
    case AdminDeleteImage(id, outcomes) => RemovalInv(cfg, w, id, outcomes);
    case _ =>
  }

  lemma {:induction false} RunKeepsInv(cfg: Config, w: World, requests: seq<Request>, v: World)
    requires WorldInv(cfg, w) && ServerModel.Reaches(cfg, w, requests, v)
    ensures WorldInv(cfg, v)
    decreases |requests|
  {
    if requests == [] {
    } else {
      ServeInv(cfg, w, requests[0]);
      RunKeepsInv(cfg, Serve(cfg, w, requests[0]).world, requests[1..], v);
    }
  }

  /**
   After any requests, with storage failing anywhere: every row has a complete
   image that was sent for that id and decodes, a complete thumbnail of such an
   image, and an existing owner.
   */
  lemma EveryRowHasItsFiles(cfg: Config, requests: seq<Request>, v: World, id: string)
    requires ServerModel.Reaches(cfg, ServerModel.EMPTY, requests, v) && id in v.tables.images
    ensures ImagePath(id) in v.files && ThumbPath(id) in v.files && v.tables.images[id].owner in v.tables.users
    ensures (id, v.files[ImagePath(id)]) in v.accepted && cfg.codec(v.files[ImagePath(id)]).Some?
    ensures exists data :: (id, data) in v.accepted && cfg.codec(data) == Some(v.files[ThumbPath(id)])
  {
    RunKeepsInv(cfg, ServerModel.EMPTY, requests, v);
    assert HasBoth(v.files, id);
    ServedIsComplete(cfg.codec, v.accepted, v.files, id);
  }

  // ---- Without I/O errors ----

  predicate SmoothRemovals(cfg: Config, files: Files, ids: seq<string>, removals: seq<seq<Outcome>>, n: nat)
    requires n <= |ids|
  {
    n == 0 ||
    (SmoothRemovals(cfg, files, ids, removals, n - 1) &&
     Smooth(cfg.codec, RemovedAll(cfg, files, ids, removals, n - 1), RemovingImage(ids[n - 1]),
            RemovalAt(removals, n - 1)))
  }

  /** No system call the request makes fails. */
  predicate IsSmooth(cfg: Config, w: World, r: Request) {
    match r
    case Upload(email, user, data, _, _, candidates, outcomes) =>
      var free := FreeId(cfg.backend, Upserted(w.tables, email, user), Tried(candidates), email);
      free.Some? ==> Smooth(cfg.codec, w.files, Waiting(free.value, data), outcomes)
    case Delete(_, id, outcomes) => Smooth(cfg.codec, w.files, RemovingImage(id), outcomes)
    case Annotate(_, id, received, outcomes) =>
      received.Some? ==> Smooth(cfg.codec, w.files, Waiting(id, received.value), outcomes)
    case AdminDeleteUser(_, ids, removals) => SmoothRemovals(cfg, w.files, ids, removals, |ids|)
    case AdminDeleteImage(id, outcomes) => Smooth(cfg.codec, w.files, RemovingImage(id), outcomes)
    case _ => true
  }

  predicate InStep(t: Tables, files: Files, id: string) {
    (id in t.images <==> Visible(files, id).image.Some?) && (id in t.images <==> Visible(files, id).thumb.Some?)
  }

  /** Row ids, image files and thumbnail files are the same set, and there is nothing else. */
  ghost predicate AllInStep(t: Tables, files: Files) {
    (forall id :: InStep(t, files, id)) && (forall p :: p in files ==> !IsTemp(p))
  }

  lemma SmoothWrite(codec: Codec, files: Files, id: string, data: Bytes, outcomes: seq<Outcome>)
    requires Smooth(codec, files, Waiting(id, data), outcomes) && (forall p :: p in files ==> !IsTemp(p))
    ensures var run := RunOp(codec, files, Waiting(id, data), outcomes);
            && (forall p :: p in run.files ==> !IsTemp(p))
            && run.op.ok == codec(data).Some?
            && (if run.op.ok then HasBoth(run.files, id) else run.files == files)
            && (forall other :: other != id ==> Visible(run.files, other) == Visible(files, other))
  {
    var op := Waiting(id, data);
    var run := RunOp(codec, files, op, outcomes);
    SmoothRun(codec, files, op, outcomes);
    RunWrite(codec, files, op, outcomes, id, data, Visible(files, id));
    forall p | p in run.files ensures !IsTemp(p) {
      if IsTemp(p) { SmoothRunLeavesNoTemp(codec, files, op, outcomes, p); }
    }
    forall other | other != id ensures Visible(run.files, other) == Visible(files, other) {
      RunKeepsOthers(codec, files, op, outcomes, other);
    }
  }

  lemma SmoothDelete(codec: Codec, files: Files, id: string, outcomes: seq<Outcome>)
    requires Smooth(codec, files, RemovingImage(id), outcomes) && (forall p :: p in files ==> !IsTemp(p))
    ensures var run := RunOp(codec, files, RemovingImage(id), outcomes);
            && (forall p :: p in run.files ==> !IsTemp(p))
            && Visible(run.files, id) == Pair(None, None)
            && (forall other :: other != id ==> Visible(run.files, other) == Visible(files, other))
  {
    var op := RemovingImage(id);
    var run := RunOp(codec, files, op, outcomes);
    SmoothRun(codec, files, op, outcomes);
    RunDelete(codec, files, outcomes, id);
    forall p | p in run.files ensures !IsTemp(p) {
      if IsTemp(p) { SmoothRunLeavesNoTemp(codec, files, op, outcomes, p); }
    }
    forall other | other != id ensures Visible(run.files, other) == Visible(files, other) {
      RunKeepsOthers(codec, files, op, outcomes, other);
    }
  }

  /** t and files are in step if they were before, but for one id that is in step now. */
  lemma OneChanged(t: Tables, files: Files, t': Tables, files': Files, id: string)
    requires AllInStep(t, files) && InStep(t', files', id) && (forall p :: p in files' ==> !IsTemp(p))
    requires forall other :: other != id ==> Visible(files', other) == Visible(files, other)
    requires t'.images.Keys - {id} == t.images.Keys - {id}
    ensures AllInStep(t', files')
  {
    forall other ensures InStep(t', files', other) {
      assert InStep(t, files, other);
      assert other != id ==> (other in t.images <==> other in t.images.Keys - {id});
    }
  }

  lemma SmoothUpload(cfg: Config, w: World, r: Request)
    requires AllInStep(w.tables, w.files) && r.Upload? && IsSmooth(cfg, w, r)
    ensures var v := AfterUpload(cfg, w, r).world; AllInStep(v.tables, v.files)
  {
    var t := Upserted(w.tables, r.email, r.user);
    assert AllInStep(t, w.files) by {
      forall id ensures InStep(t, w.files, id) { assert InStep(w.tables, w.files, id); }
    }
    var free := FreeId(cfg.backend, t, Tried(r.candidates), r.email);
    FreeIdIsFree(cfg.backend, t, Tried(r.candidates), r.email);
    if Validate(r.data) == Valid && free.Some? {
      var v := AfterUpload(cfg, w, r).world;
      assert InStep(t, w.files, free.value);
      SmoothWrite(cfg.codec, w.files, free.value, r.data, r.outcomes);
      OneChanged(t, w.files, v.tables, v.files, free.value);
    }
  }

  lemma SmoothAnnotate(cfg: Config, w: World, r: Request)
    requires AllInStep(w.tables, w.files) && r.Annotate? && IsSmooth(cfg, w, r)
    ensures var v := AfterAnnotate(cfg, w, r).world; AllInStep(v.tables, v.files)
  {
    if r.received.Some? && r.id in w.tables.images {
      assert InStep(w.tables, w.files, r.id);
      SmoothWrite(cfg.codec, w.files, r.id, r.received.value, r.outcomes);
      OneChanged(w.tables, w.files, w.tables,
                 RunOp(cfg.codec, w.files, Waiting(r.id, r.received.value), r.outcomes).files, r.id);
    }
  }

  lemma SmoothRemoval(cfg: Config, w: World, id: string, outcomes: seq<Outcome>)
    requires AllInStep(w.tables, w.files) && Smooth(cfg.codec, w.files, RemovingImage(id), outcomes)
    ensures var v := AfterRemoval(cfg, w, id, outcomes); AllInStep(v.tables, v.files)
  {
    var v := AfterRemoval(cfg, w, id, outcomes);
    SmoothDelete(cfg.codec, w.files, id, outcomes);
    OneChanged(w.tables, w.files, v.tables, v.files, id);
  }

  lemma {:induction false} SmoothRemovedAll(
    cfg: Config, files: Files, ids: seq<string>, removals: seq<seq<Outcome>>, n: nat)
    requires n <= |ids| && SmoothRemovals(cfg, files, ids, removals, n) && (forall p :: p in files ==> !IsTemp(p))
    ensures forall p :: p in RemovedAll(cfg, files, ids, removals, n) ==> !IsTemp(p)
    ensures forall id :: Visible(RemovedAll(cfg, files, ids, removals, n), id)
                         == if id in ids[..n] then Pair(None, None) else Visible(files, id)
    decreases n
  {
    if n == 0 {
    } else {
      SmoothRemovedAll(cfg, files, ids, removals, n - 1);
      SmoothDelete(cfg.codec, RemovedAll(cfg, files, ids, removals, n - 1), ids[n - 1], RemovalAt(removals, n - 1));
      assert forall id :: id in ids[..n] <==> id in ids[..n - 1] || id == ids[n - 1];
    }
  }

  lemma SmoothDeleteUser(cfg: Config, w: World, r: Request)
    requires AllInStep(w.tables, w.files) && r.AdminDeleteUser? && CanHappen(w, r) && IsSmooth(cfg, w, r)
    ensures var v := AfterAdminDeleteUser(cfg, w, r).world; AllInStep(v.tables, v.files)
  {
    var v := AfterAdminDeleteUser(cfg, w, r).world;
    SmoothRemovedAll(cfg, w.files, r.ids, r.removals, |r.ids|);
    assert r.ids[..|r.ids|] == r.ids;
    forall id ensures InStep(v.tables, v.files, id) {
      assert InStep(w.tables, w.files, id);
    }
  }

  lemma SmoothServe(cfg: Config, w: World, r: Request)
    requires AllInStep(w.tables, w.files) && CanHappen(w, r) && IsSmooth(cfg, w, r)
    ensures var v := Serve(cfg, w, r).world; AllInStep(v.tables, v.files)
  {
    match r
    case Upload(_, _, _, _, _, _, _) => SmoothUpload(cfg, w, r);
    case Delete(_, id, outcomes) => SmoothRemoval(cfg, w, id, outcomes);
    case Annotate(_, _, _, _) => SmoothAnnotate(cfg, w, r);
    case AdminDeleteUser(_, _, _) => SmoothDeleteUser(cfg, w, r);
    case AdminDeleteImage(id, outcomes) => SmoothRemoval(cfg, w, id, outcomes);
    case _ =>
      var v := Serve(cfg, w, r).world;
      forall id ensures InStep(v.tables, v.files, id) {
        assert InStep(w.tables, w.files, id);
      }
  }

  ghost predicate AllSmooth(cfg: Config, w: World, requests: seq<Request>)
    decreases |requests|
  {
    requests == [] || (IsSmooth(cfg, w, requests[0]) && AllSmooth(cfg, Serve(cfg, w, requests[0]).world, requests[1..]))
  }

  /** As long as no I/O error occurs, rows, images and thumbnails are in step, and no temporary file is left. */
  lemma {:induction false} SmoothRunStaysInStep(cfg: Config, w: World, requests: seq<Request>, v: World)
    requires AllInStep(w.tables, w.files) && ServerModel.Reaches(cfg, w, requests, v) && AllSmooth(cfg, w, requests)
    ensures AllInStep(v.tables, v.files)
    decreases |requests|
  {
    if requests == [] {
    } else {
      SmoothServe(cfg, w, requests[0]);
      SmoothRunStaysInStep(cfg, Serve(cfg, w, requests[0]).world, requests[1..], v);
    }
  }

  // ---- Ownership ----

  /** What a request changes of one existing row: only its owner removes it, and only an admin moves it. */
  lemma RowsChangeHands(cfg: Config, w: World, r: Request, id: string)
    requires id in w.tables.images && ForeignKeys(w.tables) && !IsAdminRequest(r)
    ensures var t := Serve(cfg, w, r).world.tables;
            if id in t.images then t.images[id] == w.tables.images[id]
            else r.Delete? && r.id == id && r.who == w.tables.images[id].owner && Serve(cfg, w, r).status == 200
  {
    if r.Upload? {
      FreeIdIsFree(cfg.backend, Upserted(w.tables, r.email, r.user), Tried(r.candidates), r.email);
    }
  }

  /** Over a run without admin requests a row stays as it is, unless its owner asked for its removal. */
  lemma {:induction false} OwnersKeepTheirRows(cfg: Config, w: World, requests: seq<Request>, v: World, id: string)
    requires WorldInv(cfg, w) && id in w.tables.images && ServerModel.Reaches(cfg, w, requests, v)
    requires forall i :: 0 <= i < |requests| ==> !IsAdminRequest(requests[i])
    ensures (id in v.tables.images && v.tables.images[id] == w.tables.images[id])
            || exists i :: 0 <= i < |requests| && requests[i].Delete? && requests[i].id == id
                           && requests[i].who == w.tables.images[id].owner
    decreases |requests|
  {
    if requests == [] {
    } else {
      var r, next := requests[0], Serve(cfg, w, requests[0]).world;
      RowsChangeHands(cfg, w, r, id);
      if id in next.tables.images {
        ServeInv(cfg, w, r);
        OwnersKeepTheirRows(cfg, next, requests[1..], v, id);
        if i :| 0 <= i < |requests[1..]| && requests[1..][i].Delete? && requests[1..][i].id == id
                && requests[1..][i].who == w.tables.images[id].owner {
          assert requests[i + 1] == requests[1..][i];
        }
      }
    }
  }

  /** After any run the image counts of all users add up to the number of images. */
  lemma CountsAlwaysAddUp(cfg: Config, requests: seq<Request>, v: World, emails: seq<string>)
    requires ServerModel.Reaches(cfg, ServerModel.EMPTY, requests, v)
    requires forall i, j :: 0 <= i < j < |emails| ==> emails[i] != emails[j]
    requires forall e :: e in emails <==> e in v.tables.users
    ensures TotalCount(v.tables, emails) == |v.tables.images|
  {
    RunKeepsInv(cfg, ServerModel.EMPTY, requests, v);
    CountsAddUp(v.tables, emails);
  }

  lemma UploadKeepsFiles(cfg: Config, w: World, r: Request, id: string)
    requires FilesInv(cfg.codec, w.accepted, w.files) && r.Upload? && id in w.tables.images
    ensures Visible(AfterUpload(cfg, w, r).world.files, id) == Visible(w.files, id)
  {
    var t := Upserted(w.tables, r.email, r.user);
    var free := FreeId(cfg.backend, t, Tried(r.candidates), r.email);
    FreeIdIsFree(cfg.backend, t, Tried(r.candidates), r.email);
    if free.Some? {
      WriteEffect(cfg.codec, w.files, w.accepted, free.value, r.data, r.outcomes);
    }
  }

  lemma DeleteKeepsOtherFiles(cfg: Config, w: World, r: Request, id: string)
    requires FilesInv(cfg.codec, w.accepted, w.files) && r.Delete? && id in w.tables.images
    requires Visible(AfterDelete(cfg, w, r).world.files, id) != Visible(w.files, id)
    ensures r.id == id && r.who == w.tables.images[id].owner
  {
    DeleteEffect(cfg.codec, w.files, w.accepted, r.id, r.outcomes);
  }

  lemma AnnotateKeepsOtherFiles(cfg: Config, w: World, r: Request, id: string)
    requires FilesInv(cfg.codec, w.accepted, w.files) && r.Annotate? && id in w.tables.images
    requires Visible(AfterAnnotate(cfg, w, r).world.files, id) != Visible(w.files, id)
    ensures r.id == id && r.who == w.tables.images[id].owner
  {
    if r.received.Some? {
      WriteEffect(cfg.codec, w.files, w.accepted, r.id, r.received.value, r.outcomes);
    }
  }

  /** The files of a row change only for its owner, or with the row. */
  lemma FilesChangeForOwner(cfg: Config, w: World, r: Request, id: string)
    requires WorldInv(cfg, w) && id in w.tables.images && !IsAdminRequest(r)
    requires Visible(Serve(cfg, w, r).world.files, id) != Visible(w.files, id)
    ensures (r.Delete? || r.Annotate?) && r.id == id && r.who == w.tables.images[id].owner
  {
    match r {
      case Upload(_, _, _, _, _, _, _) => UploadKeepsFiles(cfg, w, r, id);
      case Delete(_, _, _) => DeleteKeepsOtherFiles(cfg, w, r, id);
      case Annotate(_, _, _, _) => AnnotateKeepsOtherFiles(cfg, w, r, id);
      case _ =>
    }
  }

  lemma InsertThenDelete(t: Tables, id: string, row: ImageRow)
    requires id !in t.images
    ensures WithoutRow(WithRow(t, id, row), id) == t
  {
  }

  /** An upload that does not succeed leaves the rows as they were. */
  lemma FailedUploadAddsNothing(cfg: Config, w: World, r: Request)
    requires r.Upload? && AfterUpload(cfg, w, r).status != 200
    ensures AfterUpload(cfg, w, r).world.tables.images == w.tables.images
  {
    var t := Upserted(w.tables, r.email, r.user);
    var free := FreeId(cfg.backend, t, Tried(r.candidates), r.email);
    FreeIdIsFree(cfg.backend, t, Tried(r.candidates), r.email);
    if free.Some? {
      InsertThenDelete(t, free.value, ImageRow(r.email, None, r.sourceUrl, free.value + ".png", r.ratio));
    }
  }

  /** id names a new row of the caller, which shows exactly what was sent. */
  predicate IsUploaded(cfg: Config, w: World, r: Request, v: World, id: string)
    requires r.Upload?
  {
    && id in Tried(r.candidates) && id !in w.tables.images
    && v.tables.images.Keys == w.tables.images.Keys + {id}
    && v.tables.images[id].owner == r.email
    && Visible(v.files, id) == Pair(Some(r.data), cfg.codec(r.data))
  }

  /** One that succeeds adds one such row. */
  lemma UploadAddsItsImage(cfg: Config, w: World, r: Request)
    requires WorldInv(cfg, w) && r.Upload? && AfterUpload(cfg, w, r).status == 200
    ensures exists id :: IsUploaded(cfg, w, r, AfterUpload(cfg, w, r).world, id)
  {
    var t := Upserted(w.tables, r.email, r.user);
    var id := FreeId(cfg.backend, t, Tried(r.candidates), r.email).value;
    FreeIdIsFree(cfg.backend, t, Tried(r.candidates), r.email);
    WriteEffect(cfg.codec, w.files, w.accepted, id, r.data, r.outcomes);
    assert IsUploaded(cfg, w, r, AfterUpload(cfg, w, r).world, id);
  }
}
