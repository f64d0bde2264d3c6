/** What a reply of each handler says: exactly when it is given, and what has been done by then. */
module ServerOutcomes {
  import opened Options
  import opened Png
  import opened StorageModel
  import opened StorageRuns
  import opened StorageSolo
  import opened DatabaseModel
  import opened ServerModel
  import opened ServerInvariants

  predicate IsOwner(w: World, id: string, who: string) {
    id in w.tables.images && w.tables.images[id].owner == who
  }

  /** Everything that is served for other ids is as before. */
  ghost predicate OthersKeepFiles(before: Files, after: Files, id: string) {
    forall other :: other != id ==> Visible(after, other) == Visible(before, other)
  }

  /** All rows but that of id are as before, and so are the users. */
  ghost predicate OthersKeepRows(before: Tables, after: Tables, id: string) {
    && after.users == before.users
    && (forall other :: other != id ==>
          (other in after.images <==> other in before.images) &&
          (other in before.images ==> after.images[other] == before.images[other]))
  }

  // ---- One call of the store ----

  /** What a write leaves, whatever is on disk. */
  lemma WriteOutcome(codec: Codec, files: Files, id: string, data: Bytes, outcomes: seq<Outcome>)
    ensures var run := RunOp(codec, files, Waiting(id, data), outcomes);
            && (run.op.ok ==> codec(data).Some? && Visible(run.files, id) == Pair(Some(data), codec(data)))
            && (!run.op.ok ==>
                  if OnlyThumbRenameFails(codec, files, id, data, outcomes)
                  then Visible(run.files, id) == Pair(Some(data), Visible(files, id).thumb)
                  else Visible(run.files, id) == Visible(files, id))
            && OthersKeepFiles(files, run.files, id)
  {
    RunWrite(codec, files, Waiting(id, data), outcomes, id, data, Visible(files, id));
    SecondRenameFailsIff(codec, files, outcomes, id, data);
    WriteEnds(codec, files, Waiting(id, data), outcomes, id, data, Visible(files, id));
    forall other | other != id
      ensures Visible(RunOp(codec, files, Waiting(id, data), outcomes).files, other) == Visible(files, other)
    {
      RunKeepsOthers(codec, files, Waiting(id, data), outcomes, other);
    }
  }

  /** What a delete leaves. */
  lemma DeleteOutcome(codec: Codec, files: Files, id: string, outcomes: seq<Outcome>)
    ensures var run := RunOp(codec, files, RemovingImage(id), outcomes);
            && Visible(run.files, id) in {Visible(files, id), Pair(None, Visible(files, id).thumb), Pair(None, None)}
            && (Smooth(codec, files, RemovingImage(id), outcomes) ==> Visible(run.files, id) == Pair(None, None))
            && OthersKeepFiles(files, run.files, id)
  {
    RunDelete(codec, files, outcomes, id);
    if Smooth(codec, files, RemovingImage(id), outcomes) {
      SmoothRun(codec, files, RemovingImage(id), outcomes);
    }
    forall other | other != id
      ensures Visible(RunOp(codec, files, RemovingImage(id), outcomes).files, other) == Visible(files, other)
    {
      RunKeepsOthers(codec, files, RemovingImage(id), outcomes, other);
    }
  }

  // ---- Annotate ----

  /** Exactly when each reply is given; when nothing fails, 200 for valid data of the owner's that decodes. */
  lemma AnnotateReplies(cfg: Config, w: World, r: Request)
    requires r.Annotate?
    ensures var status, owns := Serve(cfg, w, r).status, IsOwner(w, r.id, r.who);
            && (status == 404 <==> r.id !in w.tables.images)
            && (status == 403 <==> r.id in w.tables.images && !owns)
            && (status == 400 <==> owns && r.received.Some? && Validate(r.received.value) != Valid)
            && status in {200, 400, 403, 404, 500}
            && (owns && r.received.None? ==> status == 500)
            && (owns && r.received.Some? && Validate(r.received.value) == Valid && IsSmooth(cfg, w, r) ==>
                  (status == 200 <==> cfg.codec(r.received.value).Some?))
  {
    if r.received.Some? && IsSmooth(cfg, w, r) {
      SmoothRun(cfg.codec, w.files, Waiting(r.id, r.received.value), r.outcomes);
    }
  }

  /**
   And what has been done: with 200 the owner's image shows what was sent; else
   nothing, unless it was the thumbnail's rename that failed.
   */
  lemma AnnotateDoes(cfg: Config, w: World, r: Request)
    requires r.Annotate?
    ensures var reply, was := Serve(cfg, w, r), Visible(w.files, r.id);
            var now := Visible(reply.world.files, r.id);
            && reply.world.tables == w.tables && OthersKeepFiles(w.files, reply.world.files, r.id)
            && (reply.status == 200 ==>
                  && IsOwner(w, r.id, r.who) && r.received.Some?
                  && cfg.codec(r.received.value).Some?
                  && now == Pair(r.received, cfg.codec(r.received.value)))
            && (reply.status != 200 && reply.status != 500 ==> reply.world == w)
            && (reply.status == 500 ==>
                  if r.received.Some? && OnlyThumbRenameFails(cfg.codec, w.files, r.id, r.received.value, r.outcomes)
                  then now == Pair(r.received, was.thumb)
                  else now == was)
  {
    if r.received.Some? {
      WriteOutcome(cfg.codec, w.files, r.id, r.received.value, r.outcomes);
    }
  }

  // ---- Delete ----

  /** The row and the files of one id are gone; a file may stay only if its removal failed. */
  ghost predicate IsRemoved(cfg: Config, w: World, v: World, id: string, outcomes: seq<Outcome>) {
    && id !in v.tables.images && OthersKeepRows(w.tables, v.tables, id) && OthersKeepFiles(w.files, v.files, id)
    && Visible(v.files, id) in {Visible(w.files, id), Pair(None, Visible(w.files, id).thumb), Pair(None, None)}
    && (Smooth(cfg.codec, w.files, RemovingImage(id), outcomes) ==> Visible(v.files, id) == Pair(None, None))
  }

  lemma RemovalRemoves(cfg: Config, w: World, id: string, outcomes: seq<Outcome>)
    ensures IsRemoved(cfg, w, AfterRemoval(cfg, w, id, outcomes), id, outcomes)
  {
    DeleteOutcome(cfg.codec, w.files, id, outcomes);
  }

  /** 200 if and only if the row is the caller's, and then it is removed; with 404 and 403 nothing happens. */
  lemma DeleteDoes(cfg: Config, w: World, r: Request)
    requires r.Delete?
    ensures var reply := Serve(cfg, w, r);
            && (reply.status == 200 <==> IsOwner(w, r.id, r.who))
            && (reply.status == 404 <==> r.id !in w.tables.images)
            && (reply.status == 403 <==> r.id in w.tables.images && !IsOwner(w, r.id, r.who))
            && (reply.status == 200 ==> IsRemoved(cfg, w, reply.world, r.id, r.outcomes))
            && (reply.status != 200 ==> reply.status in {403, 404} && reply.world == w)
  {
    RemovalRemoves(cfg, w, r.id, r.outcomes);
  }

  /** The same for an admin, whoever owns the row. */
  lemma AdminDeleteImageDoes(cfg: Config, w: World, r: Request)
    requires r.AdminDeleteImage?
    ensures var reply := Serve(cfg, w, r);
            && (reply.status == 200 <==> r.id in w.tables.images)
            && (reply.status == 200 ==> IsRemoved(cfg, w, reply.world, r.id, r.outcomes))
            && (reply.status != 200 ==> reply.status == 404 && reply.world == w)
  {
    RemovalRemoves(cfg, w, r.id, r.outcomes);
  }

  lemma {:induction false} RemovedAllOutcome(
    cfg: Config, files: Files, ids: seq<string>, removals: seq<seq<Outcome>>, n: nat, id: string)
    requires n <= |ids|
    ensures id !in ids[..n] ==> Visible(RemovedAll(cfg, files, ids, removals, n), id) == Visible(files, id)
    ensures SmoothRemovals(cfg, files, ids, removals, n) && id in ids[..n] ==>
              Visible(RemovedAll(cfg, files, ids, removals, n), id) == Pair(None, None)
    decreases n
  {
    if n == 0 {
    } else {
      RemovedAllOutcome(cfg, files, ids, removals, n - 1, id);
      assert ids[..n] == ids[..n - 1] + [ids[n - 1]];
      DeleteOutcome(cfg.codec, RemovedAll(cfg, files, ids, removals, n - 1), ids[n - 1], RemovalAt(removals, n - 1));
    }
  }

  /** 200 if and only if there is such a user, who is then gone with all images; no one else's rows or files change. */
  lemma AdminDeleteUserDoes(cfg: Config, w: World, r: Request)
    requires r.AdminDeleteUser? && CanHappen(w, r) && ForeignKeys(w.tables)
    ensures var reply := Serve(cfg, w, r);
            && (reply.status == 200 <==> r.email in w.tables.users)
            && (reply.status != 200 ==> reply.status == 404 && reply.world == w)
            && (reply.status == 200 ==>
                  && r.email !in reply.world.tables.users
                  && (forall e :: e in w.tables.users && e != r.email ==>
                        e in reply.world.tables.users && reply.world.tables.users[e] == w.tables.users[e])
                  && reply.world.tables.images.Keys == w.tables.images.Keys - OwnedBy(w.tables, r.email)
                  && (forall id :: id in reply.world.tables.images ==>
                        reply.world.tables.images[id] == w.tables.images[id])
                  && (forall id :: !IsOwner(w, id, r.email) ==>
                        Visible(reply.world.files, id) == Visible(w.files, id))
                  && (IsSmooth(cfg, w, r) ==>
                        forall id :: IsOwner(w, id, r.email) ==> Visible(reply.world.files, id) == Pair(None, None)))
  {
    assert r.ids[..|r.ids|] == r.ids;
    forall id
      ensures id !in r.ids ==>
                Visible(RemovedAll(cfg, w.files, r.ids, r.removals, |r.ids|), id) == Visible(w.files, id)
      ensures SmoothRemovals(cfg, w.files, r.ids, r.removals, |r.ids|) && id in r.ids ==>
                Visible(RemovedAll(cfg, w.files, r.ids, r.removals, |r.ids|), id) == Pair(None, None)
    {
      RemovedAllOutcome(cfg, w.files, r.ids, r.removals, |r.ids|, id);
    }
    assert forall id :: id in r.ids <==> IsOwner(w, id, r.email);
  }

  // ---- Reassigning ----

  /** 200 if and only if image and named user exist; then the row has that owner and nothing else differs. */
  lemma AdminReassignImageDoes(cfg: Config, w: World, r: Request)
    requires r.AdminReassignImage?
    ensures var reply := Serve(cfg, w, r);
            && (reply.status == 400 <==> r.to == "")
            && (reply.status == 422 <==> r.to != "" && r.to !in w.tables.users)
            && (reply.status == 404 <==> r.to != "" && r.to in w.tables.users && r.id !in w.tables.images)
            && (reply.status == 200 <==> r.to != "" && r.to in w.tables.users && r.id in w.tables.images)
            && reply.world.files == w.files
            && (reply.status != 200 ==> reply.world == w)
            && (reply.status == 200 ==>
                  && OthersKeepRows(w.tables, reply.world.tables, r.id) && IsOwner(reply.world, r.id, r.to)
                  && SameButOwner(reply.world.tables.images[r.id], w.tables.images[r.id]))
  {
  }

  /** 200 if and only if the named user exists; then the one user's rows are the other's, and nothing else differs. */
  lemma AdminReassignAllDoes(cfg: Config, w: World, r: Request)
    requires r.AdminReassignAll?
    ensures var reply := Serve(cfg, w, r);
            && (reply.status == 400 <==> r.to == "")
            && (reply.status == 422 <==> r.to != "" && r.to !in w.tables.users)
            && (reply.status == 200 <==> r.to != "" && r.to in w.tables.users)
            && reply.world.files == w.files && reply.world.tables.users == w.tables.users
            && reply.world.tables.images.Keys == w.tables.images.Keys
            && (reply.status != 200 ==> reply.world == w)
            && (reply.status == 200 ==>
                  forall id :: id in w.tables.images ==>
                    if w.tables.images[id].owner == r.email then
                      IsOwner(reply.world, id, r.to) &&
                      SameButOwner(reply.world.tables.images[id], w.tables.images[id])
                    else reply.world.tables.images[id] == w.tables.images[id])
  {
  }

  // ---- Upload ----

  /** The first of the ids tried that no row has. */
  predicate IsFirstFree(t: Tables, candidates: seq<string>, id: string) {
    exists i :: 0 <= i < |candidates| && candidates[i] == id && id !in t.images
                && forall j :: 0 <= j < i ==> candidates[j] in t.images
  }

  lemma {:induction false} FreeIdIsFirst(backend: Backend, t: Tables, candidates: seq<string>, owner: string)
    requires owner in t.users
    ensures var free := FreeId(backend, t, candidates, owner);
            if free.Some? then IsFirstFree(t, candidates, free.value)
            else forall i :: 0 <= i < |candidates| ==> candidates[i] in t.images
    decreases |candidates|
  {
    if candidates == [] {
    } else if candidates[0] in t.images {
      FreeIdIsFirst(backend, t, candidates[1..], owner);
      var free := FreeId(backend, t, candidates[1..], owner);
      if free.Some? {
        var i :| 0 <= i < |candidates[1..]| && candidates[1..][i] == free.value && free.value !in t.images
                 && forall j :: 0 <= j < i ==> candidates[1..][j] in t.images;
        assert forall j :: 0 <= j < i + 1 ==> j == 0 || candidates[j] == candidates[1..][j - 1];
        assert candidates[i + 1] == free.value;
      } else {
        assert forall j :: 0 < j < |candidates| ==> candidates[j] == candidates[1..][j - 1];
      }
    } else {
      assert candidates[0] == FreeId(backend, t, candidates, owner).value;
    }
  }

  /** The row and files a successful upload adds. */
  ghost predicate IsAdded(cfg: Config, w: World, r: Request, v: World, id: string)
    requires r.Upload?
  {
    && IsFirstFree(w.tables, Tried(r.candidates), id)
    && v.tables.images.Keys == w.tables.images.Keys + {id}
    && (forall i :: i in w.tables.images ==> v.tables.images[i] == w.tables.images[i])
    && v.tables.images[id]
       == ImageRow(r.email, None, r.sourceUrl, id + ".png", if r.ratio > 0.0 then r.ratio else 1.0)
    && Visible(v.files, id) == Pair(Some(r.data), cfg.codec(r.data)) && cfg.codec(r.data).Some?
    && OthersKeepFiles(w.files, v.files, id)
  }

  lemma UploadFree(cfg: Config, w: World, r: Request) returns (free: Option<string>)
    requires r.Upload?
    ensures free == FreeId(cfg.backend, Upserted(w.tables, r.email, r.user), Tried(r.candidates), r.email)
    ensures if free.Some? then free.value !in w.tables.images && IsFirstFree(w.tables, Tried(r.candidates), free.value)
            else forall i :: 0 <= i < |Tried(r.candidates)| ==> Tried(r.candidates)[i] in w.tables.images
  {
    var t := Upserted(w.tables, r.email, r.user);
    free := FreeId(cfg.backend, t, Tried(r.candidates), r.email);
    FreeIdIsFirst(cfg.backend, t, Tried(r.candidates), r.email);
    FreeIdIsFree(cfg.backend, t, Tried(r.candidates), r.email);
  }

  /**
   400 if and only if the data is not a valid PNG header, and then nothing happens;
   200 only with the image added. When nothing fails and no file is in the way, 200
   if and only if the data is valid and decodes and one of the ids tried is free.
   */
  lemma UploadDoes(cfg: Config, w: World, r: Request)
    requires r.Upload?
    ensures var reply := Serve(cfg, w, r);
            && reply.status in {200, 400, 500}
            && (reply.status == 400 <==> Validate(r.data) != Valid)
            && (reply.status == 400 ==> reply.world == w)
            && (reply.status == 200 ==> exists id :: IsAdded(cfg, w, r, reply.world, id))
            && (reply.status != 400 ==> reply.world.tables.users == w.tables.users[r.email := r.user])
            && (reply.status == 500 ==> reply.world.tables.images == w.tables.images)
  {
    if Validate(r.data) == Valid {
      var free := UploadFree(cfg, w, r);
      if free.Some? {
        var id := free.value;
        WriteOutcome(cfg.codec, w.files, id, r.data, r.outcomes);
        if Serve(cfg, w, r).status == 200 {
          assert IsAdded(cfg, w, r, Serve(cfg, w, r).world, id);
        } else {
          InsertThenDelete(Upserted(w.tables, r.email, r.user), id,
                           ImageRow(r.email, None, r.sourceUrl, id + ".png", r.ratio));
        }
      }
    }
  }

  lemma FirstFreeIsUnique(t: Tables, candidates: seq<string>, a: string, b: string)
    requires IsFirstFree(t, candidates, a) && IsFirstFree(t, candidates, b)
    ensures a == b
  {
    var i :| 0 <= i < |candidates| && candidates[i] == a && a !in t.images
             && forall k :: 0 <= k < i ==> candidates[k] in t.images;
    var j :| 0 <= j < |candidates| && candidates[j] == b && b !in t.images
             && forall k :: 0 <= k < j ==> candidates[k] in t.images;
    assert i >= j || candidates[i] in t.images;
    assert j >= i || candidates[j] in t.images;
  }

  /** An image file without a row is never overwritten: the upload that meets it fails and writes nothing. */
  lemma UploadSparesOrphans(cfg: Config, w: World, r: Request, id: string)
    requires r.Upload? && Validate(r.data) == Valid
    requires IsFirstFree(w.tables, Tried(r.candidates), id) && ImagePath(id) in w.files
    ensures var reply := Serve(cfg, w, r);
            reply.status == 500 && reply.world.files == w.files && reply.world.tables.images == w.tables.images
  {
    var free := UploadFree(cfg, w, r);
    if free.Some? {
      FirstFreeIsUnique(w.tables, Tried(r.candidates), free.value, id);
    }
    UploadDoes(cfg, w, r);
  }

  lemma UploadSucceedsIff(cfg: Config, w: World, r: Request)
    requires r.Upload? && IsSmooth(cfg, w, r)
    requires forall id :: id !in w.tables.images ==> ImagePath(id) !in w.files
    ensures Serve(cfg, w, r).status == 200
       <==> Validate(r.data) == Valid && cfg.codec(r.data).Some?
            && exists i :: 0 <= i < |Tried(r.candidates)| && Tried(r.candidates)[i] !in w.tables.images
  {
    var free := UploadFree(cfg, w, r);
    if free.Some? {
      SmoothRun(cfg.codec, w.files, Waiting(free.value, r.data), r.outcomes);
    }
  }

  /** At most three ids are tried, in order. */
  lemma AtMostThreeTries(candidates: seq<string>)
    ensures |Tried(candidates)| == (if |candidates| < 3 then |candidates| else 3)
    ensures forall i :: 0 <= i < |Tried(candidates)| ==> Tried(candidates)[i] == candidates[i]
  {
  }

  // ---- Signing in ----

  /** Signing in records the user and nothing else. */
  lemma SignInDoes(cfg: Config, w: World, r: Request)
    requires r.SignIn?
    ensures var reply := Serve(cfg, w, r);
            reply.world.tables.users == w.tables.users[r.email := r.user]
            && reply.world.tables.images == w.tables.images && reply.world.files == w.files
  {
  }
}
