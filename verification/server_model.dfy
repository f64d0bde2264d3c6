/**
 The handlers that change rows and files, each taken as one step: database
 calls succeed, storage calls end as `outcomes` says.
 */
module ServerModel {
  import opened Options
  import opened Png
  import opened StorageModel
  import opened DatabaseModel

  /** `accepted` records what was ever sent for each id, to state completeness with. */
  datatype World = World(tables: Tables, files: Files, accepted: set<(string, Bytes)>)

  datatype Config = Config(backend: Backend, codec: Codec)

  const MAX_ID_RETRIES := 3

  /**
   `candidates` are the ids generated, fewer than three if the generator fails;
   `sourceUrl` and `ratio` are what is made of the form's fields.
   */
  datatype Request =
    | Upload(email: string, user: User, data: Bytes, sourceUrl: Option<string>, ratio: real,
             candidates: seq<string>, outcomes: seq<Outcome>)
    | Delete(who: string, id: string, outcomes: seq<Outcome>)
    | Annotate(who: string, id: string, received: Option<Bytes>, outcomes: seq<Outcome>)
    | SignIn(email: string, user: User)
    | AdminDeleteUser(email: string, ids: seq<string>, removals: seq<seq<Outcome>>)
    | AdminDeleteImage(id: string, outcomes: seq<Outcome>)
    | AdminReassignImage(id: string, to: string)
    | AdminReassignAll(email: string, to: string)

  datatype Reply = Reply(world: World, status: int)

  predicate IsAdminRequest(r: Request) {
    r.AdminDeleteUser? || r.AdminDeleteImage? || r.AdminReassignImage? || r.AdminReassignAll?
  }

  /** The first candidate that can be inserted, trying again only on a duplicate. */
  function FreeId(backend: Backend, t: Tables, candidates: seq<string>, owner: string): Option<string> {
    if candidates == [] then None
    else match InsertOutcome(backend, t, candidates[0], owner)
         case Inserted => Some(candidates[0])
         case DuplicateId => FreeId(backend, t, candidates[1..], owner)
         case OtherError => None
  }

  /** The ids tried: at most three. */
  function Tried(candidates: seq<string>): seq<string> {
    if |candidates| > MAX_ID_RETRIES then candidates[..MAX_ID_RETRIES] else candidates
  }

  function AfterUpload(cfg: Config, w: World, r: Request): Reply
    requires r.Upload?
  {
    if Validate(r.data) != Valid then Reply(w, 400)
    else
      var t := Upserted(w.tables, r.email, r.user);
      var free := FreeId(cfg.backend, t, Tried(r.candidates), r.email);
      if free.None? then Reply(w.(tables := t), 500)
      else
        var id := free.value;
        var inserted := WithRow(t, id, ImageRow(r.email, None, r.sourceUrl, id + ".png", r.ratio));
        if ImagePath(id) in w.files then Reply(w.(tables := WithoutRow(inserted, id)), 500)
        else
          var run := RunOp(cfg.codec, w.files, Waiting(id, r.data), r.outcomes);
          Reply(World(if run.op.ok then inserted else WithoutRow(inserted, id), run.files,
                      w.accepted + {(id, r.data)}),
                if run.op.ok then 200 else 500)
  }

  /** The row goes first, then the files; a file that cannot be removed is only logged. */
  function AfterRemoval(cfg: Config, w: World, id: string, outcomes: seq<Outcome>): World {
    w.(tables := WithoutRow(w.tables, id), files := RunOp(cfg.codec, w.files, RemovingImage(id), outcomes).files)
  }

  function AfterDelete(cfg: Config, w: World, r: Request): Reply
    requires r.Delete?
  {
    if r.id !in w.tables.images then Reply(w, 404)
    else if w.tables.images[r.id].owner != r.who then Reply(w, 403)
    else Reply(AfterRemoval(cfg, w, r.id, r.outcomes), 200)
  }

  function AfterAnnotate(cfg: Config, w: World, r: Request): Reply
    requires r.Annotate?
  {
    if r.id !in w.tables.images then Reply(w, 404)
    else if w.tables.images[r.id].owner != r.who then Reply(w, 403)
    else if r.received.None? then Reply(w, 500)
    else if Validate(r.received.value) != Valid then Reply(w, 400)
    else
      var run := RunOp(cfg.codec, w.files, Waiting(r.id, r.received.value), r.outcomes);
      Reply(w.(files := run.files, accepted := w.accepted + {(r.id, r.received.value)}),
            if run.op.ok then 200 else 500)
  }

  function RemovalAt(removals: seq<seq<Outcome>>, i: nat): seq<Outcome> {
    if i < |removals| then removals[i] else []
  }

  /** The loop over the images of a deleted user: the files of the first n ids. */
  function RemovedAll(cfg: Config, files: Files, ids: seq<string>, removals: seq<seq<Outcome>>, n: nat): Files
    requires n <= |ids|
  {
    if n == 0 then files
    else RunOp(cfg.codec, RemovedAll(cfg, files, ids, removals, n - 1), RemovingImage(ids[n - 1]),
               RemovalAt(removals, n - 1)).files
  }

  function AfterAdminDeleteUser(cfg: Config, w: World, r: Request): Reply
    requires r.AdminDeleteUser?
  {
    if r.email !in w.tables.users then Reply(w, 404)
    else Reply(w.(tables := WithoutUser(w.tables, r.email),
                  files := RemovedAll(cfg, w.files, r.ids, r.removals, |r.ids|)), 200)
  }

  function AfterAdminReassignImage(w: World, r: Request): Reply
    requires r.AdminReassignImage?
  {
    if r.to == "" then Reply(w, 400)
    else if r.to !in w.tables.users then Reply(w, 422)
    else if r.id !in w.tables.images then Reply(w, 404)
    else Reply(w.(tables := WithOwner(w.tables, r.id, r.to)), 200)
  }

  function AfterAdminReassignAll(w: World, r: Request): Reply
    requires r.AdminReassignAll?
  {
    if r.to == "" then Reply(w, 400)
    else if r.to !in w.tables.users then Reply(w, 422)
    else Reply(w.(tables := WithAllMoved(w.tables, r.email, r.to)), 200)
  }

  /** The ids AdminDeleteUser works on are those the database listed, in some order. */
  ghost predicate CanHappen(w: World, r: Request) {
    r.AdminDeleteUser? ==>
      && (forall id :: id in r.ids <==> id in OwnedBy(w.tables, r.email))
      && (forall i, j :: 0 <= i < j < |r.ids| ==> r.ids[i] != r.ids[j])
  }

  function Serve(cfg: Config, w: World, r: Request): Reply {
    match r
    case Upload(_, _, _, _, _, _, _) => AfterUpload(cfg, w, r)
    case Delete(_, _, _) => AfterDelete(cfg, w, r)
    case Annotate(_, _, _, _) => AfterAnnotate(cfg, w, r)
    case SignIn(email, user) => Reply(w.(tables := Upserted(w.tables, email, user)), 200)
    case AdminDeleteUser(_, _, _) => AfterAdminDeleteUser(cfg, w, r)
    case AdminDeleteImage(id, outcomes) =>
      if id !in w.tables.images then Reply(w, 404) else Reply(AfterRemoval(cfg, w, id, outcomes), 200)
    case AdminReassignImage(_, _) => AfterAdminReassignImage(w, r)
    case AdminReassignAll(_, _) => AfterAdminReassignAll(w, r)
  }

  ghost predicate Reaches(cfg: Config, w: World, requests: seq<Request>, v: World)
    decreases |requests|
  {
    if requests == [] then v == w
    else CanHappen(w, requests[0]) && Reaches(cfg, Serve(cfg, w, requests[0]).world, requests[1..], v)
  }

  const EMPTY := World(Tables(map[], map[]), map[], {})
}
