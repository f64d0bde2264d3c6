/** The handlers themselves, over the database and the store, each proved to take the step ServerModel describes. */
module Server {
  import opened Options
  import opened Png
  import opened StorageModel
  import Storage
  import opened DatabaseModel
  import Database
  import opened ServerModel

  class Handlers {
    const db: Database.DB
    const storage: Storage.Store
    ghost var accepted: set<(string, Bytes)>

    ghost function View(): World
      reads this, db, storage
    {
      World(db.View(), storage.files, accepted)
    }

    ghost function Cfg(): Config {
      Config(db.backend, storage.codec)
    }

    ghost predicate Valid()
      reads this, storage
    {
      storage.Valid()
    }

    constructor (backend: Backend, codec: Codec, places: nat)
      requires places > 0
      ensures Valid() && View() == EMPTY && Cfg() == Config(backend, codec)
      ensures fresh(db) && fresh(storage)
    {
      db := new Database.DB(backend);
      storage := new Storage.Store(codec, places, map[]);
      accepted := {};
    }

    /** The retry loop of Upload: the id inserted, if any of the first three candidates could be. */
    method InsertWithRetry(candidates: seq<string>, row: ImageRow) returns (id: Option<string>)
      modifies db`images
      ensures id == FreeId(db.backend, old(db.View()), Tried(candidates), row.owner)
      ensures db.View() == if id.Some? then WithRow(old(db.View()), id.value, row.(filePath := id.value + ".png"))
                           else old(db.View())
    {
      var i := 0;
      while i < MAX_ID_RETRIES && i < |candidates|
        invariant 0 <= i <= |Tried(candidates)|
        invariant db.View() == old(db.View())
        invariant FreeId(db.backend, old(db.View()), Tried(candidates), row.owner)
               == FreeId(db.backend, old(db.View()), Tried(candidates)[i..], row.owner)
      {
        assert Tried(candidates)[i..][1..] == Tried(candidates)[i + 1..];
        var r := db.InsertImage(candidates[i], row.(filePath := candidates[i] + ".png"));
        if r == Inserted {
          return Some(candidates[i]);
        }
        if r == OtherError {
          return None;
        }
        i := i + 1;
      }
      return None;
    }

    method Upload(r: Request) returns (status: int)
      requires Valid() && r.Upload?
      modifies this, db, storage
      ensures Valid() && Reply(View(), status) == AfterUpload(Cfg(), old(View()), r)
    {
      if Validate(r.data) != Png.Valid {
        return 400;
      }
      db.UpsertUser(r.email, r.user.displayName, r.user.avatarUrl);
      var id := InsertWithRetry(r.candidates, ImageRow(r.email, None, r.sourceUrl, "", r.ratio));
      if id.None? {
        return 500;
      }
      if ImagePath(id.value) !in storage.files {
        accepted := accepted + {(id.value, r.data)};
      }
      var error := storage.SaveNew(id.value, r.data, r.outcomes);
      if error != Storage.NoError {
        var _ := db.DeleteImage(id.value, r.email);
        return 500;
      }
      return 200;
    }

    method Delete(r: Request) returns (status: int)
      requires Valid() && r.Delete?
      modifies this, db, storage
      ensures Valid() && Reply(View(), status) == AfterDelete(Cfg(), old(View()), r)
    {
      var img := db.GetImage(r.id);
      if img.None? {
        return 404;
      }
      if img.value.owner != r.who {
        return 403;
      }
      var deleted := db.DeleteImage(r.id, r.who);
      if !deleted {
        return 404;
      }
      var _ := storage.Delete(r.id, r.outcomes);
      return 200;
    }

    method Annotate(r: Request) returns (status: int)
      requires Valid() && r.Annotate?
      modifies this, storage
      ensures Valid() && Reply(View(), status) == AfterAnnotate(Cfg(), old(View()), r)
    {
      var img := db.GetImage(r.id);
      if img.None? {
        return 404;
      }
      if img.value.owner != r.who {
        return 403;
      }
      if r.received.Some? && Validate(r.received.value) == Png.Valid {
        accepted := accepted + {(r.id, r.received.value)};
      }
      var error := storage.Save(r.id, r.received, r.outcomes);
      if error == Storage.BadPng || error == Storage.ImageTooLarge {
        return 400;
      }
      return if error == Storage.NoError then 200 else 500;
    }

    /** `ids` are the images of the user, in the order the database lists them. */
    method AdminDeleteUser(email: string, removals: seq<seq<Outcome>>) returns (status: int, ids: seq<string>)
      requires Valid()
      modifies this, db, storage
      ensures Valid() && CanHappen(old(View()), ServerModel.AdminDeleteUser(email, ids, removals))
      ensures Reply(View(), status) == Serve(Cfg(), old(View()), ServerModel.AdminDeleteUser(email, ids, removals))
    {
      ids := db.ListImageIDsByOwner(email);
      var deleted := db.DeleteUser(email);
      if !deleted {
        return 404, ids;
      }
      var i := 0;
      while i < |ids|
        invariant 0 <= i <= |ids| && Valid()
        invariant storage.files == RemovedAll(Cfg(), old(storage.files), ids, removals, i)
        invariant db.View() == WithoutUser(old(db.View()), email) && accepted == old(accepted)
      {
        var _ := storage.Delete(ids[i], RemovalAt(removals, i));
        i := i + 1;
      }
      return 200, ids;
    }

    method AdminDeleteImage(id: string, outcomes: seq<Outcome>) returns (status: int)
      requires Valid()
      modifies this, db, storage
      ensures Valid()
      ensures Reply(View(), status) == Serve(Cfg(), old(View()), ServerModel.AdminDeleteImage(id, outcomes))
    {
      var deleted := db.AdminDeleteImage(id);
      if !deleted {
        return 404;
      }
      var _ := storage.Delete(id, outcomes);
      return 200;
    }

    method AdminReassignImage(id: string, to: string) returns (status: int)
      requires Valid()
      modifies db
      ensures Valid()
      ensures Reply(View(), status) == Serve(Cfg(), old(View()), ServerModel.AdminReassignImage(id, to))
    {
      if to == "" {
        return 400;
      }
      var target := db.GetUser(to);
      if target.None? {
        return 422;
      }
      var found := db.ReassignImage(id, to);
      if found.None? {
        return 500;
      }
      return if found.value then 200 else 404;
    }

    /** `moved` is the number in the response. */
    method AdminReassignAll(email: string, to: string) returns (status: int, moved: nat)
      requires Valid()
      modifies db
      ensures Valid()
      ensures Reply(View(), status) == Serve(Cfg(), old(View()), ServerModel.AdminReassignAll(email, to))
      ensures status == 200 ==> moved == ImageCount(old(View()).tables, email)
    {
      moved := 0;
      if to == "" {
        status := 400;
        return;
      }
      var target := db.GetUser(to);
      if target.None? {
        status := 422;
        return;
      }
      var n := db.ReassignAllImages(email, to);
      if n.None? {
        status := 500;
        return;
      }
      status, moved := 200, n.value;
    }
  }
}
