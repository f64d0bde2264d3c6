/** The typed query methods, each one statement on the tables. */
module Database {
  import opened Options
  import opened DatabaseModel

  class DB {
    const backend: Backend
    var users: map<string, User>
    var images: map<string, ImageRow>

    ghost function View(): Tables
      reads this
    {
      Tables(users, images)
    }

    constructor (backend: Backend)
      ensures View() == Tables(map[], map[]) && this.backend == backend
    {
      this.backend := backend;
      users, images := map[], map[];
    }

    method UpsertUser(email: string, displayName: string, avatarUrl: string)
      modifies `users
      ensures View() == Upserted(old(View()), email, User(displayName, avatarUrl))
    {
      users := users[email := User(displayName, avatarUrl)];
    }

    method GetUser(email: string) returns (u: Option<User>)
      ensures u.Some? <==> email in users
      ensures u.Some? ==> u.value == users[email]
    {
      return if email in users then Some(users[email]) else None;
    }

    method InsertImage(id: string, row: ImageRow) returns (r: InsertResult)
      modifies `images
      ensures r == InsertOutcome(backend, old(View()), id, row.owner)
      ensures View() == if r == Inserted then WithRow(old(View()), id, row) else old(View())
    {
      var img := row.(title := None);
      if img.pixelRatio <= 0.0 {
        img := img.(pixelRatio := 1.0);
      }
      if id in images {
        return DuplicateId;
      }
      if img.owner !in users {
        return if backend == Sqlite then DuplicateId else OtherError;
      }
      images := images[id := img];
      return Inserted;
    }

    method GetImage(id: string) returns (img: Option<ImageRow>)
      ensures img.Some? <==> id in images
      ensures img.Some? ==> img.value == images[id]
    {
      return if id in images then Some(images[id]) else None;
    }

    method DeleteImage(id: string, owner: string) returns (found: bool)
      modifies `images
      ensures found <==> id in old(images) && old(images)[id].owner == owner
      ensures View() == if found then WithoutRow(old(View()), id) else old(View())
    {
      found := id in images && images[id].owner == owner;
      if found {
        images := images - {id};
      }
    }

    method AdminDeleteImage(id: string) returns (found: bool)
      modifies `images
      ensures found == (id in old(images))
      ensures View() == if found then WithoutRow(old(View()), id) else old(View())
    {
      found := id in images;
      images := images - {id};
      assert !found ==> images == old(images);
    }

    /** None when the foreign key forbids it: there is such an image but no such user. */
    method ReassignImage(id: string, to: string) returns (found: Option<bool>)
      modifies `images
      ensures found == if id in old(images) && to !in users then None else Some(id in old(images))
      ensures View() == if found == Some(true) then WithOwner(old(View()), id, to) else old(View())
    {
      if id !in images {
        return Some(false);
      }
      if to !in users {
        return None;
      }
      images := images[id := images[id].(owner := to)];
      return Some(true);
    }

    /** The number of rows moved, or None when there are some and no such user. */
    method ReassignAllImages(from: string, to: string) returns (moved: Option<nat>)
      modifies `images
      ensures moved == if ImageCount(old(View()), from) > 0 && to !in users then None
                       else Some(ImageCount(old(View()), from))
      ensures View() == if moved.Some? then WithAllMoved(old(View()), from, to) else old(View())
    {
      var n := |set id | id in images && images[id].owner == from|;
      if n > 0 && to !in users {
        return None;
      }
      images := map id | id in images :: if images[id].owner == from then images[id].(owner := to) else images[id];
      return Some(n);
    }

    /** In whatever order the rows come. */
    method ListImageIDsByOwner(email: string) returns (ids: seq<string>)
      ensures forall id :: id in ids <==> id in OwnedBy(View(), email)
      ensures forall i, j :: 0 <= i < j < |ids| ==> ids[i] != ids[j]
    {
      ids := [];
      var rows := images.Keys;
      while rows != {}
        invariant rows <= images.Keys
        invariant forall id :: id in ids <==> id in OwnedBy(View(), email) && id !in rows
        invariant forall i, j :: 0 <= i < j < |ids| ==> ids[i] != ids[j]
        decreases rows
      {
        var id :| id in rows;
        rows := rows - {id};
        if images[id].owner == email {
          ids := ids + [id];
        }
      }
    }

    method DeleteUser(email: string) returns (found: bool)
      modifies `users, `images
      ensures found == (email in old(users))
      ensures View() == if found then WithoutUser(old(View()), email) else old(View())
    {
      found := email in users;
      if found {
        users := users - {email};
        images := images - set id | id in images && images[id].owner == email;
      }
    }
  }
}
