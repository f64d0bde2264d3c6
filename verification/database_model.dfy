/** The two tables as maps: users by email, images by id, owner_id a foreign key that cascades. */
module DatabaseModel {
  import opened Options

  datatype User = User(displayName: string, avatarUrl: string)

  datatype ImageRow = ImageRow(owner: string, title: Option<string>, sourceUrl: Option<string>,
                               filePath: string, pixelRatio: real)

  datatype Tables = Tables(users: map<string, User>, images: map<string, ImageRow>)

  datatype Backend = Sqlite | Postgres

  datatype InsertResult = Inserted | DuplicateId | OtherError

  function Upserted(t: Tables, email: string, user: User): Tables {
    t.(users := t.users[email := user])
  }

  /** SQLite reports a missing owner with the same error code as a duplicate key. */
  function InsertOutcome(backend: Backend, t: Tables, id: string, owner: string): InsertResult {
    if id in t.images then DuplicateId
    else if owner in t.users then Inserted
    else if backend == Sqlite then DuplicateId
    else OtherError
  }

  /** The statement names no title, which is NULL in a new row. */
  function WithRow(t: Tables, id: string, row: ImageRow): Tables {
    t.(images := t.images[id := row.(title := None,
                                     pixelRatio := if row.pixelRatio <= 0.0 then 1.0 else row.pixelRatio)])
  }

  function WithoutRow(t: Tables, id: string): Tables {
    t.(images := t.images - {id})
  }

  function OwnedBy(t: Tables, owner: string): set<string> {
    set id | id in t.images && t.images[id].owner == owner
  }

  /** DELETE FROM users, with the cascade. */
  function WithoutUser(t: Tables, email: string): Tables {
    Tables(t.users - {email}, t.images - OwnedBy(t, email))
  }

  function WithOwner(t: Tables, id: string, owner: string): Tables
    requires id in t.images
  {
    t.(images := t.images[id := t.images[id].(owner := owner)])
  }

  function WithAllMoved(t: Tables, from: string, to: string): Tables {
    t.(images := map id | id in t.images ::
         if t.images[id].owner == from then t.images[id].(owner := to) else t.images[id])
  }

  predicate ForeignKeys(t: Tables) {
    forall id :: id in t.images ==> t.images[id].owner in t.users
  }

  // ---- Counts ----

  /** COUNT(i.id) for one user. */
  function ImageCount(t: Tables, email: string): nat {
    |OwnedBy(t, email)|
  }

  /** The total of the image counts of the users listed. */
  function TotalCount(t: Tables, emails: seq<string>): nat {
    if emails == [] then 0 else ImageCount(t, emails[0]) + TotalCount(t, emails[1..])
  }

  function OwnedByAny(t: Tables, emails: seq<string>): set<string> {
    set id | id in t.images && t.images[id].owner in emails
  }

  lemma {:induction false} TotalCountsOwned(t: Tables, emails: seq<string>)
    requires forall i, j :: 0 <= i < j < |emails| ==> emails[i] != emails[j]
    ensures TotalCount(t, emails) == |OwnedByAny(t, emails)|
    decreases |emails|
  {
    if emails == [] {
      assert OwnedByAny(t, emails) == {};
    } else {
      TotalCountsOwned(t, emails[1..]);
      assert OwnedByAny(t, emails) == OwnedBy(t, emails[0]) + OwnedByAny(t, emails[1..]);
      assert OwnedBy(t, emails[0]) !! OwnedByAny(t, emails[1..]);
    }
  }

  /** Listing every user once, the image counts add up to the number of images. */
  lemma CountsAddUp(t: Tables, emails: seq<string>)
    requires ForeignKeys(t)
    requires forall i, j :: 0 <= i < j < |emails| ==> emails[i] != emails[j]
    requires forall e :: e in emails <==> e in t.users
    ensures TotalCount(t, emails) == |t.images|
  {
    TotalCountsOwned(t, emails);
    assert OwnedByAny(t, emails) == t.images.Keys;
  }

  // ---- Rows ----

  /** Two rows that differ in their owner at most. */
  predicate SameButOwner(a: ImageRow, b: ImageRow) {
    a.title == b.title && a.sourceUrl == b.sourceUrl && a.filePath == b.filePath && a.pixelRatio == b.pixelRatio
  }

  /** Signing in or uploading sets the caller's name and picture, and touches no other user and no image. */
  lemma UpsertSets(t: Tables, email: string, displayName: string, avatarUrl: string)
    ensures var u := Upserted(t, email, User(displayName, avatarUrl));
            && u.users.Keys == t.users.Keys + {email}
            && u.users[email].displayName == displayName && u.users[email].avatarUrl == avatarUrl
            && (forall e :: e in t.users && e != email ==> u.users[e] == t.users[e])
            && u.images == t.images
  {
  }

  /** A new row has the columns given and no title; a pixel ratio never set, or not positive, is stored as 1. */
  lemma InsertSets(t: Tables, id: string, row: ImageRow)
    ensures var u := WithRow(t, id, row);
            && u.images.Keys == t.images.Keys + {id} && u.users == t.users
            && u.images[id].owner == row.owner && u.images[id].title == None
            && u.images[id].sourceUrl == row.sourceUrl && u.images[id].filePath == row.filePath
            && u.images[id].pixelRatio > 0.0
            && u.images[id].pixelRatio == (if row.pixelRatio > 0.0 then row.pixelRatio else 1.0)
            && (forall i :: i in t.images && i != id ==> u.images[i] == t.images[i])
  {
  }

  /** Moving one image, or all of a user, changes the owner column of those rows and nothing else. */
  lemma MovingKeepsColumns(t: Tables, id: string, from: string, to: string)
    ensures id in t.images ==>
              var u := WithOwner(t, id, to);
              && u.images[id].owner == to && SameButOwner(u.images[id], t.images[id])
              && (forall i :: i in t.images && i != id ==> u.images[i] == t.images[i])
    ensures var u := WithAllMoved(t, from, to);
            forall i :: i in t.images ==>
              if t.images[i].owner == from then u.images[i].owner == to && SameButOwner(u.images[i], t.images[i])
              else u.images[i] == t.images[i]
  {
  }

  lemma MovingAllOwners(t: Tables, from: string, to: string, e: string)
    requires from != to
    ensures OwnedBy(WithAllMoved(t, from, to), e)
            == if e == from then {} else if e == to then OwnedBy(t, to) + OwnedBy(t, from) else OwnedBy(t, e)
  {
  }

  /** Moving all images of one user to another keeps every id and moves exactly the number reported. */
  lemma MovingAllConserves(t: Tables, from: string, to: string)
    ensures var u := WithAllMoved(t, from, to);
            && u.images.Keys == t.images.Keys && u.users == t.users
            && (from == to ==> u == t)
            && (from != to ==>
                  ImageCount(u, from) == 0 && ImageCount(u, to) == ImageCount(t, to) + ImageCount(t, from))
  {
    var u := WithAllMoved(t, from, to);
    if from == to {
      assert u.images == t.images;
    } else {
      MovingAllOwners(t, from, to, from);
      MovingAllOwners(t, from, to, to);
    }
  }

  /** Moving one image changes two counts by one, and nothing else. */
  lemma MovingOneConserves(t: Tables, id: string, to: string)
    requires id in t.images
    ensures var u, from := WithOwner(t, id, to), t.images[id].owner;
            && u.images.Keys == t.images.Keys && u.users == t.users
            && (from != to ==>
                  && ImageCount(u, from) == ImageCount(t, from) - 1
                  && ImageCount(u, to) == ImageCount(t, to) + 1)
            && (forall e :: e != from && e != to ==> OwnedBy(u, e) == OwnedBy(t, e))
  {
    var u, from := WithOwner(t, id, to), t.images[id].owner;
    if from != to {
      assert OwnedBy(t, from) == OwnedBy(u, from) + {id};
      assert OwnedBy(u, to) == OwnedBy(t, to) + {id};
    }
  }

  /** Deleting a user removes exactly the rows it owned. */
  lemma DeletingUserCascades(t: Tables, email: string)
    requires ForeignKeys(t)
    ensures var u := WithoutUser(t, email);
            && ForeignKeys(u) && email !in u.users && OwnedBy(u, email) == {}
            && (forall e :: e in t.users && e != email ==> e in u.users && u.users[e] == t.users[e])
            && |u.images| == |t.images| - ImageCount(t, email)
            && (forall id :: id in t.images && t.images[id].owner != email ==>
                  id in u.images && u.images[id] == t.images[id])
            && (forall e :: e != email ==> OwnedBy(u, e) == OwnedBy(t, e))
  {
    assert t.images.Keys == WithoutUser(t, email).images.Keys + OwnedBy(t, email);
  }

  /**
   Of the key and the owner, InsertImage reports a duplicate id for a taken id and,
   on SQLite, for an owner that does not exist.
   */
  lemma DuplicateMeans(backend: Backend, t: Tables, id: string, owner: string)
    ensures InsertOutcome(backend, t, id, owner) == DuplicateId
            <==> id in t.images || (backend == Sqlite && owner !in t.users)
    ensures InsertOutcome(backend, t, id, owner) == Inserted <==> id !in t.images && owner in t.users
    ensures InsertOutcome(backend, t, id, owner) == Inserted ==>
              forall row: ImageRow :: row.owner == owner && ForeignKeys(t) ==> ForeignKeys(WithRow(t, id, row))
  {
  }
}
