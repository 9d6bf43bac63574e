/** The collection API (app/api/collections/route.ts): list the signed-in
    user's collections newest first, and create one.

    The session is the signed-in user, if any. The request body is `None`
    when it is not valid JSON. `storeFails` stands for a database error. */
module CollectionsRoute {
  import opened Common
  import opened Schema
  import opened Store
  import opened Sorting

  /** The rows owned by `userId`, in table order. */
  function OwnedBy(table: seq<Collection>, userId: Id): seq<Collection> {
    Filter(table, (c: Collection) => c.userId == userId)
  }

  /** `orderBy: { createdAt: 'desc' }`; rows with the same timestamp stay in table order. */
  function NewestFirst(rows: seq<Collection>): seq<Collection> {
    SortByKey(rows, (c: Collection) => -c.createdAt)
  }

  /** `GET`: 401 without a signed-in user, 500 when the store fails, else the
      caller's collections newest first. */
  method GetCollections(db: Store.Database, session: Option<SessionUser>, storeFails: bool)
    returns (r: Response<seq<Collection>>)
    ensures session.None? ==> r == Failure(401, Unauthorized)
    ensures session.Some? && storeFails ==> r == Failure(500, "Internal Server Error")
    ensures session.Some? && !storeFails ==> r == Ok(200, NewestFirst(OwnedBy(db.collections, session.value.id)))
  {
    if session.None? {
      return Failure(401, Unauthorized);
    }
    if storeFails {
      return Failure(500, "Internal Server Error");
    }
    r := Ok(200, NewestFirst(OwnedBy(db.collections, session.value.id)));
  }

  /** The listing holds each of the caller's collections once and nobody
      else's, ordered from the newest to the oldest. */
  lemma ListingSpec(table: seq<Collection>, userId: Id)
    ensures multiset(NewestFirst(OwnedBy(table, userId))) == multiset(OwnedBy(table, userId))
    ensures forall c :: c in NewestFirst(OwnedBy(table, userId)) <==> c in table && c.userId == userId
    ensures var s := NewestFirst(OwnedBy(table, userId));
      forall i, j :: 0 <= i < j < |s| ==> s[i].createdAt >= s[j].createdAt
  {
    var owned := OwnedBy(table, userId);
    var s := NewestFirst(owned);
    forall c ensures c in s <==> c in table && c.userId == userId {
      assert c in s <==> c in multiset(owned);
      FilterMembership(table, (c: Collection) => c.userId == userId, c);
    }
    SortByKeySorted(owned, (c: Collection) => -c.createdAt);
  }

  datatype CollectionBody = CollectionBody(name: Option<string>, description: Option<string>)

  /** `POST`: 401 without a signed-in user, 400 for a missing or empty name,
      500 for a body that is not JSON or a failed insert; otherwise one new
      collection with the given name and description, owned by the caller. */
  method PostCollection(db: Store.Database, session: Option<SessionUser>, body: Option<CollectionBody>,
                        storeFails: bool, now: int)
    returns (r: Response<Collection>)
    modifies db
    requires db.Valid()
    ensures db.Valid()
    ensures db.users == old(db.users) && db.categories == old(db.categories)
    ensures db.preferences == old(db.preferences) && db.artworks == old(db.artworks)
    ensures session.None? ==> r == Failure(401, Unauthorized)
    ensures session.Some? && body.None? ==> r == Failure(500, "Internal Server Error")
    ensures session.Some? && body.Some? && !Truthy(body.value.name) ==> r == Failure(400, "Name is required")
    ensures session.Some? && body.Some? && Truthy(body.value.name) && storeFails
      ==> r == Failure(500, "Internal Server Error")
    ensures session.Some? && body.Some? && Truthy(body.value.name) && !storeFails ==> r.Ok?
    ensures r.Failure? ==> db.collections == old(db.collections)
    ensures r.Ok? ==>
      && r.status == 200 && session.Some? && body.Some? && Truthy(body.value.name)
      && r.body == Collection(old(db.nextId), body.value.name.value, body.value.description, session.value.id, now)
      && db.collections == old(db.collections) + [r.body]
  {
    if session.None? {
      return Failure(401, Unauthorized);
    }
    if body.None? {
      return Failure(500, "Internal Server Error");
    }
    if !Truthy(body.value.name) {
      return Failure(400, "Name is required");
    }
    if storeFails {
      return Failure(500, "Internal Server Error");
    }
    var id := db.NewId();
    var row := Collection(id, body.value.name.value, body.value.description, session.value.id, now);
    db.collections := db.collections + [row];
    r := Ok(200, row);
  }

  /** A created collection appears in its owner's next listing, and in no one
      else's. */
  lemma CreatedCollectionListed(table: seq<Collection>, row: Collection, other: Id)
    requires other != row.userId
    ensures row in NewestFirst(OwnedBy(table + [row], row.userId))
    ensures NewestFirst(OwnedBy(table + [row], other)) == NewestFirst(OwnedBy(table, other))
  {
    ListingSpec(table + [row], row.userId);
    FilterAppend(table, [row], (c: Collection) => c.userId == other);
    assert OwnedBy([row], other) == [];
    assert OwnedBy(table + [row], other) == OwnedBy(table, other);
  }
}
