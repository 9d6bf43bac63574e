/** The database the route handlers share, as tables held in memory, and the
    shape of a route's JSON response. Ids come from one counter, so every row
    created gets an id no row has had before. */
module Store {
  import opened Common
  import opened Schema

  /** A route's answer: a JSON body with a status, or an `{ error }` body with a status. */
  datatype Response<T> = Ok(status: int, body: T) | Failure(status: int, error: string)

  const Unauthorized: string := "Unauthorized"

  /** `response.ok`: a status in the 2xx range. */
  predicate IsOk<T>(r: Response<T>) {
    r.Ok? && 200 <= r.status < 300
  }

  class Database {
    var users: seq<User>
    var categories: seq<Category>
    var preferences: seq<ArtPreference>
    var artworks: seq<Artwork>
    var collections: seq<Collection>
    var nextId: nat

    /** Every id in use is below the counter, and e-mail addresses identify users. */
    ghost predicate Valid()
      reads this
    {
      && (forall u :: u in users ==> u.id < nextId)
      && (forall c :: c in categories ==> c.id < nextId)
      && (forall p :: p in preferences ==> p.id < nextId)
      && (forall a :: a in artworks ==> a.id < nextId)
      && (forall c :: c in collections ==> c.id < nextId)
      && UniqueEmails(users)
      && UniquePreferenceIds(preferences)
    }

    constructor ()
      ensures Valid()
      ensures users == [] && categories == [] && preferences == [] && artworks == [] && collections == []
    {
      users, categories, preferences, artworks, collections := [], [], [], [], [];
      nextId := 0;
    }

    /** A fresh id for a row about to be created. */
    method NewId() returns (id: Id)
      modifies this
      requires Valid()
      ensures Valid()
      ensures id == old(nextId) && nextId == id + 1
      ensures users == old(users) && categories == old(categories) && preferences == old(preferences)
      ensures artworks == old(artworks) && collections == old(collections)
    {
      id := nextId;
      nextId := nextId + 1;
    }

    /** `category.create`: a new row with a fresh id at the end of the table. */
    method CreateCategory(name: string, slug: string, parentId: Option<Id>) returns (c: Category)
      modifies this
      requires Valid()
      ensures Valid()
      ensures c == Category(old(nextId), name, slug, parentId) && nextId == old(nextId) + 1
      ensures categories == old(categories) + [c]
      ensures users == old(users) && preferences == old(preferences)
      ensures artworks == old(artworks) && collections == old(collections)
    {
      c := Category(nextId, name, slug, parentId);
      categories := categories + [c];
      nextId := nextId + 1;
    }

    /** `category.deleteMany()`. */
    method DeleteAllCategories()
      modifies this
      requires Valid()
      ensures Valid()
      ensures categories == [] && nextId == old(nextId)
      ensures users == old(users) && preferences == old(preferences)
      ensures artworks == old(artworks) && collections == old(collections)
    {
      categories := [];
    }
  }

  /** No two users share a present e-mail address (the column is unique). */
  ghost predicate UniqueEmails(users: seq<User>) {
    forall i, j :: 0 <= i < j < |users| && users[i].email.Some? ==> users[i].email != users[j].email
  }

  /** Preference ids are primary keys. */
  ghost predicate UniquePreferenceIds(prefs: seq<ArtPreference>) {
    forall i, j :: 0 <= i < j < |prefs| ==> prefs[i].id != prefs[j].id
  }

  /** `findUnique({ where: { email } })` on the user table. */
  function FindUserByEmail(users: seq<User>, email: string): (r: Option<User>)
    ensures r.Some? ==> r.value in users && r.value.email == Some(email)
    ensures r.None? ==> forall u :: u in users ==> u.email != Some(email)
    decreases |users|
  {
    if users == [] then None
    else if users[0].email == Some(email) then Some(users[0])
    else FindUserByEmail(users[1..], email)
  }

  /** With unique e-mail addresses, the user found is the only one with that address. */
  lemma FindUserByEmailUnique(users: seq<User>, email: string, u: User)
    requires UniqueEmails(users) && u in users && u.email == Some(email)
    ensures FindUserByEmail(users, email) == Some(u)
  {
    var r := FindUserByEmail(users, email);
    var k :| 0 <= k < |users| && users[k] == u;
    var i :| 0 <= i < |users| && users[i] == r.value;
    assert users[i].email == users[k].email;
    assert i == k;
  }
}
