/** The art-preference API (app/api/preferences/route.ts): list the signed-in
    user's subscriptions, add one, delete one by id.

    The session is the e-mail address it carries, if any. The request body is
    `None` when it is not valid JSON; a field missing from the body is `None`.
    `storeFails` stands for a database error on any query of the request. */
module PreferencesRoute {
  import opened Common
  import opened Schema
  import opened Store

  /** The rows of one user, in table order. */
  function PreferencesOf(prefs: seq<ArtPreference>, userId: Id): seq<ArtPreference> {
    Filter(prefs, (p: ArtPreference) => p.userId == userId)
  }

  /** The table after `artPreference.create`: the new row at the end. */
  function AddPreference(prefs: seq<ArtPreference>, row: ArtPreference): seq<ArtPreference> {
    prefs + [row]
  }

  predicate HasPreferenceId(prefs: seq<ArtPreference>, id: Id) {
    exists p :: p in prefs && p.id == id
  }

  /** The number of rows subscribing `userId` to `categoryId`. */
  function Subscriptions(prefs: seq<ArtPreference>, userId: Id, categoryId: Id): nat {
    |Filter(prefs, (p: ArtPreference) => p.userId == userId && p.categoryId == categoryId)|
  }

  /** `GET`: 401 without a session e-mail; the user's rows, or `[]` when no user
      has that address; 500 when the store fails. */
  method GetPreferences(db: Store.Database, sessionEmail: Option<string>, storeFails: bool)
    returns (r: Response<seq<ArtPreference>>)
    requires db.Valid()
    ensures !Truthy(sessionEmail) ==> r == Failure(401, Unauthorized)
    ensures Truthy(sessionEmail) && storeFails ==> r == Failure(500, "Failed to fetch preferences")
    ensures Truthy(sessionEmail) && !storeFails ==> r.Ok? && r.status == 200
    ensures r.Ok? ==> forall p :: p in r.body <==>
      p in db.preferences && exists u :: u in db.users && u.email == sessionEmail && u.id == p.userId
  {
    if !Truthy(sessionEmail) {
      return Failure(401, Unauthorized);
    }
    if storeFails {
      return Failure(500, "Failed to fetch preferences");
    }
    var user := FindUserByEmail(db.users, sessionEmail.value);
    match user {
      case None =>
        r := Ok(200, []);
        assert forall p :: p in db.preferences ==>
          !exists u :: u in db.users && u.email == sessionEmail && u.id == p.userId;
      case Some(u) =>
        r := Ok(200, PreferencesOf(db.preferences, u.id));
        forall p ensures p in r.body <==>
          p in db.preferences && exists w :: w in db.users && w.email == sessionEmail && w.id == p.userId
        {
          FilterMembership(db.preferences, (p: ArtPreference) => p.userId == u.id, p);
          if p in db.preferences && exists w :: w in db.users && w.email == sessionEmail && w.id == p.userId {
            var w :| w in db.users && w.email == sessionEmail && w.id == p.userId;
            FindUserByEmailUnique(db.users, sessionEmail.value, w);
          }
        }
    }
  }

  /** The JSON body of `POST` and `DELETE`; a field left out of the body is `None`. */
  datatype PreferenceBody = PreferenceBody(categoryId: Option<Id>, preferenceId: Option<Id>)

  predicate IsCategory(categories: seq<Category>, id: Id) {
    exists c :: c in categories && c.id == id
  }

  /** `POST`: 401 without a session e-mail, 404 when no user has that address,
      otherwise one new row (user, categoryId) at the end of the table, with no
      check for an identical row. A body that is not JSON, a store error, and a
      missing or unknown category (the create fails) give 500. */
  method PostPreference(db: Store.Database, sessionEmail: Option<string>, body: Option<PreferenceBody>,
                        storeFails: bool)
    returns (r: Response<ArtPreference>)
    modifies db
    requires db.Valid()
    ensures db.Valid()
    ensures db.users == old(db.users) && db.categories == old(db.categories)
    ensures db.artworks == old(db.artworks) && db.collections == old(db.collections)
    ensures !Truthy(sessionEmail) ==> r == Failure(401, Unauthorized)
    ensures Truthy(sessionEmail) && (body.None? || storeFails) ==> r == Failure(500, "Failed to create preference")
    ensures Truthy(sessionEmail) && body.Some? && !storeFails && FindUserByEmail(db.users, sessionEmail.value).None?
      ==> r == Failure(404, "User not found")
    ensures Truthy(sessionEmail) && body.Some? && !storeFails && FindUserByEmail(db.users, sessionEmail.value).Some?
      && (body.value.categoryId.None? || !IsCategory(db.categories, body.value.categoryId.value))
      ==> r == Failure(500, "Failed to create preference")
    ensures Truthy(sessionEmail) && body.Some? && !storeFails && FindUserByEmail(db.users, sessionEmail.value).Some?
      && body.value.categoryId.Some? && IsCategory(db.categories, body.value.categoryId.value)
      ==> r.Ok?
    ensures r.Failure? ==> db.preferences == old(db.preferences)
    ensures r.Ok? ==>
      && r.status == 200
      && db.preferences == AddPreference(old(db.preferences), r.body)
      && body.Some? && body.value.categoryId == Some(r.body.categoryId)
      && IsCategory(db.categories, r.body.categoryId)
      && (exists u :: u in db.users && u.email == sessionEmail && u.id == r.body.userId)
      && (forall p :: p in old(db.preferences) ==> p.id != r.body.id)
  {
    if !Truthy(sessionEmail) {
      return Failure(401, Unauthorized);
    }
    if body.None? || storeFails {
      return Failure(500, "Failed to create preference");
    }
    var user := FindUserByEmail(db.users, sessionEmail.value);
    if user.None? {
      return Failure(404, "User not found");
    }
    var categoryId := body.value.categoryId;
    if categoryId.None? || !IsCategory(db.categories, categoryId.value) {
      return Failure(500, "Failed to create preference");
    }
    var id := db.NewId();
    var row := ArtPreference(id, user.value.id, categoryId.value);
    db.preferences := AddPreference(db.preferences, row);
    r := Ok(200, row);
  }

  /** `DELETE`: 401 without a session e-mail; otherwise the row with the given
      id is removed whoever owns it. A body that is not JSON, a store error, and
      a missing or unknown id (the delete fails) give 500. */
  method DeletePreference(db: Store.Database, sessionEmail: Option<string>, body: Option<PreferenceBody>,
                          storeFails: bool)
    returns (r: Response<bool>)
    modifies db
    requires db.Valid()
    ensures db.Valid()
    ensures db.users == old(db.users) && db.categories == old(db.categories)
    ensures db.artworks == old(db.artworks) && db.collections == old(db.collections) && db.nextId == old(db.nextId)
    ensures !Truthy(sessionEmail) ==> r == Failure(401, Unauthorized)
    ensures Truthy(sessionEmail) && (body.None? || storeFails || body.value.preferenceId.None?
      || !HasPreferenceId(old(db.preferences), body.value.preferenceId.value))
      ==> r == Failure(500, "Failed to delete preference")
    ensures Truthy(sessionEmail) && body.Some? && !storeFails && body.value.preferenceId.Some?
      && HasPreferenceId(old(db.preferences), body.value.preferenceId.value)
      ==> r.Ok?
    ensures r.Failure? ==> db.preferences == old(db.preferences)
    ensures r.Ok? ==>
      && r == Ok(200, true) && body.Some? && body.value.preferenceId.Some?
      && HasPreferenceId(old(db.preferences), body.value.preferenceId.value)
      && db.preferences == WithoutPreference(old(db.preferences), body.value.preferenceId.value)
  {
    if !Truthy(sessionEmail) {
      return Failure(401, Unauthorized);
    }
    if body.None? || storeFails || body.value.preferenceId.None?
      || !HasPreferenceId(db.preferences, body.value.preferenceId.value) {
      return Failure(500, "Failed to delete preference");
    }
    var id := body.value.preferenceId.value;
    RemovePreferenceKeepsValid(db.preferences, id, db.nextId);
    db.preferences := WithoutPreference(db.preferences, id);
    r := Ok(200, true);
  }

  lemma RemovePreferenceKeepsValid(prefs: seq<ArtPreference>, id: Id, nextId: nat)
    requires UniquePreferenceIds(prefs) && forall p :: p in prefs ==> p.id < nextId
    ensures UniquePreferenceIds(WithoutPreference(prefs, id))
    ensures forall p :: p in WithoutPreference(prefs, id) ==> p.id < nextId
  {
    var f := (p: ArtPreference) => p.id != id;
    forall p ensures p in Filter(prefs, f) ==> p in prefs {
      FilterMembership(prefs, f, p);
    }
    FilterUnique(prefs, f);
  }

  lemma {:induction false} FilterUnique(prefs: seq<ArtPreference>, f: ArtPreference -> bool)
    requires UniquePreferenceIds(prefs)
    ensures UniquePreferenceIds(Filter(prefs, f))
    decreases |prefs|
  {
    if prefs != [] {
      var rest := prefs[1..];
      assert UniquePreferenceIds(rest) by {
        forall i, j | 0 <= i < j < |rest| ensures rest[i].id != rest[j].id {
          assert rest[i] == prefs[i + 1] && rest[j] == prefs[j + 1];
        }
      }
      FilterUnique(rest, f);
      if f(prefs[0]) {
        var r := Filter(prefs, f);
        assert r == [prefs[0]] + Filter(rest, f);
        forall j | 0 < j < |r| ensures r[0].id != r[j].id {
          assert r[j] in Filter(rest, f);
          FilterMembership(rest, f, r[j]);
          var k :| 0 <= k < |rest| && rest[k] == r[j];
          assert prefs[k + 1] == r[j];
        }
      }
    }
  }

  // ---------------------------------------------------------------------
  // The table operations the handlers perform

  /** Adding a row never checks for an identical one: each `POST` adds one more
      subscription of that user to that category. */
  lemma AddPreferenceCounts(prefs: seq<ArtPreference>, row: ArtPreference)
    ensures Subscriptions(AddPreference(prefs, row), row.userId, row.categoryId)
      == Subscriptions(prefs, row.userId, row.categoryId) + 1
  {
    FilterAppend(prefs, [row], (p: ArtPreference) => p.userId == row.userId && p.categoryId == row.categoryId);
  }

  /** Deleting by id drops exactly the rows with that id, keeps every other row
      in order, and looks at no owner. */
  lemma RemovePreferenceSpec(prefs: seq<ArtPreference>, id: Id, p: ArtPreference)
    ensures p in WithoutPreference(prefs, id) <==> p in prefs && p.id != id
    ensures SubsequenceOf(WithoutPreference(prefs, id), prefs)
  {
    FilterMembership(prefs, (q: ArtPreference) => q.id != id, p);
    FilterIsSubsequence(prefs, (q: ArtPreference) => q.id != id);
  }

  /** With unique ids, deleting an existing id removes exactly one row. */
  lemma {:induction false} RemovePreferenceOne(prefs: seq<ArtPreference>, id: Id)
    requires UniquePreferenceIds(prefs) && HasPreferenceId(prefs, id)
    ensures |WithoutPreference(prefs, id)| == |prefs| - 1
    decreases |prefs|
  {
    var rest := prefs[1..];
    assert UniquePreferenceIds(rest) by {
      forall i, j | 0 <= i < j < |rest| ensures rest[i].id != rest[j].id {
        assert rest[i] == prefs[i + 1] && rest[j] == prefs[j + 1];
      }
    }
    if prefs[0].id == id {
      forall q | q in rest ensures q.id != id {
        var k :| 0 <= k < |rest| && rest[k] == q;
        assert prefs[k + 1] == q;
      }
      FilterNone(rest, id);
    } else {
      var w :| w in prefs && w.id == id;
      assert w in rest;
      RemovePreferenceOne(rest, id);
    }
  }

  lemma {:induction false} FilterNone(prefs: seq<ArtPreference>, id: Id)
    requires forall q :: q in prefs ==> q.id != id
    ensures WithoutPreference(prefs, id) == prefs
    decreases |prefs|
  {
    if prefs != [] {
      FilterNone(prefs[1..], id);
      assert prefs == [prefs[0]] + prefs[1..];
    }
  }

  /** `GET` after `POST` lists the new row among the user's rows. */
  lemma AddedPreferenceListed(prefs: seq<ArtPreference>, row: ArtPreference)
    ensures row in PreferencesOf(AddPreference(prefs, row), row.userId)
  {
    FilterMembership(AddPreference(prefs, row), (p: ArtPreference) => p.userId == row.userId, row);
  }
}
