/** The registration API (app/api/auth/register/route.ts): insert a user
    unless the e-mail address is taken.

    The request body is `None` when it is not valid JSON; a field missing from
    it is `None`. `storeFails` stands for a database error on the insert. */
module RegisterRoute {
  import opened Common
  import opened Schema
  import opened Store

  datatype RegisterBody = RegisterBody(name: Option<string>, email: Option<string>, password: Option<string>)

  /** The user as the response shows it: the row without its password. */
  datatype PublicUser = PublicUser(id: Id, name: Option<string>, email: Option<string>, role: string)

  const DefaultRole: string := "USER"

  function Public(u: User): PublicUser {
    PublicUser(u.id, u.name, u.email, u.role)
  }

  predicate EmailTaken(users: seq<User>, email: string) {
    exists u :: u in users && u.email == Some(email)
  }

  /** `POST`: 400 when the e-mail address or the password is missing or empty,
      400 when a user already has the address, 500 for a body that is not JSON,
      a failed lookup or a failed insert; otherwise one new user with role
      "USER", answered with 201 and its public fields. `lookupFails` and
      `insertFails` stand for a database error on the `findUnique` and on the
      `create`. */
  method Register(db: Store.Database, body: Option<RegisterBody>, lookupFails: bool, insertFails: bool)
    returns (r: Response<PublicUser>)
    modifies db
    requires db.Valid()
    ensures db.Valid()
    ensures db.categories == old(db.categories) && db.preferences == old(db.preferences)
    ensures db.artworks == old(db.artworks) && db.collections == old(db.collections)
    ensures body.None? ==> r == Failure(500, "Something went wrong")
    ensures body.Some? && (!Truthy(body.value.email) || !Truthy(body.value.password))
      ==> r == Failure(400, "Email and password are required")
    ensures body.Some? && Truthy(body.value.email) && Truthy(body.value.password) && lookupFails
      ==> r == Failure(500, "Something went wrong")
    ensures body.Some? && Truthy(body.value.email) && Truthy(body.value.password) && !lookupFails
      && EmailTaken(old(db.users), body.value.email.value)
      ==> r == Failure(400, "User already exists")
    ensures body.Some? && Truthy(body.value.email) && Truthy(body.value.password) && !lookupFails
      && !EmailTaken(old(db.users), body.value.email.value) && insertFails
      ==> r == Failure(500, "Something went wrong")
    ensures body.Some? && Truthy(body.value.email) && Truthy(body.value.password) && !lookupFails
      && !EmailTaken(old(db.users), body.value.email.value) && !insertFails
      ==> r.Ok?
    ensures r.Failure? ==> db.users == old(db.users)
    ensures r.Ok? ==>
      && r.status == 201 && body.Some? && Truthy(body.value.email) && Truthy(body.value.password)
      && !EmailTaken(old(db.users), body.value.email.value)
      && var row := User(old(db.nextId), body.value.name, body.value.email, body.value.password, DefaultRole);
         db.users == old(db.users) + [row] && r.body == Public(row)
  {
    if body.None? {
      return Failure(500, "Something went wrong");
    }
    var b := body.value;
    if !Truthy(b.email) || !Truthy(b.password) {
      return Failure(400, "Email and password are required");
    }
    if lookupFails {
      return Failure(500, "Something went wrong");
    }
    var existing := FindUserByEmail(db.users, b.email.value);
    if existing.Some? {
      return Failure(400, "User already exists");
    }
    if insertFails {
      return Failure(500, "Something went wrong");
    }
    var id := db.NewId();
    var row := User(id, b.name, b.email, b.password, DefaultRole);
    AppendKeepsEmailsUnique(db.users, row);
    db.users := db.users + [row];
    r := Ok(201, Public(row));
  }

  /** The response never depends on the password: two rows that differ only
      in their password show the same public fields. */
  lemma PublicOmitsPassword(u: User, password: Option<string>)
    ensures Public(u.(password := password)) == Public(u)
    ensures Public(u).id == u.id && Public(u).email == u.email && Public(u).role == u.role
  {
  }

  /** A user whose address no row has keeps the addresses unique. */
  lemma AppendKeepsEmailsUnique(users: seq<User>, row: User)
    requires UniqueEmails(users)
    requires row.email.None? || !EmailTaken(users, row.email.value)
    ensures UniqueEmails(users + [row])
  {
    var all := users + [row];
    forall i, j | 0 <= i < j < |all| && all[i].email.Some? ensures all[i].email != all[j].email {
      if j == |users| {
        assert all[i] in users;
      } else {
        assert all[i] == users[i] && all[j] == users[j];
      }
    }
  }

  /** Registering twice with one address: the second attempt finds the
      first row and is refused. */
  lemma SecondRegistrationRefused(users: seq<User>, row: User)
    requires row.email.Some?
    ensures EmailTaken(users + [row], row.email.value)
  {
    assert (users + [row])[|users|] == row;
  }

  /** After any sequence of successful registrations from an empty table, no
      two users share an address. */
  lemma {:induction false} RegistrationsUnique(rows: seq<User>)
    requires forall k :: 0 <= k < |rows| ==> rows[k].email.Some? && !EmailTaken(rows[..k], rows[k].email.value)
    ensures UniqueEmails(rows)
    decreases |rows|
  {
    if rows != [] {
      var n := |rows| - 1;
      var init := rows[..n];
      assert forall k :: 0 <= k < |init| ==> init[..k] == rows[..k];
      RegistrationsUnique(init);
      AppendKeepsEmailsUnique(init, rows[n]);
      assert init + [rows[n]] == rows;
    }
  }
}
