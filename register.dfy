/**
 * `register` (backend/handlers/auth/register.js): an insert-if-absent on
 * the users table, keyed by email. It stores a bcrypt hash of the password
 * and answers with the stored record minus the hash.
 */
module Register {
  import opened Wrappers
  import opened Json
  import opened Store

  /** A users-table record. The names come from the body as they are; only the email is a key. */
  datatype User = User(email: string, firstName: Json, lastName: Json, passwordHash: string, createdAt: string)

  /** The 201 body: the record without `passwordHash`. */
  datatype PublicUser = PublicUser(email: string, firstName: Json, lastName: Json, createdAt: string)

  function Public(u: User): (p: PublicUser)
    ensures p.email == u.email && p.firstName == u.firstName && p.lastName == u.lastName
    ensures p.createdAt == u.createdAt
  {
    PublicUser(u.email, u.firstName, u.lastName, u.createdAt)
  }

  /** `bcrypt.hash(password, 10)`: a hash, the salt folded into the function. */
  type Hasher = string -> string

  /** The property `key` is present and truthy. */
  predicate Given(fields: map<string, Json>, key: string) {
    key in fields && Truthy(fields[key])
  }

  /** All four properties are present and truthy. */
  predicate Complete(fields: map<string, Json>) {
    Given(fields, "firstName") && Given(fields, "lastName") && Given(fields, "email") && Given(fields, "password")
  }

  /** The record a complete body with a string email and password is stored as. */
  function NewUser(fields: map<string, Json>, hash: Hasher, now: string): (u: User)
    requires Complete(fields) && fields["email"].JStr? && fields["password"].JStr?
    ensures u.email == fields["email"].s && u.passwordHash == hash(fields["password"].s)
    ensures u.firstName == fields["firstName"] && u.lastName == fields["lastName"] && u.createdAt == now
  {
    User(fields["email"].s, fields["firstName"], fields["lastName"], hash(fields["password"].s), now)
  }

  /** A complete body whose email is a string that is already registered and read back. */
  predicate Duplicate(fields: map<string, Json>, users: map<string, User>, w: World) {
    && Complete(fields) && fields["email"].JStr?
    && GetUser(fields["email"].s) !in w.failing && fields["email"].s in users
  }

  /**
   * The body reaches the put and the put goes through: the email is a
   * string (the store throws on any other key), the lookup succeeds and
   * finds nothing, and the password is a string (bcrypt throws otherwise).
   */
  predicate Inserts(fields: map<string, Json>, users: map<string, User>, w: World) {
    && Complete(fields) && fields["email"].JStr? && fields["password"].JStr?
    && GetUser(fields["email"].s) !in w.failing && fields["email"].s !in users
    && PutUser(fields["email"].s) !in w.failing
  }

  /** The users table. */
  class UserTable {
    /** Records by email. */
    var users: map<string, User>

    constructor ()
      ensures users == map[]
    {
      users := map[];
    }

    /**
     * The handler, with `now` for `new Date().toISOString()`. `created` is
     * the body sent with 201.
     */
    method Handle(body: Body, hash: Hasher, now: string, w: World) returns (status: int, created: Option<PublicUser>)
      modifies this
      ensures status == 201 || status == 400 || status == 409 || status == 500
      ensures status == 400 <==> body.Fields? && !Complete(body.fields)
      ensures status == 409 <==> body.Fields? && Duplicate(body.fields, old(users), w)
      ensures status == 201 <==> body.Fields? && Inserts(body.fields, old(users), w)
      ensures created.Some? <==> status == 201
      ensures status != 201 ==> users == old(users)
      ensures status == 201 ==>
        var u := NewUser(body.fields, hash, now);
        && users == old(users)[u.email := u]
        && created == Some(Public(u))
    {
      created := None;
      if body.Malformed? {
        return 500, None;
      }
      var fields := body.fields;
      if !Complete(fields) {
        return 400, None;
      }
      if !fields["email"].JStr? || GetUser(fields["email"].s) in w.failing {
        return 500, None;
      }
      var email := fields["email"].s;
      if email in users {
        return 409, None;
      }
      if !fields["password"].JStr? || PutUser(email) in w.failing {
        return 500, None;
      }
      var u := NewUser(fields, hash, now);
      users := users[email := u];
      status, created := 201, Some(Public(u));
    }
  }

  /** Once an email is registered, registering it again never succeeds: the answer is 409 or 500. */
  method RegisterTwice(table: UserTable, body: Body, hash: Hasher, now1: string, now2: string, w1: World, w2: World)
    returns (first: int, second: int)
    modifies table
    ensures first == 201 ==> body.Fields? && Inserts(body.fields, old(table.users), w1)
    ensures first == 201 ==> second == 409 || second == 500
    ensures first == 201 ==> (GetUser(body.fields["email"].s) !in w2.failing ==> second == 409)
  {
    var c1, c2;
    first, c1 := table.Handle(body, hash, now1, w1);
    second, c2 := table.Handle(body, hash, now2, w2);
  }

  /** A successful registration adds one record under the email; every other record is as it was. */
  lemma InsertOnly(users: map<string, User>, fields: map<string, Json>, hash: Hasher, now: string)
    requires Complete(fields) && fields["email"].JStr? && fields["password"].JStr?
    requires fields["email"].s !in users
    ensures var u := NewUser(fields, hash, now); var users' := users[u.email := u];
      |users'.Keys| == |users.Keys| + 1 && forall e :: e in users ==> e in users' && users'[e] == users[e]
  {
  }
}
