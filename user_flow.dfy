/**
 * User administration through `GET` / `POST` / `PUT` / `DELETE /api/users`
 * (the listing is a read of `Inventory.Store`). Only administrators may call
 * them, and neither an update nor a deletion may leave the system without an
 * administrator. Passwords are stored as the value of `hash`, which stands
 * for bcrypt.
 */
module UserFlow {
  import opened Wrappers
  import opened Domain

  /** The fields `userSchema` checks; `role` is the string the client sent. */
  datatype UserInput = UserInput(username: string, password: string, role: string)

  predicate UserSchemaValid(input: UserInput) {
    |input.username| >= 1 && |input.password| >= 6 && ParseRole(input.role).Some?
  }

  /** Route `POST /api/users`; `body` is `None` when the JSON does not have the schema's field types. */
  function PostUser(db: Db, session: Option<Session>, body: Option<UserInput>, hash: string -> string,
                    newId: Id, now: int): (r: HttpReply)
    ensures !IsAdmin(session) ==> r == HttpReply(db, HttpUnauthorized)
    ensures IsAdmin(session) && (body.None? || !UserSchemaValid(body.value)) ==> r == HttpReply(db, HttpBadRequest)
    ensures IsAdmin(session) && body.Some? && UsernameTaken(db.users, body.value.username, newId)
            ==> r == HttpReply(db, HttpBadRequest)
    ensures r.status == HttpCreated <==>
      && IsAdmin(session) && body.Some? && UserSchemaValid(body.value)
      && !UsernameTaken(db.users, body.value.username, newId) && newId !in db.users
    ensures r.status != HttpCreated ==> r.db == db
    ensures r.status == HttpCreated ==>
      var input := body.value;
      && r.db.users == db.users[newId := User(newId, input.username, hash(input.password), ParseRole(input.role).value, now)]
      && r.db.audit == db.audit + [Entry(session.value.userId, "Created user: " + input.username)]
      && r.db.supplies == db.supplies && r.db.requests == db.requests && r.db.settings == db.settings
      && r.db.notifications == db.notifications
  {
    if !IsAdmin(session) then HttpReply(db, HttpUnauthorized)
    else if body.None? || !UserSchemaValid(body.value) then HttpReply(db, HttpBadRequest)
    else
      var input := body.value;
      if exists k :: k in db.users && db.users[k].username == input.username then HttpReply(db, HttpBadRequest)
      else if newId in db.users then HttpReply(db, HttpServerError)
      else
        var user := User(newId, input.username, hash(input.password), ParseRole(input.role).value, now);
        HttpReply(db.(users := db.users[newId := user],
                      audit := db.audit + [Entry(session.value.userId, "Created user: " + input.username)]),
                  HttpCreated)
  }

  /** The optional fields of a `PUT /api/users` body besides the id; `None` is a field left out. */
  datatype UserChanges = UserChanges(username: Option<string>, role: Option<string>, password: Option<string>)

  /** The guard against demoting the only administrator. */
  predicate DemotesLastAdmin(users: map<Id, User>, id: Id, role: Option<string>) {
    role == Some("STAFF") && AdminCount(users) == 1 && id in users && users[id].role == ADMIN
  }

  /**
   * The user after an update: a field left out keeps its value; a present
   * password (non-empty) is replaced by its hash.
   */
  function Changed(u: User, changes: UserChanges, hash: string -> string): (r: User)
    requires changes.role.Some? ==> ParseRole(changes.role.value).Some?
    ensures r.id == u.id && r.createdAt == u.createdAt
    ensures r.username == (if changes.username.Some? then changes.username.value else u.username)
    ensures r.role == (if changes.role.Some? then ParseRole(changes.role.value).value else u.role)
    ensures r.password == (if Truthy(changes.password) then hash(changes.password.value) else u.password)
  {
    u.(username := changes.username.GetOr(u.username),
       role := if changes.role.Some? then ParseRole(changes.role.value).value else u.role,
       password := if Truthy(changes.password) then hash(changes.password.value) else u.password)
  }

  /**
   * Route `PUT /api/users`. No schema is applied: a present username is taken
   * as it is, a role that is not `ADMIN` / `STAFF` and a username that another
   * user has make the store fail (500), and so does an unknown id.
   */
  function PutUser(db: Db, session: Option<Session>, id: Option<string>, changes: UserChanges,
                   hash: string -> string): (r: HttpReply)
    ensures !IsAdmin(session) ==> r == HttpReply(db, HttpUnauthorized)
    ensures IsAdmin(session) && !Truthy(id) ==> r == HttpReply(db, HttpBadRequest)
    ensures IsAdmin(session) && Truthy(id) && DemotesLastAdmin(db.users, id.value, changes.role)
            ==> r == HttpReply(db, HttpBadRequest)
    ensures r.status == HttpOk <==>
      && IsAdmin(session) && Truthy(id) && !DemotesLastAdmin(db.users, id.value, changes.role)
      && id.value in db.users
      && (changes.role.Some? ==> ParseRole(changes.role.value).Some?)
      && !UsernameTaken(db.users, changes.username.GetOr(db.users[id.value].username), id.value)
    ensures r.status != HttpOk ==> r.db == db
    ensures r.status == HttpOk ==>
      var u := Changed(db.users[id.value], changes, hash);
      && r.db.users == db.users[id.value := u]
      && r.db.audit == db.audit + [Entry(session.value.userId, "Updated user: " + u.username)]
      && r.db.supplies == db.supplies && r.db.requests == db.requests && r.db.settings == db.settings
      && r.db.notifications == db.notifications
  {
    if !IsAdmin(session) then HttpReply(db, HttpUnauthorized)
    else if !Truthy(id) then HttpReply(db, HttpBadRequest)
    else if DemotesLastAdmin(db.users, id.value, changes.role) then HttpReply(db, HttpBadRequest)
    else if id.value !in db.users then HttpReply(db, HttpServerError)
    else if changes.role.Some? && ParseRole(changes.role.value).None? then HttpReply(db, HttpServerError)
    else
      var u := Changed(db.users[id.value], changes, hash);
      if UsernameTaken(db.users, u.username, id.value) then HttpReply(db, HttpServerError)
      else
        HttpReply(db.(users := db.users[id.value := u],
                      audit := db.audit + [Entry(session.value.userId, "Updated user: " + u.username)]),
                  HttpOk)
  }

  /** Route `DELETE /api/users?id=…`: the only administrator cannot be deleted. */
  function DeleteUser(db: Db, session: Option<Session>, id: Option<string>): (r: HttpReply)
    ensures !IsAdmin(session) ==> r == HttpReply(db, HttpUnauthorized)
    ensures IsAdmin(session) && !Truthy(id) ==> r == HttpReply(db, HttpBadRequest)
    ensures (IsAdmin(session) && Truthy(id) && id.value in db.users && db.users[id.value].role == ADMIN
             && AdminCount(db.users) == 1) ==> r == HttpReply(db, HttpBadRequest)
    ensures r.status == HttpOk <==>
      && IsAdmin(session) && Truthy(id) && id.value in db.users
      && (db.users[id.value].role == ADMIN ==> AdminCount(db.users) != 1)
    ensures r.status != HttpOk ==> r.db == db
    ensures r.status == HttpOk ==>
      && r.db.users == db.users - {id.value}
      && r.db.audit == db.audit + [Entry(session.value.userId, "Deleted user: " + db.users[id.value].username)]
      && r.db.supplies == db.supplies && r.db.requests == db.requests && r.db.settings == db.settings
      && r.db.notifications == db.notifications
  {
    if !IsAdmin(session) then HttpReply(db, HttpUnauthorized)
    else if !Truthy(id) then HttpReply(db, HttpBadRequest)
    else if id.value in db.users && db.users[id.value].role == ADMIN && AdminCount(db.users) == 1 then
      HttpReply(db, HttpBadRequest)
    else if id.value !in db.users then HttpReply(db, HttpServerError)
    else
      HttpReply(db.(users := db.users - {id.value},
                    audit := db.audit + [Entry(session.value.userId, "Deleted user: " + db.users[id.value].username)]),
                HttpOk)
  }

  lemma AdminIdsUpdate(users: map<Id, User>, id: Id, u: User)
    ensures AdminIds(users[id := u]) == (AdminIds(users) - {id}) + (if u.role == ADMIN then {id} else {})
  {
  }

  lemma AdminIdsRemove(users: map<Id, User>, id: Id)
    ensures AdminIds(users - {id}) == AdminIds(users) - {id}
  {
  }

  /** Taking one element out of a set leaves at least one when there were two. */
  lemma RemoveOneOfMany<T>(s: set<T>, x: T)
    requires |s| >= 2
    ensures |s - {x}| >= 1
  {
    if x in s {
      assert s == (s - {x}) + {x};
    } else {
      assert s - {x} == s;
    }
  }

  lemma PostUserKeeps(db: Db, session: Option<Session>, body: Option<UserInput>, hash: string -> string, newId: Id, now: int)
    requires Consistent(db)
    ensures Consistent(PostUser(db, session, body, hash, newId, now).db)
    ensures Evolves(db, PostUser(db, session, body, hash, newId, now).db)
  {
    var r := PostUser(db, session, body, hash, newId, now);
    if r.status == HttpCreated {
      var u := r.db.users[newId];
      assert r.db.users == db.users[newId := u];
      WriteUserConsistent(db.users, newId, u);
      AdminIdsUpdate(db.users, newId, u);
      assert AdminIds(db.users) <= AdminIds(r.db.users);
      SubsetCard(AdminIds(db.users), AdminIds(r.db.users));
    }
  }

  lemma SubsetCard<T>(a: set<T>, b: set<T>)
    requires a <= b
    ensures |a| <= |b|
  {
    assert b == a + (b - a);
  }

  /** Writing a row under its own id with a username nobody else has keeps the users table consistent. */
  lemma WriteUserConsistent(users: map<Id, User>, k: Id, u: User)
    requires UsersConsistent(users)
    requires u.id == k && !UsernameTaken(users, u.username, k)
    ensures UsersConsistent(users[k := u])
  {
  }

  /** Replacing a user keeps an administrator unless it demotes the only one. */
  lemma ReplaceUserKeepsAdmin(users: map<Id, User>, k: Id, u: User)
    requires k in users && AdminCount(users) >= 1
    requires users[k].role == ADMIN && u.role != ADMIN ==> AdminCount(users) != 1
    ensures AdminCount(users[k := u]) >= 1
  {
    AdminIdsUpdate(users, k, u);
    if u.role == ADMIN {
      assert k in AdminIds(users[k := u]);
    } else if users[k].role == ADMIN {
      RemoveOneOfMany(AdminIds(users), k);
    } else {
      assert AdminIds(users[k := u]) == AdminIds(users);
    }
  }

  /**
   * Updating a user never removes the last administrator: a demotion passes
   * the guard only when there is another administrator.
   */
  lemma PutUserKeeps(db: Db, session: Option<Session>, id: Option<string>, changes: UserChanges, hash: string -> string)
    requires Consistent(db)
    ensures Consistent(PutUser(db, session, id, changes, hash).db)
    ensures Evolves(db, PutUser(db, session, id, changes, hash).db)
  {
    var r := PutUser(db, session, id, changes, hash);
    if r.status == HttpOk {
      var k := id.value;
      var u := Changed(db.users[k], changes, hash);
      assert r.db.users == db.users[k := u];
      WriteUserConsistent(db.users, k, u);
      if AdminCount(db.users) >= 1 {
        if db.users[k].role == ADMIN && u.role != ADMIN {
          assert changes.role == Some("STAFF");
        }
        ReplaceUserKeepsAdmin(db.users, k, u);
      }
    }
  }

  /** Deleting a user never removes the last administrator. */
  lemma DeleteUserKeeps(db: Db, session: Option<Session>, id: Option<string>)
    requires Consistent(db)
    ensures Consistent(DeleteUser(db, session, id).db)
    ensures Evolves(db, DeleteUser(db, session, id).db)
  {
    var r := DeleteUser(db, session, id);
    if r.status == HttpOk {
      RemoveUserConsistent(db.users, id.value);
      if AdminCount(db.users) >= 1 {
        RemoveUserKeepsAdmin(db.users, id.value);
      }
    }
  }

  /** Removing a row keeps the users table consistent. */
  lemma RemoveUserConsistent(users: map<Id, User>, k: Id)
    requires UsersConsistent(users)
    ensures UsersConsistent(users - {k})
  {
  }

  /** Removing a user keeps an administrator unless it removes the only one. */
  lemma RemoveUserKeepsAdmin(users: map<Id, User>, k: Id)
    requires k in users && AdminCount(users) >= 1
    requires users[k].role == ADMIN ==> AdminCount(users) != 1
    ensures AdminCount(users - {k}) >= 1
  {
    AdminIdsRemove(users, k);
    if users[k].role == ADMIN {
      RemoveOneOfMany(AdminIds(users), k);
    } else {
      assert AdminIds(users - {k}) == AdminIds(users);
    }
  }
}
