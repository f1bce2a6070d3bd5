/**
 * The user-management page on the client: the list it shows, how that list
 * follows a create, an update or a delete answered by `/api/users`, and how
 * a submitted dialog turns into a request.
 */
module UsersClient {
  import opened Wrappers
  import opened Domain
  import opened UserDialog
  import UserFlow

  /** A row of the page's list (`UserWithDate`); `requestCount` is `_count.requests`. */
  datatype UserRow = UserRow(id: Id, username: string, role: Role, createdAt: string, requestCount: int)

  /** The user a successful `POST` or `PUT /api/users` answers with. */
  datatype ApiUser = ApiUser(id: Id, username: string, role: Role, createdAt: string)

  /** The answer's user as the routes select it from the stored row; `show` renders the creation time. */
  function ApiUserOf(u: User, show: int -> string): ApiUser {
    ApiUser(u.id, u.username, u.role, show(u.createdAt))
  }

  /**
   * `handleCreateUser`'s list update: on a successful answer the new user is
   * appended with no requests; on a failed one (`None`) the list stays.
   */
  function AfterCreate(rows: seq<UserRow>, answer: Option<ApiUser>): (r: seq<UserRow>)
    ensures answer.None? ==> r == rows
    ensures answer.Some? ==> |r| == |rows| + 1 && r[..|rows|] == rows
    ensures answer.Some? ==>
      var u := answer.value;
      r[|rows|] == UserRow(u.id, u.username, u.role, u.createdAt, 0)
  {
    match answer
    case None => rows
    case Some(u) => rows + [UserRow(u.id, u.username, u.role, u.createdAt, 0)]
  }

  /** One row after an update of user `id`: only its username and role follow the answer. */
  function UpdatedRow(row: UserRow, id: Id, u: ApiUser): UserRow {
    if row.id == id then row.(username := u.username, role := u.role) else row
  }

  /**
   * `handleUpdateUser`'s list update: every row with the edited id takes the
   * answer's username and role and keeps its id, creation time and request
   * count; the other rows, the length and the order stay.
   */
  function AfterUpdate(rows: seq<UserRow>, id: Id, answer: Option<ApiUser>): (r: seq<UserRow>)
    ensures |r| == |rows|
    ensures answer.None? ==> r == rows
    ensures answer.Some? ==> forall i :: 0 <= i < |rows| && rows[i].id != id ==> r[i] == rows[i]
    ensures answer.Some? ==> forall i :: 0 <= i < |rows| && rows[i].id == id ==>
      && r[i].username == answer.value.username && r[i].role == answer.value.role
      && r[i].id == rows[i].id && r[i].createdAt == rows[i].createdAt
      && r[i].requestCount == rows[i].requestCount
  {
    match answer
    case None => rows
    case Some(u) => seq(|rows|, i requires 0 <= i < |rows| => UpdatedRow(rows[i], id, u))
  }

  /** `handleDeleteUser`'s list update: the rows with the deleted id go, the others stay in order. */
  function AfterDelete(rows: seq<UserRow>, id: Id, ok: bool): (r: seq<UserRow>)
    ensures !ok ==> r == rows
    ensures ok ==> forall x :: x in r <==> x in rows && x.id != id
    ensures |r| <= |rows|
  {
    if !ok || rows == [] then rows
    else
      var rest := AfterDelete(rows[1..], id, ok);
      if rows[0].id == id then rest else [rows[0]] + rest
  }

  /** Deleting from two parts of the list deletes from each: the order of the rows that stay is kept. */
  lemma {:induction false} AfterDeleteAppend(a: seq<UserRow>, b: seq<UserRow>, id: Id)
    ensures AfterDelete(a + b, id, true) == AfterDelete(a, id, true) + AfterDelete(b, id, true)
  {
    if a == [] {
      assert a + b == b;
    } else {
      assert (a + b)[1..] == a[1..] + b;
      AfterDeleteAppend(a[1..], b, id);
    }
  }

  /** A list without the id is left as it is, so deleting twice is deleting once. */
  lemma {:induction false} AfterDeleteAbsent(rows: seq<UserRow>, id: Id)
    requires forall x :: x in rows ==> x.id != id
    ensures AfterDelete(rows, id, true) == rows
  {
    if rows != [] {
      assert rows[0] in rows;
      assert forall x :: x in rows[1..] ==> x in rows;
      AfterDeleteAbsent(rows[1..], id);
    }
  }

  lemma AfterDeleteTwice(rows: seq<UserRow>, id: Id)
    ensures AfterDelete(AfterDelete(rows, id, true), id, true) == AfterDelete(rows, id, true)
  {
    AfterDeleteAbsent(AfterDelete(rows, id, true), id);
  }

  /** The call the page makes for a submitted dialog; `NoCall` when the update has no id. */
  datatype Call =
    | CreateCall(body: UserFlow.UserInput)
    | UpdateCall(id: string, changes: UserFlow.UserChanges)
    | NoCall

  /**
   * `handleUpdateUser`'s request: nothing without an id; otherwise the id,
   * the username and the role, and the password only when it is non-empty.
   */
  function HandleUpdate(s: Submission): (c: Call)
    ensures c.NoCall? <==> !Truthy(s.id)
    ensures c.UpdateCall? ==>
      && c.id == s.id.value
      && c.changes.username == Some(s.username) && c.changes.role == Some(s.role)
      && (c.changes.password.Some? <==> Truthy(s.password))
      && (c.changes.password.Some? ==> c.changes.password == s.password)
  {
    if !Truthy(s.id) then NoCall
    else
      UpdateCall(s.id.value, UserFlow.UserChanges(Some(s.username), Some(s.role),
                                                  if Truthy(s.password) then s.password else None))
  }

  /**
   * `handleCreateUser`'s request: the submitted values as they are. A
   * missing password is sent as an empty one, which the route's schema
   * refuses just as it refuses a missing one.
   */
  function HandleCreate(s: Submission): (c: Call)
    ensures c.CreateCall? && c.body.username == s.username && c.body.role == s.role
    ensures s.password.Some? ==> c.body.password == s.password.value
    ensures s.password.None? ==> !UserFlow.UserSchemaValid(c.body)
  {
    CreateCall(UserFlow.UserInput(s.username, s.password.GetOr(""), s.role))
  }

  /** `handleSubmit`: an update exactly when the submission carries an id. */
  function HandleSubmit(s: Submission): (c: Call)
    ensures c.UpdateCall? <==> Truthy(s.id)
    ensures c.CreateCall? <==> !Truthy(s.id)
    ensures !c.NoCall?
  {
    if Truthy(s.id) then HandleUpdate(s) else HandleCreate(s)
  }

  /**
   * A dialog that edits a user becomes an update of that user, which leaves
   * the stored password alone when the password field was left blank.
   */
  lemma EditDialogUpdates(user: DialogUser, v: FormValues)
    requires user.id != ""
    requires Submit(Some(user), v).Some?
    ensures HandleSubmit(Submit(Some(user), v).value).UpdateCall?
    ensures HandleSubmit(Submit(Some(user), v).value).id == user.id
    ensures HandleSubmit(Submit(Some(user), v).value).changes.password.None? <==> !Truthy(v.password)
  {
  }

  /** A dialog that adds a user becomes a create carrying the validated values, which the route's schema accepts too. */
  lemma AddDialogCreates(v: FormValues)
    requires Submit(None, v).Some?
    ensures HandleSubmit(Submit(None, v).value) == CreateCall(UserFlow.UserInput(v.username, v.password.value, v.role))
    ensures UserFlow.UserSchemaValid(HandleSubmit(Submit(None, v).value).body)
  {
  }

  /**
   * End to end: an update sent from the edit dialog with a blank password
   * keeps the stored password; with a non-blank one, stores its hash.
   */
  lemma EditKeepsBlankPassword(db: Db, session: Option<Session>, user: DialogUser, v: FormValues,
                               hash: string -> string)
    requires user.id != ""
    requires Submit(Some(user), v).Some?
    ensures
      var c := HandleSubmit(Submit(Some(user), v).value);
      var r := UserFlow.PutUser(db, session, Some(c.id), c.changes, hash);
      && (r.status == HttpOk && !Truthy(v.password) ==> r.db.users[user.id].password == db.users[user.id].password)
      && (r.status == HttpOk && Truthy(v.password) ==> r.db.users[user.id].password == hash(v.password.value))
  {
    EditDialogUpdates(user, v);
  }

  /**
   * The discrepancy carried through the page and the route: with the edit
   * schema as written, a three-character password validates, is sent, and
   * the route stores its hash; the corrected dialog submits nothing.
   */
  lemma ShortPasswordStored(db: Db, session: Option<Session>, id: Id, hash: string -> string)
    requires Consistent(db) && IsAdmin(session)
    requires id != "" && id in db.users && db.users[id].username != ""
    ensures
      var stored := db.users[id];
      var v := FormValues(stored.username, Some("abc"), RoleName(stored.role));
      var c := HandleSubmit(SubmitAsWritten(Some(DialogUser(id, stored.username, stored.role)), v).value);
      var r := UserFlow.PutUser(db, session, Some(c.id), c.changes, hash);
      && SubmitAsWritten(Some(DialogUser(id, stored.username, stored.role)), v).Some?
      && Submit(Some(DialogUser(id, stored.username, stored.role)), v).None?
      && r.status == HttpOk
      && r.db.users[id].password == hash("abc")
  {
    var stored := db.users[id];
    assert ParseRole(RoleName(stored.role)) == Some(stored.role);
    assert !UsernameTaken(db.users, stored.username, id);
  }

  /**
   * The page's list after a successful update answered with the stored user
   * shows that user's new username and role.
   */
  lemma UpdatedListShowsStore(rows: seq<UserRow>, db: Db, session: Option<Session>, id: string,
                              changes: UserFlow.UserChanges, hash: string -> string, show: int -> string)
    requires UserFlow.PutUser(db, session, Some(id), changes, hash).status == HttpOk
    ensures
      var after := UserFlow.PutUser(db, session, Some(id), changes, hash).db;
      var shown := AfterUpdate(rows, id, Some(ApiUserOf(after.users[id], show)));
      forall i :: 0 <= i < |rows| && rows[i].id == id ==>
        shown[i].username == after.users[id].username && shown[i].role == after.users[id].role
  {
  }
}
