/**
 * The store as the server sees it: one object whose tables the server
 * actions and route handlers update in place. Each changing method does what
 * its action or route does, step by step, and is proved to land in the state
 * (and give the answer) that the value-level definition in `RequestFlow`,
 * `SupplyFlow`, `UserFlow` or `Settings` prescribes; the lemmas there (and
 * `Trace.RunKeeps`) say what those definitions keep true.
 */
module Inventory {
  import opened Wrappers
  import opened Text
  import opened Domain
  import Ordering
  import Tables
  import RequestFlow
  import RequestQueries
  import SupplyFlow
  import UserFlow
  import Settings

  /** The answer of a read action: `{ success: true, data }` or `{ success: false, error }`. */
  datatype Fetched<T> = Fetched(data: T) | FetchFailed(error: string)

  /** Ascending by name (`orderBy: { name: "asc" }`). */
  function ByName(a: Supply, b: Supply): bool {
    StrLe(a.name, b.name)
  }

  /** Ascending by key (`orderBy: { key: "asc" }`). */
  function ByKey(a: Setting, b: Setting): bool {
    StrLe(a.key, b.key)
  }

  /** A row of `GET /api/users`: the user without the password, and how many requests they made. */
  datatype UserRow = UserRow(id: Id, username: string, role: Role, createdAt: int, requestCount: nat)

  /** Ascending by username (`orderBy: { username: "asc" }`). */
  function ByUsername(a: UserRow, b: UserRow): bool {
    StrLe(a.username, b.username)
  }

  lemma ByNameTotal()
    ensures Ordering.TotalPreorder(ByName)
  {
    forall a: Supply, b: Supply ensures ByName(a, b) || ByName(b, a) {
      StrLeTotal(a.name, b.name);
    }
    forall a: Supply, b: Supply, c: Supply | ByName(a, b) && ByName(b, c) ensures ByName(a, c) {
      StrLeTransitive(a.name, b.name, c.name);
    }
  }

  lemma ByKeyTotal()
    ensures Ordering.TotalPreorder(ByKey)
  {
    forall a: Setting, b: Setting ensures ByKey(a, b) || ByKey(b, a) {
      StrLeTotal(a.key, b.key);
    }
    forall a: Setting, b: Setting, c: Setting | ByKey(a, b) && ByKey(b, c) ensures ByKey(a, c) {
      StrLeTransitive(a.key, b.key, c.key);
    }
  }

  lemma ByUsernameTotal()
    ensures Ordering.TotalPreorder(ByUsername)
  {
    forall a: UserRow, b: UserRow ensures ByUsername(a, b) || ByUsername(b, a) {
      StrLeTotal(a.username, b.username);
    }
    forall a: UserRow, b: UserRow, c: UserRow | ByUsername(a, b) && ByUsername(b, c) ensures ByUsername(a, c) {
      StrLeTransitive(a.username, b.username, c.username);
    }
  }

  /** The ids of the requests a user made (`_count.requests`). */
  ghost function RequestIdsOf(requests: map<Id, Request>, userId: Id): set<Id> {
    set k | k in requests && requests[k].userId == userId
  }

  ghost function RowOf(u: User, requests: map<Id, Request>): UserRow {
    UserRow(u.id, u.username, u.role, u.createdAt, |RequestIdsOf(requests, u.id)|)
  }

  /** One row per user, in the order the users were read, covers exactly the users. */
  lemma RowsCoverUsers(users: map<Id, User>, requests: map<Id, Request>, found: seq<User>, out: seq<UserRow>)
    requires forall x :: x in found <==> x in users.Values
    requires |out| == |found| && forall j :: 0 <= j < |found| ==> out[j] == RowOf(found[j], requests)
    ensures forall x :: x in out <==> exists k :: k in users && x == RowOf(users[k], requests)
  {
    forall x ensures x in out <==> exists k :: k in users && x == RowOf(users[k], requests) {
      if x in out {
        var j :| 0 <= j < |out| && out[j] == x;
        assert found[j] in users.Values;
      }
      if exists k :: k in users && x == RowOf(users[k], requests) {
        var k :| k in users && x == RowOf(users[k], requests);
        assert users[k] in found;
        var j :| 0 <= j < |found| && found[j] == users[k];
        assert out[j] == x;
      }
    }
  }

  /** Sorting the rows by username keeps them all, once each. */
  lemma SortedByUsername(out: seq<UserRow>)
    ensures forall x :: x in Ordering.SortBy(out, ByUsername) <==> x in out
    ensures |Ordering.SortBy(out, ByUsername)| == |out|
    ensures Ordering.Sorted(Ordering.SortBy(out, ByUsername), ByUsername)
  {
    var rows := Ordering.SortBy(out, ByUsername);
    ByUsernameTotal();
    Ordering.SortBySorted(out, ByUsername);
    Ordering.SameElements(out, rows);
    assert |rows| == |multiset(rows)| == |multiset(out)| == |out|;
  }

  /** The store after a successful decision is the one `RequestFlow.UpdateStatusCore` gives, and stays consistent. */
  lemma DecisionApplied(before: Db, adminId: Id, id: Id, target: Status, after: Db)
    requires Consistent(before)
    requires id in before.requests && before.requests[id].status == PENDING
    requires before.requests[id].supplyId in before.supplies
    requires var request := before.requests[id];
             var supply := before.supplies[request.supplyId];
             && (target == APPROVED ==> request.quantity <= supply.quantity)
             && after.supplies == (if target == APPROVED
                                   then before.supplies[request.supplyId := supply.(quantity := supply.quantity - request.quantity)]
                                   else before.supplies)
             && after.requests == before.requests[id := request.(status := target)]
             && after.audit == before.audit + [Entry(adminId, StatusChangeText(target, request.quantity, supply.name))]
    requires after.users == before.users && after.settings == before.settings
    requires after.notifications == before.notifications
    ensures Consistent(after)
    ensures RequestFlow.UpdateStatusCore(before, adminId, id, target) == Applied(after, Done)
  {
    var r := RequestFlow.UpdateStatusCore(before, adminId, id, target);
    assert r.outcome == Done;
    assert r.db == Db(after.supplies, after.requests, after.users, after.settings, after.audit, after.notifications);
    RequestFlow.UpdateStatusCoreKeeps(before, adminId, id, target);
  }

  /** Setting one supply's stock to a non-negative number keeps the store consistent. */
  lemma StockSetConsistent(db: Db, id: Id, quantity: int, after: Db)
    requires Consistent(db) && id in db.supplies && quantity >= 0
    requires after.supplies == db.supplies[id := db.supplies[id].(quantity := quantity)]
    requires after.requests == db.requests && after.users == db.users && after.settings == db.settings
    ensures Consistent(after)
  {
  }

  /** The store after a successful stock update is the one `SupplyFlow.UpdateQuantityAction` gives. */
  lemma QuantityApplied(before: Db, session: Option<Session>, id: Id, quantity: int, after: Db)
    requires IsAdmin(session) && quantity >= 0 && id in before.supplies
    requires var s := before.supplies[id].(quantity := quantity);
             var adminId := session.value.userId;
             && after.supplies == before.supplies[id := s]
             && after.audit == before.audit + [Entry(adminId, QuantityText(s.name, quantity))]
                               + (if IsLowStock(s) then [Entry(adminId, LowStockText(s.name, quantity))] else [])
             && after.notifications == before.notifications + SupplyFlow.LowStockNotice(s)
    requires after.requests == before.requests && after.users == before.users && after.settings == before.settings
    ensures SupplyFlow.UpdateQuantityAction(before, session, id, quantity) == ActionReply(after, Success)
  {
  }

  /** The newest `n` of some requests: drawn from them, as many as there are up to `n`, newest first, and none older than one left out. */
  lemma NewestOf(found: seq<Request>, n: nat)
    requires Tables.Distinct(found)
    ensures var recent := Ordering.Take(Ordering.SortBy(found, RequestQueries.NewestFirst), n);
      && Tables.Distinct(recent)
      && (forall x :: x in recent ==> x in found)
      && |recent| == (if |found| <= n then |found| else n)
      && Ordering.Sorted(recent, RequestQueries.NewestFirst)
      && (forall x, y :: x in found && x !in recent && y in recent ==> y.createdAt >= x.createdAt)
  {
    var sorted := Ordering.SortBy(found, RequestQueries.NewestFirst);
    RequestQueries.NewestFirstTotal();
    Ordering.SortBySorted(found, RequestQueries.NewestFirst);
    Ordering.SameElements(found, sorted);
    assert |sorted| == |multiset(sorted)| == |multiset(found)| == |found|;
    var recent := Ordering.Take(sorted, n);
    forall x | x in recent ensures x in sorted {
      var i :| 0 <= i < |recent| && recent[i] == x;
      assert sorted[i] == x;
    }
    forall x, y | x in found && x !in recent && y in recent
      ensures y.createdAt >= x.createdAt
    {
      Ordering.TakeSortedTop(sorted, n, RequestQueries.NewestFirst, y, x);
    }
    assert Ordering.Sorted(recent, RequestQueries.NewestFirst);
    Tables.DistinctPermutation(found, sorted);
  }

  /** A supply with its five most recent requests (`getSupply`). */
  datatype SupplyDetail = SupplyDetail(supply: Supply, recentRequests: seq<Request>)

  const RecentRequestCount: nat := 5

  class Store {
    var supplies: map<Id, Supply>
    var requests: map<Id, Request>
    var users: map<Id, User>
    var settings: map<Id, Setting>
    var audit: seq<Entry>
    /** The low-inventory notifications emitted so far. */
    ghost var notifications: seq<Notification>

    ghost function State(): Db
      reads this
    {
      Db(supplies, requests, users, settings, audit, notifications)
    }

    ghost predicate Valid()
      reads this
    {
      Consistent(State())
    }

    constructor (db: Db)
      requires Consistent(db)
      ensures State() == db && Valid()
    {
      supplies := db.supplies;
      requests := db.requests;
      users := db.users;
      settings := db.settings;
      audit := db.audit;
      notifications := db.notifications;
    }

    // Requests.

    method CreateRequestCore(userId: Id, input: RequestFlow.RequestInput, newId: Id, now: int) returns (outcome: Outcome)
      requires Valid() && RequestFlow.RequestSchemaValid(input)
      modifies this
      ensures Valid()
      ensures Applied(State(), outcome) == RequestFlow.CreateRequestCore(old(State()), userId, input, newId, now)
    {
      ghost var before := State();
      if input.supplyId !in supplies {
        return Refused(NotFound);
      }
      var supply := supplies[input.supplyId];
      if input.quantity > supply.quantity {
        return Refused(InsufficientStock);
      }
      if newId in requests {
        return Refused(StoreError);
      }
      requests := requests[newId := Request(newId, userId, input.supplyId, input.quantity, PENDING, now)];
      audit := audit + [Entry(userId, CreatedRequestText(input.quantity, supply.name))];
      outcome := Done;
      RequestFlow.CreateRequestCoreKeeps(before, userId, input, newId, now);
    }

    /** Server action `createRequest`. */
    method CreateRequest(session: Option<Session>, input: RequestFlow.RequestInput, newId: Id, now: int)
      returns (result: ActionResult)
      requires Valid()
      modifies this
      ensures Valid()
      ensures ActionReply(State(), result) == RequestFlow.CreateRequestAction(old(State()), session, input, newId, now)
    {
      if session.None? {
        return Failure(Message("Failed to create request"));
      }
      if !RequestFlow.RequestSchemaValid(input) {
        return Failure(SchemaIssues);
      }
      var outcome := CreateRequestCore(session.value.userId, input, newId, now);
      result := RequestFlow.CreateRequestResult(outcome);
    }

    /** Route `POST /api/requests`. */
    method PostRequest(session: Option<Session>, body: Option<RequestFlow.RequestInput>, newId: Id, now: int)
      returns (status: nat)
      requires Valid()
      modifies this
      ensures Valid()
      ensures HttpReply(State(), status) == RequestFlow.PostRequest(old(State()), session, body, newId, now)
    {
      if session.None? {
        return HttpUnauthorized;
      }
      if body.None? || !RequestFlow.RequestSchemaValid(body.value) {
        return HttpBadRequest;
      }
      var outcome := CreateRequestCore(session.value.userId, body.value, newId, now);
      status := RequestFlow.PostRequestStatus(outcome);
    }

    method UpdateStatusCore(adminId: Id, id: Id, target: Status) returns (outcome: Outcome)
      requires Valid()
      modifies this
      ensures Valid()
      ensures Applied(State(), outcome) == RequestFlow.UpdateStatusCore(old(State()), adminId, id, target)
    {
      ghost var before := State();
      if id !in requests {
        return Refused(NotFound);
      }
      var request := requests[id];
      if request.status != PENDING {
        return Refused(AlreadyProcessed);
      }
      if request.supplyId !in supplies {
        return Refused(StoreError);
      }
      var supply := supplies[request.supplyId];
      if target == APPROVED {
        if request.quantity > supply.quantity {
          return Refused(InsufficientStock);
        }
        supplies := supplies[request.supplyId := supply.(quantity := supply.quantity - request.quantity)];
      }
      requests := requests[id := request.(status := target)];
      audit := audit + [Entry(adminId, StatusChangeText(target, request.quantity, supply.name))];
      outcome := Done;
      DecisionApplied(before, adminId, id, target, State());
    }

    /** Server action `updateRequestStatus`. */
    method UpdateRequestStatus(session: Option<Session>, id: Id, target: Status) returns (result: ActionResult)
      requires Valid()
      modifies this
      ensures Valid()
      ensures ActionReply(State(), result) == RequestFlow.UpdateRequestStatusAction(old(State()), session, id, target)
    {
      if !IsAdmin(session) {
        return Failure(Message("Failed to update request"));
      }
      var outcome := UpdateStatusCore(session.value.userId, id, target);
      result := RequestFlow.UpdateStatusResult(outcome);
    }

    /** Route `PUT /api/requests`. */
    method PutRequest(session: Option<Session>, id: Option<string>, statusParam: Option<string>) returns (status: nat)
      requires Valid()
      modifies this
      ensures Valid()
      ensures HttpReply(State(), status) == RequestFlow.PutRequest(old(State()), session, id, statusParam)
    {
      if !IsAdmin(session) {
        return HttpUnauthorized;
      }
      if !RequestFlow.DecisionBodyValid(id, statusParam) {
        return HttpBadRequest;
      }
      var outcome := UpdateStatusCore(session.value.userId, id.value, ParseStatus(statusParam.value).value);
      status := RequestFlow.PutRequestStatus(outcome);
    }

    // Supplies.

    method CreateSupplyCore(adminId: Id, input: SupplyFlow.SupplyInput, newId: Id) returns (outcome: Outcome)
      requires Valid() && SupplyFlow.SupplySchemaValid(input)
      modifies this
      ensures Valid()
      ensures Applied(State(), outcome) == SupplyFlow.CreateSupplyCore(old(State()), adminId, input, newId)
    {
      ghost var before := State();
      if newId in supplies || SupplyNameTaken(supplies, input.name, newId) {
        return Refused(StoreError);
      }
      supplies := supplies[newId := SupplyFlow.SupplyOf(newId, input)];
      audit := audit + [Entry(adminId, "Created supply: " + input.name)];
      outcome := Done;
      SupplyFlow.CreateSupplyCoreKeeps(before, adminId, input, newId);
    }

    method UpdateSupplyCore(adminId: Id, id: Id, input: SupplyFlow.SupplyInput) returns (outcome: Outcome)
      requires Valid() && SupplyFlow.SupplySchemaValid(input)
      modifies this
      ensures Valid()
      ensures Applied(State(), outcome) == SupplyFlow.UpdateSupplyCore(old(State()), adminId, id, input)
    {
      ghost var before := State();
      if id !in supplies || SupplyNameTaken(supplies, input.name, id) {
        return Refused(StoreError);
      }
      supplies := supplies[id := SupplyFlow.SupplyOf(id, input)];
      audit := audit + [Entry(adminId, "Updated supply: " + input.name)];
      outcome := Done;
      SupplyFlow.UpdateSupplyCoreKeeps(before, adminId, id, input);
    }

    method DeleteSupplyCore(adminId: Id, id: Id) returns (outcome: Outcome)
      requires Valid()
      modifies this
      ensures Valid()
      ensures Applied(State(), outcome) == SupplyFlow.DeleteSupplyCore(old(State()), adminId, id)
    {
      ghost var before := State();
      if HasPendingRequest(requests, id) {
        return Refused(PendingRequests);
      }
      if id !in supplies {
        return Refused(StoreError);
      }
      var name := supplies[id].name;
      supplies := supplies - {id};
      audit := audit + [Entry(adminId, "Deleted supply: " + name)];
      outcome := Done;
      SupplyFlow.DeleteSupplyCoreKeeps(before, adminId, id);
    }

    /** `notifyLowInventory`, called when a supply is at or below its threshold. */
    method NotifyLowInventory(s: Supply)
      requires Valid() && IsLowStock(s)
      modifies this
      ensures Valid()
      ensures State() == old(State()).(notifications := old(notifications) + [LowInventory(LowInventoryMessage(s))])
    {
      notifications := notifications + [LowInventory(LowInventoryMessage(s))];
    }

    /** Server action `createSupply`. */
    method CreateSupply(session: Option<Session>, input: SupplyFlow.SupplyInput, newId: Id) returns (result: ActionResult)
      requires Valid()
      modifies this
      ensures Valid()
      ensures ActionReply(State(), result) == SupplyFlow.CreateSupplyAction(old(State()), session, input, newId)
    {
      if !IsAdmin(session) {
        return Failure(Message("Failed to create supply"));
      }
      if !SupplyFlow.SupplySchemaValid(input) {
        return Failure(SchemaIssues);
      }
      var outcome := CreateSupplyCore(session.value.userId, input, newId);
      if outcome != Done {
        return Failure(Message("Failed to create supply"));
      }
      var supply := supplies[newId];
      if IsLowStock(supply) {
        NotifyLowInventory(supply);
      }
      result := Success;
    }

    /** Server action `updateSupply`. */
    method UpdateSupply(session: Option<Session>, id: Id, input: SupplyFlow.SupplyInput) returns (result: ActionResult)
      requires Valid()
      modifies this
      ensures Valid()
      ensures ActionReply(State(), result) == SupplyFlow.UpdateSupplyAction(old(State()), session, id, input)
    {
      if !IsAdmin(session) {
        return Failure(Message("Failed to update supply"));
      }
      if !SupplyFlow.SupplySchemaValid(input) {
        return Failure(SchemaIssues);
      }
      var outcome := UpdateSupplyCore(session.value.userId, id, input);
      if outcome != Done {
        return Failure(Message("Failed to update supply"));
      }
      var supply := supplies[id];
      if IsLowStock(supply) {
        NotifyLowInventory(supply);
      }
      result := Success;
    }

    /** Server action `deleteSupply`. */
    method DeleteSupply(session: Option<Session>, id: Id) returns (result: ActionResult)
      requires Valid()
      modifies this
      ensures Valid()
      ensures ActionReply(State(), result) == SupplyFlow.DeleteSupplyAction(old(State()), session, id)
    {
      if !IsAdmin(session) {
        return Failure(Message("Failed to delete supply"));
      }
      var outcome := DeleteSupplyCore(session.value.userId, id);
      result := SupplyFlow.DeleteSupplyResult(outcome);
    }

    /** Server action `updateQuantity`. */
    method UpdateQuantity(session: Option<Session>, id: Id, quantity: int) returns (result: ActionResult)
      requires Valid()
      modifies this
      ensures Valid()
      ensures ActionReply(State(), result) == SupplyFlow.UpdateQuantityAction(old(State()), session, id, quantity)
    {
      ghost var before := State();
      if !IsAdmin(session) {
        return Failure(Message("Failed to update quantity"));
      }
      if quantity < 0 {
        return Failure(Message("Quantity cannot be negative"));
      }
      if id !in supplies {
        return Failure(Message("Failed to update quantity"));
      }
      var adminId := session.value.userId;
      var supply := supplies[id].(quantity := quantity);
      supplies := supplies[id := supply];
      audit := audit + [Entry(adminId, QuantityText(supply.name, quantity))];
      StockSetConsistent(before, id, quantity, State());
      if IsLowStock(supply) {
        audit := audit + [Entry(adminId, LowStockText(supply.name, quantity))];
        NotifyLowInventory(supply);
      }
      result := Success;
      QuantityApplied(before, session, id, quantity, State());
    }

    /** Route `POST /api/supplies`. */
    method PostSupply(session: Option<Session>, body: Option<SupplyFlow.SupplyInput>, newId: Id) returns (status: nat)
      requires Valid()
      modifies this
      ensures Valid()
      ensures HttpReply(State(), status) == SupplyFlow.PostSupply(old(State()), session, body, newId)
    {
      if !IsAdmin(session) {
        return HttpUnauthorized;
      }
      if body.None? || !SupplyFlow.SupplySchemaValid(body.value) {
        return HttpBadRequest;
      }
      var outcome := CreateSupplyCore(session.value.userId, body.value, newId);
      status := SupplyFlow.SupplyRouteStatus(outcome, HttpCreated);
    }

    /** Route `PUT /api/supplies`. */
    method PutSupply(session: Option<Session>, id: Option<string>, body: Option<SupplyFlow.SupplyInput>) returns (status: nat)
      requires Valid()
      modifies this
      ensures Valid()
      ensures HttpReply(State(), status) == SupplyFlow.PutSupply(old(State()), session, id, body)
    {
      if !IsAdmin(session) {
        return HttpUnauthorized;
      }
      if !Truthy(id) {
        return HttpBadRequest;
      }
      if body.None? || !SupplyFlow.SupplySchemaValid(body.value) {
        return HttpBadRequest;
      }
      var outcome := UpdateSupplyCore(session.value.userId, id.value, body.value);
      status := SupplyFlow.SupplyRouteStatus(outcome, HttpOk);
    }

    /** Route `DELETE /api/supplies?id=…`. */
    method DeleteSupplyRoute(session: Option<Session>, id: Option<string>) returns (status: nat)
      requires Valid()
      modifies this
      ensures Valid()
      ensures HttpReply(State(), status) == SupplyFlow.DeleteSupplyRoute(old(State()), session, id)
    {
      if !IsAdmin(session) {
        return HttpUnauthorized;
      }
      if !Truthy(id) {
        return HttpBadRequest;
      }
      var outcome := DeleteSupplyCore(session.value.userId, id.value);
      status := SupplyFlow.SupplyRouteStatus(outcome, HttpOk);
    }

    // Users.

    /** Route `POST /api/users`. */
    method PostUser(session: Option<Session>, body: Option<UserFlow.UserInput>, hash: string -> string, newId: Id, now: int)
      returns (status: nat)
      requires Valid()
      modifies this
      ensures Valid()
      ensures HttpReply(State(), status) == UserFlow.PostUser(old(State()), session, body, hash, newId, now)
    {
      ghost var before := State();
      if !IsAdmin(session) {
        return HttpUnauthorized;
      }
      if body.None? || !UserFlow.UserSchemaValid(body.value) {
        return HttpBadRequest;
      }
      var input := body.value;
      if exists k :: k in users && users[k].username == input.username {
        return HttpBadRequest;
      }
      if newId in users {
        return HttpServerError;
      }
      var role := ParseRole(input.role).value;
      users := users[newId := User(newId, input.username, hash(input.password), role, now)];
      audit := audit + [Entry(session.value.userId, "Created user: " + input.username)];
      status := HttpCreated;
      UserFlow.PostUserKeeps(before, session, body, hash, newId, now);
    }

    /** Route `PUT /api/users`. */
    method PutUser(session: Option<Session>, id: Option<string>, changes: UserFlow.UserChanges, hash: string -> string)
      returns (status: nat)
      requires Valid()
      modifies this
      ensures Valid()
      ensures HttpReply(State(), status) == UserFlow.PutUser(old(State()), session, id, changes, hash)
    {
      ghost var before := State();
      if !IsAdmin(session) {
        return HttpUnauthorized;
      }
      if !Truthy(id) {
        return HttpBadRequest;
      }
      var key := id.value;
      if changes.role == Some("STAFF") {
        var adminCount := AdminCount(users);
        if adminCount == 1 && key in users && users[key].role == ADMIN {
          return HttpBadRequest;
        }
      }
      if key !in users {
        return HttpServerError;
      }
      if changes.role.Some? && ParseRole(changes.role.value).None? {
        return HttpServerError;
      }
      var user := UserFlow.Changed(users[key], changes, hash);
      if UsernameTaken(users, user.username, key) {
        return HttpServerError;
      }
      users := users[key := user];
      audit := audit + [Entry(session.value.userId, "Updated user: " + user.username)];
      status := HttpOk;
      UserFlow.PutUserKeeps(before, session, id, changes, hash);
    }

    /** Route `DELETE /api/users?id=…`. */
    method DeleteUser(session: Option<Session>, id: Option<string>) returns (status: nat)
      requires Valid()
      modifies this
      ensures Valid()
      ensures HttpReply(State(), status) == UserFlow.DeleteUser(old(State()), session, id)
    {
      ghost var before := State();
      if !IsAdmin(session) {
        return HttpUnauthorized;
      }
      if !Truthy(id) {
        return HttpBadRequest;
      }
      var key := id.value;
      if key in users && users[key].role == ADMIN {
        var adminCount := AdminCount(users);
        if adminCount == 1 {
          return HttpBadRequest;
        }
      }
      if key !in users {
        return HttpServerError;
      }
      var username := users[key].username;
      users := users - {key};
      audit := audit + [Entry(session.value.userId, "Deleted user: " + username)];
      status := HttpOk;
      UserFlow.DeleteUserKeeps(before, session, id);
    }

    // Settings.

    /** The transaction of the bulk update: all updates or none, then one audit entry. */
    method UpdateSettingsCore(adminId: Id, updates: seq<Settings.SettingInput>) returns (outcome: Outcome)
      requires Valid()
      modifies this
      ensures Valid()
      ensures Applied(State(), outcome) == Settings.UpdateSettingsCore(old(State()), adminId, updates)
    {
      ghost var before := State();
      if !Settings.AllIdsExist(settings, updates) {
        return Refused(StoreError);
      }
      var i := 0;
      while i < |updates|
        invariant 0 <= i <= |updates|
        invariant Settings.ApplyValues(settings, updates[i..]) == Settings.ApplyValues(before.settings, updates)
        invariant State() == before.(settings := settings)
      {
        var u := updates[i];
        assert updates[i..] == [u] + updates[i + 1..];
        if u.id in settings {
          settings := settings[u.id := settings[u.id].(value := u.value)];
        }
        i := i + 1;
      }
      assert updates[i..] == [];
      audit := audit + [Entry(adminId, SettingsUpdatedText)];
      outcome := Done;
      Settings.UpdateSettingsCoreKeeps(before, adminId, updates);
    }

    /** Server action `updateSettings`. */
    method UpdateSettings(session: Option<Session>, updates: seq<Settings.SettingInput>) returns (result: ActionResult)
      requires Valid()
      modifies this
      ensures Valid()
      ensures ActionReply(State(), result) == Settings.UpdateSettingsAction(old(State()), session, updates)
    {
      if !IsAdmin(session) {
        return Failure(Message("Failed to update settings"));
      }
      var outcome := UpdateSettingsCore(session.value.userId, updates);
      result := if outcome == Done then Success else Failure(Message("Failed to update settings"));
    }

    /** Route `PUT /api/admin/settings`. */
    method PutSettings(session: Option<Session>, body: Option<seq<Settings.SettingInput>>) returns (status: nat)
      requires Valid()
      modifies this
      ensures Valid()
      ensures HttpReply(State(), status) == Settings.PutSettings(old(State()), session, body)
    {
      if !IsAdmin(session) {
        return HttpUnauthorized;
      }
      if body.None? {
        return HttpBadRequest;
      }
      var outcome := UpdateSettingsCore(session.value.userId, body.value);
      status := if outcome == Done then HttpOk else HttpServerError;
    }

    // Reads.

    /** The requests a filter selects, newest first, each once. */
    method ListRequests(f: RequestQueries.RequestFilter) returns (rows: seq<Request>)
      ensures forall x :: x in rows <==> x in requests.Values && RequestQueries.Matches(x, f)
      ensures |rows| == |RequestQueries.MatchingIds(requests, f)|
      ensures Ordering.Sorted(rows, RequestQueries.NewestFirst)
    {
      var found := Tables.Select(requests, (r: Request) => RequestQueries.Matches(r, f));
      assert Tables.Matching(requests, (r: Request) => RequestQueries.Matches(r, f)) == RequestQueries.MatchingIds(requests, f);
      rows := Ordering.SortBy(found, RequestQueries.NewestFirst);
      RequestQueries.NewestFirstTotal();
      Ordering.SortBySorted(found, RequestQueries.NewestFirst);
      Ordering.SameElements(found, rows);
      assert |rows| == |multiset(rows)| == |multiset(found)| == |found|;
    }

    /** Server action `getRequests`. */
    method GetRequests(session: Option<Session>) returns (r: Fetched<seq<Request>>)
      requires Valid()
      ensures session.None? ==> r == FetchFailed("Failed to fetch requests")
      ensures session.Some? ==>
        var f := RequestQueries.OwnFilter(session.value, Settings.ShowAllRequests(settings));
        && r.Fetched?
        && (forall x :: x in r.data <==> x in requests.Values && RequestQueries.Matches(x, f))
        && |r.data| == |RequestQueries.MatchingIds(requests, f)|
        && Ordering.Sorted(r.data, RequestQueries.NewestFirst)
    {
      if session.None? {
        return FetchFailed("Failed to fetch requests");
      }
      var showAll := Settings.ShowAllRequests(settings);
      var rows := ListRequests(RequestQueries.OwnFilter(session.value, showAll));
      r := Fetched(rows);
    }

    /** Server action `getRequest`: a request the caller may not see is reported as missing. */
    method GetRequest(session: Option<Session>, id: Id) returns (r: Fetched<Request>)
      requires Valid()
      ensures session.None? ==> r == FetchFailed("Failed to fetch request")
      ensures session.Some? ==>
        var f := RequestQueries.OwnFilter(session.value, Settings.ShowAllRequests(settings));
        && (r.Fetched? <==> id in requests && RequestQueries.Matches(requests[id], f))
        && (r.Fetched? ==> r.data == requests[id])
        && (r.FetchFailed? ==> r.error == "Request not found")
    {
      if session.None? {
        return FetchFailed("Failed to fetch request");
      }
      var f := RequestQueries.OwnFilter(session.value, Settings.ShowAllRequests(settings));
      if id in requests && RequestQueries.Matches(requests[id], f) {
        r := Fetched(requests[id]);
      } else {
        r := FetchFailed("Request not found");
      }
    }

    /** Route `GET /api/requests?status=…&userId=…`. */
    method GetRequestsRoute(session: Option<Session>, statusParam: Option<string>, userIdParam: Option<string>)
      returns (status: nat, rows: seq<Request>)
      requires Valid()
      ensures session.None? ==> status == HttpUnauthorized && rows == []
      ensures session.Some? ==>
        var f := RequestQueries.RouteFilter(session.value, Settings.ShowAllRequests(settings), statusParam, userIdParam);
        && (f.None? ==> status == HttpServerError && rows == [])
        && (f.Some? ==>
              && status == HttpOk
              && (forall x :: x in rows <==> x in requests.Values && RequestQueries.Matches(x, f.value))
              && |rows| == |RequestQueries.MatchingIds(requests, f.value)|
              && Ordering.Sorted(rows, RequestQueries.NewestFirst))
    {
      if session.None? {
        return HttpUnauthorized, [];
      }
      var showAll := Settings.ShowAllRequests(settings);
      var f := RequestQueries.RouteFilter(session.value, showAll, statusParam, userIdParam);
      if f.None? {
        return HttpServerError, [];
      }
      rows := ListRequests(f.value);
      status := HttpOk;
    }

    /** Server action `getSupplies`: every supply, by name. */
    method GetSupplies() returns (rows: seq<Supply>)
      ensures forall x :: x in rows <==> x in supplies.Values
      ensures |rows| == |supplies|
      ensures Ordering.Sorted(rows, ByName)
    {
      var found := Tables.Select(supplies, (s: Supply) => true);
      assert Tables.Matching(supplies, (s: Supply) => true) == supplies.Keys;
      rows := Ordering.SortBy(found, ByName);
      ByNameTotal();
      Ordering.SortBySorted(found, ByName);
      Ordering.SameElements(found, rows);
      assert |rows| == |multiset(rows)| == |multiset(found)| == |found|;
    }

    /** Route `GET /api/supplies`: any signed-in user. */
    method GetSuppliesRoute(session: Option<Session>) returns (status: nat, rows: seq<Supply>)
      ensures session.None? ==> status == HttpUnauthorized && rows == []
      ensures session.Some? ==>
        && status == HttpOk
        && (forall x :: x in rows <==> x in supplies.Values)
        && |rows| == |supplies|
        && Ordering.Sorted(rows, ByName)
    {
      if session.None? {
        return HttpUnauthorized, [];
      }
      rows := GetSupplies();
      status := HttpOk;
    }

    /** Server action `getSupply`: the supply and its five most recent requests. */
    method GetSupply(id: Id) returns (r: Fetched<SupplyDetail>)
      requires Valid()
      ensures id !in supplies ==> r == FetchFailed("Supply not found")
      ensures id in supplies ==>
        && r.Fetched?
        && r.data.supply == supplies[id]
        && (forall x :: x in r.data.recentRequests ==> x in requests.Values && x.supplyId == id)
        && Tables.Distinct(r.data.recentRequests)
        && |r.data.recentRequests| == (if |RequestIdsFor(id)| <= RecentRequestCount then |RequestIdsFor(id)| else RecentRequestCount)
        && Ordering.Sorted(r.data.recentRequests, RequestQueries.NewestFirst)
        && (forall x, y :: (x in requests.Values && x.supplyId == id && x !in r.data.recentRequests
                            && y in r.data.recentRequests) ==> y.createdAt >= x.createdAt)
    {
      if id !in supplies {
        return FetchFailed("Supply not found");
      }
      assert Tables.Injective(requests);
      var found := Tables.Select(requests, (x: Request) => x.supplyId == id);
      assert Tables.Matching(requests, (x: Request) => x.supplyId == id) == RequestIdsFor(id);
      var recent := Ordering.Take(Ordering.SortBy(found, RequestQueries.NewestFirst), RecentRequestCount);
      NewestOf(found, RecentRequestCount);
      r := Fetched(SupplyDetail(supplies[id], recent));
    }

    ghost function RequestIdsFor(supplyId: Id): set<Id>
      reads this
    {
      set k | k in requests && requests[k].supplyId == supplyId
    }

    /** How many requests a user made. */
    method CountRequestsOf(userId: Id) returns (n: nat)
      ensures n == |RequestIdsOf(requests, userId)|
    {
      var mine := Tables.Select(requests, (x: Request) => x.userId == userId);
      assert Tables.Matching(requests, (x: Request) => x.userId == userId) == RequestIdsOf(requests, userId);
      n := |mine|;
    }

    /** Route `GET /api/users`: administrators only; no password leaves the store. */
    method GetUsers(session: Option<Session>) returns (status: nat, rows: seq<UserRow>)
      ensures !IsAdmin(session) ==> status == HttpUnauthorized && rows == []
      ensures IsAdmin(session) ==>
        && status == HttpOk
        && (forall x :: x in rows <==> exists k :: k in users && x == RowOf(users[k], requests))
        && |rows| == |users|
        && Ordering.Sorted(rows, ByUsername)
    {
      if !IsAdmin(session) {
        return HttpUnauthorized, [];
      }
      var found := Tables.Select(users, (u: User) => true);
      assert Tables.Matching(users, (u: User) => true) == users.Keys;
      var out: seq<UserRow> := [];
      var i := 0;
      while i < |found|
        invariant 0 <= i <= |found|
        invariant |out| == i
        invariant forall j :: 0 <= j < i ==> out[j] == RowOf(found[j], requests)
      {
        var n := CountRequestsOf(found[i].id);
        out := out + [UserRow(found[i].id, found[i].username, found[i].role, found[i].createdAt, n)];
        i := i + 1;
      }
      RowsCoverUsers(users, requests, found, out);
      rows := Ordering.SortBy(out, ByUsername);
      SortedByUsername(out);
      status := HttpOk;
    }

    /** Every setting, by key. */
    method ListSettings() returns (rows: seq<Setting>)
      ensures forall x :: x in rows <==> x in settings.Values
      ensures |rows| == |settings|
      ensures Ordering.Sorted(rows, ByKey)
    {
      var found := Tables.Select(settings, (s: Setting) => true);
      assert Tables.Matching(settings, (s: Setting) => true) == settings.Keys;
      rows := Ordering.SortBy(found, ByKey);
      ByKeyTotal();
      Ordering.SortBySorted(found, ByKey);
      Ordering.SameElements(found, rows);
      assert |rows| == |multiset(rows)| == |multiset(found)| == |found|;
    }

    /** Server action `getAllSettings`: administrators only. */
    method GetAllSettings(session: Option<Session>) returns (r: Fetched<seq<Setting>>)
      ensures !IsAdmin(session) ==> r == FetchFailed("Failed to fetch settings")
      ensures IsAdmin(session) ==>
        && r.Fetched?
        && (forall x :: x in r.data <==> x in settings.Values)
        && |r.data| == |settings|
        && Ordering.Sorted(r.data, ByKey)
    {
      if !IsAdmin(session) {
        return FetchFailed("Failed to fetch settings");
      }
      var rows := ListSettings();
      r := Fetched(rows);
    }

    /** Route `GET /api/admin/settings`: administrators only. */
    method GetSettingsRoute(session: Option<Session>) returns (status: nat, rows: seq<Setting>)
      ensures !IsAdmin(session) ==> status == HttpUnauthorized && rows == []
      ensures IsAdmin(session) ==>
        && status == HttpOk
        && (forall x :: x in rows <==> x in settings.Values)
        && |rows| == |settings|
        && Ordering.Sorted(rows, ByKey)
    {
      if !IsAdmin(session) {
        return HttpUnauthorized, [];
      }
      rows := ListSettings();
      status := HttpOk;
    }
  }
}
