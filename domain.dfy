/**
 * The relational store of the inventory application as values: the entities,
 * the whole store (`Db`), the facts the store keeps true (`Consistent`), the
 * audit-log wording, and the results the server actions and the HTTP routes give.
 */
module Domain {
  import opened Wrappers
  import opened Text

  /** Row ids (cuid strings chosen by the store). */
  type Id = string

  datatype Role = ADMIN | STAFF
  datatype Status = PENDING | APPROVED | DENIED

  function RoleName(r: Role): string {
    match r
    case ADMIN => "ADMIN"
    case STAFF => "STAFF"
  }

  /** The enum check the store (and `z.enum([ADMIN, STAFF])`) applies to a role string. */
  function ParseRole(s: string): (r: Option<Role>)
    ensures r.Some? <==> s == "ADMIN" || s == "STAFF"
    ensures r.Some? ==> RoleName(r.value) == s
    ensures forall x :: RoleName(x) == s ==> r == Some(x)
  {
    if s == "ADMIN" then Some(ADMIN) else if s == "STAFF" then Some(STAFF) else None
  }

  function StatusName(s: Status): string {
    match s
    case PENDING => "PENDING"
    case APPROVED => "APPROVED"
    case DENIED => "DENIED"
  }

  /** The enum check the store applies to a request-status string. */
  function ParseStatus(s: string): (r: Option<Status>)
    ensures r.Some? <==> s == "PENDING" || s == "APPROVED" || s == "DENIED"
    ensures r.Some? ==> StatusName(r.value) == s
    ensures forall x :: StatusName(x) == s ==> r == Some(x)
  {
    if s == "PENDING" then Some(PENDING)
    else if s == "APPROVED" then Some(APPROVED)
    else if s == "DENIED" then Some(DENIED)
    else None
  }

  /** The signed-in caller: `session.user.id` and `session.user.role`. */
  datatype Session = Session(userId: Id, role: Role)

  predicate IsAdmin(session: Option<Session>) {
    session.Some? && session.value.role == ADMIN
  }

  datatype Supply = Supply(id: Id, name: string, description: string, quantity: int, minimumThreshold: int)
  datatype Request = Request(id: Id, userId: Id, supplyId: Id, quantity: int, status: Status, createdAt: int)
  datatype User = User(id: Id, username: string, password: string, role: Role, createdAt: int)
  datatype Setting = Setting(id: Id, key: string, value: string, description: string)

  /** An audit-log row: who did it and a free-text description. */
  datatype Entry = Entry(userId: Id, action: string)

  /** A `notification` event broadcast on the real-time channel. */
  datatype Notification = LowInventory(message: string)

  /** The tables, the audit log, and (as a record) the events broadcast so far. */
  datatype Db = Db(
    supplies: map<Id, Supply>,
    requests: map<Id, Request>,
    users: map<Id, User>,
    settings: map<Id, Setting>,
    audit: seq<Entry>,
    notifications: seq<Notification>)

  /** The low-stock condition: stock at or below the supply's minimum threshold. */
  predicate IsLowStock(s: Supply) {
    s.quantity <= s.minimumThreshold
  }

  function AdminIds(users: map<Id, User>): set<Id> {
    set k | k in users && users[k].role == ADMIN
  }

  function AdminCount(users: map<Id, User>): nat {
    |AdminIds(users)|
  }

  /** Some `PENDING` request refers to the supply. */
  predicate HasPendingRequest(requests: map<Id, Request>, supplyId: Id) {
    exists k :: k in requests && requests[k].supplyId == supplyId && requests[k].status == PENDING
  }

  /** Some row other than `except` already uses the name (a unique column). */
  predicate SupplyNameTaken(supplies: map<Id, Supply>, name: string, except: Id) {
    exists k :: k in supplies && k != except && supplies[k].name == name
  }

  predicate UsernameTaken(users: map<Id, User>, username: string, except: Id) {
    exists k :: k in users && k != except && users[k].username == username
  }

  ghost predicate SuppliesConsistent(supplies: map<Id, Supply>) {
    && (forall k :: k in supplies ==> supplies[k].id == k && supplies[k].quantity >= 0 && supplies[k].minimumThreshold >= 0)
    && (forall a, b :: a in supplies && b in supplies && supplies[a].name == supplies[b].name ==> a == b)
  }

  ghost predicate RequestsConsistent(requests: map<Id, Request>, supplies: map<Id, Supply>) {
    && (forall k :: k in requests ==> requests[k].id == k && requests[k].quantity >= 1)
    && (forall k :: k in requests && requests[k].status == PENDING ==> requests[k].supplyId in supplies)
  }

  ghost predicate UsersConsistent(users: map<Id, User>) {
    && (forall k :: k in users ==> users[k].id == k)
    && (forall a, b :: a in users && b in users && users[a].username == users[b].username ==> a == b)
  }

  ghost predicate SettingsConsistent(settings: map<Id, Setting>) {
    && (forall k :: k in settings ==> settings[k].id == k)
    && (forall a, b :: a in settings && b in settings && settings[a].key == settings[b].key ==> a == b)
  }

  /**
   * What the store keeps true: rows are keyed by their own id; stock and
   * thresholds are never negative; every request asks for at least one unit;
   * a pending request's supply exists; supply names, usernames and setting
   * keys are unique.
   */
  ghost predicate Consistent(db: Db) {
    && SuppliesConsistent(db.supplies)
    && RequestsConsistent(db.requests, db.supplies)
    && UsersConsistent(db.users)
    && SettingsConsistent(db.settings)
  }

  /**
   * How the requests table may change: no request disappears or changes its
   * user, supply, quantity or creation time, and a request that has left
   * `PENDING` keeps its status.
   */
  ghost predicate RequestsEvolve(before: map<Id, Request>, after: map<Id, Request>) {
    forall k :: k in before ==>
      && k in after
      && after[k] == before[k].(status := after[k].status)
      && (before[k].status != PENDING ==> after[k].status == before[k].status)
  }

  /**
   * How the store may change from one operation to the next: requests evolve
   * as above, the audit log and the notifications only grow at the end, and
   * once there is an administrator there stays one.
   */
  ghost predicate Evolves(before: Db, after: Db) {
    && RequestsEvolve(before.requests, after.requests)
    && before.audit <= after.audit
    && before.notifications <= after.notifications
    && (AdminCount(before.users) >= 1 ==> AdminCount(after.users) >= 1)
  }

  // Audit-log and notification wording.

  function CreatedRequestText(quantity: int, supplyName: string): string {
    "Created request for " + ShowInt(quantity) + " " + supplyName
  }

  function StatusChangeText(status: Status, quantity: int, supplyName: string): string {
    StatusName(status) + " request for " + ShowInt(quantity) + " " + supplyName
  }

  function QuantityText(supplyName: string, quantity: int): string {
    "Updated quantity for " + supplyName + " to " + ShowInt(quantity)
  }

  function LowStockText(supplyName: string, quantity: int): string {
    "Low stock alert for " + supplyName + " (" + ShowInt(quantity) + " remaining)"
  }

  function LowInventoryMessage(s: Supply): string {
    "Low stock alert: " + s.name + " has only " + ShowInt(s.quantity) + " units remaining"
  }

  const SettingsUpdatedText := "Updated system settings"

  // Results.

  /** Why a shared core refused, before writing anything. `StoreError` is an exception the store raises. */
  datatype Fault = NotFound | InsufficientStock | AlreadyProcessed | PendingRequests | StoreError

  datatype Outcome = Done | Refused(fault: Fault)

  /** A server action's error: a message, or the list of schema issues (`error.errors`). */
  datatype ActionError = Message(text: string) | SchemaIssues

  datatype ActionResult = Success | Failure(error: ActionError)

  /** The store after a shared core, and what the core decided. */
  datatype Applied = Applied(db: Db, outcome: Outcome)

  /** The store after a server action, and its result. */
  datatype ActionReply = ActionReply(db: Db, result: ActionResult)

  /** The store after an HTTP route handler, and the status code of its response. */
  datatype HttpReply = HttpReply(db: Db, status: nat)

  const HttpOk: nat := 200
  const HttpCreated: nat := 201
  const HttpBadRequest: nat := 400
  const HttpUnauthorized: nat := 401
  const HttpForbidden: nat := 403
  const HttpNotFound: nat := 404
  const HttpServerError: nat := 500

  /** A query-string or JSON value that JavaScript treats as true: present and non-empty. */
  predicate Truthy(s: Option<string>) {
    s.Some? && s.value != ""
  }
}
