/**
 * Every entry point that changes the store, and what any sequence of calls
 * to them keeps true: the store stays consistent, requests are decided at
 * most once and never lose their data, the audit log and the notifications
 * only grow, and the last administrator is never removed.
 */
module Trace {
  import opened Wrappers
  import opened Domain
  import RequestFlow
  import SupplyFlow
  import UserFlow
  import Settings

  /** One call to a server action or a route handler, with everything the caller passes in. */
  datatype Op =
    | CreateRequest(session: Option<Session>, input: RequestFlow.RequestInput, newId: Id, now: int)
    | PostRequest(session: Option<Session>, requestBody: Option<RequestFlow.RequestInput>, newId: Id, now: int)
    | UpdateRequestStatus(session: Option<Session>, id: Id, target: Status)
    | PutRequest(session: Option<Session>, idParam: Option<string>, statusParam: Option<string>)
    | CreateSupply(session: Option<Session>, supply: SupplyFlow.SupplyInput, newId: Id)
    | UpdateSupply(session: Option<Session>, id: Id, supply: SupplyFlow.SupplyInput)
    | DeleteSupply(session: Option<Session>, id: Id)
    | UpdateQuantity(session: Option<Session>, id: Id, quantity: int)
    | PostSupply(session: Option<Session>, supplyBody: Option<SupplyFlow.SupplyInput>, newId: Id)
    | PutSupply(session: Option<Session>, idParam: Option<string>, supplyBody: Option<SupplyFlow.SupplyInput>)
    | DeleteSupplyRoute(session: Option<Session>, idParam: Option<string>)
    | PostUser(session: Option<Session>, userBody: Option<UserFlow.UserInput>, newId: Id, now: int)
    | PutUser(session: Option<Session>, idParam: Option<string>, changes: UserFlow.UserChanges)
    | DeleteUser(session: Option<Session>, idParam: Option<string>)
    | UpdateSettings(session: Option<Session>, updates: seq<Settings.SettingInput>)
    | PutSettings(session: Option<Session>, settingsBody: Option<seq<Settings.SettingInput>>)

  predicate IsRequestOp(op: Op) {
    op.CreateRequest? || op.PostRequest? || op.UpdateRequestStatus? || op.PutRequest?
  }

  predicate IsSupplyOp(op: Op) {
    || op.CreateSupply? || op.UpdateSupply? || op.DeleteSupply? || op.UpdateQuantity?
    || op.PostSupply? || op.PutSupply? || op.DeleteSupplyRoute?
  }

  predicate IsUserOp(op: Op) {
    op.PostUser? || op.PutUser? || op.DeleteUser?
  }

  /** The store after one call about requests. */
  function ApplyRequestOp(db: Db, op: Op): Db
    requires IsRequestOp(op)
  {
    match op
    case CreateRequest(s, input, newId, now) => RequestFlow.CreateRequestAction(db, s, input, newId, now).db
    case PostRequest(s, body, newId, now) => RequestFlow.PostRequest(db, s, body, newId, now).db
    case UpdateRequestStatus(s, id, target) => RequestFlow.UpdateRequestStatusAction(db, s, id, target).db
    case PutRequest(s, id, status) => RequestFlow.PutRequest(db, s, id, status).db
  }

  /** The store after one call about supplies. */
  function ApplySupplyOp(db: Db, op: Op): Db
    requires IsSupplyOp(op)
  {
    match op
    case CreateSupply(s, input, newId) => SupplyFlow.CreateSupplyAction(db, s, input, newId).db
    case UpdateSupply(s, id, input) => SupplyFlow.UpdateSupplyAction(db, s, id, input).db
    case DeleteSupply(s, id) => SupplyFlow.DeleteSupplyAction(db, s, id).db
    case UpdateQuantity(s, id, quantity) => SupplyFlow.UpdateQuantityAction(db, s, id, quantity).db
    case PostSupply(s, body, newId) => SupplyFlow.PostSupply(db, s, body, newId).db
    case PutSupply(s, id, body) => SupplyFlow.PutSupply(db, s, id, body).db
    case DeleteSupplyRoute(s, id) => SupplyFlow.DeleteSupplyRoute(db, s, id).db
  }

  /** The store after one call about users; `hash` is the password hash the user routes use. */
  function ApplyUserOp(db: Db, op: Op, hash: string -> string): Db
    requires IsUserOp(op)
  {
    match op
    case PostUser(s, body, newId, now) => UserFlow.PostUser(db, s, body, hash, newId, now).db
    case PutUser(s, id, changes) => UserFlow.PutUser(db, s, id, changes, hash).db
    case DeleteUser(s, id) => UserFlow.DeleteUser(db, s, id).db
  }

  /** The store after one call about settings. */
  function ApplySettingsOp(db: Db, op: Op): Db
    requires op.UpdateSettings? || op.PutSettings?
  {
    match op
    case UpdateSettings(s, updates) => Settings.UpdateSettingsAction(db, s, updates).db
    case PutSettings(s, body) => Settings.PutSettings(db, s, body).db
  }

  /** The store after one call. */
  function Apply(db: Db, op: Op, hash: string -> string): Db {
    if IsRequestOp(op) then ApplyRequestOp(db, op)
    else if IsSupplyOp(op) then ApplySupplyOp(db, op)
    else if IsUserOp(op) then ApplyUserOp(db, op, hash)
    else ApplySettingsOp(db, op)
  }

  /** The store after a sequence of calls, in order. */
  function Run(db: Db, ops: seq<Op>, hash: string -> string): Db
    decreases |ops|
  {
    if ops == [] then db else Run(Apply(db, ops[0], hash), ops[1..], hash)
  }

  lemma EvolvesReflexive(db: Db)
    ensures Evolves(db, db)
  {
  }

  lemma EvolvesTransitive(a: Db, b: Db, c: Db)
    requires Evolves(a, b) && Evolves(b, c)
    ensures Evolves(a, c)
  {
  }

  /** A call about requests keeps the store consistent and is an evolution. */
  lemma ApplyKeepsRequests(db: Db, op: Op)
    requires Consistent(db) && IsRequestOp(op)
    ensures Consistent(ApplyRequestOp(db, op))
    ensures Evolves(db, ApplyRequestOp(db, op))
  {
    match op
    case CreateRequest(s, input, newId, now) => RequestFlow.CreateRequestActionKeeps(db, s, input, newId, now);
    case PostRequest(s, body, newId, now) => RequestFlow.PostRequestKeeps(db, s, body, newId, now);
    case UpdateRequestStatus(s, id, target) => RequestFlow.UpdateRequestStatusActionKeeps(db, s, id, target);
    case PutRequest(s, id, status) => RequestFlow.PutRequestKeeps(db, s, id, status);
  }

  /** A call about supplies keeps the store consistent and is an evolution. */
  lemma ApplyKeepsSupplies(db: Db, op: Op)
    requires Consistent(db) && IsSupplyOp(op)
    ensures Consistent(ApplySupplyOp(db, op))
    ensures Evolves(db, ApplySupplyOp(db, op))
  {
    match op
    case CreateSupply(s, input, newId) => SupplyFlow.CreateSupplyActionKeeps(db, s, input, newId);
    case UpdateSupply(s, id, input) => SupplyFlow.UpdateSupplyActionKeeps(db, s, id, input);
    case DeleteSupply(s, id) => SupplyFlow.DeleteSupplyActionKeeps(db, s, id);
    case UpdateQuantity(s, id, quantity) => SupplyFlow.UpdateQuantityKeeps(db, s, id, quantity);
    case PostSupply(s, body, newId) => SupplyFlow.PostSupplyKeeps(db, s, body, newId);
    case PutSupply(s, id, body) => SupplyFlow.PutSupplyKeeps(db, s, id, body);
    case DeleteSupplyRoute(s, id) => SupplyFlow.DeleteSupplyRouteKeeps(db, s, id);
  }

  /** A call about users keeps the store consistent and is an evolution. */
  lemma ApplyKeepsUsers(db: Db, op: Op, hash: string -> string)
    requires Consistent(db) && IsUserOp(op)
    ensures Consistent(ApplyUserOp(db, op, hash))
    ensures Evolves(db, ApplyUserOp(db, op, hash))
  {
    match op
    case PostUser(s, body, newId, now) => UserFlow.PostUserKeeps(db, s, body, hash, newId, now);
    case PutUser(s, id, changes) => UserFlow.PutUserKeeps(db, s, id, changes, hash);
    case DeleteUser(s, id) => UserFlow.DeleteUserKeeps(db, s, id);
  }

  /** A call about settings keeps the store consistent and is an evolution. */
  lemma ApplyKeepsSettings(db: Db, op: Op)
    requires Consistent(db) && (op.UpdateSettings? || op.PutSettings?)
    ensures Consistent(ApplySettingsOp(db, op))
    ensures Evolves(db, ApplySettingsOp(db, op))
  {
    match op
    case UpdateSettings(s, updates) => Settings.UpdateSettingsActionKeeps(db, s, updates);
    case PutSettings(s, body) => Settings.PutSettingsKeeps(db, s, body);
  }

  /** Each single call keeps the store consistent and is an evolution. */
  lemma ApplyKeeps(db: Db, op: Op, hash: string -> string)
    requires Consistent(db)
    ensures Consistent(Apply(db, op, hash))
    ensures Evolves(db, Apply(db, op, hash))
  {
    if IsRequestOp(op) {
      ApplyKeepsRequests(db, op);
    } else if IsSupplyOp(op) {
      ApplyKeepsSupplies(db, op);
    } else if IsUserOp(op) {
      ApplyKeepsUsers(db, op, hash);
    } else {
      ApplyKeepsSettings(db, op);
    }
  }

  /**
   * Any sequence of calls, from a consistent store, leaves a consistent store
   * that has evolved from the first: in particular no request is ever decided
   * twice and stock is never negative.
   */
  lemma {:induction false} RunKeeps(db: Db, ops: seq<Op>, hash: string -> string)
    requires Consistent(db)
    ensures Consistent(Run(db, ops, hash))
    ensures Evolves(db, Run(db, ops, hash))
    decreases |ops|
  {
    if ops == [] {
      EvolvesReflexive(db);
    } else {
      var next := Apply(db, ops[0], hash);
      ApplyKeeps(db, ops[0], hash);
      RunKeeps(next, ops[1..], hash);
      EvolvesTransitive(db, next, Run(next, ops[1..], hash));
    }
  }

  /** A request that has been approved or denied keeps that status through any later calls. */
  lemma DecisionIsFinal(db: Db, ops: seq<Op>, hash: string -> string, id: Id)
    requires Consistent(db) && id in db.requests && db.requests[id].status != PENDING
    ensures id in Run(db, ops, hash).requests
    ensures Run(db, ops, hash).requests[id] == db.requests[id]
  {
    RunKeeps(db, ops, hash);
  }
}
