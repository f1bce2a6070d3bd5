/**
 * Creating a request and deciding it (approve / deny), as the server actions
 * `createRequest` / `updateRequestStatus` and the route handlers
 * `POST` / `PUT /api/requests` do it. Each pair shares one core that runs after
 * the caller and the input have been checked; the wrappers differ only in
 * those checks and in how they report the core's outcome.
 */
module RequestFlow {
  import opened Wrappers
  import opened Domain

  /** The fields `requestSchema` checks. */
  datatype RequestInput = RequestInput(supplyId: string, quantity: int)

  predicate RequestSchemaValid(input: RequestInput) {
    |input.supplyId| >= 1 && input.quantity >= 1
  }

  /**
   * Shared core of request creation: the supply must exist and hold at least
   * the requested quantity; the new request is `PENDING` and stock is not
   * reserved. `newId` is the id the store assigns; if it is taken the insert fails.
   */
  function CreateRequestCore(db: Db, userId: Id, input: RequestInput, newId: Id, now: int): (r: Applied)
    ensures r.outcome == Refused(NotFound) <==> input.supplyId !in db.supplies
    ensures r.outcome == Refused(InsufficientStock) <==>
      input.supplyId in db.supplies && input.quantity > db.supplies[input.supplyId].quantity
    ensures r.outcome == Done <==>
      input.supplyId in db.supplies && input.quantity <= db.supplies[input.supplyId].quantity && newId !in db.requests
    ensures r.outcome != Done ==> r.db == db
    ensures r.outcome == Done ==>
      && r.db.requests == db.requests[newId := Request(newId, userId, input.supplyId, input.quantity, PENDING, now)]
      && r.db.audit == db.audit + [Entry(userId, CreatedRequestText(input.quantity, db.supplies[input.supplyId].name))]
      && r.db.supplies == db.supplies && r.db.users == db.users && r.db.settings == db.settings
      && r.db.notifications == db.notifications
  {
    if input.supplyId !in db.supplies then Applied(db, Refused(NotFound))
    else
      var supply := db.supplies[input.supplyId];
      if input.quantity > supply.quantity then Applied(db, Refused(InsufficientStock))
      else if newId in db.requests then Applied(db, Refused(StoreError))
      else
        var request := Request(newId, userId, input.supplyId, input.quantity, PENDING, now);
        Applied(db.(requests := db.requests[newId := request],
                    audit := db.audit + [Entry(userId, CreatedRequestText(input.quantity, supply.name))]),
                Done)
  }

  /** How `createRequest` reports the core's outcome. */
  function CreateRequestResult(o: Outcome): ActionResult {
    match o
    case Done => Success
    case Refused(NotFound) => Failure(Message("Supply not found"))
    case Refused(InsufficientStock) => Failure(Message("Requested quantity exceeds available stock"))
    case Refused(_) => Failure(Message("Failed to create request"))
  }

  /** Server action `createRequest`. */
  function CreateRequestAction(db: Db, session: Option<Session>, input: RequestInput, newId: Id, now: int): (r: ActionReply)
    ensures session.None? ==> r == ActionReply(db, Failure(Message("Failed to create request")))
    ensures session.Some? && !RequestSchemaValid(input) ==> r == ActionReply(db, Failure(SchemaIssues))
    ensures session.Some? && RequestSchemaValid(input) && input.supplyId !in db.supplies ==>
      r == ActionReply(db, Failure(Message("Supply not found")))
    ensures session.Some? && RequestSchemaValid(input) && input.supplyId in db.supplies
            && input.quantity > db.supplies[input.supplyId].quantity ==>
      r == ActionReply(db, Failure(Message("Requested quantity exceeds available stock")))
    ensures r.result == Success <==>
      && session.Some? && RequestSchemaValid(input)
      && input.supplyId in db.supplies && input.quantity <= db.supplies[input.supplyId].quantity
      && newId !in db.requests
    ensures r.result.Failure? ==> r.db == db
    ensures r.result == Success ==> r.db == CreateRequestCore(db, session.value.userId, input, newId, now).db
  {
    if session.None? then ActionReply(db, Failure(Message("Failed to create request")))
    else if !RequestSchemaValid(input) then ActionReply(db, Failure(SchemaIssues))
    else
      var applied := CreateRequestCore(db, session.value.userId, input, newId, now);
      ActionReply(applied.db, CreateRequestResult(applied.outcome))
  }

  /** How `POST /api/requests` reports the core's outcome. */
  function PostRequestStatus(o: Outcome): nat {
    match o
    case Done => HttpCreated
    case Refused(NotFound) => HttpNotFound
    case Refused(InsufficientStock) => HttpBadRequest
    case Refused(_) => HttpServerError
  }

  /** Route `POST /api/requests`; `body` is `None` when the JSON does not have the schema's field types. */
  function PostRequest(db: Db, session: Option<Session>, body: Option<RequestInput>, newId: Id, now: int): (r: HttpReply)
    ensures session.None? ==> r == HttpReply(db, HttpUnauthorized)
    ensures session.Some? && (body.None? || !RequestSchemaValid(body.value)) ==> r == HttpReply(db, HttpBadRequest)
    ensures session.Some? && body.Some? && RequestSchemaValid(body.value) && body.value.supplyId !in db.supplies ==>
      r == HttpReply(db, HttpNotFound)
    ensures session.Some? && body.Some? && RequestSchemaValid(body.value) && body.value.supplyId in db.supplies
            && body.value.quantity > db.supplies[body.value.supplyId].quantity ==>
      r == HttpReply(db, HttpBadRequest)
    ensures r.status == HttpCreated <==>
      && session.Some? && body.Some? && RequestSchemaValid(body.value)
      && body.value.supplyId in db.supplies && body.value.quantity <= db.supplies[body.value.supplyId].quantity
      && newId !in db.requests
    ensures r.status != HttpCreated ==> r.db == db
    ensures r.status == HttpCreated ==> r.db == CreateRequestCore(db, session.value.userId, body.value, newId, now).db
  {
    if session.None? then HttpReply(db, HttpUnauthorized)
    else if body.None? || !RequestSchemaValid(body.value) then HttpReply(db, HttpBadRequest)
    else
      var applied := CreateRequestCore(db, session.value.userId, body.value, newId, now);
      HttpReply(applied.db, PostRequestStatus(applied.outcome))
  }

  /**
   * Shared core of the status transition. Only a `PENDING` request may be
   * decided; approving re-checks the stock and takes exactly the requested
   * quantity from it; any other target leaves the stock alone.
   * A pending request's supply always exists in a consistent store
   * (`PendingSupplyExists`), so the `StoreError` branch for a missing one is
   * unreachable there.
   */
  function UpdateStatusCore(db: Db, adminId: Id, id: Id, target: Status): (r: Applied)
    ensures r.outcome == Refused(NotFound) <==> id !in db.requests
    ensures r.outcome == Refused(AlreadyProcessed) <==> id in db.requests && db.requests[id].status != PENDING
    ensures r.outcome == Refused(InsufficientStock) <==>
      && id in db.requests && db.requests[id].status == PENDING && target == APPROVED
      && db.requests[id].supplyId in db.supplies
      && db.requests[id].quantity > db.supplies[db.requests[id].supplyId].quantity
    ensures r.outcome == Done <==>
      && id in db.requests && db.requests[id].status == PENDING
      && db.requests[id].supplyId in db.supplies
      && (target == APPROVED ==> db.requests[id].quantity <= db.supplies[db.requests[id].supplyId].quantity)
    ensures r.outcome != Done ==> r.db == db
    ensures r.outcome == Done ==>
      var request := db.requests[id];
      var supply := db.supplies[request.supplyId];
      && r.db.requests == db.requests[id := request.(status := target)]
      && (target == APPROVED ==>
            && r.db.supplies == db.supplies[request.supplyId := supply.(quantity := supply.quantity - request.quantity)]
            && r.db.supplies[request.supplyId].quantity >= 0)
      && (target != APPROVED ==> r.db.supplies == db.supplies)
      && r.db.audit == db.audit + [Entry(adminId, StatusChangeText(target, request.quantity, supply.name))]
      && r.db.users == db.users && r.db.settings == db.settings && r.db.notifications == db.notifications
  {
    if id !in db.requests then Applied(db, Refused(NotFound))
    else
      var request := db.requests[id];
      if request.status != PENDING then Applied(db, Refused(AlreadyProcessed))
      else if request.supplyId !in db.supplies then Applied(db, Refused(StoreError))
      else
        var supply := db.supplies[request.supplyId];
        if target == APPROVED && request.quantity > supply.quantity then Applied(db, Refused(InsufficientStock))
        else
          var supplies := if target == APPROVED
            then db.supplies[request.supplyId := supply.(quantity := supply.quantity - request.quantity)]
            else db.supplies;
          Applied(db.(supplies := supplies,
                      requests := db.requests[id := request.(status := target)],
                      audit := db.audit + [Entry(adminId, StatusChangeText(target, request.quantity, supply.name))]),
                  Done)
  }

  /** How `updateRequestStatus` reports the core's outcome. */
  function UpdateStatusResult(o: Outcome): ActionResult {
    match o
    case Done => Success
    case Refused(NotFound) => Failure(Message("Request not found"))
    case Refused(AlreadyProcessed) => Failure(Message("Request has already been processed"))
    case Refused(InsufficientStock) => Failure(Message("Insufficient supply quantity"))
    case Refused(_) => Failure(Message("Failed to update request"))
  }

  /**
   * Server action `updateRequestStatus`: administrators only. It takes any
   * status as the target, `PENDING` included (which leaves the request pending
   * and still writes an audit entry).
   */
  function UpdateRequestStatusAction(db: Db, session: Option<Session>, id: Id, target: Status): (r: ActionReply)
    ensures !IsAdmin(session) ==> r == ActionReply(db, Failure(Message("Failed to update request")))
    ensures IsAdmin(session) && id !in db.requests ==> r == ActionReply(db, Failure(Message("Request not found")))
    ensures IsAdmin(session) && id in db.requests && db.requests[id].status != PENDING ==>
      r == ActionReply(db, Failure(Message("Request has already been processed")))
    ensures r.result == Success <==> IsAdmin(session) && UpdateStatusCore(db, session.value.userId, id, target).outcome == Done
    ensures r.result.Failure? ==> r.db == db
    ensures r.result == Success ==> r.db == UpdateStatusCore(db, session.value.userId, id, target).db
  {
    if !IsAdmin(session) then ActionReply(db, Failure(Message("Failed to update request")))
    else
      var applied := UpdateStatusCore(db, session.value.userId, id, target);
      ActionReply(applied.db, UpdateStatusResult(applied.outcome))
  }

  /** How `PUT /api/requests` reports the core's outcome. */
  function PutRequestStatus(o: Outcome): nat {
    match o
    case Done => HttpOk
    case Refused(NotFound) => HttpNotFound
    case Refused(AlreadyProcessed) => HttpBadRequest
    case Refused(InsufficientStock) => HttpBadRequest
    case Refused(_) => HttpServerError
  }

  /** The body check of `PUT /api/requests`: an id, and a status that is `APPROVED` or `DENIED`. */
  predicate DecisionBodyValid(id: Option<string>, status: Option<string>) {
    Truthy(id) && status.Some? && (status.value == "APPROVED" || status.value == "DENIED")
  }

  /**
   * Route `PUT /api/requests`: a caller who is not an administrator gets 401
   * (not 403), and the target must be `APPROVED` or `DENIED`.
   */
  function PutRequest(db: Db, session: Option<Session>, id: Option<string>, status: Option<string>): (r: HttpReply)
    ensures !IsAdmin(session) ==> r == HttpReply(db, HttpUnauthorized)
    ensures IsAdmin(session) && !DecisionBodyValid(id, status) ==> r == HttpReply(db, HttpBadRequest)
    ensures IsAdmin(session) && DecisionBodyValid(id, status) && id.value !in db.requests ==> r == HttpReply(db, HttpNotFound)
    ensures (IsAdmin(session) && DecisionBodyValid(id, status) && id.value in db.requests
             && db.requests[id.value].status != PENDING) ==> r == HttpReply(db, HttpBadRequest)
    ensures r.status == HttpOk <==>
      && IsAdmin(session) && DecisionBodyValid(id, status)
      && UpdateStatusCore(db, session.value.userId, id.value, ParseStatus(status.value).value).outcome == Done
    ensures r.status != HttpOk ==> r.db == db
    ensures r.status == HttpOk ==>
      && ParseStatus(status.value).value != PENDING
      && r.db == UpdateStatusCore(db, session.value.userId, id.value, ParseStatus(status.value).value).db
  {
    if !IsAdmin(session) then HttpReply(db, HttpUnauthorized)
    else if !DecisionBodyValid(id, status) then HttpReply(db, HttpBadRequest)
    else
      var applied := UpdateStatusCore(db, session.value.userId, id.value, ParseStatus(status.value).value);
      HttpReply(applied.db, PutRequestStatus(applied.outcome))
  }

  /** In a consistent store every pending request's supply exists. */
  lemma PendingSupplyExists(db: Db, id: Id)
    requires Consistent(db) && id in db.requests && db.requests[id].status == PENDING
    ensures db.requests[id].supplyId in db.supplies
  {
  }

  lemma CreateRequestCoreKeeps(db: Db, userId: Id, input: RequestInput, newId: Id, now: int)
    requires Consistent(db) && RequestSchemaValid(input)
    ensures Consistent(CreateRequestCore(db, userId, input, newId, now).db)
    ensures Evolves(db, CreateRequestCore(db, userId, input, newId, now).db)
  {
  }

  lemma UpdateStatusCoreKeeps(db: Db, adminId: Id, id: Id, target: Status)
    requires Consistent(db)
    ensures Consistent(UpdateStatusCore(db, adminId, id, target).db)
    ensures Evolves(db, UpdateStatusCore(db, adminId, id, target).db)
  {
  }

  lemma CreateRequestActionKeeps(db: Db, session: Option<Session>, input: RequestInput, newId: Id, now: int)
    requires Consistent(db)
    ensures Consistent(CreateRequestAction(db, session, input, newId, now).db)
    ensures Evolves(db, CreateRequestAction(db, session, input, newId, now).db)
  {
    if session.Some? && RequestSchemaValid(input) {
      CreateRequestCoreKeeps(db, session.value.userId, input, newId, now);
    }
  }

  lemma PostRequestKeeps(db: Db, session: Option<Session>, body: Option<RequestInput>, newId: Id, now: int)
    requires Consistent(db)
    ensures Consistent(PostRequest(db, session, body, newId, now).db)
    ensures Evolves(db, PostRequest(db, session, body, newId, now).db)
  {
    if session.Some? && body.Some? && RequestSchemaValid(body.value) {
      CreateRequestCoreKeeps(db, session.value.userId, body.value, newId, now);
    }
  }

  lemma UpdateRequestStatusActionKeeps(db: Db, session: Option<Session>, id: Id, target: Status)
    requires Consistent(db)
    ensures Consistent(UpdateRequestStatusAction(db, session, id, target).db)
    ensures Evolves(db, UpdateRequestStatusAction(db, session, id, target).db)
  {
    if IsAdmin(session) {
      UpdateStatusCoreKeeps(db, session.value.userId, id, target);
    }
  }

  lemma PutRequestKeeps(db: Db, session: Option<Session>, id: Option<string>, status: Option<string>)
    requires Consistent(db)
    ensures Consistent(PutRequest(db, session, id, status).db)
    ensures Evolves(db, PutRequest(db, session, id, status).db)
  {
    if IsAdmin(session) && DecisionBodyValid(id, status) {
      UpdateStatusCoreKeeps(db, session.value.userId, id.value, ParseStatus(status.value).value);
    }
  }

  /**
   * A request is decided once: after it has been approved or denied, any
   * further decision on it is refused as already processed and changes nothing.
   */
  lemma DecidedOnce(db: Db, adminId: Id, id: Id, target: Status, adminId': Id, target': Status)
    requires UpdateStatusCore(db, adminId, id, target).outcome == Done && target != PENDING
    ensures var after := UpdateStatusCore(db, adminId, id, target).db;
      UpdateStatusCore(after, adminId', id, target') == Applied(after, Refused(AlreadyProcessed))
  {
  }
}
