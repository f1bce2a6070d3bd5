/**
 * Supply administration: the server actions `createSupply`, `updateSupply`,
 * `deleteSupply`, `updateQuantity` and the handlers `POST` / `PUT` / `DELETE
 * /api/supplies`. Only administrators may change supplies. The actions
 * announce low stock (quantity at or below the threshold); the route handlers
 * do not.
 */
module SupplyFlow {
  import opened Wrappers
  import opened Domain

  /** The fields `supplySchema` checks. */
  datatype SupplyInput = SupplyInput(name: string, description: string, quantity: int, minimumThreshold: int)

  predicate SupplySchemaValid(input: SupplyInput) {
    |input.name| >= 1 && |input.description| >= 1 && input.quantity >= 0 && input.minimumThreshold >= 0
  }

  function SupplyOf(id: Id, input: SupplyInput): Supply {
    Supply(id, input.name, input.description, input.quantity, input.minimumThreshold)
  }

  /** The notification the actions emit for a supply that is low on stock, or nothing. */
  function LowStockNotice(s: Supply): (r: seq<Notification>)
    ensures |r| <= 1
    ensures r != [] <==> s.quantity <= s.minimumThreshold
    ensures r != [] ==> r[0] == LowInventory(LowInventoryMessage(s))
  {
    if IsLowStock(s) then [LowInventory(LowInventoryMessage(s))] else []
  }

  /**
   * Shared core of supply creation. The insert fails when the id is taken or
   * another supply already has the name (the name is unique in the store).
   */
  function CreateSupplyCore(db: Db, adminId: Id, input: SupplyInput, newId: Id): (r: Applied)
    ensures r.outcome == Done <==> newId !in db.supplies && !SupplyNameTaken(db.supplies, input.name, newId)
    ensures r.outcome != Done ==> r == Applied(db, Refused(StoreError))
    ensures r.outcome == Done ==>
      && r.db.supplies == db.supplies[newId := SupplyOf(newId, input)]
      && r.db.audit == db.audit + [Entry(adminId, "Created supply: " + input.name)]
      && r.db.requests == db.requests && r.db.users == db.users && r.db.settings == db.settings
      && r.db.notifications == db.notifications
  {
    if newId in db.supplies || SupplyNameTaken(db.supplies, input.name, newId) then Applied(db, Refused(StoreError))
    else
      Applied(db.(supplies := db.supplies[newId := SupplyOf(newId, input)],
                  audit := db.audit + [Entry(adminId, "Created supply: " + input.name)]),
              Done)
  }

  /**
   * Shared core of a supply edit: every field but the id is replaced. The
   * update fails when there is no such supply or another one has the name.
   */
  function UpdateSupplyCore(db: Db, adminId: Id, id: Id, input: SupplyInput): (r: Applied)
    ensures r.outcome == Done <==> id in db.supplies && !SupplyNameTaken(db.supplies, input.name, id)
    ensures r.outcome != Done ==> r == Applied(db, Refused(StoreError))
    ensures r.outcome == Done ==>
      && r.db.supplies == db.supplies[id := SupplyOf(id, input)]
      && r.db.audit == db.audit + [Entry(adminId, "Updated supply: " + input.name)]
      && r.db.requests == db.requests && r.db.users == db.users && r.db.settings == db.settings
      && r.db.notifications == db.notifications
  {
    if id !in db.supplies || SupplyNameTaken(db.supplies, input.name, id) then Applied(db, Refused(StoreError))
    else
      Applied(db.(supplies := db.supplies[id := SupplyOf(id, input)],
                  audit := db.audit + [Entry(adminId, "Updated supply: " + input.name)]),
              Done)
  }

  /**
   * Shared core of supply deletion: refused while any request for the supply
   * is pending; deleting a supply that does not exist fails in the store.
   */
  function DeleteSupplyCore(db: Db, adminId: Id, id: Id): (r: Applied)
    ensures r.outcome == Refused(PendingRequests) <==> HasPendingRequest(db.requests, id)
    ensures r.outcome == Done <==> !HasPendingRequest(db.requests, id) && id in db.supplies
    ensures r.outcome != Done ==> r.db == db
    ensures r.outcome == Done ==>
      && r.db.supplies == db.supplies - {id}
      && r.db.audit == db.audit + [Entry(adminId, "Deleted supply: " + db.supplies[id].name)]
      && r.db.requests == db.requests && r.db.users == db.users && r.db.settings == db.settings
      && r.db.notifications == db.notifications
  {
    if HasPendingRequest(db.requests, id) then Applied(db, Refused(PendingRequests))
    else if id !in db.supplies then Applied(db, Refused(StoreError))
    else
      Applied(db.(supplies := db.supplies - {id},
                  audit := db.audit + [Entry(adminId, "Deleted supply: " + db.supplies[id].name)]),
              Done)
  }

  /** How the create and update actions report a core's outcome. */
  function FailedOr(o: Outcome, text: string): ActionResult {
    if o == Done then Success else Failure(Message(text))
  }

  /** Server action `createSupply`: on success, low stock is announced. */
  function CreateSupplyAction(db: Db, session: Option<Session>, input: SupplyInput, newId: Id): (r: ActionReply)
    ensures !IsAdmin(session) ==> r == ActionReply(db, Failure(Message("Failed to create supply")))
    ensures IsAdmin(session) && !SupplySchemaValid(input) ==> r == ActionReply(db, Failure(SchemaIssues))
    ensures r.result == Success <==>
      IsAdmin(session) && SupplySchemaValid(input) && newId !in db.supplies && !SupplyNameTaken(db.supplies, input.name, newId)
    ensures r.result.Failure? ==> r.db == db
    ensures r.result == Success ==>
      var core := CreateSupplyCore(db, session.value.userId, input, newId).db;
      r.db == core.(notifications := db.notifications + LowStockNotice(SupplyOf(newId, input)))
  {
    if !IsAdmin(session) then ActionReply(db, Failure(Message("Failed to create supply")))
    else if !SupplySchemaValid(input) then ActionReply(db, Failure(SchemaIssues))
    else
      var applied := CreateSupplyCore(db, session.value.userId, input, newId);
      if applied.outcome != Done then ActionReply(db, Failure(Message("Failed to create supply")))
      else
        var db' := applied.db.(notifications := applied.db.notifications + LowStockNotice(SupplyOf(newId, input)));
        ActionReply(db', Success)
  }

  /** Server action `updateSupply`: on success, low stock is announced. */
  function UpdateSupplyAction(db: Db, session: Option<Session>, id: Id, input: SupplyInput): (r: ActionReply)
    ensures !IsAdmin(session) ==> r == ActionReply(db, Failure(Message("Failed to update supply")))
    ensures IsAdmin(session) && !SupplySchemaValid(input) ==> r == ActionReply(db, Failure(SchemaIssues))
    ensures r.result == Success <==>
      IsAdmin(session) && SupplySchemaValid(input) && id in db.supplies && !SupplyNameTaken(db.supplies, input.name, id)
    ensures r.result.Failure? ==> r.db == db
    ensures r.result == Success ==>
      var core := UpdateSupplyCore(db, session.value.userId, id, input).db;
      r.db == core.(notifications := db.notifications + LowStockNotice(SupplyOf(id, input)))
  {
    if !IsAdmin(session) then ActionReply(db, Failure(Message("Failed to update supply")))
    else if !SupplySchemaValid(input) then ActionReply(db, Failure(SchemaIssues))
    else
      var applied := UpdateSupplyCore(db, session.value.userId, id, input);
      if applied.outcome != Done then ActionReply(db, Failure(Message("Failed to update supply")))
      else
        var db' := applied.db.(notifications := applied.db.notifications + LowStockNotice(SupplyOf(id, input)));
        ActionReply(db', Success)
  }

  /** How `deleteSupply` reports the core's outcome. */
  function DeleteSupplyResult(o: Outcome): ActionResult {
    match o
    case Done => Success
    case Refused(PendingRequests) => Failure(Message("Cannot delete supply with pending requests"))
    case Refused(_) => Failure(Message("Failed to delete supply"))
  }

  /** Server action `deleteSupply`. */
  function DeleteSupplyAction(db: Db, session: Option<Session>, id: Id): (r: ActionReply)
    ensures !IsAdmin(session) ==> r == ActionReply(db, Failure(Message("Failed to delete supply")))
    ensures IsAdmin(session) && HasPendingRequest(db.requests, id) ==>
      r == ActionReply(db, Failure(Message("Cannot delete supply with pending requests")))
    ensures r.result == Success <==> IsAdmin(session) && !HasPendingRequest(db.requests, id) && id in db.supplies
    ensures r.result.Failure? ==> r.db == db
    ensures r.result == Success ==> r.db == DeleteSupplyCore(db, session.value.userId, id).db
  {
    if !IsAdmin(session) then ActionReply(db, Failure(Message("Failed to delete supply")))
    else
      var applied := DeleteSupplyCore(db, session.value.userId, id);
      ActionReply(applied.db, DeleteSupplyResult(applied.outcome))
  }

  /**
   * Server action `updateQuantity`: sets the stock of one supply. When the new
   * stock is at or below the threshold, a second audit entry records the low
   * stock and the low-stock notification is emitted.
   */
  function UpdateQuantityAction(db: Db, session: Option<Session>, id: Id, quantity: int): (r: ActionReply)
    ensures !IsAdmin(session) ==> r == ActionReply(db, Failure(Message("Failed to update quantity")))
    ensures IsAdmin(session) && quantity < 0 ==> r == ActionReply(db, Failure(Message("Quantity cannot be negative")))
    ensures IsAdmin(session) && quantity >= 0 && id !in db.supplies ==>
      r == ActionReply(db, Failure(Message("Failed to update quantity")))
    ensures r.result == Success <==> IsAdmin(session) && quantity >= 0 && id in db.supplies
    ensures r.result.Failure? ==> r.db == db
    ensures r.result == Success ==>
      var s := db.supplies[id].(quantity := quantity);
      var adminId := session.value.userId;
      && r.db.supplies == db.supplies[id := s]
      && r.db.audit == db.audit + [Entry(adminId, QuantityText(s.name, quantity))]
                                + (if IsLowStock(s) then [Entry(adminId, LowStockText(s.name, quantity))] else [])
      && r.db.notifications == db.notifications + LowStockNotice(s)
      && r.db.requests == db.requests && r.db.users == db.users && r.db.settings == db.settings
  {
    if !IsAdmin(session) then ActionReply(db, Failure(Message("Failed to update quantity")))
    else if quantity < 0 then ActionReply(db, Failure(Message("Quantity cannot be negative")))
    else if id !in db.supplies then ActionReply(db, Failure(Message("Failed to update quantity")))
    else
      var adminId := session.value.userId;
      var s := db.supplies[id].(quantity := quantity);
      var audit := db.audit + [Entry(adminId, QuantityText(s.name, quantity))];
      if IsLowStock(s) then
        ActionReply(db.(supplies := db.supplies[id := s],
                        audit := audit + [Entry(adminId, LowStockText(s.name, quantity))],
                        notifications := db.notifications + [LowInventory(LowInventoryMessage(s))]),
                    Success)
      else
        ActionReply(db.(supplies := db.supplies[id := s], audit := audit), Success)
  }

  /** How the supply routes report a core's outcome. */
  function SupplyRouteStatus(o: Outcome, success: nat): nat {
    match o
    case Done => success
    case Refused(PendingRequests) => HttpBadRequest
    case Refused(_) => HttpServerError
  }

  /** Route `POST /api/supplies`; `body` is `None` when the JSON does not have the schema's field types. */
  function PostSupply(db: Db, session: Option<Session>, body: Option<SupplyInput>, newId: Id): (r: HttpReply)
    ensures !IsAdmin(session) ==> r == HttpReply(db, HttpUnauthorized)
    ensures IsAdmin(session) && (body.None? || !SupplySchemaValid(body.value)) ==> r == HttpReply(db, HttpBadRequest)
    ensures r.status == HttpCreated <==>
      && IsAdmin(session) && body.Some? && SupplySchemaValid(body.value)
      && newId !in db.supplies && !SupplyNameTaken(db.supplies, body.value.name, newId)
    ensures r.status in {HttpCreated, HttpBadRequest, HttpUnauthorized, HttpServerError}
    ensures r.status != HttpCreated ==> r.db == db
    ensures r.status == HttpCreated ==> r.db == CreateSupplyCore(db, session.value.userId, body.value, newId).db
  {
    if !IsAdmin(session) then HttpReply(db, HttpUnauthorized)
    else if body.None? || !SupplySchemaValid(body.value) then HttpReply(db, HttpBadRequest)
    else
      var applied := CreateSupplyCore(db, session.value.userId, body.value, newId);
      HttpReply(applied.db, SupplyRouteStatus(applied.outcome, HttpCreated))
  }

  /** Route `PUT /api/supplies`: the id is checked before the other fields. */
  function PutSupply(db: Db, session: Option<Session>, id: Option<string>, body: Option<SupplyInput>): (r: HttpReply)
    ensures !IsAdmin(session) ==> r == HttpReply(db, HttpUnauthorized)
    ensures IsAdmin(session) && !Truthy(id) ==> r == HttpReply(db, HttpBadRequest)
    ensures IsAdmin(session) && (body.None? || !SupplySchemaValid(body.value)) ==> r == HttpReply(db, HttpBadRequest)
    ensures r.status == HttpOk <==>
      && IsAdmin(session) && Truthy(id) && body.Some? && SupplySchemaValid(body.value)
      && id.value in db.supplies && !SupplyNameTaken(db.supplies, body.value.name, id.value)
    ensures r.status != HttpOk ==> r.db == db
    ensures r.status == HttpOk ==> r.db == UpdateSupplyCore(db, session.value.userId, id.value, body.value).db
  {
    if !IsAdmin(session) then HttpReply(db, HttpUnauthorized)
    else if !Truthy(id) then HttpReply(db, HttpBadRequest)
    else if body.None? || !SupplySchemaValid(body.value) then HttpReply(db, HttpBadRequest)
    else
      var applied := UpdateSupplyCore(db, session.value.userId, id.value, body.value);
      HttpReply(applied.db, SupplyRouteStatus(applied.outcome, HttpOk))
  }

  /** Route `DELETE /api/supplies?id=…`. */
  function DeleteSupplyRoute(db: Db, session: Option<Session>, id: Option<string>): (r: HttpReply)
    ensures !IsAdmin(session) ==> r == HttpReply(db, HttpUnauthorized)
    ensures IsAdmin(session) && !Truthy(id) ==> r == HttpReply(db, HttpBadRequest)
    ensures IsAdmin(session) && Truthy(id) && HasPendingRequest(db.requests, id.value) ==> r == HttpReply(db, HttpBadRequest)
    ensures r.status == HttpOk <==>
      IsAdmin(session) && Truthy(id) && !HasPendingRequest(db.requests, id.value) && id.value in db.supplies
    ensures r.status != HttpOk ==> r.db == db
    ensures r.status == HttpOk ==> r.db == DeleteSupplyCore(db, session.value.userId, id.value).db
  {
    if !IsAdmin(session) then HttpReply(db, HttpUnauthorized)
    else if !Truthy(id) then HttpReply(db, HttpBadRequest)
    else
      var applied := DeleteSupplyCore(db, session.value.userId, id.value);
      HttpReply(applied.db, SupplyRouteStatus(applied.outcome, HttpOk))
  }

  lemma CreateSupplyCoreKeeps(db: Db, adminId: Id, input: SupplyInput, newId: Id)
    requires Consistent(db) && SupplySchemaValid(input)
    ensures Consistent(CreateSupplyCore(db, adminId, input, newId).db)
    ensures Evolves(db, CreateSupplyCore(db, adminId, input, newId).db)
  {
  }

  lemma UpdateSupplyCoreKeeps(db: Db, adminId: Id, id: Id, input: SupplyInput)
    requires Consistent(db) && SupplySchemaValid(input)
    ensures Consistent(UpdateSupplyCore(db, adminId, id, input).db)
    ensures Evolves(db, UpdateSupplyCore(db, adminId, id, input).db)
  {
  }

  /** Deletion never strands a pending request: the supply goes only when none is pending. */
  lemma DeleteSupplyCoreKeeps(db: Db, adminId: Id, id: Id)
    requires Consistent(db)
    ensures Consistent(DeleteSupplyCore(db, adminId, id).db)
    ensures Evolves(db, DeleteSupplyCore(db, adminId, id).db)
  {
  }

  lemma UpdateQuantityKeeps(db: Db, session: Option<Session>, id: Id, quantity: int)
    requires Consistent(db)
    ensures Consistent(UpdateQuantityAction(db, session, id, quantity).db)
    ensures Evolves(db, UpdateQuantityAction(db, session, id, quantity).db)
  {
  }

  lemma CreateSupplyActionKeeps(db: Db, session: Option<Session>, input: SupplyInput, newId: Id)
    requires Consistent(db)
    ensures Consistent(CreateSupplyAction(db, session, input, newId).db)
    ensures Evolves(db, CreateSupplyAction(db, session, input, newId).db)
  {
    if IsAdmin(session) && SupplySchemaValid(input) {
      CreateSupplyCoreKeeps(db, session.value.userId, input, newId);
    }
  }

  lemma UpdateSupplyActionKeeps(db: Db, session: Option<Session>, id: Id, input: SupplyInput)
    requires Consistent(db)
    ensures Consistent(UpdateSupplyAction(db, session, id, input).db)
    ensures Evolves(db, UpdateSupplyAction(db, session, id, input).db)
  {
    if IsAdmin(session) && SupplySchemaValid(input) {
      UpdateSupplyCoreKeeps(db, session.value.userId, id, input);
    }
  }

  lemma DeleteSupplyActionKeeps(db: Db, session: Option<Session>, id: Id)
    requires Consistent(db)
    ensures Consistent(DeleteSupplyAction(db, session, id).db)
    ensures Evolves(db, DeleteSupplyAction(db, session, id).db)
  {
    if IsAdmin(session) {
      DeleteSupplyCoreKeeps(db, session.value.userId, id);
    }
  }

  lemma PostSupplyKeeps(db: Db, session: Option<Session>, body: Option<SupplyInput>, newId: Id)
    requires Consistent(db)
    ensures Consistent(PostSupply(db, session, body, newId).db)
    ensures Evolves(db, PostSupply(db, session, body, newId).db)
  {
    if IsAdmin(session) && body.Some? && SupplySchemaValid(body.value) {
      CreateSupplyCoreKeeps(db, session.value.userId, body.value, newId);
    }
  }

  lemma PutSupplyKeeps(db: Db, session: Option<Session>, id: Option<string>, body: Option<SupplyInput>)
    requires Consistent(db)
    ensures Consistent(PutSupply(db, session, id, body).db)
    ensures Evolves(db, PutSupply(db, session, id, body).db)
  {
    if IsAdmin(session) && Truthy(id) && body.Some? && SupplySchemaValid(body.value) {
      UpdateSupplyCoreKeeps(db, session.value.userId, id.value, body.value);
    }
  }

  lemma DeleteSupplyRouteKeeps(db: Db, session: Option<Session>, id: Option<string>)
    requires Consistent(db)
    ensures Consistent(DeleteSupplyRoute(db, session, id).db)
    ensures Evolves(db, DeleteSupplyRoute(db, session, id).db)
  {
    if IsAdmin(session) && Truthy(id) {
      DeleteSupplyCoreKeeps(db, session.value.userId, id.value);
    }
  }
}
