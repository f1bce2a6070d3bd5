/**
 * The requests table on the client: which rows are expanded, the colour of
 * each status, and which rows offer the Approve / Deny actions.
 */
module RequestsTable {
  import opened Domain
  import RequestFlow

  /** The expanded rows after clicking row `id`: its membership flips. */
  function Toggled(expanded: set<Id>, id: Id): set<Id> {
    if id in expanded then expanded - {id} else expanded + {id}
  }

  /**
   * `toggleRow`: copies the set of expanded rows, removes `id` from the copy
   * when it was there and adds it otherwise, and hands the copy to the state
   * setter. The set passed in is a value, so the previous state is never
   * changed.
   */
  method ToggleRow(expanded: set<Id>, id: Id) returns (next: set<Id>)
    ensures id in next <==> id !in expanded
    ensures forall other :: other != id ==> (other in next <==> other in expanded)
    ensures next == Toggled(expanded, id)
  {
    next := expanded;
    if id in expanded {
      next := next - {id};
    } else {
      next := next + {id};
    }
  }

  /** Clicking the same row twice restores the expanded rows. */
  lemma ToggleTwice(expanded: set<Id>, id: Id)
    ensures Toggled(Toggled(expanded, id), id) == expanded
  {
  }

  /** Clicks on two different rows commute. */
  lemma ToggleCommutes(expanded: set<Id>, a: Id, b: Id)
    ensures Toggled(Toggled(expanded, a), b) == Toggled(Toggled(expanded, b), a)
  {
  }

  /** `getStatusColor`: the text colour of a status cell. */
  function StatusColor(status: Status): (colour: string)
    ensures colour == "text-green-600" <==> status == APPROVED
    ensures colour == "text-red-600" <==> status == DENIED
    ensures colour == "text-yellow-600" <==> status != APPROVED && status != DENIED
  {
    match status
    case APPROVED => "text-green-600"
    case DENIED => "text-red-600"
    case _ => "text-yellow-600"
  }

  /** The Actions cell holds the Approve / Deny menu: admins only, pending rows only. */
  predicate ShowsActions(isAdmin: bool, status: Status) {
    isAdmin && status == PENDING
  }

  /**
   * The menu is offered exactly on the rows that the status update would
   * not refuse as already processed: on every other row of an administrator's
   * table, Approve and Deny would be refused.
   */
  lemma ActionsOnlyWhereDecidable(db: Db, adminId: Id, id: Id, target: Status)
    requires id in db.requests
    ensures ShowsActions(true, db.requests[id].status) <==>
            RequestFlow.UpdateStatusCore(db, adminId, id, target).outcome != Refused(AlreadyProcessed)
    ensures !ShowsActions(false, db.requests[id].status)
  {
  }
}
