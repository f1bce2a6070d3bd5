/**
 * Which requests a caller may list: the filters `getRequests`, `getRequest`
 * and `GET /api/requests` hand to the store, and the newest-first order they
 * ask for.
 */
module RequestQueries {
  import opened Wrappers
  import opened Domain
  import Ordering

  /** A `where` on the requests table: an optional status and an optional owner. */
  datatype RequestFilter = RequestFilter(status: Option<Status>, userId: Option<Id>)

  predicate Matches(r: Request, f: RequestFilter) {
    (f.status.Some? ==> r.status == f.status.value) && (f.userId.Some? ==> r.userId == f.userId.value)
  }

  /**
   * The filter of `getRequests` and `getRequest`: a non-administrator sees only
   * their own requests unless all requests are visible.
   */
  function OwnFilter(session: Session, showAll: bool): (f: RequestFilter)
    ensures f.status.None?
    ensures f.userId.Some? <==> session.role != ADMIN && !showAll
    ensures f.userId.Some? ==> f.userId.value == session.userId
  {
    RequestFilter(None, if session.role != ADMIN && !showAll then Some(session.userId) else None)
  }

  /**
   * The filter of `GET /api/requests?status=…&userId=…`. The status parameter
   * is passed to the store unchecked, so one that is not a status name makes
   * the query fail (`None`). The `userId` parameter counts only for an
   * administrator.
   */
  function RouteFilter(session: Session, showAll: bool, statusParam: Option<string>, userIdParam: Option<string>)
    : (r: Option<RequestFilter>)
    ensures r.None? <==> Truthy(statusParam) && ParseStatus(statusParam.value).None?
    ensures r.Some? ==> r.value.status == (if Truthy(statusParam) then ParseStatus(statusParam.value) else None)
    ensures r.Some? && session.role != ADMIN ==> r.value.userId == (if showAll then None else Some(session.userId))
    ensures r.Some? && session.role == ADMIN ==>
      r.value.userId == (if Truthy(userIdParam) then Some(userIdParam.value) else None)
  {
    if Truthy(statusParam) && ParseStatus(statusParam.value).None? then None
    else
      var status := if Truthy(statusParam) then ParseStatus(statusParam.value) else None;
      var owner :=
        if session.role == ADMIN && Truthy(userIdParam) then Some(userIdParam.value)
        else if session.role != ADMIN && !showAll then Some(session.userId)
        else None;
      Some(RequestFilter(status, owner))
  }

  /**
   * Without visibility of all requests, a staff member only ever sees their
   * own requests, whatever parameters they pass to the route.
   */
  lemma StaffSeesOnlyOwn(session: Session, statusParam: Option<string>, userIdParam: Option<string>, r: Request)
    requires session.role == STAFF
    requires RouteFilter(session, false, statusParam, userIdParam).Some?
    requires Matches(r, RouteFilter(session, false, statusParam, userIdParam).value)
    ensures r.userId == session.userId
  {
  }

  /** Without parameters the route lists exactly what the server action lists. */
  lemma RouteAgreesWithAction(session: Session, showAll: bool)
    ensures RouteFilter(session, showAll, None, None) == Some(OwnFilter(session, showAll))
  {
  }

  /** Newest first (`orderBy: { createdAt: "desc" }`). */
  function NewestFirst(a: Request, b: Request): bool {
    a.createdAt >= b.createdAt
  }

  lemma NewestFirstTotal()
    ensures Ordering.TotalPreorder(NewestFirst)
  {
  }

  /** The ids of the requests a filter selects. */
  ghost function MatchingIds(requests: map<Id, Request>, f: RequestFilter): set<Id> {
    set k | k in requests && Matches(requests[k], f)
  }
}
