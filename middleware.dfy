/**
 * The Express middleware of the standalone server: `authenticateToken` and
 * `requireRole`. A request/response pair is an object whose fields the
 * middleware writes: the decoded user it attaches, the response it sends,
 * and how many times it hands over to the next handler.
 */
module Middleware {
  import opened Wrappers
  import opened Domain

  /** The claims of a verified token. */
  datatype Payload = Payload(userId: Id, role: Role)

  /** A response sent: a status code and an error message. */
  datatype Reply = Reply(status: nat, error: string)

  class Exchange {
    /** The `token` cookie, if any. */
    var token: Option<string>
    /** `req.user`. */
    var user: Option<Payload>
    /** The response sent so far, if any. */
    var response: Option<Reply>
    /** How many times `next()` has been called. */
    var nextCalls: nat

    constructor (token: Option<string>, user: Option<Payload>)
      ensures this.token == token && this.user == user && response == None && nextCalls == 0
    {
      this.token := token;
      this.user := user;
      response := None;
      nextCalls := 0;
    }

    /**
     * `authenticateToken`: with no token it answers 401; with a token that
     * `verify` (standing for `jwt.verify`) rejects it answers 403; otherwise it
     * attaches the decoded claims and calls `next` once, sending nothing.
     */
    method AuthenticateToken(verify: string -> Option<Payload>)
      modifies this
      ensures token == old(token)
      ensures !Truthy(token) ==>
        response == Some(Reply(HttpUnauthorized, "Authentication required")) && user == old(user) && nextCalls == old(nextCalls)
      ensures Truthy(token) && verify(token.value).None? ==>
        response == Some(Reply(HttpForbidden, "Invalid token")) && user == old(user) && nextCalls == old(nextCalls)
      ensures Truthy(token) && verify(token.value).Some? ==>
        user == verify(token.value) && response == old(response) && nextCalls == old(nextCalls) + 1
    {
      if !Truthy(token) {
        response := Some(Reply(HttpUnauthorized, "Authentication required"));
        return;
      }
      var decoded := verify(token.value);
      if decoded.None? {
        response := Some(Reply(HttpForbidden, "Invalid token"));
        return;
      }
      user := decoded;
      nextCalls := nextCalls + 1;
    }

    /**
     * `requireRole(roles)`: without an attached user it answers 401; a user
     * whose role is not listed gets 403 (so an empty list admits nobody);
     * otherwise it calls `next` once and sends nothing.
     */
    method RequireRole(roles: seq<Role>)
      modifies this
      ensures token == old(token) && user == old(user)
      ensures user.None? ==>
        response == Some(Reply(HttpUnauthorized, "Authentication required")) && nextCalls == old(nextCalls)
      ensures user.Some? && user.value.role !in roles ==>
        response == Some(Reply(HttpForbidden, "Insufficient permissions")) && nextCalls == old(nextCalls)
      ensures user.Some? && user.value.role in roles ==>
        response == old(response) && nextCalls == old(nextCalls) + 1
    {
      if user.None? {
        response := Some(Reply(HttpUnauthorized, "Authentication required"));
        return;
      }
      if user.value.role !in roles {
        response := Some(Reply(HttpForbidden, "Insufficient permissions"));
        return;
      }
      nextCalls := nextCalls + 1;
    }
  }

  /**
   * The two in sequence, as a route guarded by both is wired (`requireRole`
   * runs only if `authenticateToken` called `next`): the request gets through
   * both exactly when the token verifies to a user whose role is listed, and
   * otherwise a response has been sent.
   */
  method Guard(token: Option<string>, verify: string -> Option<Payload>, roles: seq<Role>) returns (e: Exchange)
    ensures fresh(e)
    ensures e.nextCalls == 2 <==> Truthy(token) && verify(token.value).Some? && verify(token.value).value.role in roles
    ensures e.nextCalls < 2 ==> e.response.Some?
  {
    e := new Exchange(token, None);
    e.AuthenticateToken(verify);
    if e.nextCalls == 1 {
      e.RequireRole(roles);
    }
  }
}
