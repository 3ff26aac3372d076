/** The session guards placed in front of protected routes. */
module AccountMiddleware {
  import opened Common
  import opened UserSchema
  import opened Http

  const NotLoggedIn := "Not logged in"
  const Forbidden := "Forbidden"

  /**
   * `isAuthenticated`: a request with a session user goes on untouched; any other is answered
   * 401 "Not logged in".
   */
  method IsAuthenticated<B, D>(req: Request<B, D>) returns (next: bool)
    modifies req`response
    ensures next <==> req.user.Some?
    ensures next ==> req.response == old(req.response)
    ensures !next ==> req.response == Some(ErrorJson(401, NotLoggedIn))
  {
    if req.user.Some? {
      return true;
    }
    req.response := Some(ErrorJson(401, NotLoggedIn));
    next := false;
  }

  /**
   * `isAdmin`: only a session user whose role is admin goes on; every other request, the ones
   * without a session included, is answered 403 "Forbidden".
   */
  method IsAdmin<B, D>(req: Request<B, D>) returns (next: bool)
    modifies req`response
    ensures next <==> req.user.Some? && req.user.value.role == AdminRole
    ensures next ==> req.response == old(req.response)
    ensures !next ==> req.response == Some(ErrorJson(403, Forbidden))
  {
    if req.user.Some? && req.user.value.role == AdminRole {
      return true;
    }
    req.response := Some(ErrorJson(403, Forbidden));
    next := false;
  }
}
