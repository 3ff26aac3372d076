/** The parts of an Express request and response that the middleware reads and writes. */
module Http {
  import opened Common
  import opened UserSchema

  /** The JSON error bodies the middleware sends: `{ error }` or `{ success: false, error }`. */
  datatype ErrorResponse =
    | ErrorJson(status: int, error: string)
    | FailureJson(status: int, error: string)

  /** How a route ends: a middleware answered and stopped the chain, or the controller replied. */
  datatype RouteReply<R> = Halted(response: ErrorResponse) | Handled(reply: R)

  /**
   * A request on its way through the middleware chain: route parameters, the body, the session
   * user, the merged `validated` object, the `validatedData` a schema middleware attaches, and the
   * error response when one has been sent.
   */
  class Request<B, D> {
    var params: map<string, string>
    var body: B
    var user: Option<SessionUser>
    var validated: map<string, int>
    var validatedData: Option<D>
    var response: Option<ErrorResponse>

    constructor (params: map<string, string>, body: B, user: Option<SessionUser>)
      ensures this.params == params && this.body == body && this.user == user
      ensures validated == map[] && validatedData == None && response == None
    {
      this.params, this.body, this.user := params, body, user;
      validated, validatedData, response := map[], None, None;
    }
  }
}
