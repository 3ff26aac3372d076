/** The passport local strategy: the `verify` callback that turns a login attempt into a session. */
module LocalStrategy {
  import opened Common
  import opened UserSchema
  import opened Bcrypt
  import opened Auth
  import opened Store
  import opened AccountService

  /** What the callback hands to passport: the user to log in, or `false` with the service's message. */
  datatype StrategyVerdict = Authenticated(user: SessionUser) | Refused(message: string)

  /** The `verify` callback: the email is the username, and the login service decides. */
  function VerifyCredentials(users: map<int, User>, email: string, password: string): (v: StrategyVerdict)
    requires UsersWellFormed(users)
    ensures v.Authenticated? <==>
      exists id :: id in users && users[id].email == email && Compare(password, users[id].password)
        && users[id].isVerified
    ensures v.Authenticated? ==>
      v.user.id in users && v.user == SanitizeUser(users[v.user.id]) && v.user.email == email && v.user.isVerified
    ensures v.Refused? ==> v.message in {UserDoesNotExist, IncorrectCredentials, UserNotVerified}
    ensures v.Refused? <==> LoginUser(users, email, password).Failure?
    ensures v.Refused? ==> v.message == LoginUser(users, email, password).error
  {
    var result := LoginUser(users, email, password);
    if result.Failure? then Refused(result.error) else Authenticated(result.data)
  }

  /**
   * What `req.login` stores and every later request reads back: the verdict's user through the
   * `serializeUser` and `deserializeUser` callbacks, or no session at all.
   */
  function SessionAfterLogin(users: map<int, User>, email: string, password: string): (session: Option<SessionUser>)
    requires UsersWellFormed(users)
    ensures session.Some? <==> VerifyCredentials(users, email, password).Authenticated?
    ensures session.Some? ==>
      session.value.id in users && session.value == SanitizeUser(users[session.value.id]) && session.value.isVerified
  {
    match VerifyCredentials(users, email, password)
    case Refused(_) => None
    case Authenticated(u) =>
      SessionRoundTrip(users[u.id]);
      Some(DeserializeUser(SerializeUser(u)))
  }

  /** An account that is not verified never gets a session, whatever password is offered. */
  lemma UnverifiedGetsNoSession(users: map<int, User>, userId: int, password: string)
    requires UsersWellFormed(users) && userId in users && !users[userId].isVerified
    ensures SessionAfterLogin(users, users[userId].email, password) == None
    ensures Compare(password, users[userId].password) ==>
      VerifyCredentials(users, users[userId].email, password) == Refused(UserNotVerified)
  {
  }
}
