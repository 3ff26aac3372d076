/** The `/account` router and the login and verify controllers behind it. */
module AccountRoutes {
  import opened Common
  import opened Text
  import opened UserSchema
  import opened Bcrypt
  import opened VerificationCodeSchema
  import opened Auth
  import opened Store
  import opened VerificationCodeService
  import opened AccountService
  import opened LocalStrategy
  import opened Http
  import opened AccountMiddleware
  import opened ValidationMiddleware
  import opened LoginSample

  const InvalidCredentials := "Invalid credentials"
  const InternalError := "Internal server error"

  /** The login replies: the schema's 400, a refusal with 401, or 200 with the user now in the session. */
  datatype LoginReply =
    | LoginRejected(error: string)
    | LoginRefused(message: string)
    | LoggedIn(user: SessionUser)

  /** The account controller replies: a message, a failed service result, or an internal error. */
  datatype AccountReply =
    | MessageReply(status: int, message: string)
    | ResultReply(status: int, result: ServiceResult<string>)
    | ErrorReply(status: int, error: string)

  // ---------------------------------------------------------------- login

  /**
   * `POST /login/local`: the login schema checks the body, then passport's local strategy reads
   * the email and password from the body as sent, not from the parsed data.
   */
  method LoginRoute(users: map<int, User>, body: LoginBody) returns (r: LoginReply)
    requires UsersWellFormed(users)
    ensures ParseLoginBody(body).ParseError? ==> r == LoginRejected(ParseLoginBody(body).firstIssue)
    ensures ParseLoginBody(body).ParseOk? && VerifyCredentials(users, body.email, body.password).Authenticated? ==>
      r == LoggedIn(VerifyCredentials(users, body.email, body.password).user)
    ensures ParseLoginBody(body).ParseOk? && VerifyCredentials(users, body.email, body.password).Refused? ==>
      r == LoginRefused(VerifyCredentials(users, body.email, body.password).message)
    ensures r.LoggedIn? ==>
      r.user.id in users && r.user == SanitizeUser(users[r.user.id]) && r.user.email == body.email && r.user.isVerified
  {
    var req := new Request<LoginBody, LoginBody>(map[], body, None);
    var next := ValidateSchema(ParseLoginBody, req);
    if !next {
      return LoginRejected(req.response.value.error);
    }
    assert req.body == body;
    r := Authenticate(users, req.body.email, req.body.password);
  }

  /**
   * `loginLocalController` once the schema has passed: the strategy's refusal message, or
   * "Invalid credentials" when it has none, with 401; otherwise the session user with 200.
   */
  method Authenticate(users: map<int, User>, email: string, password: string) returns (r: LoginReply)
    requires UsersWellFormed(users)
    ensures VerifyCredentials(users, email, password).Authenticated? ==>
      r == LoggedIn(VerifyCredentials(users, email, password).user)
    ensures VerifyCredentials(users, email, password).Refused? ==>
      r == LoginRefused(VerifyCredentials(users, email, password).message)
    ensures r.LoggedIn? ==>
      r.user.id in users && r.user == SanitizeUser(users[r.user.id]) && r.user.email == email && r.user.isVerified
  {
    var session := SessionAfterLogin(users, email, password);
    if session.None? {
      var message := VerifyCredentials(users, email, password).message;
      return LoginRefused(if message != "" then message else InvalidCredentials);
    }
    r := LoggedIn(session.value);
  }

  /** `POST /login/local` with the strategy fed the parsed email and password instead. */
  method LoginRouteNormalized(users: map<int, User>, body: LoginBody) returns (r: LoginReply)
    requires UsersWellFormed(users)
    ensures ParseLoginBody(body).ParseError? ==> r == LoginRejected(ParseLoginBody(body).firstIssue)
    ensures ParseLoginBody(body).ParseOk? && VerifyCredentials(users, NormalizeEmail(body.email), Trim(body.password)).Authenticated? ==>
      r == LoggedIn(VerifyCredentials(users, NormalizeEmail(body.email), Trim(body.password)).user)
    ensures ParseLoginBody(body).ParseOk? && VerifyCredentials(users, NormalizeEmail(body.email), Trim(body.password)).Refused? ==>
      r == LoginRefused(VerifyCredentials(users, NormalizeEmail(body.email), Trim(body.password)).message)
    ensures r.LoggedIn? ==>
      r.user.id in users && r.user == SanitizeUser(users[r.user.id]) && r.user.email == NormalizeEmail(body.email)
  {
    var req := new Request<LoginBody, LoginBody>(map[], body, None);
    var next := ValidateSchema(ParseLoginBody, req);
    if !next {
      return LoginRejected(req.response.value.error);
    }
    assert req.validatedData == Some(ParseLoginBody(body).data);
    var parsed := req.validatedData.value;
    r := Authenticate(users, parsed.email, parsed.password);
  }

  /**
   * Any spelling of a verified account's address that normalises to the stored one, with a
   * password that trims to the registered one, logs in through the normalised route.
   */
  lemma NormalizedSpellingAccepted(users: map<int, User>, userId: int, body: LoginBody)
    requires UsersWellFormed(users) && userId in users && users[userId].isVerified
    requires NormalizeEmail(body.email) == users[userId].email
    requires users[userId].password == Hash(Trim(body.password))
    ensures VerifyCredentials(users, NormalizeEmail(body.email), Trim(body.password))
      == Authenticated(SanitizeUser(users[userId]))
  {
    CompareHash(Trim(body.password), Trim(body.password));
  }

  /** Ann's verified account, registered as "ann@x.com" with the password "Abcd1234". */
  function SampleUsers(): (users: map<int, User>)
    ensures UsersWellFormed(users) && users.Keys == {1}
    ensures users[1].email == "ann@x.com" && users[1].password == Hash("Abcd1234") && users[1].isVerified
  {
    map[1 := User(1, UserRole, "Ann", "Lee", "ann@x.com", Hash("Abcd1234"), true, 0, 0)]
  }

  /** No account is stored under the address exactly as Ann typed it. */
  lemma TypedEmailUnknown()
    ensures VerifyCredentials(SampleUsers(), "Ann@x.com", "Abcd1234") == Refused(UserDoesNotExist)
  {
    assert !EmailTaken(SampleUsers(), "Ann@x.com");
  }

  /** As declared, Ann typing "Ann@x.com" is told her account does not exist. */
  method MixedCaseLoginAsDeclared() returns (r: LoginReply)
    ensures r == LoginRefused(UserDoesNotExist)
  {
    SampleBodyParses();
    TypedEmailUnknown();
    r := LoginRoute(SampleUsers(), LoginBody("Ann@x.com", "Abcd1234"));
  }

  /** Through the normalised route the same attempt logs Ann in. */
  method MixedCaseLoginNormalized() returns (r: LoginReply)
    ensures r == LoggedIn(SanitizeUser(SampleUsers()[1]))
  {
    var users := SampleUsers();
    SampleBodyParses();
    NormalizedSpellingAccepted(users, 1, LoginBody("Ann@x.com", "Abcd1234"));
    r := LoginRouteNormalized(users, LoginBody("Ann@x.com", "Abcd1234"));
  }

  // ---------------------------------------------------------------- verify

  /**
   * `verifyController`: the service's message with 200, the failed result with 400, and 500 when
   * it throws. The code is read from the body's `validatedData`, which no schema middleware
   * fills on this route; an absent one makes the service throw on `undefined.code`.
   */
  method VerifyController(db: Database, code: Option<string>, now: int) returns (reply: AccountReply)
    requires db.Valid()
    modifies db
    ensures db.Valid()
    ensures (code.None? || !CodeTaken(old(db.codes), code.value)) ==>
      reply == ErrorReply(500, InternalError) && unchanged(db)
    ensures (code.Some? && CodeTaken(old(db.codes), code.value) &&
             !CodeUsable(SelectCodeByCode(old(db.codes), code.value).value, now)) ==>
      reply == ResultReply(400, Failure(InvalidOrExpiredCode)) && unchanged(db)
    ensures (code.Some? && CodeTaken(old(db.codes), code.value) &&
             CodeUsable(SelectCodeByCode(old(db.codes), code.value).value, now)) ==>
      var c := SelectCodeByCode(old(db.codes), code.value).value;
      && reply == MessageReply(200, AccountVerified)
      && c.userId in old(db.users)
      && db.codes == old(db.codes)[c.id := ConsumeCode(c, now)]
      && db.users == old(db.users)[c.userId := old(db.users)[c.userId].(isVerified := true)]
  {
    if code.None? {
      return ErrorReply(500, InternalError);
    }
    var outcome := VerifyUser(db, code.value, now);
    match outcome
    case Threw(_) =>
      reply := ErrorReply(500, InternalError);
    case Returned(result) =>
      reply := if result.Success? then MessageReply(200, result.data) else ResultReply(400, result);
  }

  /** `POST /verify` as declared: `isAuthenticated` in front of `verifyController`. */
  method VerifyRoute(db: Database, session: Option<SessionUser>, code: Option<string>, now: int)
    returns (r: RouteReply<AccountReply>)
    requires db.Valid()
    modifies db
    ensures db.Valid()
    ensures session.None? ==> r == Halted(ErrorJson(401, NotLoggedIn)) && unchanged(db)
    ensures session.Some? ==> r.Handled?
  {
    var req := new Request<Option<string>, ()>(map[], code, session);
    var next := IsAuthenticated(req);
    if !next {
      return Halted(req.response.value);
    }
    assert req.body == code;
    var reply := VerifyController(db, req.body, now);
    r := Handled(reply);
  }

  /**
   * As declared, a new account can never be verified by its owner: right after registering, the
   * login that would open a session is refused, so the mailed code is answered with 401 and the
   * account stays unverified, and login keeps being refused.
   */
  method SignUpAsDeclared(db: Database, data: AccountData, random: seq<byte>, now: int, durationMinutes: int)
    returns (session: Option<SessionUser>, verify: RouteReply<AccountReply>)
    requires db.Valid() && |random| == TokenBytes
    requires !EmailTaken(db.users, data.email) && !CodeTaken(db.codes, GenerateSecureToken(random))
    requires durationMinutes > 0
    modifies db
    ensures db.Valid()
    ensures session == None
    ensures verify == Halted(ErrorJson(401, NotLoggedIn))
    ensures SessionAfterLogin(db.users, data.email, data.password) == None
  {
    var uid := db.nextUserId;
    var registered := RegisterUser(db, data, random, now, durationMinutes);
    UnverifiedGetsNoSession(db.users, uid, data.password);
    session := SessionAfterLogin(db.users, data.email, data.password);
    verify := VerifyRoute(db, session, Some(GenerateSecureToken(random)), now);
  }

  /** `POST /verify` without the session guard: the mailed code is all the proof of identity needed. */
  method VerifyRouteOpen(db: Database, code: Option<string>, now: int) returns (r: RouteReply<AccountReply>)
    requires db.Valid()
    modifies db
    ensures db.Valid()
    ensures r.Handled?
    ensures (code.None? || !CodeTaken(old(db.codes), code.value)) ==>
      r == Handled(ErrorReply(500, InternalError)) && unchanged(db)
    ensures code.Some? && CodeTaken(old(db.codes), code.value) ==>
      var c := SelectCodeByCode(old(db.codes), code.value).value;
      && (CodeUsable(c, now) <==> r == Handled(MessageReply(200, AccountVerified)))
      && (CodeUsable(c, now) ==> db.users == old(db.users)[c.userId := old(db.users)[c.userId].(isVerified := true)])
  {
    var reply := VerifyController(db, code, now);
    r := Handled(reply);
  }

  /**
   * Without the guard, the owner of a new account verifies it with the mailed code and can then
   * log in: the session holds the verified account.
   */
  method SignUpWithOpenVerify(db: Database, data: AccountData, random: seq<byte>, now: int, durationMinutes: int)
    returns (verify: RouteReply<AccountReply>, session: Option<SessionUser>)
    requires db.Valid() && |random| == TokenBytes
    requires !EmailTaken(db.users, data.email) && !CodeTaken(db.codes, GenerateSecureToken(random))
    requires durationMinutes > 0
    modifies db
    ensures db.Valid()
    ensures verify == Handled(MessageReply(200, AccountVerified))
    ensures session.Some? && session.value.email == data.email && session.value.isVerified
  {
    var uid, cid := db.nextUserId, db.nextCodeId;
    var registered := RegisterUser(db, data, random, now, durationMinutes);
    var registeredUsers := db.users;
    assert db.codes[cid].code == GenerateSecureToken(random);
    LookupDetermined(db.codes, cid);
    verify := VerifyRouteOpen(db, Some(GenerateSecureToken(random)), now);
    LoginAfterVerification(registeredUsers, uid, data.password);
    session := SessionAfterLogin(db.users, data.email, data.password);
  }
}
