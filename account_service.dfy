/** The account service: login, registration, verification, password reset, and user CRUD. */
module AccountService {
  import opened Common
  import opened Text
  import opened Bcrypt
  import opened UserSchema
  import opened VerificationCodeSchema
  import opened Auth
  import opened Store
  import opened VerificationCodeService

  const UserDoesNotExist := "User does not exist"
  const IncorrectCredentials := "Incorrect email or password"
  const UserNotVerified := "User is not verified. Please check your inbox or request a new verification code"
  const UserAlreadyExists := "User with this email already exists"
  const RegisterFailed := "Failed to register user"
  const UserNotFound := "User not found"
  const EmailInUse := "Email already in use"
  const InvalidOrExpiredCode := "Invalid verification code or code has expired"
  const AccountVerified := "Account verified"
  const ResetUnknownEmail := "Error resetting password"
  const ResetUnverified := "User is not verified"
  const ResetEmailSent := "Password reset email sent"
  const CodeValid := "Verification code valid"
  const PasswordChanged := "User updated successfully"

  // ---------------------------------------------------------------- queries

  /** `select ... from users where email = ?`, first row. */
  function SelectUserByEmail(users: map<int, User>, email: string): (r: Option<User>)
    requires UsersWellFormed(users)
    ensures r.Some? <==> EmailTaken(users, email)
    ensures r.Some? ==> r.value.id in users && users[r.value.id] == r.value && r.value.email == email
  {
    if EmailTaken(users, email) then
      var id :| id in users && users[id].email == email; Some(users[id])
    else None
  }

  /**
   * `loginUserService`: refuses an unknown email, then a wrong password, then an unverified
   * account, stopping at the first; otherwise hands back the sanitized row.
   */
  function LoginUser(users: map<int, User>, email: string, password: string): (r: ServiceResult<SessionUser>)
    requires UsersWellFormed(users)
    ensures r == Failure(UserDoesNotExist) <==> !EmailTaken(users, email)
    ensures r == Failure(IncorrectCredentials) <==>
      exists id :: id in users && users[id].email == email && !Compare(password, users[id].password)
    ensures r == Failure(UserNotVerified) <==>
      exists id :: id in users && users[id].email == email && Compare(password, users[id].password)
        && !users[id].isVerified
    ensures r.Success? <==>
      exists id :: id in users && users[id].email == email && Compare(password, users[id].password)
        && users[id].isVerified
    ensures r.Success? ==>
      r.data.id in users && r.data == SanitizeUser(users[r.data.id]) && r.data.email == email && r.data.isVerified
  {
    match SelectUserByEmail(users, email)
    case None => Failure(UserDoesNotExist)
    case Some(u) =>
      if !Compare(password, u.password) then Failure(IncorrectCredentials)
      else if !u.isVerified then Failure(UserNotVerified)
      else Success(SanitizeUser(u))
  }

  /** `getAllUsersService`: every row, sanitized, keyed by id. */
  function GetAllUsers(users: map<int, User>): (r: ServiceResult<map<int, SessionUser>>)
    ensures r.Success? && r.data.Keys == users.Keys
    ensures forall id :: id in users ==> r.data[id] == SanitizeUser(users[id])
  {
    Success(map id | id in users :: SanitizeUser(users[id]))
  }

  /** `userGetByIdService`. */
  function UserGetById(users: map<int, User>, userId: int): (r: ServiceResult<SessionUser>)
    ensures r.Success? <==> userId in users
    ensures r.Success? ==> r.data == SanitizeUser(users[userId])
    ensures r.Failure? ==> r.error == UserNotFound
  {
    if userId in users then Success(SanitizeUser(users[userId])) else Failure(UserNotFound)
  }

  /** `userGetByEmailService`. */
  function UserGetByEmail(users: map<int, User>, email: string): (r: ServiceResult<SessionUser>)
    requires UsersWellFormed(users)
    ensures r.Success? <==> EmailTaken(users, email)
    ensures r.Success? ==> r.data.email == email && r.data.id in users && r.data == SanitizeUser(users[r.data.id])
    ensures r.Failure? ==> r.error == UserNotFound
  {
    match SelectUserByEmail(users, email)
    case Some(u) => Success(SanitizeUser(u))
    case None => Failure(UserNotFound)
  }

  /** The test every code must pass: not used, and `now > expiresAt` false. The type is not looked at. */
  predicate CodeUsable(c: VerificationCode, now: int) {
    !c.isUsed && !(now > c.expiresAt)
  }

  /** Some row holds this code value and passes the test. */
  predicate HasUsableCode(codes: map<int, VerificationCode>, code: string, now: int) {
    exists id :: id in codes && codes[id].code == code && CodeUsable(codes[id], now)
  }

  /** The row the lookup finds exists and passes the test. */
  predicate FoundUsable(codes: map<int, VerificationCode>, code: string, now: int)
    requires CodesWellFormed(codes)
  {
    CodeTaken(codes, code) && CodeUsable(SelectCodeByCode(codes, code).value, now)
  }

  /** With unique code values, "some row is usable" and "the row the lookup finds is usable" agree. */
  lemma UsableIffLookupUsable(codes: map<int, VerificationCode>, code: string, now: int)
    requires CodesWellFormed(codes)
    ensures HasUsableCode(codes, code, now) <==> FoundUsable(codes, code, now)
  {
    if HasUsableCode(codes, code, now) {
      var id :| id in codes && codes[id].code == code && CodeUsable(codes[id], now);
      assert SelectCodeByCode(codes, code).value == codes[id];
    }
  }

  /** `passwordResetVerifyService`: reads, never writes. */
  function PasswordResetVerify(codes: map<int, VerificationCode>, code: string, now: int): (r: ServiceResult<string>)
    requires CodesWellFormed(codes)
    ensures r.Success? <==> HasUsableCode(codes, code, now)
    ensures r == Success(CodeValid) || r == Failure(InvalidOrExpiredCode)
  {
    UsableIffLookupUsable(codes, code, now);
    var lookup := VerificationCodeGetByCode(codes, code);
    if lookup.Failure? || lookup.data.isUsed || now > lookup.data.expiresAt then Failure(InvalidOrExpiredCode)
    else Success(CodeValid)
  }

  /** The row a registration inserts: role "user" and isVerified false by default, the password digested. */
  function NewUserRow(id: int, data: AccountData, now: int): (u: User)
    ensures u.id == id && u.email == data.email && u.role == UserRole && !u.isVerified
    ensures Compare(data.password, u.password)
  {
    User(id, UserRole, data.firstName, data.lastName, data.email, Hash(data.password), false, now, now)
  }

  /** The `set({ ...userData, password })` of an update: names, email and a fresh digest. */
  function UpdatedRow(u: User, data: AccountData): User {
    u.(firstName := data.firstName, lastName := data.lastName, email := data.email, password := Hash(data.password))
  }

  /** The body the change-password step re-validates: the stored names and email, the new password twice. */
  function ResetBody(s: SessionUser, newPassword: string): AccountBody {
    AccountBody(s.firstName, s.lastName, s.email, newPassword, newPassword)
  }

  // ---------------------------------------------------------------- commands

  /**
   * `registerUserService`. Both inserts run in one transaction; a code value already in the table
   * makes the second insert fail, and the rollback leaves both tables as they were (the identity
   * sequences still advance, as Postgres sequences do).
   */
  method RegisterUser(db: Database, data: AccountData, random: seq<byte>, now: int, durationMinutes: int)
    returns (r: ServiceResult<SessionUser>)
    requires db.Valid() && |random| == TokenBytes
    modifies db
    ensures db.Valid()
    ensures EmailTaken(old(db.users), data.email) ==> r == Failure(UserAlreadyExists) && unchanged(db)
    ensures !EmailTaken(old(db.users), data.email) ==>
      && db.nextUserId == old(db.nextUserId) + 1 && db.nextCodeId == old(db.nextCodeId) + 1
      && db.posts == old(db.posts) && db.nextPostId == old(db.nextPostId)
    ensures !EmailTaken(old(db.users), data.email) && CodeTaken(old(db.codes), GenerateSecureToken(random)) ==>
      && r == Failure(RegisterFailed)
      && db.users == old(db.users) && db.codes == old(db.codes) && db.outbox == old(db.outbox)
    ensures !EmailTaken(old(db.users), data.email) && !CodeTaken(old(db.codes), GenerateSecureToken(random)) ==>
      var user := NewUserRow(old(db.nextUserId), data, now);
      var token := GenerateSecureToken(random);
      && db.users == old(db.users)[user.id := user]
      && db.codes == old(db.codes)[old(db.nextCodeId) :=
           NewCodeRow(old(db.nextCodeId), user.id, Register, token, now, VerificationCodeExpiry(now, durationMinutes))]
      && db.outbox == old(db.outbox) + [Mail(data.email, token)]
      && r == Success(SanitizeUser(user))
      && ParseCode(token) == ParseOk(token)
  {
    if SelectUserByEmail(db.users, data.email).Some? {
      return Failure(UserAlreadyExists);
    }
    var digest := Hash(data.password);
    var token := GenerateSecureToken(random);
    SecureTokenPassesCodeSchema(random);
    var userId, codeId := db.nextUserId, db.nextCodeId;
    db.nextUserId, db.nextCodeId := db.nextUserId + 1, db.nextCodeId + 1;
    if CodeTaken(db.codes, token) {
      return Failure(RegisterFailed);
    }
    var user := User(userId, UserRole, data.firstName, data.lastName, data.email, digest, false, now, now);
    var code := NewCodeRow(codeId, userId, Register, token, now, VerificationCodeExpiry(now, durationMinutes));
    UsersInsert(db.users, user);
    CodesInsert(db.codes, code);
    db.users := db.users[userId := user];
    db.codes := db.codes[codeId := code];
    db.outbox := db.outbox + [Mail(user.email, token)];
    r := Success(SanitizeUser(user));
  }

  /**
   * `verifyUserService`. An unknown code yields no joined row, and destructuring it throws. A used or
   * expired code is refused. Otherwise the code is consumed and its owner verified, together.
   */
  method VerifyUser(db: Database, code: string, now: int) returns (r: Completion<ServiceResult<string>>)
    requires db.Valid()
    modifies db
    ensures db.Valid()
    ensures !CodeTaken(old(db.codes), code) ==> r.Threw? && unchanged(db)
    ensures CodeTaken(old(db.codes), code) ==>
      var c := SelectCodeByCode(old(db.codes), code).value;
      if !CodeUsable(c, now) then r == Returned(Failure(InvalidOrExpiredCode)) && unchanged(db)
      else
        && c.userId in old(db.users)
        && r == Returned(Success(AccountVerified))
        && db.codes == old(db.codes)[c.id := ConsumeCode(c, now)]
        && db.users == old(db.users)[c.userId := old(db.users)[c.userId].(isVerified := true)]
        && db.posts == old(db.posts) && db.outbox == old(db.outbox)
        && unchanged(db`nextUserId, db`nextCodeId, db`nextPostId)
  {
    var found := SelectCodeByCode(db.codes, code);
    if found.None? {
      return Threw("TypeError: cannot destructure an undefined row");
    }
    var c := found.value;
    if c.isUsed || now > c.expiresAt {
      return Returned(Failure(InvalidOrExpiredCode));
    }
    var u := db.users[c.userId];
    CodesReplace(db.codes, ConsumeCode(c, now));
    UsersReplace(db.users, u.(isVerified := true));
    db.codes := db.codes[c.id := ConsumeCode(c, now)];
    db.users := db.users[u.id := u.(isVerified := true)];
    r := Returned(Success(AccountVerified));
  }

  /**
   * `passwordResetRequestService`. The insert is not guarded: a code value already in the table
   * makes it throw. The reply never carries the code, and the reset mail sender does nothing.
   */
  method PasswordResetRequest(db: Database, email: string, random: seq<byte>, now: int, durationMinutes: int)
    returns (r: Completion<ServiceResult<string>>)
    requires db.Valid() && |random| == TokenBytes
    modifies db
    ensures db.Valid()
    ensures !EmailTaken(old(db.users), email) ==> r == Returned(Failure(ResetUnknownEmail)) && unchanged(db)
    ensures EmailTaken(old(db.users), email) && !SelectUserByEmail(old(db.users), email).value.isVerified ==>
      r == Returned(Failure(ResetUnverified)) && unchanged(db)
    ensures EmailTaken(old(db.users), email) && SelectUserByEmail(old(db.users), email).value.isVerified ==>
      && db.users == old(db.users) && db.posts == old(db.posts) && db.outbox == old(db.outbox)
      && db.nextCodeId == old(db.nextCodeId) + 1
      && unchanged(db`nextUserId, db`nextPostId)
    ensures (&& EmailTaken(old(db.users), email) && SelectUserByEmail(old(db.users), email).value.isVerified
             && CodeTaken(old(db.codes), GenerateSecureToken(random)))
      ==> r.Threw? && db.codes == old(db.codes)
    ensures (&& EmailTaken(old(db.users), email) && SelectUserByEmail(old(db.users), email).value.isVerified
             && !CodeTaken(old(db.codes), GenerateSecureToken(random)))
      ==>
      && r == Returned(Success(ResetEmailSent))
      && db.codes == old(db.codes)[old(db.nextCodeId) := NewCodeRow(old(db.nextCodeId),
           SelectUserByEmail(old(db.users), email).value.id, PasswordReset, GenerateSecureToken(random), now,
           VerificationCodeExpiry(now, durationMinutes))]
  {
    var lookup := UserGetByEmail(db.users, email);
    if lookup.Failure? {
      return Returned(Failure(ResetUnknownEmail));
    }
    if !lookup.data.isVerified {
      return Returned(Failure(ResetUnverified));
    }
    assert lookup.data == SanitizeUser(SelectUserByEmail(db.users, email).value);
    var token := GenerateSecureToken(random);
    var inserted := InsertCode(db, lookup.data.id, PasswordReset, token, now, VerificationCodeExpiry(now, durationMinutes));
    if !inserted {
      return Threw("duplicate key value violates unique constraint on verification_codes.code");
    }
    r := Returned(Success(ResetEmailSent));
  }

  /**
   * `insert into verification_codes ... returning`: the row takes the next identity value; a code
   * value already present violates the unique index, and then no row is inserted.
   */
  method InsertCode(db: Database, userId: int, codeType: CodeType, token: string, now: int, expiresAt: int)
    returns (inserted: bool)
    requires db.Valid() && userId in db.users
    modifies db
    ensures db.Valid()
    ensures inserted <==> !CodeTaken(old(db.codes), token)
    ensures inserted ==>
      db.codes == old(db.codes)[old(db.nextCodeId) := NewCodeRow(old(db.nextCodeId), userId, codeType, token, now, expiresAt)]
    ensures !inserted ==> db.codes == old(db.codes)
    ensures db.nextCodeId == old(db.nextCodeId) + 1
    ensures db.users == old(db.users) && db.posts == old(db.posts) && db.outbox == old(db.outbox)
    ensures unchanged(db`nextUserId, db`nextPostId)
  {
    var codeId := db.nextCodeId;
    db.nextCodeId := db.nextCodeId + 1;
    if CodeTaken(db.codes, token) {
      return false;
    }
    var row := NewCodeRow(codeId, userId, codeType, token, now, expiresAt);
    CodesInsert(db.codes, row);
    db.codes := db.codes[codeId := row];
    inserted := true;
  }

  /**
   * `passwordResetChangePasswordService`. The code is checked again, the owner's stored names and
   * email are re-validated with the new password, and then the digest is replaced and the code
   * consumed together. Any refusal leaves the store as it was.
   */
  method PasswordResetChangePassword(db: Database, code: string, newPassword: string, now: int)
    returns (r: ServiceResult<string>)
    requires db.Valid()
    modifies db
    ensures db.Valid()
    ensures !FoundUsable(old(db.codes), code, now) ==> r == Failure(InvalidOrExpiredCode) && unchanged(db)
    ensures FoundUsable(old(db.codes), code, now) ==>
      SelectCodeByCode(old(db.codes), code).value.userId in old(db.users)
    ensures FoundUsable(old(db.codes), code, now) ==>
      var c := SelectCodeByCode(old(db.codes), code).value;
      var u := old(db.users)[c.userId];
      var parsed := ParseAccountBody(ResetBody(SanitizeUser(u), newPassword));
      parsed.ParseError? ==> r == Failure(parsed.firstIssue) && unchanged(db)
    ensures FoundUsable(old(db.codes), code, now) ==>
      var c := SelectCodeByCode(old(db.codes), code).value;
      var u := old(db.users)[c.userId];
      var parsed := ParseAccountBody(ResetBody(SanitizeUser(u), newPassword));
      parsed.ParseOk? ==>
        && r == Success(PasswordChanged)
        && db.users == old(db.users)[u.id := u.(password := Hash(Trim(newPassword)))]
        && db.codes == old(db.codes)[c.id := ConsumeCode(c, now)]
        && db.posts == old(db.posts) && db.outbox == old(db.outbox)
        && unchanged(db`nextUserId, db`nextCodeId, db`nextPostId)
  {
    var lookup := VerificationCodeGetByCode(db.codes, code);
    assert lookup.Success? ==> lookup.data == SelectCodeByCode(db.codes, code).value;
    if lookup.Failure? || lookup.data.isUsed || now > lookup.data.expiresAt {
      return Failure(InvalidOrExpiredCode);
    }
    r := ChangeOwnerPassword(db, lookup.data, newPassword, now);
  }

  /** The steps after the code check: the owner's row, the update schema, then the transaction. */
  method ChangeOwnerPassword(db: Database, c: VerificationCode, newPassword: string, now: int)
    returns (r: ServiceResult<string>)
    requires db.Valid() && c.id in db.codes && db.codes[c.id] == c
    modifies db
    ensures db.Valid()
    ensures c.userId in old(db.users)
    ensures var parsed := ParseAccountBody(ResetBody(SanitizeUser(old(db.users)[c.userId]), newPassword));
      parsed.ParseError? ==> r == Failure(parsed.firstIssue) && unchanged(db)
    ensures var u := old(db.users)[c.userId];
      ParseAccountBody(ResetBody(SanitizeUser(u), newPassword)).ParseOk? ==>
        && r == Success(PasswordChanged)
        && db.users == old(db.users)[u.id := u.(password := Hash(Trim(newPassword)))]
        && db.codes == old(db.codes)[c.id := ConsumeCode(c, now)]
        && db.posts == old(db.posts) && db.outbox == old(db.outbox)
        && unchanged(db`nextUserId, db`nextCodeId, db`nextPostId)
  {
    var owner := UserGetById(db.users, c.userId);
    if owner.Failure? {
      return Failure(UserNotFound);
    }
    var parsed := ParseAccountBody(ResetBody(owner.data, newPassword));
    if parsed.ParseError? {
      return Failure(parsed.firstIssue);
    }
    CommitPasswordChange(db, c, Hash(parsed.data.password), now);
    r := Success(PasswordChanged);
  }

  /** The transaction of a password change: the owner's digest replaced and the code consumed, together. */
  method CommitPasswordChange(db: Database, c: VerificationCode, digest: string, now: int)
    requires db.Valid() && c.id in db.codes && db.codes[c.id] == c
    modifies db
    ensures db.Valid()
    ensures c.userId in old(db.users)
    ensures db.users == old(db.users)[c.userId := old(db.users)[c.userId].(password := digest)]
    ensures db.codes == old(db.codes)[c.id := ConsumeCode(c, now)]
    ensures db.posts == old(db.posts) && db.outbox == old(db.outbox)
    ensures unchanged(db`nextUserId, db`nextCodeId, db`nextPostId)
  {
    var row := db.users[c.userId].(password := digest);
    UsersReplace(db.users, row);
    CodesReplace(db.codes, ConsumeCode(c, now));
    db.users := db.users[c.userId := row];
    db.codes := db.codes[c.id := ConsumeCode(c, now)];
  }

  /**
   * `updateUserService`: an unknown id, or an email held by another row, is refused; keeping one's
   * own email is allowed; the password is always digested afresh.
   */
  method UpdateUser(db: Database, userId: int, data: AccountData) returns (r: ServiceResult<SessionUser>)
    requires db.Valid()
    modifies db
    ensures db.Valid()
    ensures userId !in old(db.users) ==> r == Failure(UserNotFound) && unchanged(db)
    ensures userId in old(db.users) && old(db.users)[userId].email != data.email && EmailTaken(old(db.users), data.email)
      ==> r == Failure(EmailInUse) && unchanged(db)
    ensures userId in old(db.users) && (old(db.users)[userId].email == data.email || !EmailTaken(old(db.users), data.email))
      ==>
      var u := UpdatedRow(old(db.users)[userId], data);
      && db.users == old(db.users)[userId := u]
      && r == Success(SanitizeUser(u))
      && db.codes == old(db.codes) && db.posts == old(db.posts) && db.outbox == old(db.outbox)
      && unchanged(db`nextUserId, db`nextCodeId, db`nextPostId)
  {
    var existing := UserGetById(db.users, userId);
    if existing.Failure? {
      return Failure(UserNotFound);
    }
    if existing.data.email != data.email {
      if SelectUserByEmail(db.users, data.email).Some? {
        return Failure(EmailInUse);
      }
    }
    var row := UpdatedRow(db.users[userId], data);
    db.users := db.users[userId := row];
    r := Success(SanitizeUser(row));
  }

  /**
   * `deleteUserService`: the row goes, and with it (cascade) its codes and posts. With no such row
   * `sanitizeUser(undefined)` throws, so the error branch after it is never reached.
   */
  method DeleteUser(db: Database, userId: int) returns (r: Completion<ServiceResult<SessionUser>>)
    requires db.Valid()
    modifies db
    ensures db.Valid()
    ensures userId !in old(db.users) ==> r.Threw? && unchanged(db)
    ensures userId in old(db.users) ==>
      && r == Returned(Success(SanitizeUser(old(db.users)[userId])))
      && db.users == old(db.users) - {userId}
      && db.codes == CodesNotOwnedBy(old(db.codes), userId)
      && db.posts == PostsNotOwnedBy(old(db.posts), userId)
      && db.outbox == old(db.outbox)
      && unchanged(db`nextUserId, db`nextCodeId, db`nextPostId)
  {
    var deleted: Option<User> := if userId in db.users then Some(db.users[userId]) else None;
    if deleted.Some? {
      db.users := db.users - {userId};
      db.codes := CodesNotOwnedBy(db.codes, userId);
      db.posts := PostsNotOwnedBy(db.posts, userId);
    }
    match SanitizeRow(deleted)
    case Threw(e) => r := Threw(e);
    case Returned(s) => r := Returned(Success(s));
  }

  /**
   * The sign-up flow end to end: a fresh account is refused at login, the mailed code verifies it,
   * the owner then logs in with the password given at registration, and the code does not work twice.
   */
  method SignUpFlow(db: Database, data: AccountData, random: seq<byte>, now: int, durationMinutes: int)
    returns (before: ServiceResult<SessionUser>, first: Completion<ServiceResult<string>>,
             after: ServiceResult<SessionUser>, second: Completion<ServiceResult<string>>)
    requires db.Valid() && |random| == TokenBytes
    requires !EmailTaken(db.users, data.email) && !CodeTaken(db.codes, GenerateSecureToken(random))
    requires durationMinutes > 0
    modifies db
    ensures db.Valid()
    ensures before == Failure(UserNotVerified)
    ensures first == Returned(Success(AccountVerified))
    ensures after.Success? && after.data.email == data.email && after.data.isVerified
    ensures second == Returned(Failure(InvalidOrExpiredCode))
  {
    var uid, cid := db.nextUserId, db.nextCodeId;
    var registered := RegisterUser(db, data, random, now, durationMinutes);
    var token := GenerateSecureToken(random);
    assert db.users[uid].email == data.email && Compare(data.password, db.users[uid].password);
    before := LoginUser(db.users, data.email, data.password);
    assert db.codes[cid].code == token;
    LookupDetermined(db.codes, cid);
    first := VerifyUser(db, token, now);
    LoginAfterVerification(old(db.users)[uid := NewUserRow(uid, data, now)], uid, data.password);
    after := LoginUser(db.users, data.email, data.password);
    LookupDetermined(db.codes, cid);
    second := VerifyUser(db, token, now);
  }

  // ---------------------------------------------------------------- properties

  /** Verifying an account lets its owner in with the password whose digest is stored. */
  lemma {:induction false} LoginAfterVerification(users: map<int, User>, userId: int, password: string)
    requires UsersWellFormed(users) && userId in users && Compare(password, users[userId].password)
    ensures var verified := users[userId].(isVerified := true);
      LoginUser(users[userId := verified], verified.email, password) == Success(SanitizeUser(verified))
  {
    var verified := users[userId].(isVerified := true);
    var after := users[userId := verified];
    UsersReplace(users, verified);
    var r := LoginUser(after, verified.email, password);
    assert after[userId].email == verified.email && Compare(password, after[userId].password);
    assert r.Success?;
    assert r.data.id == userId;
  }

  /**
   * After a password change only the new password opens a verified account (or any password that
   * agrees with it on the 72 characters bcrypt reads); every other password, the old one included,
   * meets "Incorrect email or password".
   */
  lemma {:induction false} LoginAfterPasswordChange(users: map<int, User>, userId: int, newPassword: string, attempt: string)
    requires UsersWellFormed(users) && userId in users
    ensures var changed := users[userId].(password := Hash(newPassword));
      var r := LoginUser(users[userId := changed], changed.email, attempt);
      && (r.Success? <==> HashedPart(attempt) == HashedPart(newPassword) && changed.isVerified)
      && (HashedPart(attempt) != HashedPart(newPassword) ==> r == Failure(IncorrectCredentials))
      && (|attempt| <= MaxInputLength && |newPassword| <= MaxInputLength ==>
            (r.Success? <==> attempt == newPassword && changed.isVerified))
  {
    var changed := users[userId].(password := Hash(newPassword));
    var after := users[userId := changed];
    UsersReplace(users, changed);
    CompareHash(newPassword, attempt);
    var r := LoginUser(after, changed.email, attempt);
    assert after[userId].email == changed.email;
    if r.Success? || r == Failure(IncorrectCredentials) || r == Failure(UserNotVerified) {
      var id :| id in after && after[id].email == changed.email
        && (r.Success? ==> Compare(attempt, after[id].password) && after[id].isVerified)
        && (r == Failure(IncorrectCredentials) ==> !Compare(attempt, after[id].password))
        && (r == Failure(UserNotVerified) ==> Compare(attempt, after[id].password) && !after[id].isVerified);
      assert id == userId;
    }
  }

  /** A consumed code fails every later check, whatever the clock says. */
  lemma {:induction false} ConsumedCodeRejected(codes: map<int, VerificationCode>, id: int, now: int, later: int)
    requires CodesWellFormed(codes) && id in codes
    ensures var after := codes[id := ConsumeCode(codes[id], now)];
      CodesWellFormed(after) && PasswordResetVerify(after, codes[id].code, later) == Failure(InvalidOrExpiredCode)
  {
    var after := codes[id := ConsumeCode(codes[id], now)];
    CodesReplace(codes, ConsumeCode(codes[id], now));
  }

  /** A code past its expiry fails the check, used or not. */
  lemma {:induction false} ExpiredCodeRejected(codes: map<int, VerificationCode>, id: int, now: int)
    requires CodesWellFormed(codes) && id in codes && now > codes[id].expiresAt
    ensures PasswordResetVerify(codes, codes[id].code, now) == Failure(InvalidOrExpiredCode)
  {
  }

  /**
   * The code type is stored but never compared: relabelling a register code as a reset code, or
   * the other way round, changes no answer of the reset check.
   */
  lemma {:induction false} CodeTypeIgnored(codes: map<int, VerificationCode>, id: int, t: CodeType, code: string, now: int)
    requires CodesWellFormed(codes) && id in codes
    ensures var relabelled := codes[id := codes[id].(codeType := t)];
      CodesWellFormed(relabelled) && PasswordResetVerify(relabelled, code, now) == PasswordResetVerify(codes, code, now)
  {
    var relabelled := codes[id := codes[id].(codeType := t)];
    CodesReplace(codes, codes[id].(codeType := t));
    if HasUsableCode(codes, code, now) {
      var j :| j in codes && codes[j].code == code && CodeUsable(codes[j], now);
      assert relabelled[j].code == code && CodeUsable(relabelled[j], now);
    }
    if HasUsableCode(relabelled, code, now) {
      var j :| j in relabelled && relabelled[j].code == code && CodeUsable(relabelled[j], now);
      assert codes[j].code == code && CodeUsable(codes[j], now);
    }
  }

  /** The read services never show a digest: replacing one changes none of their answers. */
  lemma {:induction false} ReadsIgnorePasswords(users: map<int, User>, userId: int, digest: string, id: int, email: string)
    requires UsersWellFormed(users) && userId in users
    ensures var after := users[userId := users[userId].(password := digest)];
      && GetAllUsers(after) == GetAllUsers(users)
      && UserGetById(after, id) == UserGetById(users, id)
      && UsersWellFormed(after) && UserGetByEmail(after, email) == UserGetByEmail(users, email)
  {
    var changed := users[userId].(password := digest);
    var after := users[userId := changed];
    UsersReplace(users, changed);
    SanitizeDropsOnlyPassword(users[userId], SanitizeUser(changed), digest);
    assert GetAllUsers(after).data == GetAllUsers(users).data;
    var a, b := UserGetByEmail(after, email), UserGetByEmail(users, email);
    if a.Success? {
      assert a.data.id == b.data.id;
    }
  }
}
