/** The `users` table and the register, login and update body schemas built on it. */
module UserSchema {
  import opened Common
  import opened Text

  /** The `user_roles` enum: "admin" or "user". */
  datatype Role = AdminRole | UserRole

  /** A row of the `users` table; `password` holds the digest, timestamps are milliseconds. */
  datatype User = User(
    id: int, role: Role, firstName: string, lastName: string, email: string,
    password: string, isVerified: bool, createdAt: int, updatedAt: int)

  /** A `users` row without its `password` column: the only user shape that leaves a service. */
  datatype SessionUser = SessionUser(
    id: int, role: Role, firstName: string, lastName: string, email: string,
    isVerified: bool, createdAt: int, updatedAt: int)

  const NameMinLength := 2
  const NameMaxLength := 64
  const EmailMaxLength := 64
  const PasswordMinLength := 8
  const PasswordMaxLength := 255

  const FirstNameTooShort := "First name must be at least 2 characters long"
  const FirstNameTooLong := "First name must be less than 64 characters long"
  const LastNameTooShort := "Last name must be at least 2 characters long"
  const LastNameTooLong := "Last name must be less than 64 characters long"
  const InvalidEmail := "Invalid email address"
  const EmailTooLong := "Email must be less than 64 characters long"
  const PasswordTooShort := "Password must be at least 8 characters long"
  const PasswordTooLong := "Password must be less than 255 characters long"
  const PasswordTooWeak := "Password must contain at least one uppercase letter, one lowercase letter, and one number"
  const PasswordsDoNotMatch := "Passwords do not match"

  /** The raw strings of a register or update request body. */
  datatype AccountBody = AccountBody(
    firstName: string, lastName: string, email: string, password: string, confirmPassword: string)

  /** What the register and update schemas produce: trimmed names, normalised email, trimmed password. */
  datatype AccountData = AccountData(
    firstName: string, lastName: string, email: string, password: string, confirmPassword: string)

  /** The raw strings of a login request body, and what the login schema produces from them. */
  datatype LoginBody = LoginBody(email: string, password: string)

  predicate IsAsciiLower(c: char) { 'a' <= c <= 'z' }
  predicate IsAsciiUpper(c: char) { 'A' <= c <= 'Z' }
  predicate IsAsciiDigit(c: char) { '0' <= c <= '9' }

  /**
   * An address of the form local@domain: no white space, exactly one '@', a non-empty local part
   * and a domain with an inner dot. A stand-in for the format check of `z.email()`.
   */
  predicate IsEmailAddress(s: string) {
    exists at :: 0 < at < |s| - 1 && s[at] == '@'
      && (forall k :: 0 <= k < |s| && k != at ==> s[k] != '@')
      && (forall k :: 0 <= k < |s| ==> !IsJsWhiteSpace(s[k]))
      && (exists d :: at + 1 < d < |s| - 1 && s[d] == '.')
  }

  /** The pattern /^(?=.*[a-z])(?=.*[A-Z])(?=.*\d).+$/: non-empty, no line terminator, one of each class. */
  predicate MatchesPasswordPattern(p: string) {
    && |p| > 0
    && (forall k :: 0 <= k < |p| ==> !IsLineTerminator(p[k]))
    && (exists k :: 0 <= k < |p| && IsAsciiLower(p[k]))
    && (exists k :: 0 <= k < |p| && IsAsciiUpper(p[k]))
    && (exists k :: 0 <= k < |p| && IsAsciiDigit(p[k]))
  }

  /** The password policy: 8 to 255 characters and the pattern above. */
  predicate PasswordPolicy(p: string) {
    PasswordMinLength <= |p| <= PasswordMaxLength && MatchesPasswordPattern(p)
  }

  /** A name field: trimmed, then 2 to 64 characters. */
  function NameIssues(raw: string, tooShort: string, tooLong: string): seq<string> {
    var t := Trim(raw);
    (if |t| < NameMinLength then [tooShort] else []) + (if |t| > NameMaxLength then [tooLong] else [])
  }

  /**
   * `email`, then trim and lower-case, then at most 64 characters. The result has the trimmed
   * length, no white space at either end and no upper-case ASCII letter.
   */
  function NormalizeEmail(raw: string): (email: string)
    ensures |email| == |Trim(raw)| <= |raw|
    ensures IsTrimmed(email)
    ensures ToLowerAscii(email) == email
  {
    LowerAsciiKeepsTrimmed(Trim(raw));
    LowerAsciiIdempotent(Trim(raw));
    ToLowerAscii(Trim(raw))
  }

  /** Normalising an address that is already normalised changes nothing. */
  lemma NormalizeEmailIdempotent(raw: string)
    ensures NormalizeEmail(NormalizeEmail(raw)) == NormalizeEmail(raw)
  {
    TrimFixpoint(NormalizeEmail(raw));
  }

  function EmailIssues(raw: string): seq<string> {
    (if !IsEmailAddress(raw) then [InvalidEmail] else [])
    + (if |NormalizeEmail(raw)| > EmailMaxLength then [EmailTooLong] else [])
  }

  /** The length and pattern checks shared by `password` (after trimming) and `confirmPassword` (as is). */
  function PasswordChecks(p: string): seq<string> {
    (if |p| < PasswordMinLength then [PasswordTooShort] else [])
    + (if |p| > PasswordMaxLength then [PasswordTooLong] else [])
    + (if !MatchesPasswordPattern(p) then [PasswordTooWeak] else [])
  }

  /** Issues of the register and update schemas, in field order, then the equality refinement. */
  function AccountIssues(body: AccountBody): seq<string> {
    NameIssues(body.firstName, FirstNameTooShort, FirstNameTooLong)
    + NameIssues(body.lastName, LastNameTooShort, LastNameTooLong)
    + EmailIssues(body.email)
    + PasswordChecks(Trim(body.password))
    + PasswordChecks(body.confirmPassword)
    + (if Trim(body.password) != body.confirmPassword then [PasswordsDoNotMatch] else [])
  }

  /** When a raw account body is acceptable, stated field by field. */
  predicate AccountBodyAcceptable(body: AccountBody) {
    && NameMinLength <= |Trim(body.firstName)| <= NameMaxLength
    && NameMinLength <= |Trim(body.lastName)| <= NameMaxLength
    && IsEmailAddress(body.email)
    && |NormalizeEmail(body.email)| <= EmailMaxLength
    && PasswordPolicy(Trim(body.password))
    && body.confirmPassword == Trim(body.password)
  }

  /** What every accepted account body yields. */
  predicate AccountDataValid(d: AccountData) {
    && IsTrimmed(d.firstName) && NameMinLength <= |d.firstName| <= NameMaxLength
    && IsTrimmed(d.lastName) && NameMinLength <= |d.lastName| <= NameMaxLength
    && ToLowerAscii(d.email) == d.email && |d.email| <= EmailMaxLength
    && IsTrimmed(d.password) && PasswordPolicy(d.password)
    && d.confirmPassword == d.password
  }

  /** The transformed fields: names and password trimmed, email trimmed and lower-cased. */
  function NormalizedAccount(body: AccountBody): AccountData {
    AccountData(Trim(body.firstName), Trim(body.lastName), NormalizeEmail(body.email),
                Trim(body.password), body.confirmPassword)
  }

  /** An acceptable body normalises to valid account data. */
  lemma AcceptedAccountValid(body: AccountBody)
    ensures AccountBodyAcceptable(body) ==> AccountDataValid(NormalizedAccount(body))
  {
    LowerAsciiIdempotent(Trim(body.email));
  }

  /** `userRegisterSchema.safeParse` and `userUpdateSchema.safeParse` (the two schemas are identical). */
  function ParseAccountBody(body: AccountBody): (r: SafeParse<AccountData>)
    ensures r.ParseOk? <==> AccountBodyAcceptable(body)
    ensures r.ParseOk? ==> AccountDataValid(r.data)
    ensures r.ParseOk? ==> r.data.password == Trim(body.password) && r.data.email == NormalizeEmail(body.email)
    ensures r.ParseError? ==> r.firstIssue == AccountIssues(body)[0]
  {
    AccountIssuesEmpty(body);
    AcceptedAccountValid(body);
    FromIssues(AccountIssues(body), NormalizedAccount(body))
  }

  /** `userLoginSchema.safeParse`: the email and password rules only. */
  function ParseLoginBody(body: LoginBody): (r: SafeParse<LoginBody>)
    ensures r.ParseOk? <==>
      IsEmailAddress(body.email) && |NormalizeEmail(body.email)| <= EmailMaxLength
      && PasswordPolicy(Trim(body.password))
    ensures r.ParseOk? ==> r.data.email == NormalizeEmail(body.email) && r.data.password == Trim(body.password)
  {
    FromIssues(EmailIssues(body.email) + PasswordChecks(Trim(body.password)),
               LoginBody(NormalizeEmail(body.email), Trim(body.password)))
  }

  lemma PasswordChecksEmpty(p: string)
    ensures PasswordChecks(p) == [] <==> PasswordPolicy(p)
  {
  }

  lemma NameIssuesEmpty(raw: string, tooShort: string, tooLong: string)
    ensures NameIssues(raw, tooShort, tooLong) == [] <==> NameMinLength <= |Trim(raw)| <= NameMaxLength
  {
  }

  /** No issue is collected exactly when the body is acceptable field by field. */
  lemma AccountIssuesEmpty(body: AccountBody)
    ensures AccountIssues(body) == [] <==> AccountBodyAcceptable(body)
  {
    NameIssuesEmpty(body.firstName, FirstNameTooShort, FirstNameTooLong);
    NameIssuesEmpty(body.lastName, LastNameTooShort, LastNameTooLong);
    PasswordChecksEmpty(Trim(body.password));
    PasswordChecksEmpty(body.confirmPassword);
  }

  lemma LowerAsciiIdempotent(s: string)
    ensures ToLowerAscii(ToLowerAscii(s)) == ToLowerAscii(s)
  {
  }

  /**
   * The password is trimmed before the comparison but `confirmPassword` is not: the same string with
   * white space at an end, typed into both fields, is refused.
   */
  lemma PaddedPasswordRefused(body: AccountBody)
    requires body.confirmPassword == body.password && !IsTrimmed(body.password)
    ensures ParseAccountBody(body) == ParseError(AccountIssues(body)[0], AccountIssues(body)[1..])
    ensures PasswordsDoNotMatch in AccountIssues(body)
  {
    TrimFixpoint(body.password);
  }

  /** An accepted address never has white space to trim: the format check runs on the raw string. */
  lemma AcceptedEmailUntrimmed(raw: string)
    requires IsEmailAddress(raw)
    ensures Trim(raw) == raw
  {
    TrimFixpoint(raw);
  }
}
