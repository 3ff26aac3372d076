# Accounts and posts backend, modelled in Dafny

This project models the server side of express-react-passport-example. It is an Express
application with passport sessions, a Postgres database behind Drizzle, and Zod request schemas.
The model covers these parts of the backend:

- **Tables.** `users`, `verification_codes` and `posts` live in one `Database` object (`store.dfy`).
  Its maps are the tables and its counters are the identity sequences. Its `Valid()` predicate
  states the primary keys, the unique columns (`users.email`, `verification_codes.code`) and the
  foreign keys to `users`.
- **Request schemas.** The register, update and login schemas (`user_schema.dfy`), the
  submitted-code schema (`verification_code_schema.dfy`) and the post create and update schemas
  (`post_schema.dfy`) are functions. Each returns a `safeParse` result whose first issue is the
  message the middleware sends back.
- **Account service** (`account_service.dfy`). Login, registration with its verification code,
  verification, the three password-reset steps, and user read, update and delete. Each service is
  a function when it only reads and a method on the `Database` when it writes.
- **Helpers** (`auth.dfy`). Token generation (random bytes written as lower-case hex), `sanitizeUser`,
  the code expiry date, and the passport session callbacks.
- **Post service and controllers** (`post_service.dfy`, `post_controller.dfy`). The list ordered by
  creation time, lookup, create, update and delete. The controllers add the ownership checks and
  the HTTP status of every outcome.
- **Middleware** (`account_middleware.dfy`, `validation_middleware.dfy`). These are methods on a
  `Request` object (`http.dfy`). They either let the chain go on or write the error response:
  `isAuthenticated`, `isAdmin`, `validateId` with JavaScript's `parseInt(s, 10)`, and the schema
  middleware.
- **Composed routes.** The passport local strategy (`local_strategy.dfy`) and the login and
  verify routes (`account_routes.dfy`) are modelled as composed chains, and so is the post delete
  route (`post_routes.dfy`).

Randomness, the clock and the configured code duration are parameters. The mailer is a ghost
outbox on the database.

## Model

| member | source | states |
|---|---|---|
| Common.FromIssues | backend/src/middleware/validationMiddleware.ts:32-42 | a parse succeeds exactly when no issue was collected; on failure the first issue and the rest together are the issues found |
| Text.TrimStart | backend/src/db/schema/user.ts:39-41 | the result is a suffix of the input, everything dropped is white space, and the result does not start with white space |
| Text.TrimEnd | backend/src/db/schema/user.ts:39-41 | the result is a prefix of the input, everything dropped is white space, and the result does not end with white space |
| Text.TrimSlice | backend/src/db/schema/user.ts:39-41 | a trimmed string is a contiguous slice of the input |
| Text.Trim | backend/src/db/schema/user.ts:39-41 | `.trim()` is no longer than its input and leaves no white space at either end; `Text.TrimSlice` shows it is a slice of the input and `Text.TrimFixpoint` that it changes exactly the strings with white space at an end |
| Text.TrimFixpoint | backend/src/db/schema/user.ts:54-56 | trimming leaves a string unchanged exactly when it has no white space at either end |
| Text.TrimIdempotent | backend/src/db/schema/user.ts:39-41 | trimming twice is trimming once |
| Text.TrimStartSkipsWhiteSpace | backend/src/middleware/validationMiddleware.ts:14 | leading white space prepended to a string does not change what TrimStart yields |
| Text.ToLowerAscii | backend/src/db/schema/user.ts:49-52 | lower-casing keeps the length and maps every character through the ASCII lower-case mapping |
| Bcrypt.HashedPart | backend/src/services/accountService.ts:98 | the part of a password that bcrypt reads is its first 72 characters, or the whole password when it is shorter |
| Bcrypt.Hash | backend/src/services/accountService.ts:98 | a digest is longer than the bcrypt prefix |
| Bcrypt.Compare | backend/src/services/accountService.ts:55 | `compare` accepts only digests longer than the bcrypt prefix; `Bcrypt.CompareHash` says exactly which passwords it accepts for a digest |
| Bcrypt.CompareHash | backend/src/services/accountService.ts:55 | `compare` accepts a digest for the password it was made from, and for another password exactly when the two agree on their first 72 characters |
| Bcrypt.CompareHashShort | backend/src/services/accountService.ts:55 | among passwords of at most 72 characters, a digest is accepted for its own password only |
| Bcrypt.LongPasswordTailIgnored | backend/src/services/accountService.ts:55 | two passwords with the same first 72 characters are accepted for each other's digests, whatever follows |
| UserSchema.AcceptedAccountValid | backend/src/db/schema/user.ts:38-63 | an acceptable body normalises to trimmed names of 2 to 64 characters, a lower-case email of at most 64, and a trimmed password meeting the policy and equal to its confirmation |
| UserSchema.ParseAccountBody | backend/src/db/schema/user.ts:66-84 | the register and update schemas accept exactly the acceptable bodies, the data is then valid with the trimmed password and the normalised email, and a refusal carries the first issue in field order |
| UserSchema.ParseLoginBody | backend/src/db/schema/user.ts:86-89 | the login schema accepts exactly a well-formed address of at most 64 characters once normalised and a password that meets the policy once trimmed, and yields the normalised email and the trimmed password |
| UserSchema.PasswordChecksEmpty | backend/src/db/schema/user.ts:54-62 | the password checks report nothing exactly when the password is 8 to 255 characters and matches the pattern |
| UserSchema.NameIssuesEmpty | backend/src/db/schema/user.ts:39-48 | a name is accepted exactly when its trimmed form has 2 to 64 characters |
| UserSchema.AccountIssuesEmpty | backend/src/db/schema/user.ts:66-84 | no issue is collected exactly when the body is acceptable field by field |
| UserSchema.LowerAsciiIdempotent | backend/src/db/schema/user.ts:52 | lower-casing twice is lower-casing once |
| UserSchema.NormalizeEmail | backend/src/db/schema/user.ts:49-52 | the stored address has the trimmed length, no white space at either end and no upper-case ASCII letter |
| UserSchema.NormalizeEmailIdempotent | backend/src/db/schema/user.ts:49-52 | normalising an already normalised address changes nothing |
| UserSchema.PaddedPasswordRefused | backend/src/db/schema/user.ts:54-56 | the same padded password typed in both fields is refused, because only `password` is trimmed before the comparison |
| UserSchema.AcceptedEmailUntrimmed | backend/src/db/schema/user.ts:49-51 | an address that passes the format check has nothing to trim |
| VerificationCodeSchema.NewCodeRow | backend/src/db/schema/verificationCode.ts:21-34 | an inserted code row is unused and has no use time |
| VerificationCodeSchema.ConsumeCode | backend/src/services/accountService.ts:329-336 | consuming a code marks it used at the given time and changes nothing else |
| VerificationCodeSchema.ParseCode | backend/src/db/schema/verificationCode.ts:51-64 | a code is accepted exactly when it is 64 hex digits of either case; a wrong length reports the length message and then the format message |
| Auth.HexDigit | backend/src/utils/auth.ts:54 | a nibble is written as a lower-case hex digit |
| Auth.HexValue | backend/src/utils/auth.ts:54 | a lower-case hex digit reads back as the nibble it writes |
| Auth.HexEncode | backend/src/utils/auth.ts:54 | hex encoding writes two lower-case hex digits per byte |
| Auth.HexDecode | backend/src/utils/auth.ts:54 | hex decoding reads one byte per two digits |
| Auth.HexDecodeEncode | backend/src/utils/auth.ts:54 | decoding the hex form of any bytes gives the bytes back |
| Auth.HexEncodeDecode | backend/src/utils/auth.ts:54 | encoding the decoded form of any lower-case hex string gives the string back |
| Auth.GenerateSecureToken | backend/src/utils/auth.ts:53-55 | a token is lower-case hex, twice as long as the random bytes, and decodes to them |
| Auth.SecureTokenPassesCodeSchema | backend/src/utils/auth.ts:53-55 | every token of the default 32 bytes passes the submitted-code schema unchanged |
| Auth.SanitizeUser | backend/src/utils/auth.ts:58-61 | putting the stripped digest back gives the row: sanitizing loses the password and nothing else; `Auth.SanitizeDropsOnlyPassword` adds that the result does not depend on the password |
| Auth.SanitizeDropsOnlyPassword | backend/src/utils/auth.ts:58-61 | sanitizing drops the password and nothing else, and the sanitized user is the same whatever the password was |
| Auth.SanitizeRow | backend/src/services/accountService.ts:285 | sanitizing a missing row throws; sanitizing a present row returns it without its password |
| Auth.VerificationCodeExpiry | backend/src/utils/auth.ts:64-67 | with a positive duration the expiry is later than now |
| Auth.IssuedCodeLifetime | backend/src/utils/auth.ts:64-67 | a code issued now expires exactly 60000 milliseconds times the duration later, and is usable up to and including that instant |
| Auth.SerializeUser | backend/src/utils/auth.ts:28-42 | the stored session value carries the user's eight fields unaltered |
| Auth.DeserializeUser | backend/src/utils/auth.ts:45-49 | the user read back is the one whose serialization was stored |
| Auth.SessionRoundTrip | backend/src/utils/auth.ts:28-49 | serializing and then deserializing a sanitized user gives it back, and together with the digest it gives back the row |
| Store.UsersInsert | backend/src/db/schema/user.ts:19-29 | inserting under a fresh id with an unused email keeps the id key and the unique email |
| Store.UsersReplace | backend/src/db/schema/user.ts:19-29 | rewriting a row that keeps its id and email keeps the users table well formed |
| Store.CodesInsert | backend/src/db/schema/verificationCode.ts:21-34 | inserting under a fresh id with an unused code value keeps the id key and the unique code |
| Store.CodesReplace | backend/src/db/schema/verificationCode.ts:21-34 | rewriting a row that keeps its id and code keeps the codes table well formed |
| Store.CodesNotOwnedBy | backend/src/db/schema/verificationCode.ts:23-27 | the cascade keeps exactly the codes of other users, unchanged |
| Store.PostsNotOwnedBy | backend/src/db/schema/post.ts:21-25 | the cascade keeps exactly the posts of other users, unchanged |
| Store.Database.constructor | backend/src/db/schema/user.ts:19-29 | an empty database satisfies every table constraint |
| VerificationCodeService.SelectCodeByCode | backend/src/services/verificationCodeService.ts:18-21 | the select finds a row exactly when one holds the value, and that row is in the table under its id |
| VerificationCodeService.VerificationCodeGetByCode | backend/src/services/verificationCodeService.ts:15-28 | the lookup succeeds exactly when a row holds the code and returns that row; otherwise "Verification code not found" |
| VerificationCodeService.LookupDetermined | backend/src/services/verificationCodeService.ts:15-28 | since code values are unique, looking up a row's code returns that very row |
| AccountService.SelectUserByEmail | backend/src/services/accountService.ts:45-48 | the select finds a row exactly when one holds the email, and that row is in the table under its id |
| AccountService.LoginUser | backend/src/services/accountService.ts:40-73 | each refusal ("User does not exist", "Incorrect email or password", "User is not verified…") happens exactly in its case, checked in that order; success means a verified row with this email and password, returned sanitized |
| AccountService.GetAllUsers | backend/src/services/accountService.ts:155-165 | every row is returned, sanitized, under its id |
| AccountService.UserGetById | backend/src/services/accountService.ts:175-192 | success exactly for a stored id, with that row sanitized; otherwise "User not found" |
| AccountService.UserGetByEmail | backend/src/services/accountService.ts:199-216 | success exactly for a stored email, with that row sanitized; otherwise "User not found" |
| AccountService.UsableIffLookupUsable | backend/src/services/accountService.ts:419-428 | some row with the code is unused and unexpired exactly when the row the lookup returns is |
| AccountService.PasswordResetVerify | backend/src/services/accountService.ts:410-431 | the check succeeds exactly when a row with the code is unused and not past its expiry; the only answers are "Verification code valid" and the invalid-or-expired error |
| AccountService.NewUserRow | backend/src/services/accountService.ts:104-120 | a registered row has role user, is not verified, and its digest accepts the registered password |
| AccountService.RegisterUser | backend/src/services/accountService.ts:81-148 | a taken email is refused with nothing changed; a duplicate token rolls back both inserts while the sequences advance; otherwise exactly the user row and its register code are inserted, the code is mailed and passes the submitted-code schema, and the sanitized user is returned |
| AccountService.VerifyUser | backend/src/services/accountService.ts:300-360 | an unknown code throws and a used or expired one is refused, with nothing changed; otherwise exactly that code is consumed and its owner verified |
| AccountService.PasswordResetRequest | backend/src/services/accountService.ts:368-402 | an unknown or unverified email is refused with nothing changed; otherwise one reset code for that user is inserted, or the insert throws on a duplicate value; nothing is mailed |
| AccountService.InsertCode | backend/src/services/accountService.ts:386-394 | the row is inserted exactly when its code value is unused; the sequence advances either way and no other table changes |
| AccountService.PasswordResetChangePassword | backend/src/services/accountService.ts:438-517 | without a usable code, or when the update schema refuses the owner's data with the new password, nothing changes; otherwise only the owner's digest is replaced by that of the trimmed new password and the code is consumed |
| AccountService.ChangeOwnerPassword | backend/src/services/accountService.ts:458-517 | the owner of a stored code exists; the update schema's first issue is returned with nothing changed, or the digest is replaced and the code consumed |
| AccountService.CommitPasswordChange | backend/src/services/accountService.ts:480-514 | the transaction replaces exactly the owner's digest and consumes exactly the code |
| AccountService.UpdateUser | backend/src/services/accountService.ts:227-267 | an unknown id and an email held by another row are refused with nothing changed; otherwise only that row's names, email and digest change |
| AccountService.DeleteUser | backend/src/services/accountService.ts:275-292 | an unknown id throws with nothing changed; otherwise the row, its codes and its posts go, and the sanitized row is returned |
| AccountService.SignUpFlow | backend/src/services/accountService.ts:81-360 | a new account is refused at login as unverified, the mailed code verifies it, the owner then logs in, and the code is refused a second time |
| AccountService.LoginAfterVerification | backend/src/services/accountService.ts:326-357 | after verification the owner logs in with the password whose digest is stored |
| AccountService.LoginAfterPasswordChange | backend/src/services/accountService.ts:478-514 | after a password change a verified owner logs in exactly with a password that agrees with the new one on its first 72 characters, which for passwords of at most 72 characters means the new one only; every other password, the old one included, meets "Incorrect email or password" |
| AccountService.ConsumedCodeRejected | backend/src/services/accountService.ts:419-428 | a consumed code fails every later check |
| AccountService.ExpiredCodeRejected | backend/src/services/accountService.ts:419-428 | a code past its expiry fails the check |
| AccountService.CodeTypeIgnored | backend/src/services/accountService.ts:419-428 | the reset check gives the same answer whatever type a code row carries |
| AccountService.ReadsIgnorePasswords | backend/src/services/accountService.ts:155-216 | replacing a digest changes no answer of the read services |
| PostSchema.ParsePostCreate | backend/src/db/schema/post.ts:39-62 | the create schema accepts exactly bounded title, content and cover image, keeps them as given, and defaults a missing draft flag to true |
| PostSchema.ParsePostUpdate | backend/src/db/schema/post.ts:64-69 | the update schema accepts exactly bodies whose present fields are bounded, keeps them, and yields draft true when the flag is absent |
| PostService.InsertByCreatedAt | backend/src/services/postService.ts:17 | inserting into a list ascending by creation time keeps it ascending |
| PostService.InsertPermutes | backend/src/services/postService.ts:17 | inserting adds exactly the one row |
| PostService.LeastKeyExists | backend/src/services/postService.ts:17 | a non-empty set of ids has exactly one least element |
| PostService.ListStep | backend/src/services/postService.ts:17 | the listed rows of a table are those of the table without one row, plus that row |
| PostService.PostList | backend/src/services/postService.ts:16-19 | every row appears exactly once and the list ascends by creation time |
| PostService.PostGetById | backend/src/services/postService.ts:26-39 | success exactly for a stored id, with that row; otherwise "Post not found" |
| PostService.NewPostRow | backend/src/services/postService.ts:51-54 | the inserted row takes the next id, the session user as owner, and now as creation time |
| PostService.ApplyPatch | backend/src/services/postService.ts:91-95 | a title, content or cover image present in the patch replaces the stored one and an absent one keeps it; the draft flag is set; id, owner and timestamps are kept |
| PostService.ApplyPatchIdempotent | backend/src/services/postService.ts:91-95 | a patch applied twice is the patch applied once |
| PostService.PatchKeepsBounds | backend/src/services/postService.ts:91-95 | a row within the schema bounds stays within them under every patch the update schema accepts |
| PostService.PostCreate | backend/src/services/postService.ts:47-57 | with an existing owner exactly the new row is inserted and returned; without one the insert throws and no post changes; the sequence advances either way |
| PostService.PostDelete | backend/src/services/postService.ts:64-78 | an existing row is removed and returned; otherwise "Post not found or could not be deleted" with nothing changed |
| PostService.PostUpdate | backend/src/services/postService.ts:86-102 | an existing row is replaced by the patched row, which is returned; otherwise "Post could not be updated" with nothing changed |
| PostController.PostAccess | backend/src/controllers/postController.ts:60-72 | the access is missing exactly for an unknown id and owner exactly when the session user owns the post |
| PostController.ListPosts | backend/src/controllers/postController.ts:15-26 | the list reply is always 200 with every post once, in ascending creation time |
| PostController.CreateReply | backend/src/controllers/postController.ts:39-46 | a created row is answered 201 with the row, a throw 500 with "Internal server error" |
| PostController.DeleteReply | backend/src/controllers/postController.ts:76-80 | a delete result is answered 200 on success and 400 otherwise, the result as body |
| PostController.UpdateReply | backend/src/controllers/postController.ts:112-116 | an update result is answered 200 with the row, or 400 with the error |
| PostController.CreatePost | backend/src/controllers/postController.ts:32-47 | the session user's post is inserted and answered 201, or the request is answered 500 when the user row is gone; users and codes are untouched |
| PostController.DeletePost | backend/src/controllers/postController.ts:54-84 | a missing post is answered 404 and another user's 403, with nothing changed; the owner's post is deleted and answered 200; other owners' posts are never touched |
| PostController.UpdatePost | backend/src/controllers/postController.ts:90-121 | a missing post is answered 404 and another user's 403, with nothing changed; the owner's post is patched and answered 200; other owners' posts are never touched |
| Http.Request.constructor | backend/src/types/express/index.d.ts:8-13 | a new request carries its parameters, body and session user, with nothing validated and no response |
| AccountMiddleware.IsAuthenticated | backend/src/middleware/accountMiddleware.ts:8-17 | the chain goes on exactly when there is a session user; otherwise the response is 401 "Not logged in" |
| AccountMiddleware.IsAdmin | backend/src/middleware/accountMiddleware.ts:24-30 | the chain goes on exactly for a session user with the admin role; otherwise the response is 403 "Forbidden" |
| ValidationMiddleware.DigitValue | backend/src/middleware/validationMiddleware.ts:14 | a decimal digit has a value below ten |
| ValidationMiddleware.DigitChar | backend/src/middleware/validationMiddleware.ts:14 | a value below ten is written as the digit that reads back as it |
| ValidationMiddleware.DigitPrefixLength | backend/src/middleware/validationMiddleware.ts:14 | the digit run read is all digits and is followed by a non-digit or the end |
| ValidationMiddleware.ParseSignedDigits | backend/src/middleware/validationMiddleware.ts:14 | after the optional sign, no digit means NaN |
| ValidationMiddleware.ParseIntDecimal | backend/src/middleware/validationMiddleware.ts:14-15 | `parseInt` gives NaN exactly when no digit follows the leading white space and the optional sign |
| ValidationMiddleware.NatToDecimal | backend/src/middleware/validationMiddleware.ts:14 | a natural number is written as a non-empty digit string without a leading zero |
| ValidationMiddleware.IntToDecimal | backend/src/middleware/validationMiddleware.ts:14 | an integer is written as a non-empty string starting with a minus or a digit |
| ValidationMiddleware.DigitsValueOfDecimal | backend/src/middleware/validationMiddleware.ts:14 | the decimal form of a number reads back as that number |
| ValidationMiddleware.DigitPrefixOfDigits | backend/src/middleware/validationMiddleware.ts:14 | the digit run ends where the digits end |
| ValidationMiddleware.TrimStartOfNonSpace | backend/src/middleware/validationMiddleware.ts:14 | a string not starting with white space has none skipped |
| ValidationMiddleware.ParseSkipsWhiteSpace | backend/src/middleware/validationMiddleware.ts:14 | leading white space does not change what `parseInt` reads |
| ValidationMiddleware.SignedRunValue | backend/src/middleware/validationMiddleware.ts:14 | after an optional sign, any digit run before a non-digit reads as its value, negated under a minus |
| ValidationMiddleware.ParseDigitRun | backend/src/middleware/validationMiddleware.ts:14 | `parseInt` reads white space, an optional sign and any digit run, leading zeros included, as the run's value, negated under a minus, whatever non-digit text follows |
| ValidationMiddleware.SignedDigitRun | backend/src/middleware/validationMiddleware.ts:14 | a digit run followed by a non-digit reads as its value, negated under a leading minus |
| ValidationMiddleware.ParseDecimal | backend/src/middleware/validationMiddleware.ts:14 | `parseInt` reads back the decimal form of any integer, whatever non-digit text follows |
| ValidationMiddleware.ParseIntRoundTrip | backend/src/middleware/validationMiddleware.ts:14 | `parseInt` reads back the decimal form of any integer with any leading white space and any non-digit tail |
| ValidationMiddleware.ParseIdParam | backend/src/middleware/validationMiddleware.ts:14 | a present `id` parameter is read by `parseInt` |
| ValidationMiddleware.MissingIdIsNaN | backend/src/middleware/validationMiddleware.ts:14-15 | a request without an `id` parameter never passes the id check |
| ValidationMiddleware.ValidateId | backend/src/middleware/validationMiddleware.ts:9-23 | the chain goes on exactly when the `id` parameter parses, with the id merged into what was validated; otherwise 400 "Invalid ID" and nothing merged |
| ValidationMiddleware.ValidateSchema | backend/src/middleware/validationMiddleware.ts:30-43 | the chain goes on exactly when the schema accepts the body, with the parsed data attached; otherwise 400 with the first issue |
| LocalStrategy.VerifyCredentials | backend/src/utils/auth.ts:13-24 | the strategy authenticates exactly a verified row with this email and password, as that row sanitized; it refuses exactly when the login service fails, with exactly the service's error |
| LocalStrategy.SessionAfterLogin | backend/src/utils/auth.ts:13-49 | a session exists exactly when the strategy authenticates, and it holds that verified row sanitized |
| LocalStrategy.UnverifiedGetsNoSession | backend/src/services/accountService.ts:61-68 | an unverified account never gets a session, and with the right password it is refused as unverified |
| LoginSample.PrintableNoWhiteSpace | backend/src/db/schema/user.ts:49-51 | printable ASCII holds no white space |
| LoginSample.PrintableUntrimmed | backend/src/db/schema/user.ts:49-51 | printable ASCII has nothing to trim |
| LoginSample.EmailAddressAt | backend/src/db/schema/user.ts:49-50 | a string with one '@' past its start, a dot inside its domain and no white space passes the format check |
| LoginSample.SampleEmailAccepted | backend/src/db/schema/user.ts:49-50 | "Ann@x.com" passes the format check |
| LoginSample.SampleEmailUntrimmed | backend/src/db/schema/user.ts:49-51 | "Ann@x.com" has nothing to trim |
| LoginSample.SamplePasswordAccepted | backend/src/db/schema/user.ts:54-62 | "Abcd1234" meets the password policy |
| LoginSample.SamplePasswordUntrimmed | backend/src/db/schema/user.ts:54-56 | "Abcd1234" has nothing to trim |
| LoginSample.SampleEmailNormalized | backend/src/db/schema/user.ts:49-52 | "Ann@x.com" normalises to "ann@x.com" |
| LoginSample.SampleBodyParses | backend/src/db/schema/user.ts:86-89 | the login schema accepts "Ann@x.com" with "Abcd1234" and normalises the address to "ann@x.com" |
| AccountRoutes.LoginRoute | backend/src/routes/accountRoutes.ts:16-20 | a body the login schema refuses gets its first issue; otherwise the strategy, fed the body as sent, decides: the session user, or the refusal message |
| AccountRoutes.Authenticate | backend/src/controllers/accountController.ts:15-39 | the strategy's user is logged in, or its refusal message is answered with 401 |
| AccountRoutes.LoginRouteNormalized | backend/src/routes/accountRoutes.ts:16-20 | as LoginRoute, with the strategy fed the parsed email and password; a logged-in user has the normalised email |
| AccountRoutes.NormalizedSpellingAccepted | backend/src/db/schema/user.ts:49-56 | any spelling that normalises to a verified account's address, with a password that trims to its own, is authenticated as that account |
| AccountRoutes.SampleUsers | backend/src/db/schema/user.ts:19-29 | Ann's verified account is stored as "ann@x.com" with the digest of "Abcd1234" |
| AccountRoutes.TypedEmailUnknown | backend/src/services/accountService.ts:50-52 | the address as Ann typed it is not stored, so the strategy refuses with "User does not exist" |
| AccountRoutes.MixedCaseLoginAsDeclared | backend/src/routes/accountRoutes.ts:16-20 | Ann's login typed as "Ann@x.com" is refused with "User does not exist" |
| AccountRoutes.MixedCaseLoginNormalized | backend/src/routes/accountRoutes.ts:16-20 | through the normalised route the same attempt logs Ann in |
| AccountRoutes.VerifyController | backend/src/controllers/accountController.ts:89-102 | a missing or unknown code is answered 500 with nothing changed, an unusable one 400 with the failed result, and a usable one 200 "Account verified" with the code consumed and its owner verified |
| AccountRoutes.VerifyRoute | backend/src/routes/accountRoutes.ts:31 | without a session `/verify` answers 401 and changes nothing; with one the controller replies |
| AccountRoutes.SignUpAsDeclared | backend/src/routes/accountRoutes.ts:31 | right after registering the owner gets no session, so the mailed code is answered 401, and login is still refused afterwards |
| AccountRoutes.VerifyRouteOpen | backend/src/routes/accountRoutes.ts:31 | without the guard a known code is answered 200 exactly when it is usable, and then its owner is verified |
| AccountRoutes.SignUpWithOpenVerify | backend/src/routes/accountRoutes.ts:31 | without the guard the mailed code verifies the new account and its owner then gets a session holding it |
| PostRoutes.AuthenticatedId | backend/src/routes/postRoutes.ts:25-32 | the chain prefix answers 401 without a session and 400 when `id` does not parse; otherwise the controller gets the session user and the parsed id |
| PostRoutes.DeletePostRoute | backend/src/routes/postRoutes.ts:32 | the delete chain answers 401, 400, 404 or 403 with no post changed, or deletes the owner's post and answers 200 |
| PostRoutes.PostIdParamNeverParses | backend/src/routes/postRoutes.ts:32 | a segment bound to `postId` leaves `id` unread, so it never parses |
| PostRoutes.IdParamRoundTrip | backend/src/routes/postRoutes.ts:26 | the decimal form of any id bound to `id` parses back to that id |
| PostRoutes.DeletePostAsDeclared | backend/src/routes/postRoutes.ts:32 | as declared, every delete with a session is answered 400 "Invalid ID" and no post is ever deleted |
| PostRoutes.DeletePostById | backend/src/routes/postRoutes.ts:26 | with the parameter named `id`, the owner deletes a post by its decimal id; others get 403 or 404 with nothing changed |

## Left out

- Network, sessions and cookies: express-session, the cookie, `req.login` failures, logout, `/me` and the process start-up are not modelled.
- Register route: the controller and route that call `registerUserService` are not modelled. The service itself is.
- Admin controllers and routes: not modelled. They sit behind the modelled `isAdmin`.
- Post create, update and list routes: these middleware chains are not modelled. Their controllers, schemas and guards are, separately.
- Concurrency: every service runs alone and sees a consistent database. Transactions are modelled only as all-or-nothing.
- Database failures: failures other than the modelled constraint violations, such as a lost connection, are not modelled. The same goes for the `varchar` widths and the 32-bit range of the identity columns.
- Unreachable error branches: "User not found" and "Failed to change password" during a password change cannot happen under the foreign keys. "Could not reset password" cannot happen either. The model reaches none of them.
- Bcrypt.Hash: passwords that differ in their first 72 characters are given distinct digests. Real bcrypt has a fixed-size output and does not guarantee this, though no such collision is known. Salt and cost factor are not modelled.
- Bcrypt.HashedPart: the 72-input limit is counted in characters. bcrypt counts UTF-8 bytes, so a password with non-ASCII characters is cut earlier than the model says.
- Request body types: every body field a schema requires is taken to be present as a string. A missing field, or a number where a string is expected, gets Zod's invalid-type issue and a 400 from the middleware (backend/src/middleware/validationMiddleware.ts:39-41); that refusal is not modelled.
- Inputs from outside: the random bytes, the clock and `VERIFICATION_CODE_DURATION` are parameters.
- Email sending: it is a ghost outbox on the database. The verification mail is recorded. The password-reset mail sender has an empty body, so the reset request records nothing.
- UserSchema.IsEmailAddress: a stand-in for the address pattern of `z.email()`. It asks for one '@', a non-empty local part, a dot inside the domain and no white space. It does not reproduce Zod's exact regular expression.
- Text.ToLowerAscii: lower-cases ASCII letters only. Lengths are counted in code points, not UTF-16 units.
- ValidationMiddleware.ParseIntDecimal: reads the digit run as an exact integer. It does not model the loss of precision above 2^53.
- Post timestamps: `createdAt` is taken as always set; the column is nullable in the table. Rows with equal creation times may come in any order.
- Verification code placement: the code handed to `verifyController` is the body's `validatedData`, modelled as an optional string. No schema middleware fills it on this route. The mailed link is a GET with a query string and is not modelled.
- AccountRoutes.VerifyRoute: with a session it states only that the controller replies. `AccountRoutes.VerifyController` states what that reply and the new state are.
- PostRoutes.DeletePostById: for a non-owner it states only a 403 or 404 reply with no post changed. `PostRoutes.DeletePostRoute` tells the two apart.

## Findings

| source | as written | input that shows it | evidently intended | confidence | as-written member | corrected member |
|---|---|---|---|---|---|---|
| backend/src/routes/postRoutes.ts:32 | the delete route declares its parameter as `postId`, while `validateId` reads `params.id` | any logged-in `DELETE /posts/7` | `/:id`, as the update route declares, so the owner can delete post 7 | high, not executed | PostRoutes.DeletePostAsDeclared | PostRoutes.DeletePostById |
| backend/src/routes/accountRoutes.ts:31 | `/verify` sits behind `isAuthenticated`, and login refuses unverified accounts (backend/src/services/accountService.ts:61-68) | a new account registers and submits its mailed code | the code alone verifies the account, without a session | high, not executed | AccountRoutes.SignUpAsDeclared | AccountRoutes.SignUpWithOpenVerify |
| backend/src/routes/accountRoutes.ts:16-20 | the login schema normalises the email, but passport's strategy reads the raw `req.body.email` and `password` | account "ann@x.com" / "Abcd1234"; login as "Ann@x.com" / "Abcd1234" is refused with "User does not exist" | the strategy checks the normalised email and trimmed password | medium, not executed | AccountRoutes.MixedCaseLoginAsDeclared | AccountRoutes.MixedCaseLoginNormalized |
