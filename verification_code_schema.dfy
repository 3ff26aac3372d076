/** The `verification_codes` table and the schema that checks a submitted code. */
module VerificationCodeSchema {
  import opened Common

  /** The `verification_code_types` enum: "register" or "passwordReset". */
  datatype CodeType = Register | PasswordReset

  /** A row of `verification_codes`; `usedAt` is the nullable `used_at`, times are milliseconds. */
  datatype VerificationCode = VerificationCode(
    id: int, userId: int, codeType: CodeType, code: string,
    isUsed: bool, usedAt: Option<int>, createdAt: int, expiresAt: int)

  const CodeLength := 64
  const CodeLengthMessage := "Invalid verification code length"
  const CodeFormatMessage := "Invalid verification code format"

  /** The inserted row: `isUsed` defaults to false, `usedAt` to null and `createdAt` to now. */
  function NewCodeRow(id: int, userId: int, codeType: CodeType, code: string, now: int, expiresAt: int)
    : (c: VerificationCode)
    ensures !c.isUsed && c.usedAt.None?
  {
    VerificationCode(id, userId, codeType, code, false, None, now, expiresAt)
  }

  /** Marks a code consumed at `now`: the single change ever made to a code row. */
  function ConsumeCode(c: VerificationCode, now: int): (d: VerificationCode)
    ensures d.isUsed && d.usedAt == Some(now)
    ensures d.(isUsed := c.isUsed, usedAt := c.usedAt) == c
  {
    c.(isUsed := true, usedAt := Some(now))
  }

  /** A character of [a-f0-9] under the `i` flag. */
  predicate IsHexDigitAnyCase(c: char) {
    '0' <= c <= '9' || 'a' <= c <= 'f' || 'A' <= c <= 'F'
  }

  /** The pattern /^[a-f0-9]{64}$/i. */
  predicate MatchesCodePattern(s: string) {
    |s| == CodeLength && forall k :: 0 <= k < |s| ==> IsHexDigitAnyCase(s[k])
  }

  /** `.length(64)` then `.regex(...)`, in that order. */
  function CodeIssues(code: string): seq<string> {
    (if |code| != CodeLength then [CodeLengthMessage] else [])
    + (if !MatchesCodePattern(code) then [CodeFormatMessage] else [])
  }

  /** `validateVerificationCodeSchema.safeParse` on the `code` field. */
  function ParseCode(code: string): (r: SafeParse<string>)
    ensures r.ParseOk? <==> |code| == CodeLength && forall k :: 0 <= k < |code| ==> IsHexDigitAnyCase(code[k])
    ensures r.ParseOk? ==> r.data == code
    ensures |code| != CodeLength ==> r == ParseError(CodeLengthMessage, [CodeFormatMessage])
  {
    FromIssues(CodeIssues(code), code)
  }
}
