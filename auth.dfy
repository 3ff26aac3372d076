/** Token generation, user sanitising, code expiry and the session projection. */
module Auth {
  import opened Common
  import opened UserSchema
  import opened VerificationCodeSchema

  /** A value of the byte sequence `crypto.randomBytes` yields. */
  type byte = x: int | 0 <= x < 256

  /** A character of the lower-case base-16 alphabet "0123456789abcdef" (RFC 4648, section 8). */
  predicate IsLowerHexDigit(c: char) {
    '0' <= c <= '9' || 'a' <= c <= 'f'
  }

  function HexDigit(n: int): (c: char)
    requires 0 <= n < 16
    ensures IsLowerHexDigit(c)
  {
    if n < 10 then ('0' as int + n) as char else ('a' as int + n - 10) as char
  }

  function HexValue(c: char): (n: int)
    requires IsLowerHexDigit(c)
    ensures 0 <= n < 16 && HexDigit(n) == c
  {
    if c <= '9' then c as int - '0' as int else c as int - 'a' as int + 10
  }

  /** `Buffer.toString("hex")`: two lower-case digits per byte, high nibble first. */
  function HexEncode(bytes: seq<byte>): (s: string)
    ensures |s| == 2 * |bytes|
    ensures forall k :: 0 <= k < |s| ==> IsLowerHexDigit(s[k])
  {
    if bytes == [] then "" else [HexDigit(bytes[0] / 16), HexDigit(bytes[0] % 16)] + HexEncode(bytes[1..])
  }

  predicate IsLowerHex(s: string) {
    |s| % 2 == 0 && forall k :: 0 <= k < |s| ==> IsLowerHexDigit(s[k])
  }

  /** Reads lower-case hex back into bytes; the inverse of HexEncode. */
  function HexDecode(s: string): (bytes: seq<byte>)
    requires IsLowerHex(s)
    ensures |bytes| == |s| / 2
  {
    if s == [] then [] else [HexValue(s[0]) * 16 + HexValue(s[1])] + HexDecode(s[2..])
  }

  lemma {:induction false} HexDecodeEncode(bytes: seq<byte>)
    ensures HexDecode(HexEncode(bytes)) == bytes
  {
    if bytes != [] {
      var s := HexEncode(bytes);
      assert s[2..] == HexEncode(bytes[1..]);
      HexDecodeEncode(bytes[1..]);
      assert HexValue(s[0]) == bytes[0] / 16;
      assert HexValue(s[1]) == bytes[0] % 16;
    }
  }

  lemma {:induction false} HexEncodeDecode(s: string)
    requires IsLowerHex(s)
    ensures HexEncode(HexDecode(s)) == s
  {
    if s != [] {
      var b := HexDecode(s);
      assert b[1..] == HexDecode(s[2..]);
      HexEncodeDecode(s[2..]);
      var v := HexValue(s[0]) * 16 + HexValue(s[1]);
      assert b[0] == v;
      assert v / 16 == HexValue(s[0]) && v % 16 == HexValue(s[1]);
      assert HexEncode(b) == [s[0], s[1]] + s[2..];
    }
  }

  /** `generateSecureToken(length)`, where `random` is what `crypto.randomBytes(length)` returned. */
  function GenerateSecureToken(random: seq<byte>): (token: string)
    ensures |token| == 2 * |random| && IsLowerHex(token)
    ensures HexDecode(token) == random
  {
    HexDecodeEncode(random);
    HexEncode(random)
  }

  /** The number of random bytes behind every token the services issue. */
  const TokenBytes := 32

  /** Every token of the default length, 32 bytes, passes the submitted-code validator. */
  lemma SecureTokenPassesCodeSchema(random: seq<byte>)
    requires |random| == TokenBytes
    ensures ParseCode(GenerateSecureToken(random)) == ParseOk(GenerateSecureToken(random))
  {
    var t := GenerateSecureToken(random);
    assert forall k :: 0 <= k < |t| ==> IsHexDigitAnyCase(t[k]) by {
      forall k | 0 <= k < |t| ensures IsHexDigitAnyCase(t[k]) {
        assert IsLowerHexDigit(t[k]);
      }
    }
  }

  /** `sanitizeUser`: the row without its `password` column; the digest is all it drops. */
  function SanitizeUser(u: User): (s: SessionUser)
    ensures WithPassword(s, u.password) == u
  {
    SessionUser(u.id, u.role, u.firstName, u.lastName, u.email, u.isVerified, u.createdAt, u.updatedAt)
  }

  /** The row a sanitized user came from, given the digest that was stripped. */
  function WithPassword(s: SessionUser, password: string): User {
    User(s.id, s.role, s.firstName, s.lastName, s.email, password, s.isVerified, s.createdAt, s.updatedAt)
  }

  /** Sanitizing drops exactly the password: nothing else is lost, and the password cannot be recovered. */
  lemma SanitizeDropsOnlyPassword(u: User, s: SessionUser, password: string)
    ensures WithPassword(SanitizeUser(u), u.password) == u
    ensures SanitizeUser(WithPassword(s, password)) == s
    ensures SanitizeUser(u.(password := password)) == SanitizeUser(u)
  {
  }

  /** `sanitizeUser` applied to the first returned row, or to `undefined` when none came back. */
  function SanitizeRow(row: Option<User>): (r: Completion<SessionUser>)
    ensures r.Threw? <==> row.None?
    ensures r.Returned? ==> r.value == SanitizeUser(row.value)
  {
    match row
    case Some(u) => Returned(SanitizeUser(u))
    case None => Threw("TypeError: Cannot destructure 'unsafeUser' as it is undefined.")
  }

  const MillisPerMinute := 1000 * 60

  /** `getVerificationCodeExpiryDate()`: `now` plus the configured number of minutes. */
  function VerificationCodeExpiry(now: int, durationMinutes: int): (expiresAt: int)
    ensures durationMinutes > 0 ==> expiresAt > now
  {
    now + MillisPerMinute * durationMinutes
  }

  /** A code issued at `now` passes the "not past expiresAt" test exactly up to and including its expiry. */
  lemma IssuedCodeLifetime(now: int, durationMinutes: int, later: int)
    requires durationMinutes > 0
    ensures VerificationCodeExpiry(now, durationMinutes) - now == 60000 * durationMinutes
    ensures !(later > VerificationCodeExpiry(now, durationMinutes)) <==> later <= now + 60000 * durationMinutes
    ensures !(now > VerificationCodeExpiry(now, durationMinutes))
  {
  }

  /** The passport `serializeUser` callback: the eight session fields of the user, none altered. */
  function SerializeUser(u: SessionUser): (stored: SessionUser)
    ensures stored == u
  {
    SessionUser(u.id, u.role, u.firstName, u.lastName, u.email, u.isVerified, u.createdAt, u.updatedAt)
  }

  /** The passport `deserializeUser` callback: the user whose serialization was stored. */
  function DeserializeUser(stored: SessionUser): (u: SessionUser)
    ensures SerializeUser(u) == stored
  {
    stored
  }

  /** What a session holds is the sanitized row, and reading it back gives it unchanged. */
  lemma SessionRoundTrip(u: User)
    ensures DeserializeUser(SerializeUser(SanitizeUser(u))) == SanitizeUser(u)
    ensures WithPassword(DeserializeUser(SerializeUser(SanitizeUser(u))), u.password) == u
  {
  }
}
