/** The id and body validation middleware, with JavaScript's `parseInt(s, 10)`. */
module ValidationMiddleware {
  import opened Common
  import opened Text
  import opened Http

  const InvalidId := "Invalid ID"

  predicate IsDecimalDigit(c: char) { '0' <= c <= '9' }

  function DigitValue(c: char): (v: nat)
    requires IsDecimalDigit(c)
    ensures v < 10
  {
    c as int - '0' as int
  }

  function DigitChar(v: nat): (c: char)
    requires v < 10
    ensures IsDecimalDigit(c) && DigitValue(c) == v
  {
    ('0' as int + v) as char
  }

  predicate AllDigits(s: string) {
    forall i :: 0 <= i < |s| ==> IsDecimalDigit(s[i])
  }

  /** The length of the longest run of decimal digits at the start of `s`. */
  function DigitPrefixLength(s: string): (n: nat)
    ensures n <= |s| && AllDigits(s[..n])
    ensures n < |s| ==> !IsDecimalDigit(s[n])
  {
    if |s| == 0 || !IsDecimalDigit(s[0]) then 0
    else
      var n := 1 + DigitPrefixLength(s[1..]);
      assert s[..n] == [s[0]] + s[1..][..n - 1];
      n
  }

  /** The value of a run of decimal digits, most significant first. */
  function DigitsValue(d: string): nat
    requires AllDigits(d)
  {
    if |d| == 0 then 0 else 10 * DigitsValue(d[..|d| - 1]) + DigitValue(d[|d| - 1])
  }

  /** The sign, if any, after leading white space: `-` negates, `+` does nothing. */
  function Unsigned(t: string): string {
    if |t| > 0 && (t[0] == '-' || t[0] == '+') then t[1..] else t
  }

  /** What `parseInt` reads once leading white space is gone. */
  function ParseSignedDigits(t: string): (r: Option<int>)
    ensures r.None? <==> DigitPrefixLength(Unsigned(t)) == 0
  {
    var digits := Unsigned(t);
    var n := DigitPrefixLength(digits);
    if n == 0 then None
    else
      var magnitude: int := DigitsValue(digits[..n]);
      Some(if |t| > 0 && t[0] == '-' then -magnitude else magnitude)
  }

  /**
   * `parseInt(s, 10)`: leading white space is skipped, one sign is read, then the longest run of
   * decimal digits; anything after it is ignored. No digits gives NaN, written None. A radix of 10
   * means no `0x` prefix is recognised.
   */
  function ParseIntDecimal(s: string): (r: Option<int>)
    ensures r.None? <==> DigitPrefixLength(Unsigned(TrimStart(s))) == 0
  {
    ParseSignedDigits(TrimStart(s))
  }

  /** Decimal notation of a natural number, without leading zeros. */
  function NatToDecimal(n: nat): (s: string)
    ensures |s| > 0 && AllDigits(s)
    ensures s[0] == '0' ==> n == 0
  {
    if n < 10 then [DigitChar(n)] else NatToDecimal(n / 10) + [DigitChar(n % 10)]
  }

  /** Decimal notation of an integer, as `String(i)` writes it. */
  function IntToDecimal(i: int): (s: string)
    ensures |s| > 0 && (s[0] == '-' || IsDecimalDigit(s[0]))
  {
    if i < 0 then "-" + NatToDecimal(-i) else NatToDecimal(i)
  }

  lemma {:induction false} DigitsValueOfDecimal(n: nat)
    ensures DigitsValue(NatToDecimal(n)) == n
  {
    if n >= 10 {
      DigitsValueOfDecimal(n / 10);
      var s := NatToDecimal(n);
      assert s[..|s| - 1] == NatToDecimal(n / 10);
    }
  }

  /** The digit run ends where the digits end, when what follows is not a digit. */
  lemma {:induction false} DigitPrefixOfDigits(d: string, rest: string)
    requires AllDigits(d) && (rest == [] || !IsDecimalDigit(rest[0]))
    ensures DigitPrefixLength(d + rest) == |d|
  {
    if d != [] {
      assert (d + rest)[1..] == d[1..] + rest;
      DigitPrefixOfDigits(d[1..], rest);
    }
  }

  /** A string that does not start with white space is left alone by TrimStart. */
  lemma TrimStartOfNonSpace(s: string)
    requires |s| > 0 && !IsJsWhiteSpace(s[0])
    ensures TrimStart(s) == s
  {
  }

  /** Leading white space does not change what `parseInt` reads. */
  lemma ParseSkipsWhiteSpace(ws: string, s: string)
    requires forall k :: 0 <= k < |ws| ==> IsJsWhiteSpace(ws[k])
    ensures ParseIntDecimal(ws + s) == ParseIntDecimal(s)
  {
    TrimStartSkipsWhiteSpace(ws, s);
  }

  /** A digit run followed by a non-digit reads as its value, negated under a leading minus. */
  lemma {:induction false} SignedDigitRun(n: nat, junk: string)
    requires junk == [] || !IsDecimalDigit(junk[0])
    ensures ParseSignedDigits(NatToDecimal(n) + junk) == Some(n)
    ensures ParseSignedDigits("-" + NatToDecimal(n) + junk) == Some(-(n as int))
  {
    var d := NatToDecimal(n);
    DigitPrefixOfDigits(d, junk);
    assert (d + junk)[..|d|] == d;
    DigitsValueOfDecimal(n);
    var negated := "-" + d + junk;
    assert negated[0] == '-' && negated[1..] == d + junk;
  }

  /** A digit run after an optional sign and before a non-digit reads as its value. */
  lemma {:induction false} SignedRunValue(sign: string, d: string, junk: string)
    requires sign == "" || sign == "+" || sign == "-"
    requires |d| > 0 && AllDigits(d)
    requires junk == [] || !IsDecimalDigit(junk[0])
    ensures ParseSignedDigits(sign + d + junk) == Some(if sign == "-" then -(DigitsValue(d) as int) else DigitsValue(d))
  {
    var x := sign + d + junk;
    assert Unsigned(x) == d + junk by {
      if sign == "" {
        assert x == d + junk && x[0] == d[0] && IsDecimalDigit(d[0]);
      } else {
        assert x[0] == sign[0] && x[1..] == d + junk;
      }
    }
    DigitPrefixOfDigits(d, junk);
    assert (d + junk)[..|d|] == d;
    assert |x| > 0 && (x[0] == '-' <==> sign == "-");
  }

  /**
   * Any digit run, leading zeros included, after white space and an optional sign and before a
   * non-digit, reads as its value, negated under a minus.
   */
  lemma {:induction false} ParseDigitRun(ws: string, sign: string, d: string, junk: string)
    requires forall k :: 0 <= k < |ws| ==> IsJsWhiteSpace(ws[k])
    requires sign == "" || sign == "+" || sign == "-"
    requires |d| > 0 && AllDigits(d)
    requires junk == [] || !IsDecimalDigit(junk[0])
    ensures ParseIntDecimal(ws + sign + d + junk) == Some(if sign == "-" then -(DigitsValue(d) as int) else DigitsValue(d))
  {
    var x := sign + d + junk;
    SignedRunValue(sign, d, junk);
    assert |x| > 0 && !IsJsWhiteSpace(x[0]) by {
      if sign == "" {
        assert x[0] == d[0] && IsDecimalDigit(d[0]);
      } else {
        assert x[0] == sign[0];
      }
    }
    TrimStartOfNonSpace(x);
    ParseSkipsWhiteSpace(ws, x);
    ConcatAfterPrefix(ws, sign, d, junk);
  }

  lemma ConcatAfterPrefix(a: string, b: string, c: string, e: string)
    ensures a + b + c + e == a + (b + c + e)
  {
  }

  /** `parseInt` reads back what `String` wrote, whatever non-digit text follows it. */
  lemma {:induction false} ParseDecimal(i: int, junk: string)
    requires junk == [] || !IsDecimalDigit(junk[0])
    ensures ParseIntDecimal(IntToDecimal(i) + junk) == Some(i)
  {
    var x := IntToDecimal(i) + junk;
    assert x[0] == IntToDecimal(i)[0];
    TrimStartOfNonSpace(x);
    if i < 0 {
      SignedDigitRun(-i, junk);
      assert x == "-" + NatToDecimal(-i) + junk;
    } else {
      SignedDigitRun(i, junk);
    }
  }

  /**
   * `parseInt` reads back what `String` wrote, whatever white space comes before it and whatever
   * non-digit text comes after it.
   */
  lemma {:induction false} ParseIntRoundTrip(i: int, ws: string, junk: string)
    requires forall k :: 0 <= k < |ws| ==> IsJsWhiteSpace(ws[k])
    requires junk == [] || !IsDecimalDigit(junk[0])
    ensures ParseIntDecimal(ws + IntToDecimal(i) + junk) == Some(i)
  {
    var x := IntToDecimal(i) + junk;
    assert ws + IntToDecimal(i) + junk == ws + x;
    ParseSkipsWhiteSpace(ws, x);
    ParseDecimal(i, junk);
  }

  /** The id route parameter as `parseInt` sees it: a missing parameter is the string "undefined". */
  function ParseIdParam(params: map<string, string>): (r: Option<int>)
    ensures "id" in params ==> r == ParseIntDecimal(params["id"])
  {
    ParseIntDecimal(if "id" in params then params["id"] else "undefined")
  }

  /** A route without an `id` parameter never passes the id check. */
  lemma MissingIdIsNaN(params: map<string, string>)
    requires "id" !in params
    ensures ParseIdParam(params) == None
  {
    TrimStartOfNonSpace("undefined");
    assert Unsigned("undefined") == "undefined";
  }

  /**
   * `validateId`: a parameter `parseInt` cannot read is answered with 400 "Invalid ID"; otherwise
   * the id is merged into `validated`, keeping what was there, and the chain goes on.
   */
  method ValidateId<B, D>(req: Request<B, D>) returns (next: bool)
    modifies req`validated, req`response
    ensures next <==> ParseIdParam(req.params).Some?
    ensures next ==>
      req.validated == old(req.validated)["id" := ParseIdParam(req.params).value] && req.response == old(req.response)
    ensures !next ==> req.response == Some(ErrorJson(400, InvalidId)) && req.validated == old(req.validated)
  {
    var validatedId := ParseIdParam(req.params);
    if validatedId.None? {
      req.response := Some(ErrorJson(400, InvalidId));
      next := false;
    } else {
      req.validated := req.validated["id" := validatedId.value];
      next := true;
    }
    assert req.params == old(req.params);
  }

  /**
   * `validateSchemaMiddleware(schema)`: a body the schema accepts has its parsed form attached and
   * the chain goes on; otherwise 400 with the first issue's message.
   */
  method ValidateSchema<B, D>(parse: B -> SafeParse<D>, req: Request<B, D>) returns (next: bool)
    modifies req`validatedData, req`response
    ensures next <==> parse(req.body).ParseOk?
    ensures next ==> req.validatedData == Some(parse(req.body).data) && req.response == old(req.response)
    ensures !next ==>
      req.response == Some(FailureJson(400, parse(req.body).firstIssue)) && req.validatedData == old(req.validatedData)
  {
    var validatedData := parse(req.body);
    if validatedData.ParseOk? {
      req.validatedData := Some(validatedData.data);
      return true;
    }
    req.response := Some(FailureJson(400, validatedData.firstIssue));
    next := false;
  }
}
