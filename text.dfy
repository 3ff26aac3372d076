/** The pieces of ECMAScript string handling the validators rely on. */
module Text {

  /** LineTerminator code points (LF, CR, LS, PS); a regular-expression `.` matches none of them. */
  predicate IsLineTerminator(c: char) {
    c == '\n' || c == '\r' || c == '\U{2028}' || c == '\U{2029}'
  }

  /** WhiteSpace or LineTerminator: what `String.prototype.trim` strips and `parseInt` skips. */
  predicate IsJsWhiteSpace(c: char) {
    || c == '\t' || c == '\U{000B}' || c == '\U{000C}' || c == ' ' || c == '\U{00A0}' || c == '\U{FEFF}'
    || c == '\U{1680}' || ('\U{2000}' <= c <= '\U{200A}') || c == '\U{202F}' || c == '\U{205F}'
    || c == '\U{3000}'
    || IsLineTerminator(c)
  }

  /** Drops leading white space. */
  function TrimStart(s: string): (r: string)
    ensures |r| <= |s| && r == s[|s| - |r|..]
    ensures forall i :: 0 <= i < |s| - |r| ==> IsJsWhiteSpace(s[i])
    ensures r == [] || !IsJsWhiteSpace(r[0])
  {
    if s != [] && IsJsWhiteSpace(s[0]) then TrimStart(s[1..]) else s
  }

  /** Drops trailing white space. */
  function TrimEnd(s: string): (r: string)
    ensures |r| <= |s| && r == s[..|r|]
    ensures forall i :: |r| <= i < |s| ==> IsJsWhiteSpace(s[i])
    ensures r == [] || !IsJsWhiteSpace(r[|r| - 1])
  {
    if s != [] && IsJsWhiteSpace(s[|s| - 1]) then TrimEnd(s[..|s| - 1]) else s
  }

  /** `String.prototype.trim`: no longer than its input, and no white space left at either end. */
  function Trim(s: string): (r: string)
    ensures |r| <= |s|
    ensures IsTrimmed(r)
  {
    var t := TrimStart(s);
    var u := TrimEnd(t);
    assert u == [] || u[0] == t[0] by {
      if u != [] {
        assert u == t[..|u|];
      }
    }
    u
  }

  /** A string is its own trim exactly when it neither starts nor ends with white space. */
  predicate IsTrimmed(s: string) {
    s == [] || (!IsJsWhiteSpace(s[0]) && !IsJsWhiteSpace(s[|s| - 1]))
  }

  /** Trim keeps a contiguous slice of its input. */
  lemma TrimSlice(s: string) returns (i: nat, j: nat)
    ensures i <= j <= |s| && Trim(s) == s[i..j]
  {
    var t := TrimStart(s);
    var u := TrimEnd(t);
    i, j := |s| - |t|, |s| - |t| + |u|;
    assert t == s[i..];
    assert u == t[..|u|];
  }

  /** Trimming changes a string exactly when it has white space at an end. */
  lemma {:induction false} TrimFixpoint(s: string)
    ensures Trim(s) == s <==> IsTrimmed(s)
  {
    var i, j := TrimSlice(s);
    if IsTrimmed(s) && s != [] {
      assert TrimStart(s) == s;
      assert TrimEnd(s) == s;
    }
  }

  /** Trimming twice is trimming once. */
  lemma TrimIdempotent(s: string)
    ensures Trim(Trim(s)) == Trim(s)
  {
    TrimFixpoint(Trim(s));
  }

  /** Dropping leading white space first does not change what `TrimStart` yields. */
  lemma {:induction false} TrimStartSkipsWhiteSpace(ws: string, s: string)
    requires forall i :: 0 <= i < |ws| ==> IsJsWhiteSpace(ws[i])
    ensures TrimStart(ws + s) == TrimStart(s)
  {
    if ws != [] {
      var x := ws + s;
      var rest := ws[1..];
      assert x[0] == ws[0];
      assert x[1..] == rest + s;
      assert TrimStart(x) == TrimStart(rest + s);
      forall i | 0 <= i < |rest| ensures IsJsWhiteSpace(rest[i]) {
        assert rest[i] == ws[i + 1];
      }
      TrimStartSkipsWhiteSpace(rest, s);
    } else {
      assert ws + s == s;
    }
  }

  function LowerAscii(c: char): char {
    if 'A' <= c <= 'Z' then (c as int + 32) as char else c
  }

  /** Lower-casing an ASCII string keeps it free of white space at both ends. */
  lemma LowerAsciiKeepsTrimmed(s: string)
    requires IsTrimmed(s)
    ensures IsTrimmed(ToLowerAscii(s))
  {
    if s != [] {
      var r := ToLowerAscii(s);
      assert r[0] == LowerAscii(s[0]) && r[|r| - 1] == LowerAscii(s[|s| - 1]);
      assert !IsJsWhiteSpace(LowerAscii(s[0])) by {
        if 'A' <= s[0] <= 'Z' { assert 'a' <= LowerAscii(s[0]) <= 'z'; }
      }
      assert !IsJsWhiteSpace(LowerAscii(s[|s| - 1])) by {
        if 'A' <= s[|s| - 1] <= 'Z' { assert 'a' <= LowerAscii(s[|s| - 1]) <= 'z'; }
      }
    }
  }

  /** `String.prototype.toLowerCase`, restricted to the ASCII letters. */
  function ToLowerAscii(s: string): (r: string)
    ensures |r| == |s|
    ensures forall i :: 0 <= i < |s| ==> r[i] == LowerAscii(s[i])
  {
    seq(|s|, i requires 0 <= i < |s| => LowerAscii(s[i]))
  }
}
