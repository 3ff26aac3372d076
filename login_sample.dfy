/** A concrete login attempt: Ann's address typed with a capital letter, and her password. */
module LoginSample {
  import opened Text
  import opened UserSchema

  /** Printable ASCII without the space: none of it is white space. */
  predicate IsPrintableAscii(s: string) {
    forall k :: 0 <= k < |s| ==> '!' <= s[k] <= '~'
  }

  /** Printable ASCII holds no white space. */
  lemma PrintableNoWhiteSpace(s: string)
    requires IsPrintableAscii(s)
    ensures forall k :: 0 <= k < |s| ==> !IsJsWhiteSpace(s[k])
  {
    forall k | 0 <= k < |s|
      ensures !IsJsWhiteSpace(s[k])
    {
      assert '!' <= s[k] <= '~';
    }
  }

  /** A printable ASCII string is untouched by trimming and holds no white space. */
  lemma PrintableUntrimmed(s: string)
    requires IsPrintableAscii(s)
    ensures Trim(s) == s
    ensures forall k :: 0 <= k < |s| ==> !IsJsWhiteSpace(s[k])
  {
    PrintableNoWhiteSpace(s);
    assert IsTrimmed(s);
    TrimFixpoint(s);
  }

  /** The format check holds once its '@' and its domain dot are pointed out. */
  lemma EmailAddressAt(s: string, at: int, dot: int)
    requires 0 < at < |s| - 1 && s[at] == '@' && at + 1 < dot < |s| - 1 && s[dot] == '.'
    requires forall k :: 0 <= k < |s| && k != at ==> s[k] != '@'
    requires forall k :: 0 <= k < |s| ==> !IsJsWhiteSpace(s[k])
    ensures IsEmailAddress(s)
  {
  }

  /** Ann's address typed with a capital letter passes the format check. */
  lemma SampleEmailAccepted()
    ensures IsEmailAddress("Ann@x.com")
  {
    var email := "Ann@x.com";
    PrintableNoWhiteSpace(email);
    forall k | 0 <= k < |email| && k != 3
      ensures email[k] != '@'
    {
      assert k < 3 || 3 < k;
    }
    EmailAddressAt(email, 3, 5);
  }

  /** Ann's address has no white space to trim. */
  lemma SampleEmailUntrimmed()
    ensures Trim("Ann@x.com") == "Ann@x.com"
  {
    PrintableUntrimmed("Ann@x.com");
  }

  /** Ann's password meets the policy. */
  lemma SamplePasswordAccepted()
    ensures PasswordPolicy("Abcd1234")
  {
    var password := "Abcd1234";
    assert IsAsciiLower(password[1]) && IsAsciiUpper(password[0]) && IsAsciiDigit(password[4]);
  }

  /** Ann's password has no white space to trim. */
  lemma SamplePasswordUntrimmed()
    ensures Trim("Abcd1234") == "Abcd1234"
  {
    PrintableUntrimmed("Abcd1234");
  }

  /** Trimming and lower-casing turn the typed address into the stored one. */
  lemma SampleEmailNormalized()
    ensures NormalizeEmail("Ann@x.com") == "ann@x.com"
  {
    SampleEmailUntrimmed();
    assert ToLowerAscii("Ann@x.com") == "ann@x.com";
  }

  /** The login schema accepts Ann's mixed-case attempt and normalises the address to the stored one. */
  lemma SampleBodyParses()
    ensures ParseLoginBody(LoginBody("Ann@x.com", "Abcd1234")).ParseOk?
    ensures NormalizeEmail("Ann@x.com") == "ann@x.com" && Trim("Abcd1234") == "Abcd1234"
  {
    SampleEmailAccepted();
    SampleEmailNormalized();
    SamplePasswordAccepted();
    SamplePasswordUntrimmed();
  }
}
