/**
 * The password-hashing pair the services call (`hash`, `compare`). bcrypt reads at most 72 bytes
 * of a password, so passwords that agree on those share a digest; apart from that the hash is
 * taken as ideal. The limit is counted in characters, which is exact for ASCII passwords. Salt
 * and cost are not modelled.
 */
module Bcrypt {

  const DigestTag := "$2b$10$"

  /** The most input bcrypt reads; anything after it does not reach the digest. */
  const MaxInputLength := 72

  /** The part of a password that reaches the digest: its first 72 characters. */
  function HashedPart(password: string): (p: string)
    ensures |p| <= MaxInputLength && |p| <= |password| && p == password[..|p|]
    ensures |password| <= MaxInputLength ==> p == password
    ensures |password| > MaxInputLength ==> |p| == MaxInputLength
  {
    if |password| <= MaxInputLength then password else password[..MaxInputLength]
  }

  /** `hash(password, 10)`. */
  function Hash(password: string): (digest: string)
    ensures |digest| > |DigestTag|
  {
    DigestTag + HashedPart(password) + "."
  }

  /** `compare(password, digest)`: true exactly when the password hashes to the digest. */
  predicate Compare(password: string, digest: string)
    ensures Compare(password, digest) ==> |digest| > |DigestTag|
  {
    digest == Hash(password)
  }

  /**
   * A digest is accepted for the password it was made from, and for exactly those passwords that
   * agree with it on the first 72 characters.
   */
  lemma CompareHash(password: string, other: string)
    ensures Compare(password, Hash(password))
    ensures Compare(other, Hash(password)) <==> HashedPart(other) == HashedPart(password)
  {
    if Compare(other, Hash(password)) {
      assert HashedPart(other) == Hash(other)[|DigestTag|..|Hash(other)| - 1];
      assert HashedPart(password) == Hash(password)[|DigestTag|..|Hash(password)| - 1];
    }
  }

  /** Among passwords of at most 72 characters, a digest is accepted for its own password only. */
  lemma CompareHashShort(password: string, other: string)
    requires |password| <= MaxInputLength && |other| <= MaxInputLength
    ensures Compare(other, Hash(password)) <==> other == password
  {
    CompareHash(password, other);
  }

  /** Past 72 characters the tail is ignored: a digest accepts any password with the same first 72. */
  lemma {:induction false} LongPasswordTailIgnored(head: string, tail: string, otherTail: string)
    requires |head| == MaxInputLength
    ensures Compare(head + otherTail, Hash(head + tail))
  {
    assert HashedPart(head + tail) == head == HashedPart(head + otherTail) by {
      if tail != [] {
        assert (head + tail)[..MaxInputLength] == head;
      }
      if otherTail != [] {
        assert (head + otherTail)[..MaxInputLength] == head;
      }
    }
  }
}
