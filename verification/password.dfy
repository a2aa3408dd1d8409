/** The password hasher of the local flow: the stored form is
    `hex(KDF(password, salt)) + "." + salt`, where `salt` is the hex text of
    16 random bytes. The key-derivation function (scrypt with a 64-byte output
    in the source) and the random salt bytes are parameters. */
module Password {
  import opened Wrappers
  import opened Text

  newtype byte = x: int | 0 <= x < 256

  /** A key-derivation function from (password, salt text) to key bytes. */
  type Kdf = (string, string) -> seq<byte>

  const SaltLength: nat := 16
  const KeyLength: nat := 64
  const Separator: char := '.'
  const HexDigits: string := "0123456789abcdef"

  /** Why `comparePasswords` throws instead of answering. */
  datatype HashError =
    | SaltMissing          // no "." in the stored form: the salt is undefined
    | DigestLengthMismatch // the decoded digest and the derived key differ in length

  predicate IsHexDigit(c: char)
  {
    '0' <= c <= '9' || 'a' <= c <= 'f' || 'A' <= c <= 'F'
  }

  function HexValue(c: char): (v: nat)
    requires IsHexDigit(c)
    ensures v < 16
  {
    if '0' <= c <= '9' then (c - '0') as nat
    else if 'a' <= c <= 'f' then (c - 'a') as nat + 10
    else (c - 'A') as nat + 10
  }

  /** `buf.toString("hex")`: two lower-case hex digits per byte. */
  function Hex(bs: seq<byte>): (r: string)
    ensures |r| == 2 * |bs|
    ensures forall i :: 0 <= i < |r| ==> IsHexDigit(r[i])
  {
    if |bs| == 0 then ""
    else [HexDigits[bs[0] as int / 16], HexDigits[bs[0] as int % 16]] + Hex(bs[1..])
  }

  /** `Buffer.from(s, "hex")`: decodes digit pairs from the front and stops
      at the first pair that is not two hex digits (a trailing odd digit is
      dropped). */
  function HexDecode(s: string): (r: seq<byte>)
    ensures 2 * |r| <= |s|
  {
    if |s| < 2 || !IsHexDigit(s[0]) || !IsHexDigit(s[1]) then []
    else [(16 * HexValue(s[0]) + HexValue(s[1])) as byte] + HexDecode(s[2..])
  }

  lemma HexDigitValue(n: int)
    requires 0 <= n < 16
    ensures IsHexDigit(HexDigits[n]) && HexValue(HexDigits[n]) == n
  {
  }

  /** Decoding the hex text of some bytes gives those bytes back. */
  lemma {:induction false} HexRoundTrip(bs: seq<byte>)
    ensures HexDecode(Hex(bs)) == bs
    decreases |bs|
  {
    if |bs| > 0 {
      var b := bs[0] as int;
      HexDigitValue(b / 16);
      HexDigitValue(b % 16);
      var h := Hex(bs);
      assert h[2..] == Hex(bs[1..]);
      HexRoundTrip(bs[1..]);
      assert bs == [bs[0]] + bs[1..];
    }
  }

  /** `hashPassword`: the stored form for `password` under the random `salt`.
      It contains exactly one ".", and splitting on it recovers the hex
      digest and the salt text. */
  function HashPassword(password: string, salt: seq<byte>, kdf: Kdf): (stored: string)
    requires |salt| == SaltLength
    ensures Split(stored, Separator) == [Hex(kdf(password, Hex(salt))), Hex(salt)]
    ensures |stored| == 2 * |kdf(password, Hex(salt))| + 1 + 2 * SaltLength
  {
    var saltText := Hex(salt);
    var digest := Hex(kdf(password, saltText));
    SplitPair(digest, saltText, Separator);
    digest + [Separator] + saltText
  }

  /** `comparePasswords`: splits the stored form on ".", re-derives the key
      from the supplied password and the stored salt, and compares it with
      the decoded digest. The source throws when there is no salt or when the
      two buffers differ in length (`timingSafeEqual`). */
  function ComparePasswords(supplied: string, stored: string, kdf: Kdf): (r: Result<bool, HashError>)
    ensures r == Failure(SaltMissing) <==> Free(stored, Separator)
    ensures r == Failure(DigestLengthMismatch) <==>
              !Free(stored, Separator)
              && |HexDecode(Split(stored, Separator)[0])| != |kdf(supplied, Split(stored, Separator)[1])|
    ensures r.Success? ==> |HexDecode(Split(stored, Separator)[0])| == |kdf(supplied, Split(stored, Separator)[1])|
    ensures r.Success? ==> r.value == (HexDecode(Split(stored, Separator)[0]) == kdf(supplied, Split(stored, Separator)[1]))
  {
    var parts := Split(stored, Separator);
    if |parts| < 2 then Failure(SaltMissing)
    else
      var digest := HexDecode(parts[0]);
      var derived := kdf(supplied, parts[1]);
      if |digest| != |derived| then Failure(DigestLengthMismatch)
      else Success(digest == derived)
  }

  /** Round trip: a password always verifies against its own stored form. */
  lemma HashThenCompare(password: string, salt: seq<byte>, kdf: Kdf)
    requires |salt| == SaltLength
    ensures ComparePasswords(password, HashPassword(password, salt, kdf), kdf) == Success(true)
  {
    HexRoundTrip(kdf(password, Hex(salt)));
  }

  /** Another password verifies against the stored form exactly when the KDF
      gives it the same key under the stored salt. */
  lemma CompareOtherPassword(password: string, other: string, salt: seq<byte>, kdf: Kdf)
    requires |salt| == SaltLength
    requires |kdf(other, Hex(salt))| == |kdf(password, Hex(salt))|
    ensures ComparePasswords(other, HashPassword(password, salt, kdf), kdf)
         == Success(kdf(other, Hex(salt)) == kdf(password, Hex(salt)))
  {
    HexRoundTrip(kdf(password, Hex(salt)));
  }

  /** A stored form whose first character is not a hex digit (such as the
      synthesized `scalekit_...` password) never verifies: the source throws,
      whatever password is supplied, as long as the KDF yields a key. */
  lemma NonHexStoredFormFails(supplied: string, stored: string, kdf: Kdf)
    requires |stored| > 0 && !IsHexDigit(stored[0])
    requires forall p, s :: |kdf(p, s)| == KeyLength
    ensures ComparePasswords(supplied, stored, kdf).Failure?
  {
    var parts := Split(stored, Separator);
    if |parts| >= 2 {
      if |parts[0]| > 0 {
        assert parts[0][0] == stored[0];
      }
      assert HexDecode(parts[0]) == [];
      assert |kdf(supplied, parts[1])| == KeyLength;
    }
  }
}
