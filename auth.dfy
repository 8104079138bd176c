/**
 * Stateless credential checks: password digests, PIN format and equality, and
 * the single built-in administrator password.
 */
module Auth {
  import opened Wrappers

  /** Base64 text of a 32-byte SHA-256 digest: always 44 characters. */
  type Digest44 = s: string | |s| == 44 witness "AAAAAAAAAAAAAAAAAAAAAAAAAAAAAAAAAAAAAAAAAAA="

  /**
   * SHA-256 of the password's bytes, Base64-encoded. The hash itself is not
   * modelled: this is an arbitrary fixed function, so nothing proved here
   * depends on which digest a password has, only on the digest being a
   * deterministic function of the password.
   */
  const Sha256Base64: string -> Digest44

  /**
   * `hashPassword`. Java returns null only when SHA-256 is unavailable, which
   * no Java platform allows, so the digest is always present.
   */
  function HashPassword(password: string): (r: Option<string>)
    ensures r.Some? && |r.value| == 44
  {
    Some(Sha256Base64(password))
  }

  /** Recompute the digest and compare it with the stored one. */
  function VerifyPassword(input: string, storedHash: Option<string>): (r: bool)
    ensures storedHash.None? ==> !r
    ensures r <==> storedHash == HashPassword(input)
  {
    var inputHash := HashPassword(input);
    inputHash.Some? && inputHash == storedHash
  }

  /** A password always verifies against its own digest. */
  lemma VerifyOwnDigest(password: string)
    ensures VerifyPassword(password, HashPassword(password))
  {
  }

  /** Exact equality with the stored PIN; a null supplied or stored PIN never verifies. */
  function VerifyPin(input: Option<string>, stored: Option<string>): (r: bool)
    ensures input.None? || stored.None? ==> !r
    ensures r <==> input.Some? && stored.Some? && input.value == stored.value
  {
    input.Some? && input == stored
  }

  /**
   * Code points of the digit zero of every block of Unicode category Nd in
   * the Basic Multilingual Plane; each block holds the ten digits from its
   * zero upward (Unicode 15.0).
   */
  const DigitZeros: seq<int> := [
    0x0030, 0x0660, 0x06F0, 0x07C0, 0x0966, 0x09E6, 0x0A66, 0x0AE6, 0x0B66,
    0x0BE6, 0x0C66, 0x0CE6, 0x0D66, 0x0DE6, 0x0E50, 0x0ED0, 0x0F20, 0x1040,
    0x1090, 0x17E0, 0x1810, 0x1946, 0x19D0, 0x1A80, 0x1A90, 0x1B50, 0x1BB0,
    0x1C40, 0x1C50, 0xA620, 0xA8D0, 0xA900, 0xA9D0, 0xA9F0, 0xAA50, 0xABF0,
    0xFF10]

  /**
   * `Character.isDigit(char)`: true of the decimal digits of every script, not
   * only '0'..'9'. A Java `char` is one UTF-16 unit, so a character beyond
   * U+FFFF reaches it as two surrogates, neither of them a digit.
   */
  predicate IsDigit(c: char)
  {
    exists i :: 0 <= i < |DigitZeros| && DigitZeros[i] <= c as int < DigitZeros[i] + 10
  }

  /** The ASCII digits are digits; nothing beyond the BMP is. */
  lemma DigitRange(c: char)
    ensures '0' <= c <= '9' ==> IsDigit(c)
    ensures IsDigit(c) ==> '0' <= c && c as int < 0x1_0000
  {
    if '0' <= c <= '9' {
      assert DigitZeros[0] <= c as int < DigitZeros[0] + 10;
    }
  }

  /** The for-each loop of `isValidPin`: it fails at the first non-digit. */
  function AllDigits(s: string): (r: bool)
    ensures r <==> forall k :: 0 <= k < |s| ==> IsDigit(s[k])
  {
    if s == [] then true
    else if !IsDigit(s[0]) then false
    else
      assert forall k :: 1 <= k < |s| ==> s[k] == s[1..][k - 1];
      AllDigits(s[1..])
  }

  /** A PIN is exactly four characters, each of them a digit. */
  function IsValidPin(pin: Option<string>): (r: bool)
    ensures r <==> pin.Some? && |pin.value| == 4 && forall k :: 0 <= k < 4 ==> IsDigit(pin.value[k])
  {
    if pin.None? || |pin.value| != 4 then false
    else AllDigits(pin.value)
  }

  /** Below the Arabic-Indic block the only digits are the ASCII ones. */
  lemma DigitBelowArabicIndic(c: char)
    requires c as int < 0x0660
    ensures IsDigit(c) <==> '0' <= c <= '9'
  {
    if '0' <= c <= '9' {
      assert DigitZeros[0] <= c as int < DigitZeros[0] + 10;
    }
    assert forall i :: 1 <= i < |DigitZeros| ==> DigitZeros[i] >= 0x0660;
  }

  /** Four ASCII digits, or four Arabic-Indic digits, form a valid PIN. */
  lemma PinAcceptsDigits()
    ensures IsValidPin(Some("1234")) && IsValidPin(Some("0000"))
    ensures IsValidPin(Some("\U{0661}\U{0662}\U{0663}\U{0664}"))
  {
    DigitRange('0');
    DigitRange('1');
    DigitRange('2');
    DigitRange('3');
    DigitRange('4');
    assert DigitZeros[1] <= 0x0661 && 0x0664 < DigitZeros[1] + 10;
  }

  /** Null, empty, short, long and non-digit PINs are rejected. */
  lemma PinRejects()
    ensures !IsValidPin(None) && !IsValidPin(Some(""))
    ensures !IsValidPin(Some("123")) && !IsValidPin(Some("12345"))
    ensures !IsValidPin(Some("12a4")) && !IsValidPin(Some(" 123"))
  {
    DigitBelowArabicIndic('a');
    DigitBelowArabicIndic(' ');
  }

  /** The digest of the built-in administrator password "admin123". */
  function AdminPasswordHash(): (h: Option<string>)
    ensures h.Some? && |h.value| == 44
    ensures forall p :: VerifyPassword(p, h) <==> HashPassword(p) == HashPassword("admin123")
  {
    HashPassword("admin123")
  }

  /** The administrator password is checked against the one fixed digest. */
  function AuthenticateAdmin(password: string): (r: bool)
    ensures r <==> VerifyPassword(password, AdminPasswordHash())
    ensures password == "admin123" ==> r
  {
    VerifyPassword(password, AdminPasswordHash())
  }
}
