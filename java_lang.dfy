/**
 * The few pieces of the Java platform the banking core relies on, with Java's
 * own semantics written out: 32-bit `int` arithmetic, the narrowing cast from
 * `double` to `int`, `String.trim` and the `%010d` conversion.
 */
module JavaLang {

  const MinInt32: int := -0x8000_0000
  const MaxInt32: int := 0x7fff_ffff

  /** Java's `int`. */
  type Int32 = x: int | -0x8000_0000 <= x <= 0x7fff_ffff

  /** Two's-complement wrap-around of a mathematical integer into `int`. */
  function Wrap32(x: int): (r: Int32)
    ensures MinInt32 <= x <= MaxInt32 ==> r == x
    ensures (x - r) % 0x1_0000_0000 == 0
  {
    (x + 0x8000_0000) % 0x1_0000_0000 - 0x8000_0000
  }

  function Min(a: int, b: int): int { if a <= b then a else b }

  function Max(a: int, b: int): int { if a >= b then a else b }

  /**
   * Java's narrowing conversion `(int) x` of a (non-NaN) `double`: rounds
   * toward zero and saturates at the bounds of `int`.
   */
  function DoubleToInt(x: real): (r: Int32)
    ensures 0.0 <= x ==> 0 <= r
    ensures 0.0 <= x <= MaxInt32 as real ==> r as real <= x < r as real + 1.0
    ensures x < 0.0 ==> r <= 0
    ensures MinInt32 as real < x < 0.0 ==> r as real - 1.0 < x <= r as real
    ensures MaxInt32 as real <= x ==> r == MaxInt32
    ensures x <= MinInt32 as real ==> r == MinInt32
  {
    if x >= MaxInt32 as real then MaxInt32
    else if x <= MinInt32 as real then MinInt32
    else if x >= 0.0 then x.Floor
    else -((-x).Floor)
  }

  /** `String.trim` removes every leading and trailing char whose code is at most U+0020. */
  predicate IsTrimmed(c: char)
  {
    c <= ' '
  }

  /** Index of the first char that `trim` keeps (|s| when there is none). */
  function TrimStart(s: string): (i: nat)
    ensures i <= |s|
    ensures forall k :: 0 <= k < i ==> IsTrimmed(s[k])
    ensures i < |s| ==> !IsTrimmed(s[i])
  {
    if s == [] || !IsTrimmed(s[0]) then 0
    else
      var i := 1 + TrimStart(s[1..]);
      assert forall k :: 1 <= k < i ==> s[k] == s[1..][k - 1];
      i
  }

  /** Index just past the last char that `trim` keeps (0 when there is none). */
  function TrimEnd(s: string): (j: nat)
    ensures j <= |s|
    ensures forall k :: j <= k < |s| ==> IsTrimmed(s[k])
    ensures 0 < j ==> !IsTrimmed(s[j - 1])
  {
    if s == [] || !IsTrimmed(s[|s| - 1]) then |s|
    else TrimEnd(s[..|s| - 1])
  }

  /** Java's `String.trim`. */
  function Trim(s: string): (r: string)
    ensures |r| <= |s|
    ensures r == [] <==> forall k :: 0 <= k < |s| ==> IsTrimmed(s[k])
    ensures r != [] ==> !IsTrimmed(r[0]) && !IsTrimmed(r[|r| - 1])
    ensures var i := TrimStart(s);
              i + |r| <= |s| && r == s[i..i + |r|]
              && forall k :: i + |r| <= k < |s| ==> IsTrimmed(s[k])
  {
    var i, j := TrimStart(s), TrimEnd(s);
    if i < j then s[i..j]
    else
      assert forall k :: 0 <= k < |s| ==> IsTrimmed(s[k]) by {
        forall k | 0 <= k < |s| ensures IsTrimmed(s[k]) {
          if k >= i { assert k >= j; }
        }
      }
      assert s[0..0] == [];
      []
  }

  /** Trimming a trimmed string changes nothing. */
  lemma TrimIdempotent(s: string)
    ensures Trim(Trim(s)) == Trim(s)
  {
    var r := Trim(s);
    if r != [] {
      assert TrimStart(r) == 0;
      assert TrimEnd(r) == |r|;
      assert r[0..|r|] == r;
    }
  }

  function Pow10(n: nat): (p: nat)
    ensures p >= 1
  {
    if n == 0 then 1 else 10 * Pow10(n - 1)
  }

  predicate IsAsciiDigit(c: char)
  {
    '0' <= c <= '9'
  }

  /** Numeric value of a string of ASCII digits, most significant digit first. */
  function DecimalValue(s: string): nat
    requires forall k :: 0 <= k < |s| ==> IsAsciiDigit(s[k])
  {
    if s == [] then 0
    else
      assert IsAsciiDigit(s[|s| - 1]);
      DecimalValue(s[..|s| - 1]) * 10 + (s[|s| - 1] as int - '0' as int)
  }

  /**
   * `String.format("%0<width>d", n)` for a non-negative `n` with at most
   * `width` digits: exactly `width` ASCII digits, padded with leading zeros.
   */
  function ZeroPad(n: nat, width: nat): (s: string)
    requires n < Pow10(width)
    ensures |s| == width
    ensures forall k :: 0 <= k < |s| ==> IsAsciiDigit(s[k])
  {
    if width == 0 then ""
    else ZeroPad(n / 10, width - 1) + [('0' as int + n % 10) as char]
  }

  /** Reading the padded digits back gives the number that was formatted. */
  lemma {:induction false} ZeroPadRoundTrip(n: nat, width: nat)
    requires n < Pow10(width)
    ensures DecimalValue(ZeroPad(n, width)) == n
  {
    if width > 0 {
      var s := ZeroPad(n, width);
      ZeroPadRoundTrip(n / 10, width - 1);
      assert s[..|s| - 1] == ZeroPad(n / 10, width - 1);
    }
  }

  /** Distinct numbers are formatted as distinct strings. */
  lemma ZeroPadInjective(m: nat, n: nat, width: nat)
    requires m < Pow10(width) && n < Pow10(width)
    requires ZeroPad(m, width) == ZeroPad(n, width)
    ensures m == n
  {
    ZeroPadRoundTrip(m, width);
    ZeroPadRoundTrip(n, width);
  }
}
