/**
 * JavaScript's String(n) for an integer 0 <= n <= 2^53, where it is the exact
 * decimal numeral: its digits, most significant first, with no leading zero.
 * (Above 2^53 JavaScript may print a shorter, zero-padded numeral of a nearby
 * value, and from 10^21 on it uses exponent notation; the model only renders
 * six-digit codes.) DigitsValue reads a digit string back.
 */
module JsNumber {

  predicate IsDigit(c: char) {
    '0' <= c <= '9'
  }

  predicate IsDigits(s: string) {
    forall i :: 0 <= i < |s| ==> IsDigit(s[i])
  }

  /** The form String(n) produces: at least one digit, and no leading zero unless n is 0. */
  predicate IsCanonical(s: string) {
    |s| >= 1 && IsDigits(s) && (|s| > 1 ==> s[0] != '0')
  }

  function DigitChar(d: nat): (c: char)
    requires d < 10
    ensures IsDigit(c) && c as int - '0' as int == d
  {
    ('0' as int + d) as char
  }

  /** String(n), for n up to 2^53. */
  function DecimalString(n: nat): (r: string)
    ensures IsCanonical(r)
    decreases n
  {
    if n < 10 then [DigitChar(n)] else DecimalString(n / 10) + [DigitChar(n % 10)]
  }

  /** The number a digit string denotes. */
  function DigitsValue(s: string): nat
    requires IsDigits(s)
  {
    if s == [] then 0 else 10 * DigitsValue(s[..|s| - 1]) + (s[|s| - 1] as int - '0' as int)
  }

  function Pow10(k: nat): nat {
    if k == 0 then 1 else 10 * Pow10(k - 1)
  }

  /** Reading String(n) back gives n. */
  lemma {:induction false} ValueOfDecimal(n: nat)
    ensures DigitsValue(DecimalString(n)) == n
    decreases n
  {
    var r := DecimalString(n);
    if n >= 10 {
      ValueOfDecimal(n / 10);
      assert r[..|r| - 1] == DecimalString(n / 10);
    }
  }

  /** A canonical digit string with more than one digit denotes at least 10. */
  lemma {:induction false} CanonicalAtLeastTen(s: string)
    requires IsCanonical(s) && |s| > 1
    ensures DigitsValue(s) >= 10
    decreases |s|
  {
    var p := s[..|s| - 1];
    if |p| > 1 {
      CanonicalAtLeastTen(p);
    } else {
      assert p[0] == s[0];
    }
  }

  /** Rendering the value of a canonical digit string gives the string back. */
  lemma {:induction false} DecimalOfValue(s: string)
    requires IsCanonical(s)
    ensures DecimalString(DigitsValue(s)) == s
    decreases |s|
  {
    if |s| > 1 {
      var p := s[..|s| - 1];
      assert p[0] == s[0];
      DecimalOfValue(p);
      CanonicalAtLeastTen(s);
      var n := DigitsValue(s);
      var d := s[|s| - 1] as int - '0' as int;
      assert n / 10 == DigitsValue(p) && n % 10 == d;
      assert s == p + [s[|s| - 1]];
    }
  }

  /** Distinct numbers have distinct renderings. */
  lemma DecimalInjective(a: nat, b: nat)
    ensures DecimalString(a) == DecimalString(b) <==> a == b
  {
    ValueOfDecimal(a);
    ValueOfDecimal(b);
  }

  /** A number in [10^(k-1), 10^k) has k digits. */
  lemma {:induction false} DecimalLengthInRange(n: nat, k: nat)
    requires 1 <= k && (k == 1 || Pow10(k - 1) <= n) && n < Pow10(k)
    ensures |DecimalString(n)| == k
    decreases k
  {
    if k > 1 {
      assert Pow10(k - 1) == 10 * Pow10(k - 2);
      DecimalLengthInRange(n / 10, k - 1);
    }
  }

  /** A number with k digits lies in [10^(k-1), 10^k). */
  lemma {:induction false} DecimalLengthBounds(n: nat)
    ensures (|DecimalString(n)| == 1 || Pow10(|DecimalString(n)| - 1) <= n) && n < Pow10(|DecimalString(n)|)
    decreases n
  {
    if n >= 10 {
      DecimalLengthBounds(n / 10);
    }
  }

  /** A number has k digits exactly when it lies in [10^(k-1), 10^k). */
  lemma DecimalLength(n: nat, k: nat)
    requires 1 <= k
    ensures |DecimalString(n)| == k <==> (k == 1 || Pow10(k - 1) <= n) && n < Pow10(k)
  {
    DecimalLengthBounds(n);
    if (k == 1 || Pow10(k - 1) <= n) && n < Pow10(k) {
      DecimalLengthInRange(n, k);
    }
  }

  /** Every code in [100000, 999999] renders as exactly six digits. */
  lemma SixDigits(n: nat)
    requires 100000 <= n <= 999999
    ensures |DecimalString(n)| == 6 && IsDigits(DecimalString(n))
  {
    assert Pow10(5) == 100000 && Pow10(6) == 1000000;
    DecimalLengthInRange(n, 6);
  }
}
