/**
 * The text conversions the editor applies to form fields: Python's
 * `str.isdigit`, `int(s)` on a digit string, and `str(n)` on an integer.
 * Only ASCII digits are modelled.
 */
module Text {
  import opened Wrappers

  predicate IsDigitChar(c: char) {
    '0' <= c <= '9'
  }

  /**
   * `s.isdigit()`: true of a non-empty string of digits only. In particular
   * the empty string and any string with a minus sign are rejected.
   */
  predicate IsDigits(s: string): (b: bool)
    ensures b ==> s != [] && '-' !in s
  {
    |s| > 0 && forall i :: 0 <= i < |s| ==> IsDigitChar(s[i])
  }

  function DigitValue(c: char): (d: nat)
    requires IsDigitChar(c)
    ensures d < 10
  {
    c as int - '0' as int
  }

  function DigitChar(d: nat): (c: char)
    requires d < 10
    ensures IsDigitChar(c) && DigitValue(c) == d
  {
    ('0' as int + d) as char
  }

  /** `10` to the power `k`. */
  function Pow10(k: nat): nat {
    if k == 0 then 1 else 10 * Pow10(k - 1)
  }

  /**
   * `int(s)` for a string of digits, read most significant digit first: a
   * number below `10^|s|`, and not zero when the leading digit is not.
   */
  function DigitsValue(s: string): (v: nat)
    requires forall i :: 0 <= i < |s| ==> IsDigitChar(s[i])
    ensures v < Pow10(|s|)
    ensures |s| > 0 && s[0] != '0' ==> v > 0
  {
    if s == [] then 0 else DigitsValue(s[..|s| - 1]) * 10 + DigitValue(s[|s| - 1])
  }

  /** `str(n)` for a non-negative integer: decimal, no leading zeros. */
  function NatToString(n: nat): (s: string)
    ensures IsDigits(s)
    ensures |s| > 1 ==> s[0] != '0'
  {
    if n < 10 then [DigitChar(n)] else NatToString(n / 10) + [DigitChar(n % 10)]
  }

  /** `str(i)` for any integer: the digits of `|i|`, after a minus sign when `i` is negative. */
  function IntToString(i: int): (s: string)
    ensures i >= 0 ==> IsDigits(s)
    ensures i < 0 ==> |s| > 1 && s[0] == '-' && IsDigits(s[1..])
  {
    if i < 0 then "-" + NatToString(-i) else NatToString(i)
  }

  /** The id field conversion `int(t) if t.isdigit() else None`. */
  function ParseId(t: string): (r: Option<nat>)
    ensures r.Some? <==> IsDigits(t)
  {
    if IsDigits(t) then Some(DigitsValue(t)) else None
  }

  /** Reading back a number written with `str` gives the number. */
  lemma {:induction false} DigitsRoundTrip(n: nat)
    ensures DigitsValue(NatToString(n)) == n
  {
    if n >= 10 {
      var s := NatToString(n / 10);
      var t := s + [DigitChar(n % 10)];
      assert t[..|t| - 1] == s;
      DigitsRoundTrip(n / 10);
    }
  }

  /**
   * A form field filled with `str(i)` parses back to `i` when `i` is not
   * negative, and is rejected by `isdigit` (the minus sign) otherwise.
   */
  lemma ParseIdOfString(i: int)
    ensures ParseId(IntToString(i)) == if i >= 0 then Some(i) else None
  {
    if i >= 0 {
      DigitsRoundTrip(i);
    } else {
      assert IntToString(i)[0] == '-';
    }
  }
}
