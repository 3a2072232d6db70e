/**
 * Integers written as decimal strings, the way the service stores its counters:
 * `n.toString()` writes a number, `Number(s)` reads one back.
 * Only integers are modelled; `Number` is modelled on strings made of decimal
 * digits with an optional leading minus sign; any other string is outside the model (`None`).
 */
module Decimal {
  import opened Wrappers

  predicate IsDigit(c: char) {
    '0' <= c <= '9'
  }

  /** Every character is a decimal digit (checked from the last one, as `DigitsValue` reads). */
  predicate AllDigits(s: string) {
    s == [] || (AllDigits(s[..|s| - 1]) && IsDigit(s[|s| - 1]))
  }

  /** A numeral as `toString` writes it: digits, with no leading zero unless it is "0". */
  predicate CanonicalNat(s: string) {
    s != [] && AllDigits(s) && (s[0] == '0' ==> |s| == 1)
  }

  /** A canonical numeral, or a minus sign before a canonical numeral other than "0". */
  predicate CanonicalInt(s: string) {
    CanonicalNat(s) || (|s| >= 2 && s[0] == '-' && s[1] != '0' && CanonicalNat(s[1..]))
  }

  function DigitChar(d: nat): (c: char)
    requires d < 10
    ensures IsDigit(c) && c as int - '0' as int == d
  {
    ('0' as int + d) as char
  }

  /** `n.toString()` for a non-negative integer: the shortest decimal numeral, no padding. */
  function NatToString(n: nat): (s: string)
    ensures CanonicalNat(s) && IsDigit(s[0])
    ensures s[0] == '0' ==> n == 0
  {
    if n < 10 then [DigitChar(n)]
    else
      var prefix := NatToString(n / 10);
      assert (prefix + [DigitChar(n % 10)])[0] == prefix[0];
      prefix + [DigitChar(n % 10)]
  }

  /** `i.toString()` for any integer: a minus sign before the numeral of the magnitude. */
  function IntToString(i: int): (s: string)
    ensures CanonicalInt(s)
    ensures s[0] == '-' <==> i < 0
  {
    if i < 0 then "-" + NatToString(-i) else NatToString(i)
  }

  /** The value of a string of digits, most significant digit first (leading zeros allowed). */
  function DigitsValue(s: string): nat
    requires AllDigits(s)
  {
    if s == [] then 0
    else DigitsValue(s[..|s| - 1]) * 10 + (s[|s| - 1] as int - '0' as int)
  }

  /** `Number(s)` on an unsigned string of digits; any other string is outside the model (`None`). */
  function ParseNat(s: string): Option<nat>
  {
    if s != [] && AllDigits(s) then Some(DigitsValue(s)) else None
  }

  /** `Number(s)` on a string of digits with an optional leading minus sign. */
  function ParseInt(s: string): (r: Option<int>)
    ensures r.Some? ==> s != [] && (r.value < 0 ==> s[0] == '-')
  {
    if s != [] && s[0] == '-' then
      match ParseNat(s[1..])
      case Some(n) => Some(0 - n as int)
      case None => None
    else
      match ParseNat(s)
      case Some(n) => Some(n)
      case None => None
  }

  /** A numeral written by `NatToString` is non-empty, all digits, has no leading zero and denotes `n`. */
  lemma {:induction false} NatToStringDenotes(n: nat)
    ensures |NatToString(n)| >= 1 && AllDigits(NatToString(n))
    ensures NatToString(n)[0] == '0' ==> n == 0
    ensures DigitsValue(NatToString(n)) == n
  {
    var s := NatToString(n);
    if n >= 10 {
      NatToStringDenotes(n / 10);
      var prefix := NatToString(n / 10);
      assert s == prefix + [DigitChar(n % 10)];
      assert s[..|s| - 1] == prefix;
      assert s[0] == prefix[0];
    }
  }

  /** A string of digits with a non-zero first digit denotes a positive number. */
  lemma {:induction false} LeadingDigitPositive(s: string)
    requires s != [] && AllDigits(s) && s[0] != '0'
    ensures DigitsValue(s) > 0
  {
    if |s| > 1 {
      var prefix := s[..|s| - 1];
      assert prefix[0] == s[0];
      LeadingDigitPositive(prefix);
    }
  }

  /** Writing the value of a canonical numeral gives the numeral back. */
  lemma {:induction false} CanonicalRoundTrip(s: string)
    requires CanonicalNat(s)
    ensures NatToString(DigitsValue(s)) == s
  {
    if |s| > 1 {
      var prefix := s[..|s| - 1];
      assert prefix[0] == s[0];
      CanonicalRoundTrip(prefix);
      LeadingDigitPositive(prefix);
      var d := s[|s| - 1] as int - '0' as int;
      var n := DigitsValue(s);
      assert n == DigitsValue(prefix) * 10 + d;
      assert n / 10 == DigitsValue(prefix) && n % 10 == d;
      assert DigitChar(d) == s[|s| - 1];
      assert s == prefix + [s[|s| - 1]];
    }
  }

  /** The model's `Number` reads exactly the non-empty strings of digits; any other string is outside the model (`None`). */
  lemma ParseNatDefined(s: string)
    ensures ParseNat(s).Some? <==> s != [] && AllDigits(s)
    ensures ParseNat(s).Some? ==> ParseNat(s).value < Pow10(|s|)
  {
    if s != [] && AllDigits(s) {
      DigitsBelow(s);
    }
  }

  /** A string of `k` digits denotes a number below 10^k. */
  lemma {:induction false} DigitsBelow(s: string)
    requires AllDigits(s)
    ensures DigitsValue(s) < Pow10(|s|)
  {
    if s != [] {
      DigitsBelow(s[..|s| - 1]);
    }
  }

  /** `Number` then `toString` gives back any numeral `toString` could have written. */
  lemma CanonicalIntRoundTrip(s: string)
    requires CanonicalInt(s)
    ensures ParseInt(s).Some? && IntToString(ParseInt(s).value) == s
  {
    if CanonicalNat(s) {
      CanonicalRoundTrip(s);
    } else {
      CanonicalRoundTrip(s[1..]);
      LeadingDigitPositive(s[1..]);
    }
  }

  /** Reading back what `NatToString` wrote gives the number back. */
  lemma NatRoundTrip(n: nat)
    ensures ParseNat(NatToString(n)) == Some(n)
  {
    NatToStringDenotes(n);
  }

  /** Reading back what `IntToString` wrote gives the integer back, whatever its sign. */
  lemma IntRoundTrip(i: int)
    ensures ParseInt(IntToString(i)) == Some(i)
  {
    if i < 0 {
      var t := NatToString(-i);
      NatRoundTrip(-i);
      assert IntToString(i) == "-" + t;
      assert ("-" + t)[1..] == t;
    } else {
      NatRoundTrip(i);
      assert IsDigit(NatToString(i)[0]);
    }
  }

  /** Distinct numbers get distinct numerals. */
  lemma NatToStringInjective(m: nat, n: nat)
    requires NatToString(m) == NatToString(n)
    ensures m == n
  {
    NatRoundTrip(m);
    NatRoundTrip(n);
  }

  /** A number below 10^6 takes one to six digits: `toString` never pads it to a fixed width. */
  lemma {:induction false} NatToStringLength(n: nat, k: nat)
    requires n < Pow10(k)
    ensures 1 <= |NatToString(n)| <= if k == 0 then 1 else k
  {
    if n >= 10 && k > 0 {
      NatToStringLength(n / 10, k - 1);
    }
  }

  function Pow10(k: nat): (p: nat)
    ensures p >= 1
  {
    if k == 0 then 1 else 10 * Pow10(k - 1)
  }
}
