/** Positional rendering of integers, as Rust's `{}` (decimal) and the
    `\u{..}` escape (lower-case hexadecimal) print them, with a reader that
    inverts the rendering. */
module Numerals {

  predicate ValidBase(base: nat) { base == 10 || base == 16 }

  /** The digit character for `d` in the given base (lower-case letters). */
  function DigitChar(d: nat, base: nat): (c: char)
    requires ValidBase(base) && d < base
  {
    if d < 10 then ('0' as int + d) as char else ('a' as int + d - 10) as char
  }

  /** The value of a digit character, if it is one in the given base. */
  function DigitValue(c: char, base: nat): (d: int)
    requires ValidBase(base)
  {
    if '0' <= c <= '9' then c as int - '0' as int
    else if base == 16 && 'a' <= c <= 'f' then c as int - 'a' as int + 10
    else -1
  }

  predicate IsDigitIn(c: char, base: nat)
    requires ValidBase(base)
  {
    0 <= DigitValue(c, base) < base
  }

  /** The shortest digit string of `n` (no leading zeros). */
  function NatToDigits(n: nat, base: nat): (s: string)
    requires ValidBase(base)
    ensures |s| > 0
    ensures forall i :: 0 <= i < |s| ==> IsDigitIn(s[i], base)
    ensures s[0] == '0' <==> n == 0
  {
    if n < base then [DigitChar(n, base)]
    else NatToDigits(n / base, base) + [DigitChar(n % base, base)]
  }

  /** The value a digit string denotes. */
  function DigitsValue(s: string, base: nat): int
    requires ValidBase(base)
  {
    if |s| == 0 then 0
    else DigitsValue(s[..|s| - 1], base) * base + DigitValue(s[|s| - 1], base)
  }

  lemma {:induction false} DigitsRoundTrip(n: nat, base: nat)
    requires ValidBase(base)
    ensures DigitsValue(NatToDigits(n, base), base) == n
    decreases n
  {
    if n >= base {
      var q, d := n / base, n % base;
      var s := NatToDigits(q, base);
      var t := s + [DigitChar(d, base)];
      assert NatToDigits(n, base) == t;
      assert t[..|t| - 1] == s;
      DigitsRoundTrip(q, base);
      DigitCharValue(d, base);
      assert DigitsValue(t, base) == q * base + d;
    } else {
      DigitCharValue(n, base);
    }
  }

  /** `DigitChar` and `DigitValue` are inverse on the digits of a base. */
  lemma DigitCharValue(d: nat, base: nat)
    requires ValidBase(base) && d < base
    ensures DigitValue(DigitChar(d, base), base) == d
  {
  }

  /** Rust's `{}` rendering of an integer. */
  function IntToString(n: int): (s: string)
    ensures |s| > 0
    ensures s[0] == '-' <==> n < 0
  {
    if n < 0 then "-" + NatToDigits(-n, 10) else NatToDigits(n, 10)
  }

  /** Reads back a decimal integer with an optional leading minus. */
  function StringToInt(s: string): int {
    if |s| > 0 && s[0] == '-' then -DigitsValue(s[1..], 10) else DigitsValue(s, 10)
  }

  lemma IntToStringRoundTrip(n: int)
    ensures StringToInt(IntToString(n)) == n
  {
    if n < 0 {
      var s := IntToString(n);
      assert s[1..] == NatToDigits(-n, 10);
      DigitsRoundTrip(-n, 10);
    } else {
      DigitsRoundTrip(n, 10);
    }
  }

  /** The rendering contains only a sign and decimal digits. */
  lemma IntToStringChars(n: int)
    ensures forall i :: 0 <= i < |IntToString(n)| ==>
              IntToString(n)[i] == '-' || '0' <= IntToString(n)[i] <= '9'
  {
  }
}
