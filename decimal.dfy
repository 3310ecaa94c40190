/**
 * Decimal rendering of unsigned integers, as `BigNumber.from(n).toString()`
 * produces it for the protocol identifier of a MetaPtr: base ten, no sign,
 * no leading zero.
 */
module Decimal {

  predicate IsDigit(c: char) {
    '0' <= c <= '9'
  }

  predicate AllDigits(s: string) {
    forall i :: 0 <= i < |s| ==> IsDigit(s[i])
  }

  function DigitChar(d: nat): (c: char)
    requires d < 10
    ensures IsDigit(c)
    ensures c == '0' <==> d == 0
  {
    ('0' as int + d) as char
  }

  function DigitValue(c: char): (d: nat)
    requires IsDigit(c)
    ensures d < 10 && DigitChar(d) == c
  {
    c as int - '0' as int
  }

  /** The decimal string of `n`: its last digit after the digits of `n / 10`, when there are any. */
  function ToDecimal(n: nat): string {
    if n < 10 then [DigitChar(n)] else ToDecimal(n / 10) + [DigitChar(n % 10)]
  }

  /** The value a string of decimal digits denotes. */
  function FromDecimal(s: string): nat
    requires AllDigits(s)
  {
    if s == [] then 0 else 10 * FromDecimal(s[..|s| - 1]) + DigitValue(s[|s| - 1])
  }

  /** The decimal string of `n` is digits only, at least one, and starts with '0' only for zero itself. */
  lemma {:induction false} ToDecimalDigits(n: nat)
    ensures var s := ToDecimal(n);
      |s| >= 1 && AllDigits(s) && (s[0] == '0' ==> s == "0" && n == 0)
  {
    if n >= 10 {
      ToDecimalDigits(n / 10);
    }
  }

  /** Reading the decimal string back gives the number it was rendered from. */
  lemma {:induction false} FromToDecimal(n: nat)
    ensures AllDigits(ToDecimal(n)) && FromDecimal(ToDecimal(n)) == n
  {
    ToDecimalDigits(n);
    if n >= 10 {
      var prefix := ToDecimal(n / 10);
      var s := prefix + [DigitChar(n % 10)];
      assert s[..|s| - 1] == prefix;
      FromToDecimal(n / 10);
    }
  }

  /** Distinct protocol numbers get distinct strings. */
  lemma ToDecimalInjective(a: nat, b: nat)
    ensures ToDecimal(a) == ToDecimal(b) ==> a == b
  {
    FromToDecimal(a);
    FromToDecimal(b);
  }
}
