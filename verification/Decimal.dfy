/** Decimal text: `%d`, `%0*d` and `strconv.ParseUint(s, 10, 32)`. */
module Decimal {
  import opened Models

  const TWO_TO_32: int := 0x1_0000_0000

  function DigitChar(d: nat): char
    requires d < 10
  {
    ('0' as int + d) as char
  }

  predicate IsDigit(c: char) { '0' <= c <= '9' }

  predicate AllDigits(s: string) { forall i :: 0 <= i < |s| ==> IsDigit(s[i]) }

  /** `%d`: no leading zeros. */
  function Print(n: nat): (s: string)
    ensures s != [] && AllDigits(s)
  {
    if n < 10 then [DigitChar(n)] else Print(n / 10) + [DigitChar(n % 10)]
  }

  function Value(s: string): nat
    requires AllDigits(s)
  {
    if s == [] then 0 else 10 * Value(s[..|s| - 1]) + (s[|s| - 1] as int - '0' as int)
  }

  function ParseUint32(s: string): Option<nat> {
    if s == [] || !AllDigits(s) then None
    else if Value(s) >= TWO_TO_32 then None
    else Some(Value(s))
  }

  lemma {:induction false} ValueOfPrint(n: nat)
    ensures Value(Print(n)) == n
  {
    if n >= 10 {
      ValueOfPrint(n / 10);
      assert Print(n)[..|Print(n)| - 1] == Print(n / 10);
    }
  }

  lemma ParsePrint(n: nat)
    requires n < TWO_TO_32
    ensures ParseUint32(Print(n)) == Some(n)
  {
    ValueOfPrint(n);
  }

  function Pow10(d: nat): (p: nat)
    ensures p >= 1
  {
    if d == 0 then 1 else 10 * Pow10(d - 1)
  }

  /** `%0*d`: padded on the left with zeros to the width. */
  function PrintPadded(width: nat, n: nat): (s: string) {
    var text := Print(n);
    if |text| >= width then text else seq(width - |text|, _ => '0') + text
  }

  /** The d low decimal digits of n, leading zeros included. */
  function LowDigits(n: nat, d: nat): (s: string)
    ensures |s| == d && AllDigits(s)
  {
    if d == 0 then [] else LowDigits(n / 10, d - 1) + [DigitChar(n % 10)]
  }

  lemma {:induction false} LowDigitsOfZero(d: nat)
    ensures LowDigits(0, d) == seq(d, _ => '0')
  {
    if d > 0 {
      LowDigitsOfZero(d - 1);
    }
  }

  /** Padding prints exactly the low digits of a number that fits. */
  lemma {:induction false} PaddedIsLowDigits(d: nat, n: nat)
    requires d >= 1 && n < Pow10(d)
    ensures PrintPadded(d, n) == LowDigits(n, d)
  {
    if n < 10 {
      LowDigitsOfZero(d - 1);
    } else {
      assert d >= 2;
      PaddedIsLowDigits(d - 1, n / 10);
      assert Print(n) == Print(n / 10) + [DigitChar(n % 10)];
    }
  }

  lemma {:induction false} ValueOfLowDigits(n: nat, d: nat)
    requires n < Pow10(d)
    ensures Value(LowDigits(n, d)) == n
  {
    if d > 0 {
      ValueOfLowDigits(n / 10, d - 1);
      assert LowDigits(n, d)[..d - 1] == LowDigits(n / 10, d - 1);
    }
  }
}
