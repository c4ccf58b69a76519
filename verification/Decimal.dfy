/** Unsigned decimal numerals: the printer behind `{}` and the parser behind `str::parse::<u32>`. */
module Decimal {
  import opened Wrappers
  import opened Text

  predicate IsDigit(c: char) { '0' <= c <= '9' }

  predicate AllDigits(t: string) {
    forall i :: 0 <= i < |t| ==> IsDigit(t[i])
  }

  function Digit(d: nat): (c: char)
    requires d < 10
    ensures IsDigit(c) && c as int - '0' as int == d
  {
    (('0' as int) + d) as char
  }

  /** The numeral of `n`, most significant digit first, without leading zeros. */
  function Numeral(n: nat): (t: string)
    ensures |t| > 0 && AllDigits(t)
  {
    if n < 10 then [Digit(n)] else Numeral(n / 10) + [Digit(n % 10)]
  }

  function ValueOf(t: string): nat
    requires AllDigits(t)
  {
    if t == [] then 0 else assert IsDigit(t[|t| - 1]); 10 * ValueOf(t[..|t| - 1]) + (t[|t| - 1] as int - '0' as int)
  }

  /** Printing then reading gives the number back. */
  lemma {:induction false} ValueOfNumeral(n: nat)
    ensures ValueOf(Numeral(n)) == n
  {
    var t := Numeral(n);
    if n < 10 {
      assert t[..0] == [];
    } else {
      ValueOfNumeral(n / 10);
      assert t[..|t| - 1] == Numeral(n / 10);
    }
  }

  lemma NumeralInjective(m: nat, n: nat)
    requires Numeral(m) == Numeral(n)
    ensures m == n
  {
    ValueOfNumeral(m);
    ValueOfNumeral(n);
  }

  function Pow10(k: nat): (p: nat)
    ensures p > 0
  {
    if k == 0 then 1 else 10 * Pow10(k - 1)
  }

  /** A number below 10^k has a numeral of at most k digits. */
  lemma {:induction false} NumeralLength(n: nat, k: nat)
    requires k > 0 && n < Pow10(k)
    ensures |Numeral(n)| <= k
  {
    if n >= 10 {
      assert Pow10(1) == 10;
      NumeralLength(n / 10, k - 1);
    }
  }

  /** The digit of weight 10^k. */
  function DigitAt(n: nat, k: nat): nat { if k == 0 then n % 10 else DigitAt(n / 10, k - 1) }

  /** The last character is the units digit, and each one in front of it weighs ten times as much. */
  lemma {:induction false} DigitsArePositional(n: nat, k: nat)
    requires k < |Numeral(n)|
    ensures Numeral(n)[|Numeral(n)| - 1 - k] as int - '0' as int == DigitAt(n, k)
    decreases k
  {
    if k > 0 {
      DigitsArePositional(n / 10, k - 1);
    }
  }

  const U32_LIMIT: nat := 0x1_0000_0000

  /** `str::parse::<u32>()`: an optional plus sign, at least one digit, no overflow. */
  function ParseU32(t: string): Option<nat> {
    var digits := if |t| > 0 && t[0] == '+' then t[1..] else t;
    if digits == [] || !AllDigits(digits) then None
    else var v := ValueOf(digits);
      if v < U32_LIMIT then Some(v) else None
  }

  lemma ParseU32Numeral(n: nat)
    ensures ParseU32(Numeral(n)) == if n < U32_LIMIT then Some(n) else None
  {
    var t := Numeral(n);
    assert IsDigit(t[0]);
    ValueOfNumeral(n);
  }

  lemma NumeralIsPlain(n: nat)
    ensures Ascii(Numeral(n))
    ensures forall c: char :: !IsDigit(c) ==> Free(Numeral(n), c)
  {
    var t := Numeral(n);
    forall i | 0 <= i < |t| ensures t[i] as int <= 0x7F { assert IsDigit(t[i]); }
  }
}
