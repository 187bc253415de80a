/** Whole numbers as decimal text. */
module Decimals {

  const DIGITS := "0123456789"

  function Digits(n: nat): string
  {
    if n < 10 then [DIGITS[n]] else Digits(n / 10) + [DIGITS[n % 10]]
  }

  function Decimal(n: int): string
  {
    if n < 0 then "-" + Digits(-n) else Digits(n)
  }

  lemma {:induction false} DigitsAreDigits(n: nat)
    ensures |Digits(n)| > 0 && forall ch | ch in Digits(n) :: ch in DIGITS
  {
    if n >= 10 {
      DigitsAreDigits(n / 10);
    }
    assert DIGITS[n % 10] in DIGITS;
  }

  /** What a text of digits stands for. */
  function ValueOf(text: string): int
  {
    if text == "" then 0 else 10 * ValueOf(text[..|text| - 1]) + (text[|text| - 1] as int - '0' as int)
  }

  lemma DigitStandsForItself(n: nat)
    requires n < 10
    ensures DIGITS[n] as int - '0' as int == n
  {
  }

  /** A number is printed by its digits, without leading zeros. */
  lemma {:induction false} DigitsReadBack(n: nat)
    ensures ValueOf(Digits(n)) == n && (n > 0 ==> Digits(n)[0] != '0')
  {
    DigitStandsForItself(n % 10);
    if n < 10 {
      assert Digits(n)[..0] == "";
    } else {
      DigitsReadBack(n / 10);
      DigitsAreDigits(n / 10);
      assert Digits(n)[..|Digits(n)| - 1] == Digits(n / 10);
    }
  }

  lemma DigitsDiffer(i: nat, j: nat)
    requires i < 10 && j < 10 && DIGITS[i] == DIGITS[j]
    ensures i == j
  {
  }

  lemma {:induction false} DigitsTellNumbers(m: nat, n: nat)
    requires Digits(m) == Digits(n)
    ensures m == n
  {
    DigitsAreDigits(m / 10);
    DigitsAreDigits(n / 10);
    var last := |Digits(m)| - 1;
    assert Digits(m)[last] == DIGITS[m % 10] && Digits(n)[last] == DIGITS[n % 10];
    DigitsDiffer(m % 10, n % 10);
    if m >= 10 && n >= 10 {
      assert Digits(m / 10) == Digits(m)[..last] == Digits(n)[..last] == Digits(n / 10);
      DigitsTellNumbers(m / 10, n / 10);
    }
  }

  lemma DecimalTellsNumbers(m: int, n: int)
    requires Decimal(m) == Decimal(n)
    ensures m == n
  {
    DecimalChars(m);
    DecimalChars(n);
    if m < 0 {
      BehindTheSign(Digits(-m), Digits(-n));
      DigitsTellNumbers(-m, -n);
    } else {
      DigitsTellNumbers(m, n);
    }
  }

  lemma BehindTheSign(x: string, y: string)
    requires "-" + x == "-" + y
    ensures x == y
  {
    assert ("-" + x)[1..] == x && ("-" + y)[1..] == y;
  }

  /** At least one digit, and in front of the digits at most a minus sign. */
  lemma DecimalChars(n: int)
    ensures |Decimal(n)| > 0 && (Decimal(n)[0] == '-' <==> n < 0)
    ensures forall ch | ch in Decimal(n) :: ch in DIGITS || ch == '-'
    ensures exists ch :: ch in Decimal(n) && ch in DIGITS
  {
    DigitsAreDigits(if n < 0 then -n else n);
    var digits := Digits(if n < 0 then -n else n);
    assert digits[0] in digits;
    assert digits[0] in Decimal(n) by {
      assert n < 0 ==> Decimal(n)[1] == digits[0];
    }
  }
}
