/** Decimal texts of natural numbers. */
module Decimals {

  predicate Digit(c: char) {
    '0' <= c <= '9'
  }

  function DigitOf(d: nat): char
    requires d < 10
  {
    (d + '0' as int) as char
  }

  function Decimal(n: nat): (text: string)
    ensures text != "" && forall i :: 0 <= i < |text| ==> Digit(text[i])
  {
    (if n < 10 then "" else Decimal(n / 10)) + [DigitOf(n % 10)]
  }

  function Value(digits: string): nat
    requires forall i :: 0 <= i < |digits| ==> Digit(digits[i])
  {
    if digits == "" then 0
    else
      assert Digit(digits[|digits| - 1]);
      10 * Value(digits[..|digits| - 1]) + (digits[|digits| - 1] as int - '0' as int)
  }

  lemma {:induction false} DecimalReads(n: nat)
    ensures Value(Decimal(n)) == n
  {
    if n >= 10 {
      DecimalReads(n / 10);
    }
    var text := Decimal(n);
    assert text[..|text| - 1] == if n < 10 then "" else Decimal(n / 10);
  }

  lemma {:induction false} LeadingDigitCounts(digits: string)
    requires digits != "" && digits[0] != '0'
    requires forall i :: 0 <= i < |digits| ==> Digit(digits[i])
    ensures Value(digits) >= 1
  {
    if |digits| > 1 {
      LeadingDigitCounts(digits[..|digits| - 1]);
    }
  }

  /** Without leading zeros a text is the decimal of its value. */
  lemma {:induction false} ValueDetermines(digits: string)
    requires digits != "" && (|digits| > 1 ==> digits[0] != '0')
    requires forall i :: 0 <= i < |digits| ==> Digit(digits[i])
    ensures digits == Decimal(Value(digits))
  {
    var front, last := digits[..|digits| - 1], digits[|digits| - 1];
    assert Digit(last);
    var d := last as int - '0' as int;
    assert Value(digits) == 10 * Value(front) + d;
    if front == "" {
      OneDigit(d);
    } else {
      hide Value;
      ValueDetermines(front);
      LeadingDigitCounts(front);
      DecimalSteps(Value(front), d);
      hide Decimal;
    }
    assert digits == front + [last];
  }

  lemma OneDigit(d: nat)
    requires d < 10
    ensures Decimal(d) == [DigitOf(d)] && Value("") == 0
  {
  }

  lemma DecimalSteps(n: nat, d: nat)
    requires 0 < n && d < 10
    ensures Decimal(10 * n + d) == Decimal(n) + [DigitOf(d)]
  {
    assert (10 * n + d) / 10 == n && (10 * n + d) % 10 == d;
  }
}
