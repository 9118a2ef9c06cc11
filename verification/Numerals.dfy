/** Base-ten numerals: printing and reading whole numbers. */
module Numerals {

  predicate IsDigit(c: char) {
    '0' <= c <= '9'
  }

  predicate AllDigits(text: string) {
    forall i :: 0 <= i < |text| ==> IsDigit(text[i])
  }

  function DigitsValue(text: string): nat
    requires AllDigits(text)
  {
    if text == [] then 0
    else DigitsValue(text[..|text| - 1]) * 10 + (text[|text| - 1] as int - '0' as int)
  }

  function DigitOf(value: nat): (digit: char)
    requires value < 10
    ensures IsDigit(digit)
  {
    '0' + value as char
  }

  /** Plain decimal text without leading zeros. */
  function DecimalText(value: nat): (text: string)
    ensures text != [] && AllDigits(text)
  {
    if value < 10 then [DigitOf(value)] else DecimalText(value / 10) + [DigitOf(value % 10)]
  }

  /** Reading a printed number gives the number back. */
  lemma {:induction false} DecimalTextReadsBack(value: nat)
    ensures DigitsValue(DecimalText(value)) == value
  {
    var text := DecimalText(value);
    if value < 10 {
      assert text[..|text| - 1] == [];
    } else {
      DecimalTextReadsBack(value / 10);
      assert text[..|text| - 1] == DecimalText(value / 10);
    }
  }
}
