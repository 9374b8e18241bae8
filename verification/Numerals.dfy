/** Decimal numerals: how numbers are written into texts and read back. */
module Numerals {
  predicate IsDigit(c: char) {
    '0' <= c <= '9'
  }

  function Digits(n: nat): (text: string)
    ensures text != [] && forall i :: 0 <= i < |text| ==> IsDigit(text[i])
  {
    if n < 10 then [('0' as int + n) as char] else Digits(n / 10) + [('0' as int + n % 10) as char]
  }

  function NumberOf(text: string): (n: int)
    ensures (forall i :: 0 <= i < |text| ==> IsDigit(text[i])) ==> n >= 0
  {
    if text == [] then 0 else 10 * NumberOf(text[..|text| - 1]) + (text[|text| - 1] as int - '0' as int)
  }

  lemma {:induction false} DigitsRead(n: nat)
    ensures NumberOf(Digits(n)) == n
  {
    var text := Digits(n);
    if n < 10 {
      assert text[..|text| - 1] == [];
    } else {
      DigitsRead(n / 10);
      assert text[..|text| - 1] == Digits(n / 10);
    }
  }
}
