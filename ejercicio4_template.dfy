/** Exercise 4, template variant: `decimalToBcd`, the zero-fill and early-stop
    conversion without an error return. */
module Ejercicio4Template {
  import opened CInts
  import opened Bcd

  /** Writes the `digits` low-order decimal digits of `number` into
      `bcdArray[..digits]`, most significant first; with `digits == 0` the
      array is left as it was. */
  method DecimalToBcd(number: U32, bcdArray: array<U8>, digits: U8)
    requires digits <= bcdArray.Length
    modifies bcdArray
    ensures bcdArray[..digits] == Digits(number, digits)
    ensures bcdArray[digits..] == old(bcdArray[digits..])
  {
    var i := 0;
    while i < digits
      invariant 0 <= i <= digits
      invariant bcdArray[..i] == Zeros(i)
      invariant bcdArray[i..] == old(bcdArray[i..])
    {
      bcdArray[i] := 0;
      i := i + 1;
    }
    var n: nat := number;
    i := 0;
    while i < digits
      invariant 0 <= i <= digits
      invariant n == number / Pow10(i)
      invariant bcdArray[..digits] == Zeros(digits - i) + Digits(number, i)
      invariant bcdArray[digits..] == old(bcdArray[digits..])
    {
      if n == 0 {
        break;
      }
      DigitsPrepend(number, i);
      DivDiv(number, Pow10(i), 10);
      bcdArray[digits - 1 - i] := n % 10;
      assert bcdArray[..digits] == Zeros(digits - (i + 1)) + Digits(number, i + 1);
      n := n / 10;
      i := i + 1;
    }
    if i < digits {
      DigitsHighZero(number, digits, i);
    }
  }

  /** The example in `main`: 21 in 2 digits is [2, 1]. */
  lemma ExampleTwentyOne()
    ensures Digits(21, 2) == [2, 1]
  {
  }
}
