/** Exercise 4: `convertToBcdArray` with an error return, zero-fill and an
    early stop, and `printBcdArray`, which prints each digit as 4 bits. */
module Ejercicio4Proy1 {
  import opened CInts
  import opened Bcd

  /** Converts `data` into `digits` BCD digits, most significant first.
      Returns -1 and writes nothing when `digits` is 0; otherwise returns 0
      with `bcd[..digits]` holding the digits of `data mod 10^digits`. */
  method ConvertToBcdArray(data: U32, digits: U8, bcd: array<U8>) returns (status: int)
    requires digits <= bcd.Length
    modifies bcd
    ensures digits < 1 ==> status == -1 && bcd[..] == old(bcd[..])
    ensures digits >= 1 ==> status == 0 && bcd[..digits] == Digits(data, digits)
    ensures bcd[digits..] == old(bcd[digits..])
  {
    if digits < 1 {
      return -1;
    }
    var i := 0;
    while i < digits
      invariant 0 <= i <= digits
      invariant bcd[..i] == Zeros(i)
      invariant bcd[i..] == old(bcd[i..])
    {
      bcd[i] := 0;
      i := i + 1;
    }
    var d: nat := data;
    i := 0;
    while i < digits
      invariant 0 <= i <= digits
      invariant d == data / Pow10(i)
      invariant bcd[..digits] == Zeros(digits - i) + Digits(data, i)
      invariant bcd[digits..] == old(bcd[digits..])
    {
      if d == 0 {
        break;
      }
      DigitsPrepend(data, i);
      DivDiv(data, Pow10(i), 10);
      bcd[digits - 1 - i] := d % 10;
      assert bcd[..digits] == Zeros(digits - (i + 1)) + Digits(data, i + 1);
      d := d / 10;
      i := i + 1;
    }
    if i < digits {
      DigitsHighZero(data, digits, i);
    }
    return 0;
  }

  /** The character `printf("%d", (v >> j) & 1)` prints. */
  function BitChar(v: nat, j: nat): char
  {
    if Bit(v, j) then '1' else '0'
  }

  /** The four characters printed for one digit, bit 3 first. */
  function NibbleText(v: nat): string
  {
    [BitChar(v, 3), BitChar(v, 2), BitChar(v, 1), BitChar(v, 0)]
  }

  /** The value of four characters '0'/'1' read as a binary number, bit 3 first. */
  function NibbleValue(t: string): nat
    requires |t| == 4
  {
    8 * (if t[0] == '1' then 1 else 0) + 4 * (if t[1] == '1' then 1 else 0) +
    2 * (if t[2] == '1' then 1 else 0) + (if t[3] == '1' then 1 else 0)
  }

  /** The text printed for the digits `s`: each one as four bits and a space. */
  function DigitsText(s: seq<U8>): string
  {
    if s == [] then "" else DigitsText(s[..|s| - 1]) + NibbleText(s[|s| - 1]) + " "
  }

  const Header: string := "BCD array: "

  function BcdText(s: seq<U8>): string
  {
    Header + DigitsText(s) + "\n"
  }

  /** The text `printBcdArray` prints for the first `digits` entries of `bcd`. */
  method PrintBcdArray(bcd: array<U8>, digits: U8) returns (out: string)
    requires digits <= bcd.Length
    ensures out == BcdText(bcd[..digits])
  {
    out := Header;
    var i := 0;
    while i < digits
      invariant 0 <= i <= digits
      invariant out == Header + DigitsText(bcd[..i])
    {
      var j := 3;
      while j >= 0
        invariant -1 <= j <= 3
        invariant out == Header + DigitsText(bcd[..i]) + NibbleText(bcd[i])[..3 - j]
      {
        out := out + [BitChar(bcd[i], j)];
        j := j - 1;
      }
      out := out + " ";
      assert bcd[..i + 1][..i] == bcd[..i];
      i := i + 1;
    }
    out := out + "\n";
  }

  // ---------------------------------------------------------------------------
  // Properties

  lemma DivTwo(v: nat, j: nat)
    ensures v / Pow2(j + 1) == v / Pow2(j) / 2
  {
    DivDiv(v, Pow2(j), 2);
  }

  /** A value below 16 is read back from its four printed bits. */
  lemma NibbleRoundTrip(v: nat)
    requires v < 16
    ensures NibbleValue(NibbleText(v)) == v
  {
    DivTwo(v, 0);
    DivTwo(v, 1);
    DivTwo(v, 2);
    assert Pow2(0) == 1;
    var b0, b1, b2, b3 := v % 2, v / 2 % 2, v / 4 % 2, v / 8 % 2;
    assert v == 8 * (v / 8) + 4 * b2 + 2 * b1 + b0;
    assert v / 8 == b3;
  }

  lemma {:induction false} DigitsTextAt(s: seq<U8>, i: nat)
    requires i < |s|
    ensures |DigitsText(s)| == 5 * |s|
    ensures DigitsText(s)[5 * i..5 * i + 4] == NibbleText(s[i])
    ensures DigitsText(s)[5 * i + 4] == ' '
  {
    var n := |s|;
    var init := s[..n - 1];
    DigitsTextLength(init);
    if i < n - 1 {
      DigitsTextAt(init, i);
      assert init[i] == s[i];
    }
  }

  lemma {:induction false} DigitsTextLength(s: seq<U8>)
    ensures |DigitsText(s)| == 5 * |s|
  {
    if s != [] {
      DigitsTextLength(s[..|s| - 1]);
    }
  }

  /** Reading the printed text back: digit `i` of `s` is the binary value of
      the four characters at offset 11 + 5i, for every digit in 0..9. */
  lemma PrintedDigitReadsBack(s: seq<U8>, i: nat)
    requires i < |s| && IsDigitSeq(s)
    ensures |BcdText(s)| == |Header| + 5 * |s| + 1
    ensures NibbleValue(BcdText(s)[|Header| + 5 * i..|Header| + 5 * i + 4]) == s[i]
  {
    DigitsTextAt(s, i);
    var t := BcdText(s);
    assert t[|Header| + 5 * i..|Header| + 5 * i + 4] == DigitsText(s)[5 * i..5 * i + 4];
    NibbleRoundTrip(s[i]);
  }

  /** The example in `app_main`: 20 in 2 digits is [2, 0]. */
  lemma ExampleTwenty()
    ensures Digits(20, 2) == [2, 0]
  {
  }
}
