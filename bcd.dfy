/** Specification of decimal-to-BCD conversion shared by the BCD exercises:
    the digits of a number, most significant first, and their read-back value. */
module Bcd {

  function Pow10(n: nat): (p: nat)
    ensures p >= 1
  {
    if n == 0 then 1 else 10 * Pow10(n - 1)
  }

  function Pow2(n: nat): (p: nat)
    ensures p >= 1
  {
    if n == 0 then 1 else 2 * Pow2(n - 1)
  }

  /** The `n` low-order decimal digits of `x`, most significant first. */
  function Digits(x: nat, n: nat): (s: seq<int>)
    ensures |s| == n
    ensures forall i :: 0 <= i < n ==> 0 <= s[i] <= 9
  {
    if n == 0 then [] else Digits(x / 10, n - 1) + [x % 10]
  }

  /** The value of a digit sequence read most significant first. */
  function ReadBack(s: seq<int>): int
  {
    if s == [] then 0 else 10 * ReadBack(s[..|s| - 1]) + s[|s| - 1]
  }

  predicate IsDigitSeq(s: seq<int>)
  {
    forall i :: 0 <= i < |s| ==> 0 <= s[i] <= 9
  }

  function Zeros(n: nat): seq<int>
  {
    seq(n, _ => 0)
  }

  /** Bit `j` of `v`, as `(v >> j) & 1` computes it. */
  predicate Bit(v: nat, j: nat)
  {
    (v / Pow2(j)) % 2 == 1
  }

  // ---------------------------------------------------------------------------
  // Division facts

  lemma {:induction false} MulAtLeast(m: nat, k: nat)
    requires k >= 1
    ensures m * k >= m
  {
    if k > 1 {
      MulAtLeast(m, k - 1);
      assert m * k == m * (k - 1) + m;
    }
  }

  lemma DivModUnique(x: int, m: int, a: int, b: int)
    requires m > 0 && 0 <= b < m && x == m * a + b
    ensures x / m == a && x % m == b
  {
    var q, r := x / m, x % m;
    assert x == m * q + r;
    if a > q {
      assert m * (a - q) == r - b;
      MulAtLeast(m, a - q);
    } else if a < q {
      assert m * (q - a) == b - r;
      MulAtLeast(m, q - a);
    }
  }

  lemma DivDiv(x: nat, a: nat, b: nat)
    requires a > 0 && b > 0
    ensures x / a / b == x / (a * b)
  {
    var q, r := x / a, x % a;
    var s, t := q / b, q % b;
    assert x == a * q + r;
    assert q == b * s + t;
    MulDistributes(a, b * s, t);
    MulAssociates(a, b, s);
    assert x == (a * b) * s + (a * t + r);
    MulDistributes(a, b - 1, 1);
    MulMonotone(a, t, b - 1);
    assert a * t + r < a * b;
    DivModUnique(x, a * b, s, a * t + r);
  }

  lemma MulDistributes(a: int, b: int, c: int)
    ensures a * (b + c) == a * b + a * c
  {
  }

  lemma MulAssociates(a: int, b: int, c: int)
    ensures a * (b * c) == (a * b) * c
  {
  }

  lemma MulMonotone(a: nat, t: nat, u: nat)
    requires t <= u
    ensures a * t <= a * u
  {
    MulDistributes(a, t, u - t);
    assert a * (u - t) >= 0;
  }

  lemma SmallMod(x: nat, m: nat)
    requires x < m
    ensures x % m == x && x / m == 0
  {
    DivModUnique(x, m, 0, x);
  }

  // ---------------------------------------------------------------------------
  // Structure of Digits

  /** The digit at the front of `n + 1` digits is digit `n` of `x`. */
  lemma {:induction false} DigitsPrepend(x: nat, n: nat)
    ensures Digits(x, n + 1) == [(x / Pow10(n)) % 10] + Digits(x, n)
  {
    if n > 0 {
      DigitsPrepend(x / 10, n - 1);
      DivDiv(x, 10, Pow10(n - 1));
    }
  }

  /** When nothing of `x` is left above digit `k`, every higher position is 0. */
  lemma {:induction false} DigitsHighZero(x: nat, n: nat, k: nat)
    requires k <= n && x / Pow10(k) == 0
    ensures Digits(x, n) == Zeros(n - k) + Digits(x, k)
  {
    if n > k {
      DigitsHighZero(x, n - 1, k);
      DivDiv(x, Pow10(k), Pow10(n - 1 - k));
      PowAdd(k, n - 1 - k);
      DigitsPrepend(x, n - 1);
      assert x / Pow10(n - 1) == 0;
    }
  }

  lemma {:induction false} PowAdd(a: nat, b: nat)
    ensures Pow10(a) * Pow10(b) == Pow10(a + b)
  {
    if b > 0 {
      PowAdd(a, b - 1);
      assert Pow10(a) * Pow10(b) == 10 * (Pow10(a) * Pow10(b - 1));
    }
  }

  // ---------------------------------------------------------------------------
  // The properties of the conversion

  lemma ModTenfold(x: nat, p: nat)
    requires p >= 1
    ensures 10 * ((x / 10) % p) + x % 10 == x % (10 * p)
  {
    var q, r := x / 10, x % 10;
    var a, b := q / p, q % p;
    assert x == (10 * p) * a + (10 * b + r) by {
      assert q == p * a + b;
      assert 10 * q == 10 * (p * a) + 10 * b;
    }
    assert 10 * b + r < 10 * p;
    DivModUnique(x, 10 * p, a, 10 * b + r);
  }

  /** Read-back of the `n` digits is `x mod 10^n`: the high-order digits of
      a number too long for `n` positions are dropped. */
  lemma {:induction false} ReadBackDigits(x: nat, n: nat)
    ensures ReadBack(Digits(x, n)) == x % Pow10(n)
  {
    if n > 0 {
      var d := Digits(x / 10, n - 1);
      assert Digits(x, n) == d + [x % 10];
      assert (d + [x % 10])[..n - 1] == d;
      ReadBackDigits(x / 10, n - 1);
      ModTenfold(x, Pow10(n - 1));
    }
  }

  /** Round trip: a number that fits in `n` digits is read back unchanged. */
  lemma DigitsRoundTrip(x: nat, n: nat)
    requires x < Pow10(n)
    ensures ReadBack(Digits(x, n)) == x
  {
    ReadBackDigits(x, n);
    SmallMod(x, Pow10(n));
  }

  /** The other direction of the round trip: a sequence of decimal digits is
      what `Digits` produces from its own read-back value. */
  lemma {:induction false} DigitsOfReadBack(s: seq<int>)
    requires IsDigitSeq(s)
    ensures 0 <= ReadBack(s) < Pow10(|s|)
    ensures Digits(ReadBack(s), |s|) == s
  {
    if s != [] {
      var n := |s|;
      var init, c := s[..n - 1], s[n - 1];
      DigitsOfReadBack(init);
      var v := ReadBack(init);
      DivModUnique(10 * v + c, 10, v, c);
      assert init + [c] == s;
      assert 10 * v + c < 10 * Pow10(n - 1) by {
        assert v <= Pow10(n - 1) - 1;
      }
    }
  }

  /** Positions left of the significant digits are zero. */
  lemma LeadingZeros(x: nat, n: nat, k: nat)
    requires k <= n && x < Pow10(k)
    ensures forall i :: 0 <= i < n - k ==> Digits(x, n)[i] == 0
  {
    SmallMod(x, Pow10(k));
    DigitsHighZero(x, n, k);
  }

  /** The last position holds the units digit. */
  lemma LastDigitIsUnits(x: nat, n: nat)
    requires n >= 1
    ensures Digits(x, n)[n - 1] == x % 10
  {
  }
}
