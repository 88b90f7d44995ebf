/**
 * Decimal digit strings: the zero-padded fields `strftime` and `f"{n:06d}"` produce,
 * and the unpadded `str(n)` of a natural number, with the parser that reads them back.
 */
module Decimal {

  function Pow10(k: nat): (p: nat)
    ensures p >= 1
  {
    if k == 0 then 1 else 10 * Pow10(k - 1)
  }

  predicate IsDigit(c: char) { '0' <= c <= '9' }

  predicate AllDigits(s: string) { forall i :: 0 <= i < |s| ==> IsDigit(s[i]) }

  function DigitChar(d: nat): (c: char)
    requires d < 10
    ensures IsDigit(c)
  {
    (48 + d) as char
  }

  function DigitValue(c: char): (d: nat)
    requires IsDigit(c)
    ensures d < 10
  {
    (c as int - 48) as nat
  }

  /** `n` written with exactly `width` digits, zero padded on the left. */
  function Padded(n: nat, width: nat): (s: string)
    requires n < Pow10(width)
    ensures |s| == width && AllDigits(s)
  {
    if width == 0 then "" else Padded(n / 10, width - 1) + [DigitChar(n % 10)]
  }

  /** The number a string of digits denotes (leading zeros allowed). */
  function ValueOf(s: string): nat
    requires AllDigits(s)
  {
    if s == [] then 0 else 10 * ValueOf(s[..|s| - 1]) + DigitValue(s[|s| - 1])
  }

  /** `str(n)` for a natural number: no leading zeros, and "0" for zero. */
  function Show(n: nat): (s: string)
    ensures 1 <= |s| && AllDigits(s)
  {
    if n < 10 then [DigitChar(n)] else Show(n / 10) + [DigitChar(n % 10)]
  }

  lemma {:induction false} ValueOfPadded(n: nat, width: nat)
    requires n < Pow10(width)
    ensures ValueOf(Padded(n, width)) == n
  {
    if width > 0 {
      var s := Padded(n, width);
      assert s[..|s| - 1] == Padded(n / 10, width - 1);
      ValueOfPadded(n / 10, width - 1);
    }
  }

  lemma {:induction false} ValueOfShow(n: nat)
    ensures ValueOf(Show(n)) == n
  {
    var s := Show(n);
    if n >= 10 {
      assert s[..|s| - 1] == Show(n / 10);
      ValueOfShow(n / 10);
    } else {
      assert s[..0] == [];
    }
  }

  /** `str(n)` has no leading zero unless it is "0". */
  lemma {:induction false} ShowNoLeadingZero(n: nat)
    ensures Show(n)[0] == '0' <==> n == 0
  {
    if n >= 10 {
      ShowNoLeadingZero(n / 10);
      assert Show(n)[0] == Show(n / 10)[0];
    }
  }

  /** The number of digits of `str(n)` is at most `k` exactly when `n < 10^k`. */
  lemma {:induction false} ShowLength(n: nat, k: nat)
    ensures |Show(n)| <= k <==> (k >= 1 && n < Pow10(k))
  {
    if n >= 10 && k >= 1 {
      ShowLength(n / 10, k - 1);
    }
  }

  lemma DivModStep(n: nat, p: nat)
    requires p >= 1
    ensures (n % (10 * p)) / 10 == (n / 10) % p
    ensures (n % (10 * p)) % 10 == n % 10
  {
    var a, b := n / 10, n % 10;
    var q, r := a / p, a % p;
    assert n == 10 * p * q + (10 * r + b);
    assert 0 <= 10 * r + b < 10 * p;
    ModUnique(n, 10 * p, q, 10 * r + b);
    ModUnique(10 * r + b, 10, r, b);
  }

  lemma ModUnique(n: int, d: int, q: int, r: int)
    requires d > 0 && n == d * q + r && 0 <= r < d
    ensures n % d == r && n / d == q
  {
    var k := n / d - q;
    assert d * k == r - n % d;
    assert k >= 1 ==> d * k >= d;
    assert k <= -1 ==> d * k <= -d;
  }

  /** Taking the last `k` digits of a padded field keeps `n mod 10^k`,
      which is how `f"{n:06d}"[-4:]` is read. */
  lemma {:induction false} PaddedSuffix(n: nat, width: nat, k: nat)
    requires n < Pow10(width) && k <= width
    ensures n % Pow10(k) < Pow10(k)
    ensures Padded(n, width)[width - k..] == Padded(n % Pow10(k), k)
  {
    if k > 0 {
      var s := Padded(n, width);
      PaddedSuffix(n / 10, width - 1, k - 1);
      DivModStep(n, Pow10(k - 1));
      assert s[width - k..] == Padded(n / 10, width - 1)[width - k..] + [DigitChar(n % 10)];
    }
  }
}
