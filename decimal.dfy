/**
  Decimal numerals as Python writes and reads them: `f"{n}"`, `f"{n:02d}"`
  and `int(part)` on one part of a date string.
 */
module Decimal {
  import opened Wrappers

  predicate IsDigit(c: char) {
    '0' <= c <= '9'
  }

  predicate AllDigits(s: string) {
    forall i :: 0 <= i < |s| ==> IsDigit(s[i])
  }

  function DigitValue(c: char): (v: nat)
    requires IsDigit(c)
    ensures v < 10
  {
    (c as int) - ('0' as int)
  }

  function DigitChar(v: nat): (c: char)
    requires v < 10
    ensures IsDigit(c) && DigitValue(c) == v
  {
    (('0' as int) + v) as char
  }

  /** The value of a string of decimal digits, most significant first; leading zeros are allowed. */
  function DigitsValue(s: string): nat
    requires AllDigits(s)
  {
    if s == [] then 0 else DigitsValue(s[..|s| - 1]) * 10 + DigitValue(s[|s| - 1])
  }

  /** The value of a short numeral, digit by digit. */
  lemma DigitsValueShort(s: string)
    requires AllDigits(s) && 1 <= |s| <= 4
    ensures |s| == 1 ==> DigitsValue(s) == DigitValue(s[0])
    ensures |s| == 2 ==> DigitsValue(s) == 10 * DigitValue(s[0]) + DigitValue(s[1])
    ensures |s| == 4 ==> DigitsValue(s) == 1000 * DigitValue(s[0]) + 100 * DigitValue(s[1]) + 10 * DigitValue(s[2]) + DigitValue(s[3])
  {
    assert s[..0] == [];
    if |s| >= 2 {
      assert s[..2][..1] == s[..1];
      assert s[..1][..0] == [];
    }
    if |s| == 4 {
      assert s[..3][..2] == s[..2];
    }
  }

  function Pow10(k: nat): (p: nat)
    ensures p >= 1
  {
    if k == 0 then 1 else 10 * Pow10(k - 1)
  }

  /** `f"{n}"`: the shortest decimal numeral of `n`, with no leading zero. */
  function Show(n: nat): (s: string)
    ensures 1 <= |s| && AllDigits(s) && DigitsValue(s) == n
    ensures s[0] == '0' <==> n == 0
    ensures n < Pow10(|s|)
    ensures |s| > 1 ==> Pow10(|s| - 1) <= n
  {
    if n < 10 then [DigitChar(n)]
    else
      var init := Show(n / 10);
      var s := init + [DigitChar(n % 10)];
      assert s[..|s| - 1] == init;
      s
  }

  lemma {:induction false} Pow10Monotone(j: nat, k: nat)
    requires j <= k
    ensures Pow10(j) <= Pow10(k)
  {
    if j < k {
      Pow10Monotone(j, k - 1);
    }
  }

  /** The numeral of `n` has at most `k` digits exactly when `n < 10^k`. */
  lemma ShowWidth(n: nat, k: nat)
    requires k >= 1
    ensures |Show(n)| <= k <==> n < Pow10(k)
  {
    var s := Show(n);
    if |s| <= k {
      Pow10Monotone(|s|, k);
    } else {
      Pow10Monotone(k, |s| - 1);
    }
  }

  /** `k` ASCII zeros. */
  function Zeros(k: nat): (s: string)
    ensures |s| == k && AllDigits(s)
  {
    seq(k, _ => '0')
  }

  lemma {:induction false} ZerosValue(k: nat)
    ensures DigitsValue(Zeros(k)) == 0
  {
    if k > 0 {
      assert Zeros(k)[..k - 1] == Zeros(k - 1);
      ZerosValue(k - 1);
    }
  }

  /** Leading zeros do not change the value of a numeral (as `int("0005") == 5`). */
  lemma {:induction false} LeadingZeros(k: nat, s: string)
    requires AllDigits(s)
    ensures AllDigits(Zeros(k) + s) && DigitsValue(Zeros(k) + s) == DigitsValue(s)
  {
    var t := Zeros(k) + s;
    if s == [] {
      assert t == Zeros(k);
      ZerosValue(k);
    } else {
      var init := s[..|s| - 1];
      assert t[..|t| - 1] == Zeros(k) + init;
      LeadingZeros(k, init);
    }
  }

  /**
    `f"{n:0Wd}"` for `W == width`: the numeral of `n`, padded on the left with
    zeros up to `width` characters, never truncated.
   */
  function ShowPadded(n: nat, width: nat): (s: string)
    ensures |s| == if |Show(n)| < width then width else |Show(n)|
    ensures 1 <= |s| && AllDigits(s) && DigitsValue(s) == n
  {
    var digits := Show(n);
    if |digits| < width then
      LeadingZeros(width - |digits|, digits);
      Zeros(width - |digits|) + digits
    else
      digits
  }

  /** A numeral below `10^width` is padded to exactly `width` digits. */
  lemma ShowPaddedWidth(n: nat, width: nat)
    requires width >= 1 && n < Pow10(width)
    ensures |ShowPadded(n, width)| == width
  {
    ShowWidth(n, width);
  }

  /** A non-empty string of decimal digits, read as a number. */
  function ParseDigits(s: string): (r: Option<nat>)
    ensures r.Some? <==> |s| > 0 && AllDigits(s)
    ensures r.Some? ==> r.value == DigitsValue(s)
  {
    if |s| > 0 && AllDigits(s) then Some(DigitsValue(s)) else None
  }

  /**
    Python's `int(s)` restricted to an optional sign followed by ASCII digits;
    every other string raises, here `None`.
   */
  function ParseInt(s: string): (r: Option<int>)
    ensures r.Some? <==> (|s| > 0 && AllDigits(s)) || (|s| > 1 && s[0] in "+-" && AllDigits(s[1..]))
    ensures r.Some? ==> r.value == if s[0] == '-' then 0 - DigitsValue(s[1..])
                                   else if s[0] == '+' then DigitsValue(s[1..])
                                   else DigitsValue(s)
  {
    if |s| > 0 && s[0] == '+' then
      match ParseDigits(s[1..])
      case None => None
      case Some(v) => Some(v)
    else if |s| > 0 && s[0] == '-' then
      match ParseDigits(s[1..])
      case None => None
      case Some(v) => Some(0 - (v as int))
    else
      match ParseDigits(s)
      case None => None
      case Some(v) => Some(v)
  }

  /** Reading back a zero-padded numeral gives the number that was written. */
  lemma ParseShowPadded(n: nat, width: nat)
    ensures ParseInt(ShowPadded(n, width)) == Some(n)
  {
    var s := ShowPadded(n, width);
    assert IsDigit(s[0]);
  }

  /** A string made only of digits is never negative once read. */
  lemma ParseDigitsOnly(s: string)
    requires |s| > 0 && AllDigits(s)
    ensures ParseInt(s) == Some(DigitsValue(s))
  {
    assert IsDigit(s[0]);
  }
}
