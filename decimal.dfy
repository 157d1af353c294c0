/** Decimal rendering of integers as Python does it (`str(n)`, `str.zfill`)
    and a digit-string reader used to state round trips. */
module Decimal {

  predicate IsDigit(c: char) {
    '0' <= c <= '9'
  }

  predicate AllDigits(s: string) {
    forall i :: 0 <= i < |s| ==> IsDigit(s[i])
  }

  function DigitChar(d: int): (c: char)
    requires 0 <= d < 10
    ensures IsDigit(c) && c as int - '0' as int == d
  {
    ('0' as int + d) as char
  }

  /** `str(n)` for a non-negative integer: no leading zeros, at least one digit. */
  function Str(n: nat): (s: string)
    ensures 1 <= |s| && AllDigits(s)
    ensures |s| > 1 ==> s[0] != '0'
  {
    if n < 10 then [DigitChar(n)] else Str(n / 10) + [DigitChar(n % 10)]
  }

  /** `str(i)` for any integer: a minus sign before the digits of a negative one. */
  function IntStr(i: int): (s: string)
    ensures |s| >= 1
    ensures i >= 0 ==> s == Str(i)
    ensures i < 0 ==> s == "-" + Str(-i)
  {
    if i >= 0 then Str(i) else "-" + Str(-i)
  }

  /** `s.zfill(width)` for a string of digits: pad with '0' on the left. */
  function ZFill(s: string, width: nat): (r: string)
    ensures |r| == if |s| >= width then |s| else width
    ensures AllDigits(s) ==> AllDigits(r)
    ensures r[|r| - |s|..] == s
  {
    if |s| >= width then s else Zeros(width - |s|) + s
  }

  function Zeros(k: nat): (z: string)
    ensures |z| == k && AllDigits(z)
    ensures forall i :: 0 <= i < k ==> z[i] == '0'
  {
    seq(k, _ => '0')
  }

  /** The number a string of decimal digits denotes (leading zeros allowed). */
  function Value(s: string): nat
    requires AllDigits(s)
  {
    if s == [] then 0 else Value(s[..|s| - 1]) * 10 + (s[|s| - 1] as int - '0' as int)
  }

  function Pow10(k: nat): (p: nat)
    ensures p >= 1
  {
    if k == 0 then 1 else 10 * Pow10(k - 1)
  }

  /** Reading back what `Str` wrote gives the number again. */
  lemma {:induction false} StrValue(n: nat)
    ensures Value(Str(n)) == n
  {
    if n >= 10 {
      var s := Str(n);
      assert s[..|s| - 1] == Str(n / 10);
      StrValue(n / 10);
    }
  }

  /** Leading zeros do not change the value. */
  lemma {:induction false} ZerosValue(k: nat, s: string)
    requires AllDigits(s)
    ensures Value(Zeros(k) + s) == Value(s)
  {
    if s == [] {
      ZerosAlone(k);
      assert Zeros(k) + s == Zeros(k);
    } else {
      var t := Zeros(k) + s;
      assert t[..|t| - 1] == Zeros(k) + s[..|s| - 1];
      ZerosValue(k, s[..|s| - 1]);
    }
  }

  lemma {:induction false} ZerosAlone(k: nat)
    ensures Value(Zeros(k)) == 0
  {
    if k > 0 {
      assert Zeros(k)[..k - 1] == Zeros(k - 1);
      ZerosAlone(k - 1);
    }
  }

  /** A number below 10^k needs at most k digits. */
  lemma {:induction false} StrLength(n: nat, k: nat)
    requires 1 <= k && n < Pow10(k)
    ensures |Str(n)| <= k
  {
    if n >= 10 {
      assert Pow10(1) == 10;
      assert k >= 2;
      assert n / 10 < Pow10(k - 1);
      StrLength(n / 10, k - 1);
    }
  }

  /** A zero-filled rendering of a number reads back as that number. */
  lemma ZFillValue(n: nat, width: nat)
    ensures AllDigits(ZFill(Str(n), width))
    ensures Value(ZFill(Str(n), width)) == n
  {
    var s := Str(n);
    StrValue(n);
    if |s| < width {
      ZerosValue(width - |s|, s);
    }
  }

  /** A zero-filled rendering of a number below 10^width is exactly `width` long. */
  lemma ZFillLength(n: nat, width: nat)
    requires 0 < width && n < Pow10(width)
    ensures |ZFill(Str(n), width)| == width
  {
    StrLength(n, width);
  }
}
