/** Integer-to-text rendering as `String(format: "%05d", n)` performs it:
    the `d` conversion with the `0` flag and a minimum field width of 5
    (section 7.21.6.1 of ISO/IEC 9899:2011). Zeros are inserted after the
    sign, and the width counts the sign. */
module Format {

  const FieldWidth: nat := 5

  predicate IsDigit(c: char) { '0' <= c <= '9' }

  predicate AllDigits(s: string) { forall i :: 0 <= i < |s| ==> IsDigit(s[i]) }

  function DigitChar(d: nat): (c: char)
    requires d < 10
    ensures IsDigit(c)
  {
    ('0' as int + d) as char
  }

  function DigitValue(c: char): (d: nat)
    requires IsDigit(c)
    ensures d < 10
  {
    c as int - '0' as int
  }

  /** Decimal digits of n, most significant first, without leading zeros. */
  function Decimal(n: nat): (s: string)
    ensures |s| >= 1 && AllDigits(s)
  {
    if n < 10 then [DigitChar(n)] else Decimal(n / 10) + [DigitChar(n % 10)]
  }

  /** The number a string of decimal digits denotes (the reading side). */
  function Value(s: string): nat
    requires AllDigits(s)
  {
    if s == [] then 0 else Value(s[..|s| - 1]) * 10 + DigitValue(s[|s| - 1])
  }

  function Zeros(k: nat): string { seq(k, _ => '0') }

  /** Left-pads a digit string with zeros up to the given width. */
  function PadZeros(s: string, width: nat): string
  {
    if |s| >= width then s else Zeros(width - |s|) + s
  }

  /** String(format: "%05d", n). */
  function Pad5(n: int): string
  {
    if n < 0 then "-" + PadZeros(Decimal(-n), FieldWidth - 1)
    else PadZeros(Decimal(n), FieldWidth)
  }

  function Pow10(k: nat): nat { if k == 0 then 1 else 10 * Pow10(k - 1) }

  lemma {:induction false} DecimalValue(n: nat)
    ensures Value(Decimal(n)) == n
  {
    var s := Decimal(n);
    if n >= 10 {
      DecimalValue(n / 10);
      assert s[..|s| - 1] == Decimal(n / 10);
    }
  }

  lemma {:induction false} ZerosValue(k: nat)
    ensures AllDigits(Zeros(k)) && Value(Zeros(k)) == 0
  {
    if k > 0 {
      ZerosValue(k - 1);
      assert Zeros(k)[..k - 1] == Zeros(k - 1);
    }
  }

  /** Leading zeros do not change the value of a digit string. */
  lemma {:induction false} LeadingZerosValue(k: nat, s: string)
    requires AllDigits(s)
    ensures AllDigits(Zeros(k) + s) && Value(Zeros(k) + s) == Value(s)
  {
    ZerosValue(k);
    if s == [] {
      assert Zeros(k) + s == Zeros(k);
    } else {
      var t := Zeros(k) + s;
      LeadingZerosValue(k, s[..|s| - 1]);
      assert t[..|t| - 1] == Zeros(k) + s[..|s| - 1];
    }
  }

  /** A number has at most k digits exactly when it is below 10^k. */
  lemma {:induction false} DecimalLength(n: nat, k: nat)
    requires k >= 1
    ensures |Decimal(n)| <= k <==> n < Pow10(k)
  {
    if n >= 10 {
      if k == 1 {
        assert |Decimal(n)| == |Decimal(n / 10)| + 1;
      } else {
        DecimalLength(n / 10, k - 1);
        assert Pow10(k) == 10 * Pow10(k - 1);
      }
    } else {
      PowPositive(k);
    }
  }

  lemma {:induction false} PowPositive(k: nat)
    requires k >= 1
    ensures Pow10(k) >= 10
  {
    if k > 1 { PowPositive(k - 1); }
  }

  lemma PadZerosValue(s: string, width: nat)
    requires AllDigits(s)
    ensures var r := PadZeros(s, width);
      AllDigits(r) && Value(r) == Value(s) &&
      |r| == (if |s| >= width then |s| else width)
  {
    if |s| < width { LeadingZerosValue(width - |s|, s); }
  }

  /** The zero-padded rendering of a non-negative n is a digit string of
      at least five characters that reads back as n; below 100000 it is
      exactly five digits, and from 100000 on it is the plain decimal. */
  lemma Pad5NonNegative(n: int)
    requires n >= 0
    ensures var r := Pad5(n);
      AllDigits(r) && Value(r) == n && |r| >= FieldWidth &&
      (n < 100000 <==> |r| == FieldWidth) &&
      (n >= 100000 ==> r == Decimal(n))
  {
    DecimalValue(n);
    PadZerosValue(Decimal(n), FieldWidth);
    DecimalLength(n, FieldWidth);
    assert Pow10(2) == 100 && Pow10(4) == 10000 && Pow10(5) == 100000;
  }

  /** A negative n renders as '-' and the zero-padded magnitude, five
      characters in all when the magnitude has at most four digits. */
  lemma Pad5Negative(n: int)
    requires n < 0
    ensures var r := Pad5(n);
      |r| >= FieldWidth && r[0] == '-' && AllDigits(r[1..]) && Value(r[1..]) == -n &&
      (n > -10000 <==> |r| == FieldWidth)
  {
    var m: nat := -n;
    var d := Decimal(m);
    var padded := PadZeros(d, FieldWidth - 1);
    var r := Pad5(n);
    assert r == "-" + padded;
    assert r[1..] == padded;
    DecimalValue(m);
    PadZerosValue(d, FieldWidth - 1);
    assert |r| == 1 + (if |d| >= 4 then |d| else 4);
    assert Pow10(1) == 10 && Pow10(2) == 100 && Pow10(3) == 1000 && Pow10(4) == 10000;
    DecimalLength(m, FieldWidth - 1);
    assert |d| <= 4 <==> m < 10000;
  }

  /** Distinct indices give distinct names. */
  lemma Pad5Injective(m: int, n: int)
    requires Pad5(m) == Pad5(n)
    ensures m == n
  {
    if m >= 0 && n >= 0 {
      Pad5NonNegative(m);
      Pad5NonNegative(n);
    } else if m < 0 && n < 0 {
      Pad5Negative(m);
      Pad5Negative(n);
    } else if m >= 0 {
      Pad5NonNegative(m);
      Pad5Negative(n);
    } else {
      Pad5Negative(m);
      Pad5NonNegative(n);
    }
  }
}
