/** Decimal text of integers, as Python's `str()`, `f"{n}"` and `f"{n:03d}"` write them. */
module Decimal {

  predicate IsDigit(c: char) { '0' <= c <= '9' }

  function DigitChar(d: nat): (c: char)
    requires d < 10
    ensures IsDigit(c)
  {
    "0123456789"[d]
  }

  function DigitValue(c: char): (d: nat)
    requires IsDigit(c)
    ensures d < 10
  {
    (c as int - '0' as int) as nat
  }

  /** The shortest decimal text of `n`: no sign, no leading zero except for 0 itself. */
  function Digits(n: nat): (s: string)
    ensures |s| > 0
    ensures forall i :: 0 <= i < |s| ==> IsDigit(s[i])
    decreases n
  {
    if n < 10 then [DigitChar(n)] else Digits(n / 10) + [DigitChar(n % 10)]
  }

  /** The number a text of decimal digits denotes (leading zeros allowed). */
  function Value(s: string): nat
    requires forall i :: 0 <= i < |s| ==> IsDigit(s[i])
    decreases |s|
  {
    if s == [] then 0 else Value(s[..|s| - 1]) * 10 + DigitValue(s[|s| - 1])
  }

  /** `str(i)` for an int. */
  function IntText(i: int): string
  {
    if i < 0 then "-" + Digits(-i) else Digits(i)
  }

  /** Left padding with '0' up to `width` characters, as the `0<width>d` format does. */
  function ZeroPad(s: string, width: nat): (r: string)
    ensures |r| == if |s| < width then width else |s|
    ensures r[|r| - |s|..] == s
    ensures forall i :: 0 <= i < |r| - |s| ==> r[i] == '0'
  {
    if |s| < width then seq(width - |s|, _ => '0') + s else s
  }

  lemma DigitRoundTrip(d: nat)
    requires d < 10
    ensures DigitValue(DigitChar(d)) == d
  {
  }

  /** Reading back the digits written for `n` gives `n`. */
  lemma {:induction false} ValueOfDigits(n: nat)
    ensures Value(Digits(n)) == n
    decreases n
  {
    var s := Digits(n);
    if n < 10 {
      DigitRoundTrip(n);
    } else {
      ValueOfDigits(n / 10);
      DigitRoundTrip(n % 10);
      assert s[..|s| - 1] == Digits(n / 10);
    }
  }

  /** The written digits never start with a zero unless the number is 0. */
  lemma {:induction false} NoLeadingZero(n: nat)
    ensures Digits(n)[0] == '0' <==> n == 0
    decreases n
  {
    if n >= 10 {
      NoLeadingZero(n / 10);
    }
  }

  /** Leading zeros do not change the value. */
  lemma {:induction false} ValueIgnoresLeadingZeros(z: nat, s: string)
    requires forall i :: 0 <= i < |s| ==> IsDigit(s[i])
    ensures var t := seq(z, _ => '0') + s; (forall i :: 0 <= i < |t| ==> IsDigit(t[i])) && Value(t) == Value(s)
    decreases |s|
  {
    var t := seq(z, _ => '0') + s;
    assert forall i :: 0 <= i < |t| ==> IsDigit(t[i]) by {
      forall i | 0 <= i < |t| ensures IsDigit(t[i]) {
        if i >= z { assert t[i] == s[i - z]; }
      }
    }
    if s == [] {
      assert t == seq(z, _ => '0');
      ZerosHaveNoValue(z);
    } else {
      ValueIgnoresLeadingZeros(z, s[..|s| - 1]);
      assert t[..|t| - 1] == seq(z, _ => '0') + s[..|s| - 1];
    }
  }

  lemma {:induction false} ZerosHaveNoValue(z: nat)
    ensures Value(seq(z, _ => '0')) == 0
    decreases z
  {
    if z > 0 {
      ZerosHaveNoValue(z - 1);
      assert seq(z, _ => '0')[..z - 1] == seq(z - 1, _ => '0');
    }
  }

  /** The zero-padded text of `n` still denotes `n` and is at least `width` long. */
  lemma PaddedValue(n: nat, width: nat)
    ensures var r := ZeroPad(Digits(n), width);
      (forall i :: 0 <= i < |r| ==> IsDigit(r[i])) && Value(r) == n && |r| >= width
  {
    var s := Digits(n);
    var r := ZeroPad(s, width);
    var z := |r| - |s|;
    assert r == seq(z, _ => '0') + s;
    ValueIgnoresLeadingZeros(z, s);
    ValueOfDigits(n);
  }
}
