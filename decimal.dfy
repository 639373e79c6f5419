/**
 * Decimal rendering of file numbers, as Python's `str(int)` and `str.zfill`
 * produce them for the non-negative counters of both generator scripts.
 */
module Decimal {

  predicate IsDigit(c: char) { '0' <= c <= '9' }

  predicate IsDigits(s: string) { forall i :: 0 <= i < |s| ==> IsDigit(s[i]) }

  /** The character of the decimal digit `d`. */
  function DigitChar(d: nat): (c: char)
    requires d < 10
    ensures IsDigit(c) && c as int - '0' as int == d
  {
    ('0' as int + d) as char
  }

  /** `str(n)` for a non-negative Python int: its decimal digits, most significant first. */
  function FromNat(n: nat): string
    decreases n
  {
    if n < 10 then [DigitChar(n)] else FromNat(n / 10) + [DigitChar(n % 10)]
  }

  /** The rendering is never empty, and it is a single digit exactly for the numbers below ten. */
  lemma {:induction false} FromNatLength(n: nat)
    ensures |FromNat(n)| >= 1
    ensures |FromNat(n)| == 1 <==> n < 10
    decreases n
  {
    if n >= 10 {
      FromNatLength(n / 10);
    }
  }

  /** The rendering is made of digits and starts with `'0'` only for zero (no leading zeros). */
  lemma {:induction false} FromNatDigits(n: nat)
    ensures IsDigits(FromNat(n))
    ensures |FromNat(n)| >= 1 && (FromNat(n)[0] == '0' <==> n == 0)
    decreases n
  {
    FromNatLength(n);
    if n >= 10 {
      FromNatDigits(n / 10);
      assert FromNat(n)[0] == FromNat(n / 10)[0];
    }
  }

  /** The number a string of decimal digits denotes (the reference reading of `FromNat`). */
  function Value(s: string): nat
    requires IsDigits(s)
  {
    if s == [] then 0 else Value(s[..|s| - 1]) * 10 + (s[|s| - 1] as int - '0' as int)
  }

  /** Reading back the rendering of `n` gives `n`. */
  lemma {:induction false} ValueOfFromNat(n: nat)
    ensures IsDigits(FromNat(n)) && Value(FromNat(n)) == n
    decreases n
  {
    var s := FromNat(n);
    FromNatDigits(n);
    if n >= 10 {
      assert s[..|s| - 1] == FromNat(n / 10);
      ValueOfFromNat(n / 10);
    }
  }

  /** Distinct numbers render as distinct strings. */
  lemma FromNatInjective(a: nat, b: nat)
    ensures FromNat(a) == FromNat(b) ==> a == b
  {
    ValueOfFromNat(a);
    ValueOfFromNat(b);
  }

  /**
   * `s.zfill(width)` for a string of digits: `'0'`s are added on the left up
   * to `width` characters; a string already that long is left unchanged.
   */
  function ZFill(s: string, width: nat): (r: string)
    ensures |r| == if |s| < width then width else |s|
    decreases width - |s|
  {
    if |s| < width then ZFill("0" + s, width) else s
  }

  /** The padded string ends with `s`, and everything before it is `'0'`. */
  lemma {:induction false} ZFillPads(s: string, width: nat)
    ensures ZFill(s, width)[|ZFill(s, width)| - |s|..] == s
    ensures forall i :: 0 <= i < |ZFill(s, width)| - |s| ==> ZFill(s, width)[i] == '0'
    decreases width - |s|
  {
    if |s| < width {
      var t := "0" + s;
      ZFillPads(t, width);
      var r := ZFill(t, width);
      assert ZFill(s, width) == r;
      assert r[|r| - |t|..] == t;
      assert r[|r| - |s|..] == t[1..] == s;
      assert r[|r| - |t|] == t[0] == '0';
    }
  }

  /** A string of `'0'`s denotes zero. */
  lemma {:induction false} ValueOfZeros(z: string)
    requires forall i :: 0 <= i < |z| ==> z[i] == '0'
    ensures IsDigits(z) && Value(z) == 0
  {
    if z != [] {
      ValueOfZeros(z[..|z| - 1]);
    }
  }

  /** Leading zeros do not change the number a digit string denotes. */
  lemma {:induction false} ValueIgnoresLeadingZeros(z: string, s: string)
    requires forall i :: 0 <= i < |z| ==> z[i] == '0'
    requires IsDigits(s)
    ensures IsDigits(z + s) && Value(z + s) == Value(s)
    decreases |s|
  {
    ValueOfZeros(z);
    if s == [] {
      assert z + s == z;
    } else {
      var t := z + s;
      assert t[..|t| - 1] == z + s[..|s| - 1];
      ValueIgnoresLeadingZeros(z, s[..|s| - 1]);
    }
  }

  /** Zero-padding keeps the number: reading `FromNat(n).zfill(w)` back gives `n`. */
  lemma ValueOfZFill(n: nat, width: nat)
    ensures IsDigits(ZFill(FromNat(n), width)) && Value(ZFill(FromNat(n), width)) == n
  {
    var s := FromNat(n);
    var r := ZFill(s, width);
    ZFillPads(s, width);
    FromNatDigits(n);
    var z := r[..|r| - |s|];
    assert r == z + s;
    ValueIgnoresLeadingZeros(z, s);
    ValueOfFromNat(n);
  }

  /** Distinct numbers stay distinct once zero-padded to the same width. */
  lemma ZFillFromNatInjective(a: nat, b: nat, width: nat)
    ensures ZFill(FromNat(a), width) == ZFill(FromNat(b), width) ==> a == b
  {
    ValueOfZFill(a, width);
    ValueOfZFill(b, width);
  }
}
