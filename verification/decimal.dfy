/** Decimal text of integers, as the C library's printf writes it with the
    conversions the preprocessing code uses: "%d" and "%.5d". */
module Decimal {

  predicate IsDigit(c: char) {
    '0' <= c <= '9'
  }

  predicate AllDigits(s: string) {
    forall i :: 0 <= i < |s| ==> IsDigit(s[i])
  }

  /** The character of the decimal digit d. */
  function DigitChar(d: nat): (c: char)
    requires d < 10
    ensures IsDigit(c) && c as int - '0' as int == d
  {
    ('0' as int + d) as char
  }

  /** "%d" of a non-negative value: its digits, most significant first, with
      no leading zero except for zero itself. */
  function NatToString(n: nat): (s: string)
    ensures |s| >= 1 && AllDigits(s)
    ensures s[0] == '0' <==> n == 0
    ensures n == 0 ==> s == "0"
    decreases n
  {
    if n < 10 then [DigitChar(n)] else NatToString(n / 10) + [DigitChar(n % 10)]
  }

  /** "%d" of any int: a minus sign before the digits of a negative value. */
  function IntToString(i: int): (s: string)
    ensures |s| >= 1
    ensures i >= 0 ==> s == NatToString(i)
    ensures i < 0 ==> s[0] == '-' && s[1..] == NatToString(-i)
  {
    if i < 0 then "-" + NatToString(-i) else NatToString(i)
  }

  /** Left-pads a digit string with zeros to at least `width` characters, as
      the precision of "%.5d" does. */
  function ZeroPad(s: string, width: nat): (r: string)
    ensures |r| >= width && |r| >= |s|
    ensures |s| >= width ==> r == s
    ensures |s| < width ==> |r| == width
    ensures r[|r| - |s|..] == s
    ensures forall i :: 0 <= i < |r| - |s| ==> r[i] == '0'
  {
    if |s| >= width then s else seq(width - |s|, _ => '0') + s
  }

  /** "%.5d": sign, then the digits zero-padded to five. */
  function IntToPaddedString(i: int, width: nat): (s: string)
    ensures i >= 0 ==> s == ZeroPad(NatToString(i), width)
    ensures i < 0 ==> |s| >= 1 && s[0] == '-' && s[1..] == ZeroPad(NatToString(-i), width)
  {
    if i < 0 then "-" + ZeroPad(NatToString(-i), width) else ZeroPad(NatToString(i), width)
  }

  /** The value a digit string denotes (the inverse of NatToString). */
  function ParseNat(s: string): nat
    requires AllDigits(s)
  {
    if |s| == 0 then 0 else ParseNat(s[..|s| - 1]) * 10 + (s[|s| - 1] as int - '0' as int)
  }

  lemma {:induction false} ParseNatToString(n: nat)
    ensures ParseNat(NatToString(n)) == n
    decreases n
  {
    var s := NatToString(n);
    if n >= 10 {
      assert s[..|s| - 1] == NatToString(n / 10);
      ParseNatToString(n / 10);
    } else {
      assert s[..|s| - 1] == [];
    }
  }

  /** Distinct values print differently. */
  lemma NatToStringInjective(m: nat, n: nat)
    ensures NatToString(m) == NatToString(n) <==> m == n
  {
    ParseNatToString(m);
    ParseNatToString(n);
  }

  /** Leading zeros do not change the value a digit string denotes. */
  lemma {:induction false} ParseNatLeadingZeros(z: string, s: string)
    requires AllDigits(s)
    requires forall i :: 0 <= i < |z| ==> z[i] == '0'
    ensures AllDigits(z + s) && ParseNat(z + s) == ParseNat(s)
    decreases |s|
  {
    var t := z + s;
    assert AllDigits(t) by {
      forall i | 0 <= i < |t| ensures IsDigit(t[i]) {
        if i < |z| { assert t[i] == z[i]; } else { assert t[i] == s[i - |z|]; }
      }
    }
    if |s| == 0 {
      assert t == z;
      ParseNatAllZeros(z);
    } else {
      assert t[..|t| - 1] == z + s[..|s| - 1];
      ParseNatLeadingZeros(z, s[..|s| - 1]);
    }
  }

  lemma {:induction false} ParseNatAllZeros(z: string)
    requires forall i :: 0 <= i < |z| ==> z[i] == '0'
    ensures AllDigits(z) && ParseNat(z) == 0
    decreases |z|
  {
    if |z| > 0 {
      ParseNatAllZeros(z[..|z| - 1]);
    }
  }

  /** "%.5d" of a non-negative value reads back as that value. */
  lemma PaddedRoundTrip(n: nat, width: nat)
    ensures AllDigits(ZeroPad(NatToString(n), width))
    ensures ParseNat(ZeroPad(NatToString(n), width)) == n
  {
    var s := NatToString(n);
    var r := ZeroPad(s, width);
    ParseNatToString(n);
    if |s| < width {
      ParseNatLeadingZeros(r[..|r| - |s|], s);
      assert r == r[..|r| - |s|] + s;
    }
  }
}
