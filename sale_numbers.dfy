/**
 * Sale numbers: "SALE-" followed by the ordinal of the new sale in decimal,
 * left-padded with zeros to at least six digits (the `06d` format).
 */
module SaleNumbers {

  const Prefix: string := "SALE-"
  const Width: nat := 6

  predicate IsDigit(c: char) {
    '0' <= c <= '9'
  }

  predicate AllDigits(s: string) {
    forall i :: 0 <= i < |s| ==> IsDigit(s[i])
  }

  function DigitChar(d: nat): (c: char)
    requires d < 10
    ensures IsDigit(c) && c as int - '0' as int == d
  {
    ('0' as int + d) as char
  }

  /** The decimal digits of n, most significant first, with no leading zero. */
  function Digits(n: nat): (s: string)
    ensures 1 <= |s| && AllDigits(s)
    ensures |s| > 1 ==> s[0] != '0'
    decreases n
  {
    if n < 10 then [DigitChar(n)] else Digits(n / 10) + [DigitChar(n % 10)]
  }

  /** The number a string of decimal digits denotes. */
  function Value(s: string): nat
    requires AllDigits(s)
  {
    if s == [] then 0 else Value(s[..|s| - 1]) * 10 + (s[|s| - 1] as int - '0' as int)
  }

  /** Left-pads s with '0' up to the given width; a longer s is kept whole. */
  function ZeroPad(s: string, width: nat): (r: string)
    ensures |r| == if |s| < width then width else |s|
    ensures r[|r| - |s|..] == s
    ensures forall i :: 0 <= i < |r| - |s| ==> r[i] == '0'
    decreases width - |s|
  {
    if |s| >= width then s
    else
      var t := ['0'] + s;
      var r := ZeroPad(t, width);
      assert r[|r| - |s|..] == r[|r| - |t|..][1..];
      assert r[|r| - |t|] == r[|r| - |t|..][0];
      r
  }

  /** The number of the sale created when `count` sales already exist. */
  function SaleNumber(count: nat): (s: string)
    ensures |s| >= |Prefix| + Width
    ensures s[..|Prefix|] == Prefix
  {
    Prefix + ZeroPad(Digits(count + 1), Width)
  }

  function Pow10(k: nat): nat {
    if k == 0 then 1 else 10 * Pow10(k - 1)
  }

  /** Reading back the digits of n gives n. */
  lemma {:induction false} DigitsValue(n: nat)
    ensures Value(Digits(n)) == n
    decreases n
  {
    if n >= 10 {
      var s := Digits(n);
      assert s[..|s| - 1] == Digits(n / 10);
      DigitsValue(n / 10);
    }
  }

  /** A leading zero does not change the value. */
  lemma {:induction false} LeadingZeroValue(s: string)
    requires AllDigits(s)
    ensures AllDigits(['0'] + s) && Value(['0'] + s) == Value(s)
  {
    if s != [] {
      var z := ['0'] + s;
      assert z[..|z| - 1] == ['0'] + s[..|s| - 1];
      LeadingZeroValue(s[..|s| - 1]);
    }
  }

  /** Zero padding does not change the value. */
  lemma {:induction false} ZeroPadValue(s: string, width: nat)
    requires AllDigits(s)
    ensures AllDigits(ZeroPad(s, width)) && Value(ZeroPad(s, width)) == Value(s)
    decreases width - |s|
  {
    if |s| < width {
      LeadingZeroValue(s);
      ZeroPadValue(['0'] + s, width);
    }
  }

  /** A number below 10^k has at most k digits. */
  lemma {:induction false} DigitsFit(n: nat, k: nat)
    requires 1 <= k && n < Pow10(k)
    ensures |Digits(n)| <= k
    decreases k
  {
    if n >= 10 {
      assert k > 1;
      assert n / 10 < Pow10(k - 1);
      DigitsFit(n / 10, k - 1);
    }
  }

  /**
   * A sale number is the prefix followed by at least six decimal digits that
   * denote count + 1, and exactly six while count + 1 is below 1000000.
   */
  lemma SaleNumberFormat(count: nat)
    ensures |SaleNumber(count)| >= |Prefix| + Width
    ensures SaleNumber(count)[..|Prefix|] == Prefix
    ensures AllDigits(SaleNumber(count)[|Prefix|..])
    ensures Value(SaleNumber(count)[|Prefix|..]) == count + 1
    ensures count + 1 < 1000000 ==> |SaleNumber(count)| == |Prefix| + Width
  {
    var digits := ZeroPad(Digits(count + 1), Width);
    assert SaleNumber(count)[|Prefix|..] == digits;
    assert SaleNumber(count)[..|Prefix|] == Prefix;
    DigitsValue(count + 1);
    ZeroPadValue(Digits(count + 1), Width);
    if count + 1 < 1000000 {
      assert Pow10(6) == 1000000;
      DigitsFit(count + 1, 6);
    }
  }

  /** Different sale counts give different sale numbers. */
  lemma SaleNumberInjective(a: nat, b: nat)
    ensures SaleNumber(a) == SaleNumber(b) ==> a == b
  {
    SaleNumberFormat(a);
    SaleNumberFormat(b);
  }
}
