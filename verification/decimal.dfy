/** Decimal rendering of non-negative integers, as `Number.prototype.toString`
    and `String.prototype.padStart(width, '0')` produce it, and the parser that
    undoes both. */
module Decimal {

  predicate IsDigit(c: char)
  {
    '0' <= c <= '9'
  }

  predicate AllDigits(s: string)
  {
    forall i :: 0 <= i < |s| ==> IsDigit(s[i])
  }

  function DigitChar(d: nat): (c: char)
    requires d < 10
    ensures IsDigit(c)
    ensures c as int - '0' as int == d
  {
    "0123456789"[d]
  }

  function DigitValue(c: char): nat
  {
    if IsDigit(c) then c as int - '0' as int else 0
  }

  /** The decimal digits of `n`, most significant first, without leading zeros. */
  function Digits(n: nat): (s: string)
    ensures 1 <= |s|
    ensures AllDigits(s)
    ensures |s| == 1 <==> n < 10
    ensures s[0] == '0' ==> n == 0
    decreases n
  {
    if n < 10 then [DigitChar(n)] else Digits(n / 10) + [DigitChar(n % 10)]
  }

  /** The value of a digit string read in base ten; the empty string reads as 0. */
  function ParseDigits(s: string): nat
  {
    if |s| == 0 then 0 else ParseDigits(s[..|s| - 1]) * 10 + DigitValue(s[|s| - 1])
  }

  /** Left-pads `s` with '0' up to `width` characters; longer strings are kept whole. */
  function PadStart(s: string, width: nat): (r: string)
    ensures |r| == if |s| >= width then |s| else width
    ensures r[|r| - |s|..] == s
    ensures forall i :: 0 <= i < |r| - |s| ==> r[i] == '0'
  {
    if |s| >= width then s else Zeros(width - |s|) + s
  }

  lemma PadStartDigits(s: string, width: nat)
    requires AllDigits(s)
    ensures AllDigits(PadStart(s, width))
  {
    var r := PadStart(s, width);
    forall i | 0 <= i < |r|
      ensures IsDigit(r[i])
    {
      if i >= |r| - |s| {
        assert r[i] == r[|r| - |s|..][i - (|r| - |s|)];
      }
    }
  }

  /** Numbers below 100 take at most two digits. */
  lemma DigitsBelowHundred(n: nat)
    requires n < 100
    ensures |Digits(n)| <= 2
  {
    if n >= 10 {
      assert |Digits(n / 10)| == 1;
    }
  }

  /** `n` zero characters. */
  function Zeros(n: nat): (z: string)
    ensures |z| == n
    ensures forall i :: 0 <= i < n ==> z[i] == '0'
  {
    seq(n, _ => '0')
  }

  lemma {:induction false} ParseDigitsOfDigits(n: nat)
    ensures ParseDigits(Digits(n)) == n
    decreases n
  {
    if n >= 10 {
      var s := Digits(n);
      assert s[..|s| - 1] == Digits(n / 10);
      ParseDigitsOfDigits(n / 10);
    }
  }

  /** A leading zero does not change the value read. */
  lemma {:induction false} ParseLeadingZero(s: string)
    ensures ParseDigits("0" + s) == ParseDigits(s)
    decreases |s|
  {
    if |s| > 0 {
      var z := "0" + s;
      assert z[..|z| - 1] == "0" + s[..|s| - 1];
      ParseLeadingZero(s[..|s| - 1]);
    }
  }

  /** Leading zeros do not change the value read. */
  lemma {:induction false} ParseZeros(n: nat, s: string)
    ensures ParseDigits(Zeros(n) + s) == ParseDigits(s)
    decreases n
  {
    if n > 0 {
      assert Zeros(n) == "0" + Zeros(n - 1);
      assert Zeros(n) + s == "0" + (Zeros(n - 1) + s);
      ParseLeadingZero(Zeros(n - 1) + s);
      ParseZeros(n - 1, s);
    } else {
      assert Zeros(n) + s == s;
    }
  }

  lemma ParsePadStart(s: string, width: nat)
    ensures ParseDigits(PadStart(s, width)) == ParseDigits(s)
  {
    if |s| < width {
      ParseZeros(width - |s|, s);
    }
  }

  /** `Number.prototype.toString` is injective on non-negative integers. */
  lemma DigitsInjective(a: nat, b: nat)
    ensures Digits(a) == Digits(b) ==> a == b
  {
    ParseDigitsOfDigits(a);
    ParseDigitsOfDigits(b);
  }
}
