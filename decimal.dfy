/**
 * Decimal digit strings: their value (the decoders accumulate `v = 10 * v + d`
 * digit by digit) and the decimal text the `{}` and `{:0N}` formats produce.
 */
module Decimal {
  import opened Macros

  predicate AllDigits(s: string) {
    forall k :: 0 <= k < |s| ==> IsDigit(s[k])
  }

  /** The value of a digit string read from left to right as `v = 10 * v + d`. */
  function DigitsValue(s: string): nat
    requires AllDigits(s)
    decreases |s|
  {
    if s == [] then 0 else 10 * DigitsValue(s[..|s| - 1]) + ToInt(s[|s| - 1])
  }

  function Pow10(k: nat): (p: nat)
    ensures p >= 1
  {
    if k == 0 then 1 else 10 * Pow10(k - 1)
  }

  /** The digit character of a value below ten. */
  function DigitChar(d: nat): (c: char)
    requires d < 10
    ensures IsDigit(c) && ToInt(c) == d
  {
    (('0' as int) + d) as char
  }

  /** Decimal text of a natural number: no sign, no leading zero. */
  function NatText(n: nat): (s: string)
    ensures |s| >= 1 && AllDigits(s)
    ensures DigitsValue(s) == n
    ensures |s| == 1 || s[0] != '0'
  {
    if n < 10 then [DigitChar(n)]
    else
      var s := NatText(n / 10) + [DigitChar(n % 10)];
      assert s[..|s| - 1] == NatText(n / 10);
      s
  }

  /** `{}` applied to an integer: a leading '-' exactly for negative numbers. */
  function DecimalText(i: int): (s: string)
    ensures |s| >= 1
    ensures s[0] == '-' <==> i < 0
    ensures i >= 0 ==> AllDigits(s) && DigitsValue(s) == i
    ensures i < 0 ==> AllDigits(s[1..]) && DigitsValue(s[1..]) == -i
  {
    if i < 0 then "-" + NatText(-i) else NatText(i)
  }

  function Zeros(k: nat): (s: string)
    ensures |s| == k && forall j :: 0 <= j < k ==> s[j] == '0'
  {
    seq(k, _ => '0')
  }

  /** `{:0w}` applied to a natural number: its decimal text, left-padded with zeros to width w. */
  function PadLeft(n: nat, width: nat): (s: string)
    ensures |s| >= width && AllDigits(s)
    ensures DigitsValue(s) == n
    ensures width >= 1 && n < Pow10(width) ==> |s| == width
  {
    var t := NatText(n);
    NatTextLength(n, width);
    if |t| >= width then t
    else
      LeadingZeros(width - |t|, t);
      Zeros(width - |t|) + t
  }

  /** Zeros in front of a digit string do not change its value. */
  lemma {:induction false} LeadingZeros(k: nat, t: string)
    requires AllDigits(t)
    ensures AllDigits(Zeros(k) + t) && DigitsValue(Zeros(k) + t) == DigitsValue(t)
    decreases |t|
  {
    var s := Zeros(k) + t;
    assert AllDigits(s);
    if t == [] {
      ZerosValue(k);
      assert s == Zeros(k);
    } else {
      var t' := t[..|t| - 1];
      assert s[..|s| - 1] == Zeros(k) + t';
      LeadingZeros(k, t');
    }
  }

  lemma {:induction false} ZerosValue(k: nat)
    ensures AllDigits(Zeros(k)) && DigitsValue(Zeros(k)) == 0
  {
    if k > 0 {
      assert Zeros(k)[..k - 1] == Zeros(k - 1);
      ZerosValue(k - 1);
    }
  }

  /** A number below 10^w has at most w digits. */
  lemma {:induction false} NatTextLength(n: nat, w: nat)
    ensures w >= 1 && n < Pow10(w) ==> |NatText(n)| <= w
  {
    if n >= 10 && w > 1 && n < Pow10(w) {
      assert n / 10 < Pow10(w - 1);
      NatTextLength(n / 10, w - 1);
    }
  }

  /** A digit string of length k has a value below 10^k. */
  lemma {:induction false} DigitsValueBound(s: string)
    requires AllDigits(s)
    ensures DigitsValue(s) < Pow10(|s|)
    decreases |s|
  {
    if s != [] {
      DigitsValueBound(s[..|s| - 1]);
    }
  }

  /** Reading digits left to right: appending one digit multiplies by ten and adds it. */
  lemma DigitsValueAppend(s: string, c: char)
    requires AllDigits(s) && IsDigit(c)
    ensures AllDigits(s + [c]) && DigitsValue(s + [c]) == 10 * DigitsValue(s) + ToInt(c)
  {
    assert (s + [c])[..|s|] == s;
  }
}
