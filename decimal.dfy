/** Decimal text of natural numbers: `n.toString()`, `padStart(width, '0')`
    and the inverse reading of a digit string (what `parseInt` does on one). */
module Decimal {

  predicate IsDigit(c: char)
  {
    '0' <= c <= '9'
  }

  predicate AllDigits(s: string)
  {
    forall k :: 0 <= k < |s| ==> IsDigit(s[k])
  }

  function DigitChar(d: nat): (c: char)
    requires d < 10
    ensures IsDigit(c)
  {
    ('0' as int + d) as char
  }

  function DigitValue(c: char): (d: nat)
    requires IsDigit(c)
    ensures d < 10
  {
    c as int - '0' as int
  }

  /** `n.toString()` for a natural number: its decimal digits, most
      significant first, with no leading zero unless `n` is 0. */
  function ToDecimal(n: nat): (s: string)
    ensures |s| >= 1 && AllDigits(s)
    ensures |s| > 1 ==> s[0] != '0'
    decreases n
  {
    if n < 10 then [DigitChar(n)] else ToDecimal(n / 10) + [DigitChar(n % 10)]
  }

  /** The number a digit string denotes in base ten (the empty string is 0). */
  function ParseDecimal(s: string): (n: nat)
    requires AllDigits(s)
    decreases |s|
  {
    if s == [] then 0 else ParseDecimal(s[..|s| - 1]) * 10 + DigitValue(s[|s| - 1])
  }

  function Zeros(k: nat): (z: string)
    ensures |z| == k && AllDigits(z)
    ensures forall i :: 0 <= i < k ==> z[i] == '0'
  {
    seq(k, i => '0')
  }

  /** `s.padStart(width, '0')`: `s` with zeros prepended up to `width`
      characters; a string already that long is returned as it is. */
  function PadStart(s: string, width: nat): (r: string)
    ensures |r| == if |s| >= width then |s| else width
    ensures |s| >= width ==> r == s
    ensures |s| < width ==> r == Zeros(width - |s|) + s
  {
    if |s| >= width then s else Zeros(width - |s|) + s
  }

  /** Reading back the decimal text of `n` gives `n`. */
  lemma {:induction false} ParseToDecimal(n: nat)
    ensures ParseDecimal(ToDecimal(n)) == n
    decreases n
  {
    if n >= 10 {
      var s := ToDecimal(n);
      assert s[..|s| - 1] == ToDecimal(n / 10);
      ParseToDecimal(n / 10);
    }
  }

  /** A leading zero does not change the value of a digit string. */
  lemma {:induction false} ParseLeadingZero(s: string)
    requires AllDigits(s)
    ensures AllDigits(['0'] + s) && ParseDecimal(['0'] + s) == ParseDecimal(s)
    decreases |s|
  {
    var z := ['0'] + s;
    if s != [] {
      assert z[..|z| - 1] == ['0'] + s[..|s| - 1];
      ParseLeadingZero(s[..|s| - 1]);
    }
  }

  /** Any number of leading zeros does not change the value. */
  lemma {:induction false} ParseLeadingZeros(k: nat, s: string)
    requires AllDigits(s)
    ensures AllDigits(Zeros(k) + s) && ParseDecimal(Zeros(k) + s) == ParseDecimal(s)
    decreases k
  {
    if k > 0 {
      assert Zeros(k) + s == ['0'] + (Zeros(k - 1) + s);
      ParseLeadingZeros(k - 1, s);
      ParseLeadingZero(Zeros(k - 1) + s);
    } else {
      assert Zeros(k) + s == s;
    }
  }

  /** Zero-padding keeps the value: reading `padStart` of the decimal text of
      `n` gives `n` back. */
  lemma ParsePadded(n: nat, width: nat)
    ensures AllDigits(PadStart(ToDecimal(n), width))
    ensures ParseDecimal(PadStart(ToDecimal(n), width)) == n
  {
    var s := ToDecimal(n);
    ParseToDecimal(n);
    if |s| < width {
      ParseLeadingZeros(width - |s|, s);
    }
  }

  function Pow10(k: nat): (p: nat)
    ensures p >= 1
  {
    if k == 0 then 1 else 10 * Pow10(k - 1)
  }

  /** A number has at most `k` digits exactly when it is below `10^k`. */
  lemma {:induction false} DecimalLengthBound(n: nat, k: nat)
    requires k >= 1
    ensures |ToDecimal(n)| <= k <==> n < Pow10(k)
    decreases n
  {
    if n >= 10 {
      var m := n / 10;
      assert |ToDecimal(n)| == |ToDecimal(m)| + 1;
      if k > 1 {
        DecimalLengthBound(m, k - 1);
        assert m < Pow10(k - 1) <==> n < 10 * Pow10(k - 1);
      }
    }
  }

  /** Numbers below a million have at most six digits, and 100000 and above
      have at least six. */
  lemma DecimalLength(n: nat)
    ensures n < 1000000 ==> |ToDecimal(n)| <= 6
    ensures n >= 100000 ==> |ToDecimal(n)| >= 6
  {
    assert Pow10(5) == 100000;
    assert Pow10(6) == 1000000;
    DecimalLengthBound(n, 5);
    DecimalLengthBound(n, 6);
  }
}
