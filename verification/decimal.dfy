/**
 * The two places where the server turns a number into text: a new
 * conversation's id is `Date.now().toString()`, and the "too large" file
 * prompt shows the size in megabytes with `toFixed(2)`. Both are stated here
 * on unbounded naturals.
 */
module Decimal {

  predicate IsDigit(c: char)
  {
    '0' <= c <= '9'
  }

  predicate AllDigits(s: string)
  {
    forall i :: 0 <= i < |s| ==> IsDigit(s[i])
  }

  function DigitChar(d: nat): (c: char)
    requires d < 10
    ensures IsDigit(c) && (c as int) - ('0' as int) == d
  {
    (d + '0' as int) as char
  }

  /** Decimal text of a natural number, as JavaScript's Number toString gives
      it for integers below 10^21: digits only, no leading zero. */
  function NatToString(n: nat): (s: string)
    ensures |s| >= 1 && AllDigits(s)
    ensures s[0] == '0' ==> n == 0 && s == "0"
  {
    if n < 10 then [DigitChar(n)] else NatToString(n / 10) + [DigitChar(n % 10)]
  }

  /** Reads a string of decimal digits back as a natural number. */
  function ParseDecimal(s: string): nat
    requires AllDigits(s)
  {
    if s == [] then 0 else ParseDecimal(s[..|s| - 1]) * 10 + ((s[|s| - 1] as int) - ('0' as int))
  }

  lemma {:induction false} ParseNatToString(n: nat)
    ensures ParseDecimal(NatToString(n)) == n
  {
    if n >= 10 {
      ParseNatToString(n / 10);
      var s := NatToString(n);
      assert s[..|s| - 1] == NatToString(n / 10);
    }
  }

  /** Two clock readings in different milliseconds never give the same id. */
  lemma NatToStringInjective(a: nat, b: nat)
    requires a != b
    ensures NatToString(a) != NatToString(b)
  {
    ParseNatToString(a);
    ParseNatToString(b);
  }

  /** Bytes in one megabyte as the server counts them: 1024 * 1024. */
  const BytesPerMegabyte: nat := 1048576

  /** The size in hundredths of a megabyte, rounded as `toFixed(2)` rounds:
      to the nearest hundredth, a tie going to the larger one. The quotient
      size / 2^20 is exact in a double for any file size, so nothing is lost. */
  function Hundredths(size: nat): (h: nat)
    ensures 2 * h * BytesPerMegabyte <= 200 * size + BytesPerMegabyte
    ensures 200 * size + BytesPerMegabyte < 2 * (h + 1) * BytesPerMegabyte
  {
    (200 * size + BytesPerMegabyte) / (2 * BytesPerMegabyte)
  }

  /** `(size / (1024 * 1024)).toFixed(2)`: an integer part, a point and
      exactly two digits. */
  function MegabytesFixed2(size: nat): (s: string)
    ensures exists k :: 0 <= k < |s| && s[k] == '.' && |s| == k + 3
    ensures |s| >= 4 && IsDigit(s[|s| - 2]) && IsDigit(s[|s| - 1])
  {
    var h := Hundredths(size);
    var whole := NatToString(h / 100);
    var frac := h % 100;
    var r := whole + "." + [DigitChar(frac / 10), DigitChar(frac % 10)];
    assert r[|whole|] == '.';
    r
  }

  lemma HundredthsDigits(h: nat)
    ensures (h / 100) * 100 + (h % 100 / 10) * 10 + h % 100 % 10 == h
  {
    var frac := h % 100;
    assert h == (h / 100) * 100 + frac;
    assert frac == (frac / 10) * 10 + frac % 10;
  }

  /** The text `toFixed(2)` gives reads back as the rounded number of
      hundredths: the digits before the point are the whole megabytes and the
      two after it the hundredths. */
  lemma MegabytesFixed2ReadsBack(size: nat)
    ensures var s := MegabytesFixed2(size);
            |s| >= 4 && AllDigits(s[..|s| - 3]) && s[|s| - 3] == '.'
            && IsDigit(s[|s| - 2]) && IsDigit(s[|s| - 1])
            && ParseDecimal(s[..|s| - 3]) * 100
               + ((s[|s| - 2] as int) - ('0' as int)) * 10
               + ((s[|s| - 1] as int) - ('0' as int)) == Hundredths(size)
  {
    var h := Hundredths(size);
    var whole := NatToString(h / 100);
    var d1, d2 := DigitChar(h % 100 / 10), DigitChar(h % 100 % 10);
    var s := MegabytesFixed2(size);
    assert s == whole + "." + [d1, d2];
    assert s[..|s| - 3] == whole;
    assert s[|s| - 2] == d1 && s[|s| - 1] == d2;
    ParseNatToString(h / 100);
    HundredthsDigits(h);
  }
}
