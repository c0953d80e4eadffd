/**
  Decimal rendering of non-negative integers, as Python's `str(n)` and
  the `:02d` format specification produce it, together with the decoding
  that shows no information is lost.
*/
module Decimal {

  predicate IsDigit(c: char) {
    '0' <= c <= '9'
  }

  predicate AllDigits(s: string) {
    forall i :: 0 <= i < |s| ==> IsDigit(s[i])
  }

  function DigitChar(d: nat): (c: char)
    requires d < 10
    ensures IsDigit(c) && (c as int) - ('0' as int) == d
  {
    ('0' as int + d) as char
  }

  /** The value of one decimal digit character. */
  function DigitValue(c: char): nat
    requires IsDigit(c)
  {
    (c as int) - ('0' as int)
  }

  /** `str(n)` for n >= 0: the shortest decimal rendering, no leading zero. */
  function Digits(n: nat): (s: string)
    ensures |s| >= 1 && AllDigits(s)
    decreases n
  {
    if n < 10 then [DigitChar(n)] else Digits(n / 10) + [DigitChar(n % 10)]
  }

  /** The number a string of decimal digits denotes (most significant first). */
  function ValueOf(s: string): nat
    requires AllDigits(s)
    decreases |s|
  {
    if s == [] then 0 else ValueOf(s[..|s| - 1]) * 10 + DigitValue(s[|s| - 1])
  }

  /** `f"{n:02d}"` for n >= 0: at least two characters, left-padded with '0'. */
  function ZeroPad2(n: nat): (s: string)
    ensures |s| >= 2 && AllDigits(s)
  {
    if n < 10 then "0" + Digits(n) else Digits(n)
  }

  /** `f"{n:02d}"` for any integer: a negative value already has two characters.
      The string shows n: a non-negative n reads back as n, and a negative n is
      '-' followed by digits that read back as -n. */
  function FormatInt02(n: int): (s: string)
    ensures |s| >= 2 && (s[0] == '-' <==> n < 0)
    ensures n >= 0 ==> AllDigits(s) && ValueOf(s) == n && (|s| == 2 <==> n < 100)
    ensures n < 0 ==> AllDigits(s[1..]) && ValueOf(s[1..]) == -n
  {
    if n < 0 then
      DigitsRoundTrip(-n);
      var s := "-" + Digits(-n);
      assert s[1..] == Digits(-n);
      s
    else
      ZeroPad2RoundTrip(n);
      ZeroPad2(n)
  }

  /** Decoding the rendering of n gives back n; the rendering is all digits and
      has two characters exactly when 10 <= n < 100. */
  lemma {:induction false} DigitsRoundTrip(n: nat)
    ensures AllDigits(Digits(n)) && ValueOf(Digits(n)) == n
    ensures |Digits(n)| >= 1
    ensures |Digits(n)| == 1 <==> n < 10
    ensures n < 100 ==> |Digits(n)| <= 2
    decreases n
  {
    if n >= 10 {
      DigitsRoundTrip(n / 10);
      var s := Digits(n / 10) + [DigitChar(n % 10)];
      assert s[..|s| - 1] == Digits(n / 10);
    }
  }

  /** Different numbers have different renderings. */
  lemma DigitsInjective(m: nat, n: nat)
    ensures Digits(m) == Digits(n) <==> m == n
  {
    DigitsRoundTrip(m);
    DigitsRoundTrip(n);
  }

  /** The `:02d` rendering of a non-negative number decodes to that number, has at
      least two characters, and exactly two when the number is below 100. */
  lemma ZeroPad2RoundTrip(n: nat)
    ensures AllDigits(ZeroPad2(n)) && ValueOf(ZeroPad2(n)) == n
    ensures |ZeroPad2(n)| >= 2
    ensures n < 100 <==> |ZeroPad2(n)| == 2
  {
    DigitsRoundTrip(n);
    if n < 10 {
      var s := ZeroPad2(n);
      assert s[..1] == "0";
    } else if n >= 100 {
      DigitsRoundTrip(n / 10);
    }
  }
}
