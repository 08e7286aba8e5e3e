/** Decimal rendering of natural numbers, as Python's `"%d"` and `"%03d"`
    format them: plain decimal, and decimal left-padded with zeros to at
    least three characters. */
module DecimalFormat {

  predicate IsDigit(c: char) { '0' <= c <= '9' }

  predicate AllDigits(s: string) { forall i :: 0 <= i < |s| ==> IsDigit(s[i]) }

  function DigitChar(d: nat): (c: char)
    requires d < 10
    ensures IsDigit(c) && DigitValue(c) == d
  {
    (48 + d) as char
  }

  function DigitValue(c: char): (d: nat)
    requires IsDigit(c)
    ensures d < 10
  {
    c as int - 48
  }

  /** `"%d" % n`: the shortest decimal numeral of `n`. */
  function Decimal(n: nat): (s: string)
    ensures |s| >= 1 && AllDigits(s)
    ensures s[0] == '0' <==> n == 0
    ensures |s| == 1 <==> n < 10
    decreases n
  {
    if n < 10 then [DigitChar(n)] else Decimal(n / 10) + [DigitChar(n % 10)]
  }

  /** The number a string of decimal digits denotes (leading zeros allowed). */
  function Value(s: string): nat
    requires AllDigits(s)
  {
    if s == [] then 0 else 10 * Value(s[..|s| - 1]) + DigitValue(s[|s| - 1])
  }

  function Zeros(k: nat): (z: string)
    ensures |z| == k && forall i :: 0 <= i < k ==> z[i] == '0'
  {
    seq(k, _ => '0')
  }

  /** `"%0*d" % (width, n)` on the digits `s`: pad on the left with zeros up
      to `width` characters; a longer numeral is kept whole. */
  function ZeroPad(s: string, width: nat): string
  {
    Zeros(if |s| < width then width - |s| else 0) + s
  }

  /** `"%03d" % n`. */
  function Pad3(n: nat): string
  {
    ZeroPad(Decimal(n), 3)
  }

  /** The padded numeral is all digits, at least three long, and is the plain
      numeral of `n` with only zeros in front. */
  lemma Pad3Shape(n: nat)
    ensures AllDigits(Pad3(n)) && |Pad3(n)| >= 3
    ensures |Pad3(n)| >= |Decimal(n)| && Pad3(n)[|Pad3(n)| - |Decimal(n)|..] == Decimal(n)
    ensures forall i :: 0 <= i < |Pad3(n)| - |Decimal(n)| ==> Pad3(n)[i] == '0'
  {
  }

  /** Drops leading zeros but keeps the last character, so "000" becomes "0". */
  function StripLeadingZeros(s: string): string
  {
    if |s| > 1 && s[0] == '0' then StripLeadingZeros(s[1..]) else s
  }

  /** Reading back the numeral of `n` gives `n`. */
  lemma {:induction false} ValueOfDecimal(n: nat)
    ensures Value(Decimal(n)) == n
    decreases n
  {
    if n >= 10 {
      var s := Decimal(n);
      assert s[..|s| - 1] == Decimal(n / 10);
      ValueOfDecimal(n / 10);
    }
  }

  lemma {:induction false} ValueOfZeros(k: nat)
    ensures Value(Zeros(k)) == 0
  {
    if k > 0 {
      assert Zeros(k)[..k - 1] == Zeros(k - 1);
      ValueOfZeros(k - 1);
    }
  }

  /** Leading zeros do not change the value of a numeral. */
  lemma {:induction false} ValueIgnoresLeadingZeros(k: nat, s: string)
    requires AllDigits(s)
    ensures AllDigits(Zeros(k) + s) && Value(Zeros(k) + s) == Value(s)
    decreases |s|
  {
    var t := Zeros(k) + s;
    if s == [] {
      assert t == Zeros(k);
      ValueOfZeros(k);
    } else {
      assert t[..|t| - 1] == Zeros(k) + s[..|s| - 1];
      ValueIgnoresLeadingZeros(k, s[..|s| - 1]);
    }
  }

  /** The padded numeral still denotes `n`: nothing is lost by padding. */
  lemma Pad3Value(n: nat)
    ensures Value(Pad3(n)) == n
  {
    var d := Decimal(n);
    ValueIgnoresLeadingZeros(if |d| < 3 then 3 - |d| else 0, d);
    ValueOfDecimal(n);
  }

  /** Distinct numbers get distinct padded numerals. */
  lemma Pad3Injective(m: nat, n: nat)
    ensures Pad3(m) == Pad3(n) ==> m == n
  {
    Pad3Value(m);
    Pad3Value(n);
  }

  /** The number of digits: 1, 2, 3 below 10, 100, 1000, and more above. */
  lemma DecimalLength(n: nat)
    ensures n < 100 <==> |Decimal(n)| <= 2
    ensures n < 1000 <==> |Decimal(n)| <= 3
  {
  }

  /** Exactly three characters below 1000; from 1000 on the plain numeral,
      never truncated. */
  lemma Pad3Length(n: nat)
    ensures n < 1000 ==> |Pad3(n)| == 3
    ensures n >= 1000 ==> Pad3(n) == Decimal(n) && |Pad3(n)| > 3
  {
    DecimalLength(n);
  }

  lemma {:induction false} StripZerosBeforeNumeral(k: nat, s: string)
    requires |s| >= 1 && (|s| > 1 ==> s[0] != '0')
    ensures StripLeadingZeros(Zeros(k) + s) == s
  {
    if k > 0 {
      assert (Zeros(k) + s)[1..] == Zeros(k - 1) + s;
      StripZerosBeforeNumeral(k - 1, s);
    } else {
      assert Zeros(k) + s == s;
    }
  }

  /** Removing the padding gives back the plain numeral of `n`. */
  lemma Pad3StripsToDecimal(n: nat)
    ensures StripLeadingZeros(Pad3(n)) == Decimal(n)
  {
    var d := Decimal(n);
    StripZerosBeforeNumeral(if |d| < 3 then 3 - |d| else 0, d);
  }
}
