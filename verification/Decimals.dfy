/** Decimal digits, printed and read. */
module Decimals {

  /** The signed 64-bit integers that numerals are read into. */
  type I64 = n: int | -0x8000_0000_0000_0000 <= n <= 0x7fff_ffff_ffff_ffff

  predicate IsDigit(c: char) {
    '0' <= c <= '9'
  }

  function DigitValue(c: char): (v: nat)
    requires IsDigit(c)
    ensures v < 10
  {
    (c as int) - ('0' as int)
  }

  function DigitChar(v: nat): (c: char)
    requires v < 10
    ensures IsDigit(c) && DigitValue(c) == v
  {
    (v + '0' as int) as char
  }

  predicate AllDigits(s: string) {
    forall i :: 0 <= i < |s| ==> IsDigit(s[i])
  }

  function DigitsValue(s: string): nat
    requires AllDigits(s)
    decreases |s|
  {
    if s == [] then 0 else 10 * DigitsValue(s[..|s| - 1]) + DigitValue(s[|s| - 1])
  }

  function Pow10(k: nat): (p: nat)
    ensures p > 0
    decreases k
  {
    if k == 0 then 1 else 10 * Pow10(k - 1)
  }

  function Decimal(n: nat): (s: string)
    ensures |s| > 0 && AllDigits(s)
    decreases n
  {
    if n < 10 then [DigitChar(n)] else Decimal(n / 10) + [DigitChar(n % 10)]
  }

  function Repeat(c: char, k: nat): (s: string)
    ensures |s| == k && forall i :: 0 <= i < k ==> s[i] == c
  {
    seq(k, _ => c)
  }

  /** `{n:0width}`: at least `width` digits. */
  function Padded(n: nat, width: nat): (s: string)
    ensures AllDigits(s)
  {
    var digits := Decimal(n);
    if |digits| >= width then digits else Repeat('0', width - |digits|) + digits
  }

  lemma {:induction false} DecimalValue(n: nat)
    ensures DigitsValue(Decimal(n)) == n
    ensures n > 0 ==> Decimal(n)[0] != '0'
    decreases n
  {
    if n >= 10 {
      DecimalValue(n / 10);
      var s := Decimal(n);
      assert s[..|s| - 1] == Decimal(n / 10);
      assert s[0] == Decimal(n / 10)[0];
    }
  }

  lemma {:induction false} DecimalLength(n: nat, width: nat)
    requires width > 0 && n < Pow10(width)
    ensures |Decimal(n)| <= width
    decreases width
  {
    if n >= 10 {
      DecimalLength(n / 10, width - 1);
    }
  }

  lemma {:induction false} LeadingZeros(k: nat, s: string)
    requires AllDigits(s)
    ensures AllDigits(Repeat('0', k) + s) && DigitsValue(Repeat('0', k) + s) == DigitsValue(s)
    decreases k + |s|
  {
    var t := Repeat('0', k) + s;
    if s != [] {
      LeadingZeros(k, s[..|s| - 1]);
      assert t[..|t| - 1] == Repeat('0', k) + s[..|s| - 1];
    } else if k > 0 {
      LeadingZeros(k - 1, s);
      assert t[..|t| - 1] == Repeat('0', k - 1) + s;
    }
  }

  lemma {:induction false} TrailingZeros(s: string, k: nat)
    requires AllDigits(s)
    ensures AllDigits(s + Repeat('0', k)) && DigitsValue(s + Repeat('0', k)) == DigitsValue(s) * Pow10(k)
    decreases k
  {
    var t := s + Repeat('0', k);
    if k == 0 {
      assert t == s;
    } else {
      TrailingZeros(s, k - 1);
      assert t[..|t| - 1] == s + Repeat('0', k - 1);
      assert 10 * (DigitsValue(s) * Pow10(k - 1)) == DigitsValue(s) * (10 * Pow10(k - 1));
    }
  }

  /** A number below 10^width is printed in exactly `width` digits that read back as the number. */
  lemma PaddedReads(n: nat, width: nat)
    requires width > 0 && n < Pow10(width)
    ensures |Padded(n, width)| == width && DigitsValue(Padded(n, width)) == n
  {
    DecimalLength(n, width);
    DecimalValue(n);
    LeadingZeros(width - |Decimal(n)|, Decimal(n));
    assert Repeat('0', 0) + Decimal(n) == Decimal(n);
  }

  lemma SmallPowers()
    ensures Pow10(2) == 100 && Pow10(3) == 1000 && Pow10(4) == 10000 && Pow10(6) == 1000000 && Pow10(9) == 1000000000
  {
    assert Pow10(4) == 10 * Pow10(3);
    assert Pow10(6) == 10 * (10 * Pow10(4));
    assert Pow10(9) == 10 * (10 * (10 * Pow10(6)));
  }
}
