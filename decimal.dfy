/**
 * The two JavaScript string built-ins that name downloaded files:
 * `String(n)` of a non-negative integer and `String.prototype.padStart`
 * with a one-character fill. `Value` reads a digit string back; it exists
 * so that the naming scheme can be proved injective.
 */
module Decimal {

  predicate IsDigit(c: char) {
    '0' <= c <= '9'
  }

  predicate AllDigits(s: string) {
    forall i :: 0 <= i < |s| ==> IsDigit(s[i])
  }

  function DigitValue(c: char): (d: nat)
    requires IsDigit(c)
    ensures d < 10
  {
    c as int - '0' as int
  }

  function DigitChar(d: nat): (c: char)
    requires d < 10
    ensures IsDigit(c) && DigitValue(c) == d
  {
    ('0' as int + d) as char
  }

  /** The number a digit string denotes; leading zeros contribute nothing. */
  function Value(s: string): nat
    requires AllDigits(s)
  {
    if s == [] then 0 else Value(s[..|s| - 1]) * 10 + DigitValue(s[|s| - 1])
  }

  /** `String(n)`: the decimal form of `n` without leading zeros, which reads back as `n`. */
  function Show(n: nat): (s: string)
    ensures 1 <= |s| && AllDigits(s)
    ensures n == 0 ==> s == "0"
    ensures n == 0 || s[0] != '0'
    ensures Value(s) == n
  {
    if n < 10 then [DigitChar(n)]
    else
      var prefix := Show(n / 10);
      var s := prefix + [DigitChar(n % 10)];
      assert s[..|s| - 1] == prefix;
      s
  }

  /** A larger number never has a shorter decimal form. */
  lemma {:induction false} ShowWidthMonotone(n: nat, m: nat)
    requires n <= m
    ensures |Show(n)| <= |Show(m)|
  {
    if n >= 10 {
      ShowWidthMonotone(n / 10, m / 10);
    }
  }

  function Repeat(c: char, k: nat): (r: string)
    ensures |r| == k
    ensures forall i :: 0 <= i < k ==> r[i] == c
  {
    if k == 0 then [] else [c] + Repeat(c, k - 1)
  }

  /**
   * `s.padStart(width, fill)` with a one-character `fill`: `s` itself when it is
   * already `width` long or longer, otherwise `s` preceded by enough copies of
   * `fill` to make it exactly `width` long.
   */
  function PadStart(s: string, width: nat, fill: char): (r: string)
    ensures |r| == if |s| < width then width else |s|
    ensures r[|r| - |s|..] == s
    ensures forall i :: 0 <= i < |r| - |s| ==> r[i] == fill
  {
    if |s| < width then Repeat(fill, width - |s|) + s else s
  }

  /** Zeros put in front of a digit string do not change its value. */
  lemma {:induction false} ValueLeadingZeros(k: nat, s: string)
    requires AllDigits(s)
    ensures AllDigits(Repeat('0', k) + s)
    ensures Value(Repeat('0', k) + s) == Value(s)
  {
    var z := Repeat('0', k);
    if s == [] {
      assert z + s == z;
      ZerosValue(k);
    } else {
      var init := s[..|s| - 1];
      ValueLeadingZeros(k, init);
      assert (z + s)[..|z + s| - 1] == z + init;
    }
  }

  lemma {:induction false} ZerosValue(k: nat)
    ensures AllDigits(Repeat('0', k))
    ensures Value(Repeat('0', k)) == 0
  {
    if k > 0 {
      var z := Repeat('0', k);
      ZerosValue(k - 1);
      assert z[..k - 1] == Repeat('0', k - 1);
    }
  }

  /** Left-padding with zeros keeps the number a digit string denotes. */
  lemma PadValue(s: string, width: nat)
    requires AllDigits(s)
    ensures AllDigits(PadStart(s, width, '0'))
    ensures Value(PadStart(s, width, '0')) == Value(s)
  {
    if |s| < width {
      ValueLeadingZeros(width - |s|, s);
    }
  }
}
