/**
 * Decimal rendering of non-negative integers, as Python's `str(n)` and the
 * zero-padded format specs `{:02}` / `{:04}` produce them, together with the
 * digit-string reader that undoes them.
 */
module Decimal {

  predicate IsDigit(c: char) {
    '0' <= c <= '9'
  }

  predicate AllDigits(s: string) {
    forall i :: 0 <= i < |s| ==> IsDigit(s[i])
  }

  function DigitChar(d: nat): (c: char)
    requires d < 10
    ensures IsDigit(c)
  {
    (('0' as int) + d) as char
  }

  function DigitValue(c: char): (d: nat)
    requires IsDigit(c)
    ensures d < 10
  {
    (c as int) - ('0' as int)
  }

  function Pow10(k: nat): (p: nat)
    ensures p >= 1
  {
    if k == 0 then 1 else 10 * Pow10(k - 1)
  }

  /** `str(n)` for a non-negative integer: the shortest digit string of n. */
  function Digits(n: nat): (s: string)
    ensures 1 <= |s| && AllDigits(s)
    ensures n < Pow10(|s|)
    ensures |s| > 1 ==> Pow10(|s| - 1) <= n
    decreases n
  {
    if n < 10 then [DigitChar(n)] else Digits(n / 10) + [DigitChar(n % 10)]
  }

  /** The number a digit string denotes, most significant digit first. */
  function Value(s: string): nat
    requires AllDigits(s)
  {
    if s == [] then 0 else Value(s[..|s| - 1]) * 10 + DigitValue(s[|s| - 1])
  }

  function Zeros(k: nat): (s: string)
    ensures |s| == k && AllDigits(s)
    ensures forall i :: 0 <= i < k ==> s[i] == '0'
  {
    if k == 0 then [] else Zeros(k - 1) + ['0']
  }

  lemma {:induction false} ValueOfDigits(n: nat)
    ensures Value(Digits(n)) == n
    decreases n
  {
    if n >= 10 {
      var s := Digits(n);
      assert s[..|s| - 1] == Digits(n / 10);
      ValueOfDigits(n / 10);
    }
  }

  lemma {:induction false} ValueIgnoresLeadingZeros(k: nat, s: string)
    requires AllDigits(s)
    ensures AllDigits(Zeros(k) + s) && Value(Zeros(k) + s) == Value(s)
    decreases |s|
  {
    var t := Zeros(k) + s;
    if s == [] {
      assert t == Zeros(k);
      ZerosHaveValueZero(k);
    } else {
      assert t[..|t| - 1] == Zeros(k) + s[..|s| - 1];
      ValueIgnoresLeadingZeros(k, s[..|s| - 1]);
    }
  }

  lemma {:induction false} ZerosHaveValueZero(k: nat)
    ensures Value(Zeros(k)) == 0
  {
    if k > 0 {
      assert Zeros(k)[..k - 1] == Zeros(k - 1);
      ZerosHaveValueZero(k - 1);
    }
  }

  /**
   * `format(n, "0<width>")`: the digits of n, left-padded with zeros to at
   * least `width` characters. Reading the result back gives n.
   */
  function ZeroPad(n: nat, width: nat): (s: string)
    ensures |s| == if |Digits(n)| < width then width else |Digits(n)|
    ensures AllDigits(s) && Value(s) == n
  {
    var d := Digits(n);
    ValueOfDigits(n);
    if |d| < width then
      ValueIgnoresLeadingZeros(width - |d|, d);
      Zeros(width - |d|) + d
    else
      d
  }

  /** Below 10^width the padded string has exactly `width` characters. */
  lemma ZeroPadWidth(n: nat, width: nat)
    requires 1 <= width && n < Pow10(width)
    ensures |ZeroPad(n, width)| == width
  {
    var d := Digits(n);
    if |d| > width {
      Pow10Monotone(width, |d| - 1);
    }
  }

  lemma {:induction false} Pow10Monotone(i: nat, j: nat)
    requires i <= j
    ensures Pow10(i) <= Pow10(j)
    decreases j
  {
    if i < j {
      Pow10Monotone(i, j - 1);
    }
  }

  /**
   * `"{:02}<sep>{:02}<sep>{:02}".format(a, b, c)`: the shape of every
   * clock string the controller prints.
   */
  function PaddedTriple(a: nat, b: nat, c: nat, sep: char): string {
    ZeroPad(a, 2) + [sep] + ZeroPad(b, 2) + [sep] + ZeroPad(c, 2)
  }

  /** `DD<sep>DD<sep>DD`: eight characters, digits around two separators. */
  predicate TripleShape(s: string, sep: char) {
    |s| == 8 && s[2] == sep && s[5] == sep
    && AllDigits(s[0..2]) && AllDigits(s[3..5]) && AllDigits(s[6..8])
  }

  /** Reads the three two-digit fields of a `DD<sep>DD<sep>DD` string. */
  function ReadTriple(s: string, sep: char): (nat, nat, nat)
    requires TripleShape(s, sep)
  {
    (Value(s[0..2]), Value(s[3..5]), Value(s[6..8]))
  }

  /** Each field below 100 keeps its two columns, and the string reads back. */
  lemma PaddedTripleReadsBack(a: nat, b: nat, c: nat, sep: char)
    requires a < 100 && b < 100 && c < 100
    ensures TripleShape(PaddedTriple(a, b, c, sep), sep)
    ensures ReadTriple(PaddedTriple(a, b, c, sep), sep) == (a, b, c)
  {
    ZeroPadWidth(a, 2);
    ZeroPadWidth(b, 2);
    ZeroPadWidth(c, 2);
    var s := PaddedTriple(a, b, c, sep);
    assert s[0..2] == ZeroPad(a, 2);
    assert s[3..5] == ZeroPad(b, 2);
    assert s[6..8] == ZeroPad(c, 2);
  }
}
