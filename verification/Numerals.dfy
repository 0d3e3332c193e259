/** Decimal digit strings: how Python prints and reads whole numbers. */
module Numerals {

  predicate IsDigit(c: char) {
    '0' <= c <= '9'
  }

  predicate AllDigits(s: string) {
    forall i :: 0 <= i < |s| ==> IsDigit(s[i])
  }

  function DigitChar(d: nat): (c: char)
    requires d < 10
    ensures IsDigit(c) && c as int - '0' as int == d
  {
    '0' + d as char
  }

  /** `str(n)` of a non-negative whole number. */
  function Digits(n: nat): (s: string)
    ensures s != [] && AllDigits(s)
  {
    if n < 10 then [DigitChar(n)] else Digits(n / 10) + [DigitChar(n % 10)]
  }

  /** `int(s)` of a digit string; the empty string reads as zero. */
  function Value(s: string): nat
    requires AllDigits(s)
  {
    if s == [] then 0 else 10 * Value(s[..|s| - 1]) + (s[|s| - 1] as int - '0' as int)
  }

  /** The length of the digit run a text starts with. */
  function Span(t: string): (n: nat)
    ensures n <= |t| && AllDigits(t[..n])
    ensures n < |t| ==> !IsDigit(t[n])
  {
    if t == [] || !IsDigit(t[0]) then 0
    else
      assert forall i :: 1 <= i < 1 + Span(t[1..]) ==> t[i] == t[1..][i - 1];
      1 + Span(t[1..])
  }

  predicate StartsWithDigit(t: string) {
    t != [] && IsDigit(t[0])
  }

  function Zeros(n: nat): (s: string)
    ensures |s| == n && AllDigits(s)
    ensures forall i :: 0 <= i < n ==> s[i] == '0'
  {
    seq(n, i => '0')
  }

  lemma {:induction false} ValueOfDigits(n: nat)
    ensures Value(Digits(n)) == n
  {
    if n >= 10 {
      ValueOfDigits(n / 10);
      assert Digits(n)[..|Digits(n)| - 1] == Digits(n / 10);
    }
  }

  lemma {:induction false} ValueOfPadded(n: nat, s: string)
    requires AllDigits(s)
    ensures AllDigits(Zeros(n) + s) && Value(Zeros(n) + s) == Value(s)
  {
    if s == [] {
      assert Zeros(n) + s == Zeros(n);
      if n > 0 {
        ValueOfPadded(n - 1, s);
        assert Zeros(n)[..n - 1] == Zeros(n - 1) == Zeros(n - 1) + s;
      }
    } else {
      ValueOfPadded(n, s[..|s| - 1]);
      var t := Zeros(n) + s;
      assert t[..|t| - 1] == Zeros(n) + s[..|s| - 1];
    }
  }

  lemma {:induction false} SpanOfDigits(s: string, rest: string)
    requires AllDigits(s) && !StartsWithDigit(rest)
    ensures Span(s + rest) == |s|
    ensures (s + rest)[..|s|] == s && (s + rest)[|s|..] == rest
  {
    if s == [] {
      assert s + rest == rest;
    } else {
      SpanOfDigits(s[1..], rest);
      assert (s + rest)[1..] == s[1..] + rest;
    }
  }
}
