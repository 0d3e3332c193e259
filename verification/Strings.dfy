/** Python strings and their ordering.

    A Python `str` is a sequence of code points, lone surrogates included, so a
    text is modelled as a sequence of integers rather than of Dafny characters. */
module Strings {

  type Code = c: int | 0 <= c < 0x110000
  type Str = seq<Code>

  /** A string literal as a text. */
  function U(s: string): (r: Str)
    ensures |r| == |s|
    ensures forall i :: 0 <= i < |s| ==> r[i] == s[i] as int
  {
    seq(|s|, i requires 0 <= i < |s| => s[i] as int)
  }

  /** Code-point lexicographic order, the order of Python's `<=` on strings. */
  predicate StrLe(a: Str, b: Str) {
    a == [] || (b != [] && (a[0] < b[0] || (a[0] == b[0] && StrLe(a[1..], b[1..]))))
  }

  lemma StrLeTotal(a: Str, b: Str)
    ensures StrLe(a, b) || StrLe(b, a)
  {
  }

  lemma {:induction false} StrLeAntisymmetric(a: Str, b: Str)
    requires StrLe(a, b) && StrLe(b, a)
    ensures a == b
  {
    if a != [] && b != [] {
      StrLeAntisymmetric(a[1..], b[1..]);
      assert a == [a[0]] + a[1..];
      assert b == [b[0]] + b[1..];
    }
  }

  lemma {:induction false} StrLeTransitive(a: Str, b: Str, c: Str)
    requires StrLe(a, b) && StrLe(b, c)
    ensures StrLe(a, c)
  {
    if a != [] && b != [] && c != [] && a[0] == b[0] == c[0] {
      StrLeTransitive(a[1..], b[1..], c[1..]);
    }
  }

  lemma UInjective(s: string, t: string)
    ensures U(s) == U(t) <==> s == t
  {
    if U(s) == U(t) {
      assert |s| == |t|;
      forall i | 0 <= i < |s| ensures s[i] == t[i] {
        assert U(s)[i] == U(t)[i];
      }
    }
  }

  /** One text comes before another if it is the beginning of it, or is the lesser at the first
      place where they differ. */
  lemma {:induction false} StrLeExactly(a: Str, b: Str)
    ensures StrLe(a, b) <==> a <= b || exists k :: LesserAt(a, b, k)
  {
    if a != [] && b != [] && a[0] == b[0] {
      StrLeExactly(a[1..], b[1..]);
      assert a == [a[0]] + a[1..] && b == [b[0]] + b[1..];
      if exists k :: LesserAt(a[1..], b[1..], k) {
        var k :| LesserAt(a[1..], b[1..], k);
        assert a[..k + 1] == [a[0]] + a[1..][..k] && b[..k + 1] == [b[0]] + b[1..][..k];
        assert LesserAt(a, b, k + 1);
      }
      if exists k :: LesserAt(a, b, k) {
        var k :| LesserAt(a, b, k);
        assert a[1..][..k - 1] == a[..k][1..] && b[1..][..k - 1] == b[..k][1..];
        assert LesserAt(a[1..], b[1..], k - 1);
      }
    } else if a != [] && b != [] && a[0] < b[0] {
      assert LesserAt(a, b, 0);
    } else if a != [] && b != [] {
      forall k | 0 < k <= |a| && k <= |b| ensures a[..k] != b[..k] {
        assert a[..k][0] == a[0] && b[..k][0] == b[0];
      }
    }
  }

  predicate LesserAt(a: Str, b: Str, k: int) {
    0 <= k < |a| && k < |b| && a[..k] == b[..k] && a[k] < b[k]
  }
}
