/** JSON string literals as Python's `json.dumps` writes them (ASCII only), and
    as section 7 of RFC 8259 reads them. */
module JsonText {
  import opened Strings
  import opened Decimals

  predicate High(c: Code) { 0xD800 <= c < 0xDC00 }
  predicate Low(c: Code) { 0xDC00 <= c < 0xE000 }

  // ----- hexadecimal escapes ------------------------------------------------

  function HexDigit(d: nat): char
    requires d < 16
  {
    if d < 10 then '0' + d as char else 'a' + (d - 10) as char
  }

  predicate IsHex(c: char) {
    '0' <= c <= '9' || 'a' <= c <= 'f' || 'A' <= c <= 'F'
  }

  function HexValue(c: char): (d: nat)
    requires IsHex(c)
    ensures d < 16
  {
    if c <= '9' then c as int - '0' as int
    else if c >= 'a' then c as int - 'a' as int + 10
    else c as int - 'A' as int + 10
  }

  function Escape16(n: nat): (t: string)
    requires n < 0x10000
    ensures |t| == 6
  {
    ['\\', 'u', HexDigit(n / 4096), HexDigit(n / 256 % 16), HexDigit(n / 16 % 16), HexDigit(n % 16)]
  }

  /** The text starts with a `\u` escape. */
  predicate HasEscape16(t: string) {
    |t| >= 6 && t[0] == '\\' && t[1] == 'u' && IsHex(t[2]) && IsHex(t[3]) && IsHex(t[4]) && IsHex(t[5])
  }

  function ReadEscape16(t: string): (n: nat)
    requires HasEscape16(t)
    ensures n < 0x10000
  {
    4096 * HexValue(t[2]) + 256 * HexValue(t[3]) + 16 * HexValue(t[4]) + HexValue(t[5])
  }

  lemma HexDigitValue(d: nat)
    requires d < 16
    ensures IsHex(HexDigit(d)) && HexValue(HexDigit(d)) == d
  {
  }

  lemma ReadOfEscape16(n: nat, rest: string)
    requires n < 0x10000
    ensures HasEscape16(Escape16(n) + rest)
    ensures ReadEscape16(Escape16(n) + rest) == n
    ensures (Escape16(n) + rest)[6..] == rest
  {
    HexDigitValue(n / 4096);
    HexDigitValue(n / 256 % 16);
    HexDigitValue(n / 16 % 16);
    HexDigitValue(n % 16);
    HexSum(n);
  }

  lemma HexSum(n: nat)
    requires n < 0x10000
    ensures 4096 * (n / 4096) + 256 * (n / 256 % 16) + 16 * (n / 16 % 16) + n % 16 == n
  {
    assert n / 16 / 16 == n / 256 && n / 256 / 16 == n / 4096;
  }

  // ----- one character ------------------------------------------------------

  /** One code point inside a literal. Beyond the basic plane it is a pair of escapes. */
  function Escape(c: Code): (t: string)
    ensures t != [] && t[0] != '"'
  {
    if c == 0x22 then "\\\""
    else if c == 0x5C then "\\\\"
    else if c == 0x0A then "\\n"
    else if c == 0x0D then "\\r"
    else if c == 0x09 then "\\t"
    else if c == 0x0C then "\\f"
    else if c == 0x08 then "\\b"
    else if 0x20 <= c <= 0x7E then [c as char]
    else if c < 0x10000 then Escape16(c)
    else Escape16(0xD800 + (c - 0x10000) / 0x400) + Escape16(0xDC00 + (c - 0x10000) % 0x400)
  }

  function Combine(high: Code, low: Code): Code
    requires High(high) && Low(low)
  {
    0x10000 + (high - 0xD800) * 0x400 + (low - 0xDC00)
  }

  function ReadChar(t: string): (r: Option<(Code, string)>)
    requires t != []
    ensures r.Some? ==> |r.value.1| < |t|
  {
    if t[0] != '\\' then
      (if t[0] as int < 0x20 then None else Some((t[0] as int, t[1..])))
    else if HasEscape16(t) then
      var n := ReadEscape16(t);
      if High(n) && HasEscape16(t[6..]) && Low(ReadEscape16(t[6..]))
      then Some((Combine(n, ReadEscape16(t[6..])), t[12..]))
      else Some((n, t[6..]))
    else if |t| < 2 then None
    else
      match t[1]
      case '"' => Some((0x22, t[2..]))
      case '\\' => Some((0x5C, t[2..]))
      case '/' => Some((0x2F, t[2..]))
      case 'n' => Some((0x0A, t[2..]))
      case 'r' => Some((0x0D, t[2..]))
      case 't' => Some((0x09, t[2..]))
      case 'f' => Some((0x0C, t[2..]))
      case 'b' => Some((0x08, t[2..]))
      case _ => None
  }

  predicate StartsWithLow(t: string) {
    HasEscape16(t) && Low(ReadEscape16(t))
  }

  lemma ReadOfPlain(c: Code, rest: string)
    requires c < 0x80 || (c < 0x10000 && !High(c))
    ensures ReadChar(Escape(c) + rest) == Some((c, rest))
  {
    var t := Escape(c) + rest;
    if c < 0x20 || c > 0x7E {
      if c == 0x0A || c == 0x0D || c == 0x09 || c == 0x0C || c == 0x08 {
        assert t[2..] == rest;
      } else {
        ReadOfEscape16(c, rest);
      }
    } else if c == 0x22 || c == 0x5C {
      assert t[2..] == rest;
    } else {
      assert t[1..] == rest;
    }
  }

  lemma ReadOfAstral(c: Code, rest: string)
    requires c >= 0x10000
    ensures ReadChar(Escape(c) + rest) == Some((c, rest))
  {
    var v := c - 0x10000;
    var h, l := 0xD800 + v / 0x400, 0xDC00 + v % 0x400;
    HalvesOf(v, v / 0x400, v % 0x400);
    assert Escape(c) + rest == Escape16(h) + (Escape16(l) + rest);
    ReadOfEscapedPair(h, l, rest);
  }

  lemma HalvesOf(v: nat, h: nat, l: nat)
    requires v < 0x100000 && h == v / 0x400 && l == v % 0x400
    ensures h < 0x400 && l < 0x400 && h * 0x400 + l == v
  {
  }

  lemma ReadOfEscapedPair(h: nat, l: nat, rest: string)
    requires 0xD800 <= h < 0xDC00 <= l < 0xE000
    ensures ReadChar(Escape16(h) + (Escape16(l) + rest)) == Some((Combine(h, l), rest))
  {
    ReadOfEscape16(h, Escape16(l) + rest);
    ReadOfEscape16(l, rest);
    assert (Escape16(h) + (Escape16(l) + rest))[12..] == rest;
  }

  lemma ReadOfLoneHigh(c: Code, rest: string)
    requires High(c) && !StartsWithLow(rest)
    ensures ReadChar(Escape(c) + rest) == Some((c, rest))
  {
    ReadOfEscape16(c, rest);
  }

  lemma ReadOfPair(h: Code, l: Code, rest: string)
    requires High(h) && Low(l)
    ensures ReadChar(Escape(h) + (Escape(l) + rest)) == Some((Combine(h, l), rest))
  {
    ReadOfEscape16(h, Escape16(l) + rest);
    ReadOfEscape16(l, rest);
    assert (Escape(h) + (Escape(l) + rest))[12..] == rest;
  }

  // ----- whole literals -----------------------------------------------------

  function EscapeAll(s: Str): string {
    if s == [] then "" else Escape(s[0]) + EscapeAll(s[1..])
  }

  /** The body of a literal up to its closing quote, and the text after it. */
  function ReadBody(t: string): (r: Option<(Str, string)>)
    ensures r.Some? ==> |r.value.1| < |t|
    decreases |t|
  {
    if t == [] then None
    else if t[0] == '"' then Some(([], t[1..]))
    else
      match ReadChar(t)
      case None => None
      case Some((c, rest)) =>
        match ReadBody(rest)
        case None => None
        case Some((s, after)) => Some(([c] + s, after))
  }

  /** A high surrogate written just before a low one reads back as one character. */
  function Join(s: Str): Str {
    if s == [] then []
    else if |s| > 1 && High(s[0]) && Low(s[1]) then [Combine(s[0], s[1])] + Join(s[2..])
    else [s[0]] + Join(s[1..])
  }

  /** No high surrogate stands directly before a low one. */
  predicate WellPaired(s: Str) {
    forall i :: 0 <= i < |s| - 1 ==> !(High(s[i]) && Low(s[i + 1]))
  }

  lemma EscapeNotLow(c: Code, tail: string)
    requires !Low(c)
    ensures !StartsWithLow(Escape(c) + tail)
  {
    if c >= 0x10000 {
      AstralNotLow(c, tail);
    } else if Escape(c) == Escape16(c) {
      ReadOfEscape16(c, tail);
    } else {
      assert Escape(c)[0] != '\\' || |Escape(c)| == 2;
      assert (Escape(c) + tail)[..|Escape(c)|] == Escape(c);
    }
  }

  lemma AstralNotLow(c: Code, tail: string)
    requires c >= 0x10000
    ensures !StartsWithLow(Escape(c) + tail)
  {
    var v := c - 0x10000;
    var h, l := 0xD800 + v / 0x400, 0xDC00 + v % 0x400;
    HalvesOf(v, v / 0x400, v % 0x400);
    assert Escape(c) + tail == Escape16(h) + (Escape16(l) + tail);
    HighNotLow(h, Escape16(l) + tail);
  }

  lemma HighNotLow(h: nat, tail: string)
    requires 0xD800 <= h < 0xDC00
    ensures !StartsWithLow(Escape16(h) + tail)
  {
    ReadOfEscape16(h, tail);
  }

  lemma NotLow(s: Str, rest: string)
    requires s == [] || !Low(s[0])
    ensures !StartsWithLow(EscapeAll(s) + ("\"" + rest))
  {
    if s != [] {
      var tail := EscapeAll(s[1..]) + ("\"" + rest);
      assert EscapeAll(s) + ("\"" + rest) == Escape(s[0]) + tail;
      EscapeNotLow(s[0], tail);
    }
  }

  lemma ReadOfEscapedChar(c: Code, after: string)
    requires High(c) ==> !StartsWithLow(after)
    ensures ReadChar(Escape(c) + after) == Some((c, after))
  {
    if High(c) {
      ReadOfLoneHigh(c, after);
    } else if c >= 0x10000 {
      ReadOfAstral(c, after);
    } else {
      ReadOfPlain(c, after);
    }
  }

  /** No escape starts with the closing quote. */
  lemma EscapeOpens(c: Code, after: string)
    ensures Escape(c) != [] && (Escape(c) + after)[0] != '"'
  {
    assert (Escape(c) + after)[0] == Escape(c)[0];
  }

  lemma BodyStep(t: string, c: Code, rest: string)
    requires t != [] && t[0] != '"' && ReadChar(t) == Some((c, rest))
    ensures ReadBody(t) == match ReadBody(rest) case None => None case Some((s, after)) => Some(([c] + s, after))
  {
  }

  lemma ReadOfSingle(c: Code, after: string)
    requires High(c) ==> !StartsWithLow(after)
    ensures ReadBody(Escape(c) + after)
         == match ReadBody(after) case None => None case Some((s, end)) => Some(([c] + s, end))
  {
    ReadOfEscapedChar(c, after);
    EscapeOpens(c, after);
    BodyStep(Escape(c) + after, c, after);
  }

  lemma ReadOfJoined(h: Code, l: Code, after: string)
    requires High(h) && Low(l)
    ensures ReadBody(Escape(h) + (Escape(l) + after))
         == match ReadBody(after) case None => None case Some((s, end)) => Some(([Combine(h, l)] + s, end))
  {
    ReadOfPair(h, l, after);
    EscapeOpens(h, Escape(l) + after);
    BodyStep(Escape(h) + (Escape(l) + after), Combine(h, l), after);
  }

  lemma EscapeOne(s: Str, close: string)
    requires s != []
    ensures EscapeAll(s) + close == Escape(s[0]) + (EscapeAll(s[1..]) + close)
  {
  }

  lemma EscapePair(s: Str, close: string)
    requires |s| > 1
    ensures EscapeAll(s) + close == Escape(s[0]) + (Escape(s[1]) + (EscapeAll(s[2..]) + close))
  {
    assert s[1..][1..] == s[2..] && s[1..][0] == s[1];
    EscapeOne(s, close);
    EscapeOne(s[1..], close);
  }

  /** Reading what was printed gives the text back, surrogate pairs joined. */
  lemma {:induction false} ReadOfEscaped(s: Str, rest: string)
    ensures ReadBody(EscapeAll(s) + ("\"" + rest)) == Some((Join(s), rest))
  {
    var close := "\"" + rest;
    if s == [] {
      assert EscapeAll(s) + close == close;
      assert close[1..] == rest;
    } else if |s| > 1 && High(s[0]) && Low(s[1]) {
      EscapePair(s, close);
      ReadOfJoined(s[0], s[1], EscapeAll(s[2..]) + close);
      ReadOfEscaped(s[2..], rest);
    } else {
      EscapeOne(s, close);
      if High(s[0]) {
        NotLow(s[1..], rest);
      }
      ReadOfSingle(s[0], EscapeAll(s[1..]) + close);
      ReadOfEscaped(s[1..], rest);
    }
  }

  lemma EscapeOfCombined(h: Code, l: Code)
    requires High(h) && Low(l)
    ensures Escape(Combine(h, l)) == Escape(h) + Escape(l)
  {
    var v := Combine(h, l) - 0x10000;
    assert v / 0x400 == h - 0xD800 && v % 0x400 == l - 0xDC00;
  }

  lemma EscapeCons(c: Code, s: Str)
    ensures EscapeAll([c] + s) == Escape(c) + EscapeAll(s)
  {
    assert ([c] + s)[1..] == s;
  }

  /** Joining pairs does not change what is printed. */
  lemma {:induction false} EscapeOfJoined(s: Str)
    ensures EscapeAll(Join(s)) == EscapeAll(s)
  {
    if s == [] {
    } else if |s| > 1 && High(s[0]) && Low(s[1]) {
      EscapeOfJoined(s[2..]);
      EscapeOfCombined(s[0], s[1]);
      EscapeCons(Combine(s[0], s[1]), Join(s[2..]));
      EscapeCons(s[1], s[2..]);
      EscapeCons(s[0], [s[1]] + s[2..]);
      PairedTail(s, Escape(s[0]), Escape(s[1]), EscapeAll(s[2..]));
    } else {
      EscapeOfJoined(s[1..]);
      EscapeCons(s[0], Join(s[1..]));
    }
  }

  lemma PairedTail(s: Str, a: string, b: string, c: string)
    requires |s| > 1
    ensures [s[0]] + ([s[1]] + s[2..]) == s
    ensures (a + b) + c == a + (b + c)
  {
  }

  /** A text is its own joined form exactly when no pair of surrogates stands side by side. */
  lemma {:induction false} JoinIsIdentity(s: Str)
    ensures Join(s) == s <==> WellPaired(s)
    ensures |Join(s)| <= |s|
  {
    if s != [] {
      if |s| > 1 && High(s[0]) && Low(s[1]) {
        JoinIsIdentity(s[2..]);
      } else {
        JoinIsIdentity(s[1..]);
        assert Join(s)[1..] == Join(s[1..]);
        if WellPaired(s[1..]) {
          assert s == [s[0]] + s[1..];
          forall i | 0 <= i < |s| - 1 ensures !(High(s[i]) && Low(s[i + 1])) {
            if i > 0 { assert s[i] == s[1..][i - 1] && s[i + 1] == s[1..][i]; }
          }
        } else {
          var i :| 0 <= i < |s[1..]| - 1 && High(s[1..][i]) && Low(s[1..][i + 1]);
          assert High(s[i + 1]) && Low(s[i + 2]);
        }
      }
    }
  }
}
