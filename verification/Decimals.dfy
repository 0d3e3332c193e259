/** Python's `Decimal`: its value, its text, its quantisers and its division.

    Sums and products are taken exactly; a quotient is rounded half-even to 28
    significant digits, as Python's default context does. */
module Decimals {
  import opened Numerals

  datatype Option<+T> = None | Some(value: T)

  datatype Decimal = Decimal(negative: bool, coefficient: nat, exponent: int) {
    /** The number this decimal stands for. */
    function V(): real {
      var size := coefficient as real * Pow10(exponent);
      if negative then -size else size
    }
  }

  function Pow10(e: int): (r: real)
    ensures r > 0.0
    decreases if e < 0 then -e else e
  {
    if e == 0 then 1.0 else if e > 0 then 10.0 * Pow10(e - 1) else Pow10(e + 1) / 10.0
  }

  function Abs(n: int): nat {
    if n < 0 then -n else n
  }

  // ----- text ---------------------------------------------------------------

  function Sign(negative: bool): string {
    if negative then "-" else ""
  }

  function Dotted(fraction: string): string {
    if fraction == [] then "" else "." + fraction
  }

  function Scale(e: int): string {
    if e == 0 then "" else if e > 0 then "E+" + Digits(e) else "E-" + Digits(-e)
  }

  /** The digits before and after the point, and the exponent written after them. */
  datatype Layout = Layout(whole: string, fraction: string, e: int)

  /** Plain notation, or scientific for positive or very small exponents. */
  function LayoutOf(d: Decimal): Layout {
    LayoutFrom(Digits(d.coefficient), d.exponent)
  }

  function LayoutFrom(ds: string, exponent: int): Layout {
    var left := exponent + |ds|;
    var dot := if exponent <= 0 && left > -6 then left else 1;
    if dot <= 0 then Layout("0", Zeros(-dot) + ds, left - dot)
    else if dot >= |ds| then Layout(ds + Zeros(dot - |ds|), "", left - dot)
    else Layout(ds[..dot], ds[dot..], left - dot)
  }

  /** `str(d)` */
  function Text(d: Decimal): string {
    TextOf(d.negative, LayoutOf(d))
  }

  function TextOf(negative: bool, l: Layout): string {
    Sign(negative) + (l.whole + (Dotted(l.fraction) + Scale(l.e)))
  }

  /** `Decimal(s)` on a finite numeral. */
  function Parse(s: string): Option<Decimal> {
    if s != [] && s[0] == '-' then ParseUnsigned(true, s[1..]) else ParseUnsigned(false, s)
  }

  function ParseUnsigned(negative: bool, s: string): Option<Decimal> {
    var whole := s[..Span(s)];
    var t := s[Span(s)..];
    if t != [] && t[0] == '.' then
      var u := t[1..];
      ParseScale(negative, whole, u[..Span(u)], u[Span(u)..])
    else
      ParseScale(negative, whole, "", t)
  }

  /** The exponent written at the end of a numeral, zero if there is none. */
  function ReadScale(t: string): Option<int> {
    if t == [] then Some(0)
    else if |t| > 2 && t[0] == 'E' && t[1] == '+' && AllDigits(t[2..]) then Some(Value(t[2..]))
    else if |t| > 2 && t[0] == 'E' && t[1] == '-' && AllDigits(t[2..]) then Some(0 - Value(t[2..]))
    else None
  }

  function ParseScale(negative: bool, whole: string, fraction: string, t: string): Option<Decimal>
    requires AllDigits(whole) && AllDigits(fraction)
  {
    if whole + fraction == [] then None
    else
      match ReadScale(t)
      case None => None
      case Some(e) => Some(Decimal(negative, Value(whole + fraction), e - |fraction|))
  }

  lemma ScaleParts(e: int)
    requires e != 0
    ensures var t := Scale(e);
      |t| > 2 && t[0] == 'E' && t[1] == (if e > 0 then '+' else '-') && t[2..] == Digits(Abs(e))
  {
  }

  lemma ReadOfScale(e: int)
    ensures ReadScale(Scale(e)) == Some(e)
  {
    if e != 0 {
      ScaleParts(e);
      ValueOfDigits(Abs(e));
    }
  }

  lemma ParseScaleWith(negative: bool, whole: string, fraction: string, t: string, e: int)
    requires AllDigits(whole) && whole != [] && AllDigits(fraction) && ReadScale(t) == Some(e)
    ensures ParseScale(negative, whole, fraction, t) == Some(Decimal(negative, Value(whole + fraction), e - |fraction|))
  {
  }

  lemma ParseOfScale(negative: bool, whole: string, fraction: string, e: int)
    requires AllDigits(whole) && whole != [] && AllDigits(fraction)
    ensures ParseScale(negative, whole, fraction, Scale(e))
         == Some(Decimal(negative, Value(whole + fraction), e - |fraction|))
  {
    ReadOfScale(e);
    ParseScaleWith(negative, whole, fraction, Scale(e), e);
  }

  lemma ParsePlain(negative: bool, whole: string, rest: string)
    requires AllDigits(whole) && !StartsWithDigit(rest) && (rest == [] || rest[0] != '.')
    ensures ParseUnsigned(negative, whole + rest) == ParseScale(negative, whole, "", rest)
  {
    SpanOfDigits(whole, rest);
  }

  lemma ParseDotted(negative: bool, whole: string, fraction: string, rest: string)
    requires AllDigits(whole) && AllDigits(fraction) && !StartsWithDigit(rest)
    ensures ParseUnsigned(negative, whole + (("." + fraction) + rest)) == ParseScale(negative, whole, fraction, rest)
  {
    var t := ("." + fraction) + rest;
    SpanOfDigits(whole, t);
    assert t[1..] == fraction + rest;
    SpanOfDigits(fraction, rest);
  }

  lemma ParseOfDotted(negative: bool, whole: string, fraction: string, e: int)
    requires AllDigits(whole) && whole != [] && AllDigits(fraction)
    ensures ParseUnsigned(negative, whole + (Dotted(fraction) + Scale(e)))
         == ParseScale(negative, whole, fraction, Scale(e))
  {
    if e != 0 {
      ScaleParts(e);
    }
    if fraction == [] {
      assert Dotted(fraction) + Scale(e) == Scale(e);
      ParsePlain(negative, whole, Scale(e));
    } else {
      ParseDotted(negative, whole, fraction, Scale(e));
    }
  }

  lemma LayoutKeepsDigits(ds: string, exponent: int)
    requires AllDigits(ds) && ds != []
    ensures var l := LayoutFrom(ds, exponent);
      && AllDigits(l.whole) && l.whole != [] && AllDigits(l.fraction)
      && Value(l.whole + l.fraction) == Value(ds) && l.e - |l.fraction| == exponent
  {
    var left := exponent + |ds|;
    var dot := if exponent <= 0 && left > -6 then left else 1;
    if dot <= 0 {
      assert "0" + (Zeros(-dot) + ds) == Zeros(1 - dot) + ds;
      ValueOfPadded(1 - dot, ds);
    } else if dot >= |ds| {
      assert ds + Zeros(dot - |ds|) + "" == ds;
    } else {
      assert ds[..dot] + ds[dot..] == ds;
    }
  }

  lemma SignedParse(negative: bool, body: string)
    requires body != [] && body[0] != '-'
    ensures Parse(Sign(negative) + body) == ParseUnsigned(negative, body)
  {
    if negative {
      assert (Sign(negative) + body)[1..] == body;
    } else {
      assert Sign(negative) + body == body;
    }
  }

  lemma ParseOfParts(negative: bool, whole: string, fraction: string, e: int)
    requires AllDigits(whole) && whole != [] && AllDigits(fraction)
    ensures Parse(Sign(negative) + (whole + (Dotted(fraction) + Scale(e))))
         == ParseScale(negative, whole, fraction, Scale(e))
  {
    var rest := Dotted(fraction) + Scale(e);
    assert (whole + rest)[0] == whole[0];
    SignedParse(negative, whole + rest);
    ParseOfDotted(negative, whole, fraction, e);
  }

  lemma LayoutParses(negative: bool, l: Layout)
    requires AllDigits(l.whole) && l.whole != [] && AllDigits(l.fraction)
    ensures Parse(TextOf(negative, l)) == ParseScale(negative, l.whole, l.fraction, Scale(l.e))
  {
    ParseOfParts(negative, l.whole, l.fraction, l.e);
  }

  lemma LayoutReads(d: Decimal, l: Layout)
    requires AllDigits(l.whole) && l.whole != [] && AllDigits(l.fraction)
    requires Value(l.whole + l.fraction) == d.coefficient && l.e - |l.fraction| == d.exponent
    ensures ParseScale(d.negative, l.whole, l.fraction, Scale(l.e)) == Some(d)
  {
    ParseOfScale(d.negative, l.whole, l.fraction, l.e);
  }

  /** Reading back what `str` wrote gives the same sign, digits and exponent. */
  lemma ParseOfText(d: Decimal)
    ensures Parse(Text(d)) == Some(d)
  {
    ValueOfDigits(d.coefficient);
    LayoutKeepsDigits(Digits(d.coefficient), d.exponent);
    LayoutParses(d.negative, LayoutOf(d));
    LayoutReads(d, LayoutOf(d));
  }

  lemma TextInjective(d: Decimal, d': Decimal)
    requires Text(d) == Text(d')
    ensures d == d'
  {
    ParseOfText(d);
    ParseOfText(d');
  }

  lemma Pow10Step(e: int)
    ensures Pow10(e + 1) == 10.0 * Pow10(e)
  {
  }

  // ----- quantisers ---------------------------------------------------------

  datatype Rounding = Down | Floor | Ceiling | HalfUp | Up

  function CeilingOf(x: real): int {
    -((-x).Floor)
  }

  /** A real rounded to a whole number, in the direction the source names. */
  function RoundTo(x: real, mode: Rounding): int {
    match mode
    case Floor => x.Floor
    case Ceiling => CeilingOf(x)
    case Down => if x < 0.0 then CeilingOf(x) else x.Floor
    case Up => if x < 0.0 then x.Floor else CeilingOf(x)
    case HalfUp => if x < 0.0 then -((0.5 - x).Floor) else (x + 0.5).Floor
  }

  /** The five directions, exactly; ties of `HalfUp` go away from zero. */
  lemma RoundToExactly(x: real, mode: Rounding, n: int)
    ensures RoundTo(x, mode) == n <==>
      match mode
      case Floor => n as real <= x < n as real + 1.0
      case Ceiling => n as real - 1.0 < x <= n as real
      case Down => if x >= 0.0 then n as real <= x < n as real + 1.0 else n as real - 1.0 < x <= n as real
      case Up => if x >= 0.0 then n as real - 1.0 < x <= n as real else n as real <= x < n as real + 1.0
      case HalfUp => if x >= 0.0 then n as real - 0.5 <= x < n as real + 0.5 else n as real - 0.5 < x <= n as real + 0.5
  {
  }

  /** The three precisions money is kept at: 2, 4 and 6 decimal places. */
  datatype Places = Cents | PerShare | Ratio {
    function Exponent(): int {
      match this case Cents => -2 case PerShare => -4 case Ratio => -6
    }

    function Times(x: real): real {
      match this case Cents => 100.0 * x case PerShare => 10000.0 * x case Ratio => 1000000.0 * x
    }

    function Over(x: real): real {
      match this case Cents => x / 100.0 case PerShare => x / 10000.0 case Ratio => x / 1000000.0
    }
  }

  /** `Decimal.quantize` */
  function Quantise(x: real, places: Places, mode: Rounding): Decimal {
    Decimal(x < 0.0, Abs(RoundTo(places.Times(x), mode)), places.Exponent())
  }

  lemma SmallPowers()
    ensures Pow10(-2) == 0.01 && Pow10(-4) == 0.0001 && Pow10(-6) == 0.000001
  {
    Pow10Step(-1); Pow10Step(-2); Pow10Step(-3); Pow10Step(-4); Pow10Step(-5); Pow10Step(-6);
    assert Pow10(0) == 1.0;
  }

  /** What a quantised decimal is worth. */
  lemma QuantiseValue(x: real, places: Places, mode: Rounding)
    ensures Quantise(x, places, mode).V() == places.Over(RoundTo(places.Times(x), mode) as real)
  {
    SmallPowers();
    var n := RoundTo(places.Times(x), mode);
    assert if x < 0.0 then n <= 0 else n >= 0;
    WorthAt(n, places);
  }

  lemma WorthAt(n: int, places: Places)
    ensures Abs(n) as real * Pow10(places.Exponent()) == places.Over(Abs(n) as real)
  {
    SmallPowers();
  }

  predicate IsWhole(x: real) {
    x.Floor as real == x
  }

  /** A whole number of hundredths. */
  predicate Hundredths(x: real) { IsWhole(100.0 * x) }

  /** A whole number of ten-thousandths. */
  predicate TenThousandths(x: real) { IsWhole(10000.0 * x) }

  // ----- division -----------------------------------------------------------

  function RoundHalfEven(x: real): (n: int)
    ensures -0.5 <= n as real - x <= 0.5
    ensures n >= x.Floor
  {
    var f := x.Floor;
    var r := x - f as real;
    if r < 0.5 || (r == 0.5 && f % 2 == 0) then f else f + 1
  }

  /** The nearest whole number, and the even one of two as near. */
  lemma HalfEvenExactly(x: real, n: int)
    ensures RoundHalfEven(x) == n <==>
      && n as real - 0.5 <= x <= n as real + 0.5
      && (x == n as real - 0.5 || x == n as real + 0.5 ==> n % 2 == 0)
  {
    var f := x.Floor;
    assert (f + 1) % 2 == 0 <==> f % 2 != 0;
    assert (f - 1) % 2 == 0 <==> f % 2 != 0;
  }

  const TEN27 := 1_000_000_000_000_000_000_000_000_000

  /** The nearest number of 28 significant digits, ties to even: brought to 28
      digits before the point, rounded to a whole number, and scaled back. */
  function Round28Positive(x: real): (r: real)
    requires x > 0.0
    ensures r > 0.0
    decreases x >= 10.0 * TEN27 as real,
              if x >= 10.0 * TEN27 as real then x.Floor else (TEN27 as real / x).Floor
  {
    if x >= 10.0 * TEN27 as real then 10.0 * Round28Positive(x / 10.0)
    else if x < TEN27 as real then
      assert TEN27 as real / (10.0 * x) == (TEN27 as real / x) / 10.0;
      assert TEN27 as real / x > 1.0;
      Round28Positive(10.0 * x) / 10.0
    else RoundHalfEven(x) as real
  }

  /** Rounding to 28 digits, exactly: numbers of 28 digits before the point go to the nearest whole
      number, ties to even, and a factor of ten makes no difference. */
  lemma Round28Exactly(x: real)
    requires x > 0.0
    ensures TEN27 as real <= x < 10.0 * TEN27 as real ==> Round28Positive(x) == RoundHalfEven(x) as real
    ensures Round28Positive(10.0 * x) == 10.0 * Round28Positive(x)
  {
    assert (10.0 * x) / 10.0 == x;
  }

  function Round28(x: real): (r: real)
    ensures r > 0.0 <==> x > 0.0
  {
    if x == 0.0 then 0.0
    else if x < 0.0 then -Round28Positive(-x)
    else Round28Positive(x)
  }

  function Div(n: real, d: real): real
    requires d != 0.0
  {
    Round28(n / d)
  }

  /** `_floor_div`: whole contracts only, zero when the room or the cost is not positive. */
  function FloorDiv(numerator: real, denominator: real): (n: nat) {
    if denominator <= 0.0 || numerator <= 0.0 then 0
    else
      assert numerator / denominator > 0.0;
      Div(numerator, denominator).Floor
  }
}
