/** The pricing formulas. `None` stands for the `MoneyError` the source raises. */
module Formulas {
  import opened Decimals
  import opened Division
  import opened Domain
  import opened Market

  function SafeDiv(n: real, d: real): Option<real> {
    if d == 0.0 then None else Some(Div(n, d))
  }

  function Size(x: real): real { if x < 0.0 then -x else x }
  function Lesser(a: real, b: real): real { if b < a then b else a }
  function Greater(a: real, b: real): real { if b > a then b else a }

  function SpreadWidth(shortStrike: real, longStrike: real): Option<Decimal> {
    var width := shortStrike - longStrike;
    if width <= 0.0 then None else Some(Quantise(width, PerShare, HalfUp))
  }

  function NetCredit(shortBid: real, longAsk: real): Option<Decimal> {
    var credit := shortBid - longAsk;
    if credit <= 0.0 then None else Some(Quantise(credit, Cents, Floor))
  }

  function MaxProfit(credit: real): Decimal {
    Quantise(credit * 100.0, Cents, Floor)
  }

  function MaxLoss(width: real, credit: real): Option<Decimal> {
    if credit >= width then None else Some(Quantise((width - credit) * 100.0, Cents, Ceiling))
  }

  function Breakeven(shortStrike: real, credit: real): Decimal {
    Quantise(shortStrike - credit, PerShare, HalfUp)
  }

  function CreditToWidth(credit: real, width: real): Option<Decimal> {
    match SafeDiv(credit, width) case None => None case Some(r) => Some(Quantise(r, Ratio, HalfUp))
  }

  function LossProbability(shortDelta: real): Option<Decimal> {
    var p := Size(shortDelta);
    if p > 1.0 then None else Some(Quantise(p, Ratio, HalfUp))
  }

  /** Expected value before it is rounded down to cents. */
  function RawValue(p: real, profit: real, loss: real): real {
    (1.0 - p) * profit - p * loss
  }

  function ExpectedValue(p: real, profit: real, loss: real): Decimal {
    Quantise(RawValue(p, profit, loss), Cents, Floor)
  }

  function EdgeRatio(ev: real, loss: real): Option<Decimal> {
    match SafeDiv(ev, loss) case None => None case Some(r) => Some(Quantise(r, Ratio, HalfUp))
  }

  /** Half spread tightness, a quarter depth, a quarter open interest. */
  function LiquidityScore(q: ContractQuote, maxBidAskPct: real, minDepth: real, minOi: real): Option<Decimal> {
    match q.SpreadPct()
    case None => None
    case Some(spread) =>
      match (SafeDiv(spread, maxBidAskPct), SafeDiv(Lesser(q.bidSize as real, q.askSize as real), minDepth),
             InterestShare(q, minOi))
      case (Some(tightness), Some(depth), Some(interest)) =>
        Some(Quantise(0.5 * (1.0 - Lesser(1.0, tightness)) + 0.25 * Lesser(1.0, depth) + 0.25 * interest, Ratio,
                      HalfUp))
      case _ => None
  }

  function InterestShare(q: ContractQuote, minOi: real): Option<real> {
    match q.openInterest
    case None => Some(0.5)
    case Some(oi) => (match SafeDiv(oi as real, minOi) case None => None case Some(r) => Some(Lesser(1.0, r)))
  }

  // ----- position_greeks ------------------------------------------------------------

  function SignOf(leg: Leg): int {
    if leg.side.Buy? then leg.ratioQty else 0 - leg.ratioQty
  }

  function Share(leg: Leg, greek: Decimal): real {
    SignOf(leg) as real * greek.V() * 100.0
  }

  /** The signed exposure of the legs, if every one has both Greeks. */
  function Exposure(legs: seq<Leg>, quotes: map<string, ContractQuote>): Option<(real, real)> {
    if legs == [] then Some((0.0, 0.0))
    else
      var leg := legs[|legs| - 1];
      match Exposure(legs[..|legs| - 1], quotes)
      case None => None
      case Some((delta, vega)) =>
        if leg.symbol in quotes && quotes[leg.symbol].delta.Some? && quotes[leg.symbol].vega.Some? then
          Some((delta + Share(leg, quotes[leg.symbol].delta.value), vega + Share(leg, quotes[leg.symbol].vega.value)))
        else None
  }

  function PositionGreeks(legs: seq<Leg>, quotes: map<string, ContractQuote>): Option<(Decimal, Decimal)> {
    match Exposure(legs, quotes)
    case None => None
    case Some((delta, vega)) => Some((Quantise(delta, PerShare, HalfUp), Quantise(vega, PerShare, HalfUp)))
  }

  method PositionGreeksLoop(legs: seq<Leg>, quotes: map<string, ContractQuote>) returns (r: Option<(Decimal, Decimal)>)
    ensures r == PositionGreeks(legs, quotes)
  {
    var delta, vega := 0.0, 0.0;
    for i := 0 to |legs|
      invariant Exposure(legs[..i], quotes) == Some((delta, vega))
    {
      assert legs[..i + 1][..i] == legs[..i];
      var leg := legs[i];
      if leg.symbol !in quotes || quotes[leg.symbol].delta.None? || quotes[leg.symbol].vega.None? {
        NeverPriced(legs, quotes, i + 1);
        return None;
      }
      delta := delta + Share(leg, quotes[leg.symbol].delta.value);
      vega := vega + Share(leg, quotes[leg.symbol].vega.value);
    }
    assert legs[..|legs|] == legs;
    r := Some((Quantise(delta, PerShare, HalfUp), Quantise(vega, PerShare, HalfUp)));
  }

  lemma {:induction false} NeverPriced(legs: seq<Leg>, quotes: map<string, ContractQuote>, i: nat)
    requires i <= |legs| && Exposure(legs[..i], quotes).None?
    ensures Exposure(legs, quotes).None?
  {
    if i < |legs| {
      assert legs[..|legs| - 1][..i] == legs[..i];
      NeverPriced(legs[..|legs| - 1], quotes, i);
    } else {
      assert legs[..i] == legs;
    }
  }

  lemma TwoShares(short: Leg, long: Leg, a: Decimal, b: Decimal)
    requires short.side.Sell? && long.side.Buy? && short.ratioQty == 1 == long.ratioQty
    ensures (0.0 + Share(short, a)) + Share(long, b) == 100.0 * (b.V() - a.V())
  {
  }

  /** What the loop's signs come to on a spread: long the bought leg's Greeks, short the sold
      one's, a hundred shares at a time. */
  lemma SpreadExposure(short: Leg, long: Leg, quotes: map<string, ContractQuote>)
    requires short.side.Sell? && long.side.Buy? && short.ratioQty == 1 == long.ratioQty
    requires short.symbol in quotes && quotes[short.symbol].delta.Some? && quotes[short.symbol].vega.Some?
    requires long.symbol in quotes && quotes[long.symbol].delta.Some? && quotes[long.symbol].vega.Some?
    ensures var s, l := quotes[short.symbol], quotes[long.symbol];
      Exposure([short, long], quotes)
      == Some((100.0 * (l.delta.value.V() - s.delta.value.V()), 100.0 * (l.vega.value.V() - s.vega.value.V())))
  {
    var legs := [short, long];
    assert legs[..1] == [short] && [short][..0] == [];
    assert Exposure([], quotes) == Some((0.0, 0.0));
    TwoShares(short, long, quotes[short.symbol].delta.value, quotes[long.symbol].delta.value);
    TwoShares(short, long, quotes[short.symbol].vega.value, quotes[long.symbol].vega.value);
  }

  // ----- what rounding keeps -----------------------------------------------------------

  lemma CreditInCents(shortBid: real, longAsk: real)
    ensures var c := NetCredit(shortBid, longAsk);
      c.Some? ==> Hundredths(c.value.V()) && 0.0 <= c.value.V() <= shortBid - longAsk < c.value.V() + 0.01
  {
    var credit := shortBid - longAsk;
    QuantiseValue(credit, Cents, Floor);
  }

  lemma WidthInTenThousandths(shortStrike: real, longStrike: real)
    ensures var w := SpreadWidth(shortStrike, longStrike);
      w.Some? ==> TenThousandths(w.value.V()) && w.value.V() >= 0.0
  {
    QuantiseValue(shortStrike - longStrike, PerShare, HalfUp);
  }

  lemma WholeQuantised(x: real, n: int, mode: Rounding)
    requires 100.0 * x == n as real
    ensures Quantise(x, Cents, mode).V() == x
  {
    QuantiseValue(x, Cents, mode);
    assert RoundTo(Cents.Times(x), mode) == n;
  }

  /** Nothing is lost in rounding: on a credit in cents and a width in ten-thousandths,
      profit and loss come out exact, and together they are a hundred times the width. */
  lemma ProfitPlusLoss(width: real, credit: real)
    requires Hundredths(credit) && TenThousandths(width) && credit < width
    ensures MaxProfit(credit).V() == 100.0 * credit
    ensures MaxLoss(width, credit).value.V() == 100.0 * (width - credit) > 0.0
    ensures MaxProfit(credit).V() + MaxLoss(width, credit).value.V() == 100.0 * width
  {
    var c, w := (100.0 * credit).Floor, (10000.0 * width).Floor;
    WholeQuantised(credit * 100.0, 100 * c, Floor);
    WholeQuantised((width - credit) * 100.0, w - 100 * c, Ceiling);
  }

  lemma Spread(p: real, credit: real, width: real)
    ensures (1.0 - p) * (100.0 * credit) - p * (100.0 * (width - credit)) == 100.0 * (credit - p * width)
  {
  }

  /** The identity behind every acceptance: the expected value, before it is rounded, is
      the credit less the expected full loss of the width, a hundred shares at a time. */
  lemma ValueIdentity(p: real, width: real, credit: real)
    requires Hundredths(credit) && TenThousandths(width) && credit < width
    ensures RawValue(p, MaxProfit(credit).V(), MaxLoss(width, credit).value.V()) == 100.0 * (credit - p * width)
  {
    ProfitPlusLoss(width, credit);
    Spread(p, credit, width);
  }

  lemma PositiveEdge(ev: real, loss: real)
    requires loss > 0.0 && EdgeRatio(ev, loss).Some? && EdgeRatio(ev, loss).value.V() > 0.0
    ensures ev > 0.0
  {
    var r := Div(ev, loss);
    QuantiseValue(r, Ratio, HalfUp);
    if ev <= 0.0 {
      NotPositive(ev, loss);
      RoundedNotPositive(r);
    }
  }

  lemma NotPositive(n: real, d: real)
    requires d > 0.0 && n <= 0.0
    ensures Div(n, d) <= 0.0
  {
    var r := n / d;
    assert r * d == n;
    if r > 0.0 {
      RealLt(0.0, r, d);
      assert false;
    }
  }

  lemma RoundedNotPositive(r: real)
    requires r <= 0.0
    ensures RoundTo(Ratio.Times(r), HalfUp) <= 0
  {
  }

  lemma BelowRatio(p: real, credit: real, width: real)
    requires width > 0.0 && p * width < credit
    ensures p < credit / width
  {
    var r := credit / width;
    assert r * width == credit;
    if p >= r {
      RealLe(r, p, width);
    }
  }

  /** A positive edge means the modelled loss probability is below credit over width. */
  lemma EdgeMeansOdds(p: real, width: real, credit: real)
    requires Hundredths(credit) && TenThousandths(width) && 0.0 <= credit < width
    requires var loss := MaxLoss(width, credit).value.V();
      var ev := ExpectedValue(p, MaxProfit(credit).V(), loss).V();
      loss > 0.0 && EdgeRatio(ev, loss).Some? && EdgeRatio(ev, loss).value.V() > 0.0
    ensures p < credit / width
  {
    var profit, loss := MaxProfit(credit).V(), MaxLoss(width, credit).value.V();
    ValueIdentity(p, width, credit);
    EdgeMeansValue(RawValue(p, profit, loss), loss);
    BelowRatio(p, credit, width);
  }

  lemma EdgeMeansValue(raw: real, loss: real)
    requires loss > 0.0 && EdgeRatio(Quantise(raw, Cents, Floor).V(), loss).Some?
    requires EdgeRatio(Quantise(raw, Cents, Floor).V(), loss).value.V() > 0.0
    ensures raw > 0.0
  {
    PositiveEdge(Quantise(raw, Cents, Floor).V(), loss);
    QuantiseValue(raw, Cents, Floor);
  }
}
