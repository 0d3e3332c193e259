/** What the Actuary offers, read off the quotes: which two puts make a spread, what it is priced
    at, when it is offered, and in what order. */
module Spreads {
  import opened Strings
  import opened Decimals
  import opened Division
  import opened Sorting
  import opened Domain
  import opened Market
  import opened Formulas
  import opened Actuary
  import opened ActuaryLaws

  // ----- one quote -----------------------------------------------------------------------

  /** The bid/ask spread of a quote, as a fraction of the middle. */
  function SpreadOf(q: ContractQuote): real
    requires 0.0 < q.bid.V() < q.ask.V()
  {
    assert (q.bid.V() + q.ask.V()) / 2.0 > 0.0;
    Div(q.ask.V() - q.bid.V(), Div(q.bid.V() + q.ask.V(), 2.0))
  }

  /** A put of the universe in the window of expiries, quoted on both sides, tightly enough, with
      a volatility and the Greeks the desk measures by. */
  predicate Tradable(q: ContractQuote, asOf: int, th: Thresholds, universe: Option<set<string>>) {
    && q.right.Put? && (universe.Some? ==> q.underlying in universe.value)
    && th.dteMin <= q.expiry - asOf / 86400 <= th.dteMax
    && q.tradable && 0.0 < q.bid.V() < q.ask.V() && SpreadOf(q) <= th.maxBidAskPct
    && q.impliedVolatility.Some? && th.ivMin < q.impliedVolatility.value.V() < th.ivMax
    && q.delta.Some? && -1.0 <= q.delta.value.V() <= 1.0 && q.vega.Some?
  }

  lemma SpreadIs(q: ContractQuote)
    requires 0.0 < q.bid.V() < q.ask.V()
    ensures q.SpreadPct() == Some(SpreadOf(q))
  {
    assert (q.bid.V() + q.ask.V()) / 2.0 > 0.0;
  }

  lemma UsableExactly(q: ContractQuote, asOf: int, th: Thresholds, universe: Option<set<string>>)
    ensures IsUsable(q, asOf, th, universe) <==> Tradable(q, asOf, th, universe)
  {
    if 0.0 < q.bid.V() < q.ask.V() {
      SpreadIs(q);
    }
  }

  // ----- one pair --------------------------------------------------------------------------

  /** Two puts of one underlying and one expiry: the sold one at the higher strike, as far apart
      as a width may be, and as likely to be assigned as a short leg may be. */
  predicate MakesSpread(short: ContractQuote, long: ContractQuote, th: Thresholds) {
    && short.underlying == long.underlying && short.expiry == long.expiry
    && long.strike.V() < short.strike.V()
    && th.widthMin <= short.strike.V() - long.strike.V() <= th.widthMax
    && short.delta.Some?
    && (var d := short.delta.value.V();
        if d < 0.0 then th.shortDeltaMin <= 0.0 - d <= th.shortDeltaMax else th.shortDeltaMin <= d <= th.shortDeltaMax)
  }

  lemma EligibleExactly(short: ContractQuote, long: ContractQuote, th: Thresholds)
    ensures Eligible(short, long, th) <==> MakesSpread(short, long, th)
  {
  }

  /** Sold at the bid and bought at the ask, down to whole cents. */
  function CreditOf(short: ContractQuote, long: ContractQuote): Decimal {
    Quantise(short.bid.V() - long.ask.V(), Cents, Floor)
  }

  function WidthOf(short: ContractQuote, long: ContractQuote): Decimal {
    Quantise(short.strike.V() - long.strike.V(), PerShare, HalfUp)
  }

  /** The chance of a full loss, as the sold leg's delta has it. */
  function OddsOf(short: ContractQuote): Decimal
    requires short.delta.Some?
  {
    var d := short.delta.value.V();
    Quantise(if d < 0.0 then 0.0 - d else d, Ratio, HalfUp)
  }

  /** The credit less the expected full loss, a hundred shares at a time, down to whole cents. */
  function ValueAt(credit: real, odds: real, width: real): Decimal {
    Quantise(100.0 * (credit - odds * width), Cents, Floor)
  }

  function ValueOf(short: ContractQuote, long: ContractQuote): Decimal
    requires short.delta.Some?
  {
    ValueAt(CreditOf(short, long).V(), OddsOf(short).V(), WidthOf(short, long).V())
  }

  function LossAt(width: real, credit: real): real {
    100.0 * (width - credit)
  }

  function LossOf(short: ContractQuote, long: ContractQuote): real {
    LossAt(WidthOf(short, long).V(), CreditOf(short, long).V())
  }

  /** There is a credit, and it does not reach the width. */
  predicate Priceable(short: ContractQuote, long: ContractQuote) {
    long.ask.V() < short.bid.V() && CreditOf(short, long).V() < WidthOf(short, long).V()
  }

  lemma CreditIsNotNegative(short: ContractQuote, long: ContractQuote)
    requires long.ask.V() < short.bid.V()
    ensures CreditOf(short, long).V() >= 0.0
  {
    CreditInCents(short.bid.V(), long.ask.V());
  }

  function EdgeOf(short: ContractQuote, long: ContractQuote): Decimal
    requires short.delta.Some? && Priceable(short, long)
  {
    Quantise(Div(ValueOf(short, long).V(), LossOf(short, long)), Ratio, HalfUp)
  }

  function RichnessOf(short: ContractQuote, long: ContractQuote): Decimal
    requires Priceable(short, long)
  {
    CreditIsNotNegative(short, long);
    Quantise(Div(CreditOf(short, long).V(), WidthOf(short, long).V()), Ratio, HalfUp)
  }

  function LiquidityOf(q: ContractQuote, th: Thresholds): Option<Decimal> {
    LiquidityScore(q, th.maxBidAskPct, th.minDepthTarget, th.minOiTarget)
  }

  /** Whether the formulas make anything of these numbers, and the parts that need no identity. */
  lemma FiguresThere(shortStrike: real, longStrike: real, bid: real, ask: real, delta: real)
    requires longStrike < shortStrike && Size(delta) <= 1.0
    ensures var o := FiguresOf(shortStrike, longStrike, bid, ask, delta);
      var credit, width := Quantise(bid - ask, Cents, Floor), Quantise(shortStrike - longStrike, PerShare, HalfUp);
      && (o.Some? <==> ask < bid && credit.V() < width.V())
      && (o.Some? ==>
            && o.value.credit == credit && o.value.width == width
            && o.value.pLoss == Quantise(Size(delta), Ratio, HalfUp)
            && o.value.breakeven == Quantise(shortStrike - credit.V(), PerShare, HalfUp)
            && CreditToWidth(credit.V(), width.V()) == Some(o.value.creditToWidth))
  {
    if ask < bid {
      CreditInCents(bid, ask);
      CostsSomething(Quantise(shortStrike - longStrike, PerShare, HalfUp).V(), Quantise(bid - ask, Cents, Floor).V(),
                     shortStrike, longStrike, bid, ask);
    }
  }

  lemma CostsSomething(width: real, credit: real, shortStrike: real, longStrike: real, bid: real, ask: real)
    requires longStrike < shortStrike && ask < bid
    requires width == Quantise(shortStrike - longStrike, PerShare, HalfUp).V()
    requires credit == Quantise(bid - ask, Cents, Floor).V()
    ensures credit < width ==> MaxLoss(width, credit).Some? && MaxLoss(width, credit).value.V() > 0.0
  {
    CreditInCents(bid, ask);
    WidthInTenThousandths(shortStrike, longStrike);
    if credit < width {
      ProfitPlusLoss(width, credit);
    }
  }

  /** The parts that rest on one: profit and loss are exact, and so is the expected value before
      it is rounded. */
  lemma FiguresAdd(f: Figures, width: real, credit: real, p: real)
    requires Hundredths(credit) && TenThousandths(width) && credit < width
    requires MaxLoss(width, credit) == Some(f.loss) && f.profit == MaxProfit(credit)
    requires f.ev == ExpectedValue(p, f.profit.V(), f.loss.V())
    ensures f.profit.V() == 100.0 * credit && f.loss.V() == LossAt(width, credit)
    ensures f.ev == ValueAt(credit, p, width)
  {
    ProfitPlusLoss(width, credit);
    ValueIdentity(p, width, credit);
  }

  /** Figures that follow from their own credit, width and odds. */
  ghost predicate Follows(f: Figures) {
    && Hundredths(f.credit.V()) && TenThousandths(f.width.V()) && f.credit.V() < f.width.V()
    && MaxLoss(f.width.V(), f.credit.V()) == Some(f.loss) && f.profit == MaxProfit(f.credit.V())
    && f.ev == ExpectedValue(f.pLoss.V(), f.profit.V(), f.loss.V())
    && EdgeRatio(f.ev.V(), f.loss.V()) == Some(f.edge)
  }

  lemma FiguresFollow(shortStrike: real, longStrike: real, bid: real, ask: real, delta: real)
    ensures var o := FiguresOf(shortStrike, longStrike, bid, ask, delta);
      o.Some? ==> Follows(o.value)
  {
    FiguresMean(shortStrike, longStrike, bid, ask, delta);
  }

  lemma FollowingCost(f: Figures)
    requires Follows(f)
    ensures f.profit.V() == 100.0 * f.credit.V() && f.loss.V() == LossAt(f.width.V(), f.credit.V())
    ensures f.ev == ValueAt(f.credit.V(), f.pLoss.V(), f.width.V())
  {
    FiguresAdd(f, f.width.V(), f.credit.V(), f.pLoss.V());
  }

  function FiguresOn(short: ContractQuote, long: ContractQuote): Option<Figures>
    requires short.delta.Some?
  {
    FiguresOf(short.strike.V(), long.strike.V(), short.bid.V(), long.ask.V(), short.delta.value.V())
  }

  /** Figures as this module reads them off the quotes. */
  ghost predicate ReadsOff(f: Figures, short: ContractQuote, long: ContractQuote)
    requires short.delta.Some? && Priceable(short, long)
  {
    && f.credit == CreditOf(short, long) && f.width == WidthOf(short, long) && f.pLoss == OddsOf(short)
    && f.breakeven == Quantise(short.strike.V() - CreditOf(short, long).V(), PerShare, HalfUp)
    && f.profit.V() == 100.0 * CreditOf(short, long).V() && f.loss.V() == LossOf(short, long)
    && f.ev == ValueOf(short, long) && f.edge == EdgeOf(short, long) && f.creditToWidth == RichnessOf(short, long)
  }

  lemma EdgeReads(f: Figures, short: ContractQuote, long: ContractQuote)
    requires short.delta.Some? && Priceable(short, long) && EdgeRatio(f.ev.V(), f.loss.V()) == Some(f.edge)
    requires f.ev == ValueOf(short, long) && f.loss.V() == LossOf(short, long)
    ensures f.edge == EdgeOf(short, long)
  {
  }

  lemma RichnessReads(f: Figures, short: ContractQuote, long: ContractQuote)
    requires Priceable(short, long) && f.credit == CreditOf(short, long) && f.width == WidthOf(short, long)
    requires CreditToWidth(f.credit.V(), f.width.V()) == Some(f.creditToWidth)
    ensures f.creditToWidth == RichnessOf(short, long)
  {
  }

  /** What the formulas make of a pair. */
  lemma FiguresExactly(short: ContractQuote, long: ContractQuote)
    requires long.strike.V() < short.strike.V() && short.delta.Some? && -1.0 <= short.delta.value.V() <= 1.0
    ensures FiguresOn(short, long).Some? <==> Priceable(short, long)
    ensures Priceable(short, long) ==> ReadsOff(FiguresOn(short, long).value, short, long)
  {
    var shortStrike, longStrike, bid, ask := short.strike.V(), long.strike.V(), short.bid.V(), long.ask.V();
    FiguresThere(shortStrike, longStrike, bid, ask, short.delta.value.V());
    FiguresFollow(shortStrike, longStrike, bid, ask, short.delta.value.V());
    if Priceable(short, long) {
      var f := FiguresOn(short, long).value;
      FollowingCost(f);
      EdgeReads(f, short, long);
      RichnessReads(f, short, long);
    }
  }

  // ----- the two legs together -------------------------------------------------------------

  function NetOf(bought: Decimal, sold: Decimal): Decimal {
    Quantise(100.0 * (bought.V() - sold.V()), PerShare, HalfUp)
  }

  /** A spread is as liquid as its worse leg, as wide as its wider one, and exposed as its bought
      leg is, less its sold one, a hundred shares at a time. */
  ghost predicate Joins(q: Quality, short: ContractQuote, long: ContractQuote, th: Thresholds)
    requires 0.0 < short.bid.V() < short.ask.V() && 0.0 < long.bid.V() < long.ask.V()
    requires short.delta.Some? && short.vega.Some? && long.delta.Some? && long.vega.Some?
    requires LiquidityOf(short, th).Some? && LiquidityOf(long, th).Some?
  {
    var a, b := LiquidityOf(short, th).value, LiquidityOf(long, th).value;
    && q.liquidity in {a, b} && q.liquidity.V() <= a.V() && q.liquidity.V() <= b.V()
    && q.worstSpread in {SpreadOf(short), SpreadOf(long)}
    && q.worstSpread >= SpreadOf(short) && q.worstSpread >= SpreadOf(long)
    && q.netDelta == NetOf(long.delta.value, short.delta.value) && q.netVega == NetOf(long.vega.value, short.vega.value)
  }

  /** The pass finds each leg's quote under its symbol. */
  predicate Finds(pass: Pass, q: ContractQuote) {
    q.symbol in pass.bySymbol && pass.bySymbol[q.symbol] == q
  }

  lemma GreeksOf(pass: Pass, short: ContractQuote, long: ContractQuote)
    requires Finds(pass, short) && Finds(pass, long)
    requires short.delta.Some? && short.vega.Some? && long.delta.Some? && long.vega.Some?
    ensures PositionGreeks(LegsOf(short, long), pass.bySymbol)
         == Some((NetOf(long.delta.value, short.delta.value), NetOf(long.vega.value, short.vega.value)))
  {
    SpreadExposure(LegsOf(short, long)[0], LegsOf(short, long)[1], pass.bySymbol);
  }

  lemma QualityExactly(pass: Pass, short: ContractQuote, long: ContractQuote)
    requires Finds(pass, short) && Finds(pass, long)
    requires 0.0 < short.bid.V() < short.ask.V() && 0.0 < long.bid.V() < long.ask.V()
    requires short.delta.Some? && short.vega.Some? && long.delta.Some? && long.vega.Some?
    ensures var o := QualityOf(pass, short, long);
      && (o.Some? <==> LiquidityOf(short, pass.th).Some? && LiquidityOf(long, pass.th).Some?)
      && (o.Some? ==> Joins(o.value, short, long, pass.th))
  {
    SpreadIs(short);
    SpreadIs(long);
    GreeksOf(pass, short, long);
  }

  /** Why a spread is not offered: the first of these that applies. */
  function Against(short: ContractQuote, long: ContractQuote, th: Thresholds): Option<Reason>
    requires short.delta.Some?
  {
    if !Priceable(short, long) || LiquidityOf(short, th).None? || LiquidityOf(long, th).None? then
      Some(ActuaryMathError)
    else if RichnessOf(short, long).V() < th.minCreditToWidth then Some(CreditToWidthLow)
    else if RichnessOf(short, long).V() > th.maxCreditToWidth then Some(CreditToWidthHigh)
    else if EdgeOf(short, long).V() < th.minEdgeRatio then Some(InsufficientEdge)
    else if LiquidityOf(short, th).value.V() < th.minLiquidityScore
            || LiquidityOf(long, th).value.V() < th.minLiquidityScore then Some(Illiquid)
    else None
  }

  /** One contract of a quote, sold or bought. */
  predicate LegIs(leg: Leg, q: ContractQuote, side: Side) {
    && leg.symbol == q.symbol && leg.right.Put? && leg.side == side && leg.strike == q.strike
    && leg.expiry == q.expiry && leg.ratioQty == 1
  }

  /** What is written on an offer of this pair: whose options, which legs, until when. */
  ghost predicate Names(p: Proposal, short: ContractQuote, long: ContractQuote, asOf: int, hash: string) {
    && p.action.Open? && p.underlying == short.underlying && p.expiry == short.expiry
    && p.dte == short.expiry - asOf / 86400
    && p.shortStrike == short.strike && p.longStrike == long.strike && Some(p.shortDelta) == short.delta
    && |p.legs| == 2 && LegIs(p.legs[0], short, Sell) && LegIs(p.legs[1], long, Buy)
    && p.snapshotHash == hash && p.snapshotAsOf == asOf && p.greeksComplete
  }

  /** And at what price and quality. */
  ghost predicate Costs(p: Proposal, short: ContractQuote, long: ContractQuote)
    requires short.delta.Some? && Priceable(short, long)
  {
    && p.netCredit == CreditOf(short, long) && p.capitalReserve == p.maxLoss
    && p.maxProfit.V() == 100.0 * p.netCredit.V() && p.maxLoss.V() == LossOf(short, long)
    && p.breakeven == Quantise(short.strike.V() - p.netCredit.V(), PerShare, HalfUp)
    && p.pLossProxy == OddsOf(short) && p.pProfitProxy.V() == 1.0 - p.pLossProxy.V()
    && p.expectedValue == ValueOf(short, long) && p.edgeRatio == EdgeOf(short, long)
    && p.creditToWidth == RichnessOf(short, long)
  }

  ghost predicate Ranks(p: Proposal, short: ContractQuote, long: ContractQuote, th: Thresholds)
    requires 0.0 < short.bid.V() < short.ask.V() && 0.0 < long.bid.V() < long.ask.V()
    requires short.delta.Some? && short.vega.Some? && long.delta.Some? && long.vega.Some?
    requires LiquidityOf(short, th).Some? && LiquidityOf(long, th).Some?
  {
    Joins(Quality(p.liquidityScore, p.maxLegSpreadPct, p.netDelta, p.netVega), short, long, th)
  }

  lemma AgainstIs(pass: Pass, short: ContractQuote, long: ContractQuote)
    requires Finds(pass, short) && Finds(pass, long) && long.strike.V() < short.strike.V()
    requires 0.0 < short.bid.V() < short.ask.V() && 0.0 < long.bid.V() < long.ask.V()
    requires short.delta.Some? && short.vega.Some? && long.delta.Some? && long.vega.Some?
    requires -1.0 <= short.delta.value.V() <= 1.0
    ensures var f, q := FiguresOn(short, long), QualityOf(pass, short, long);
      if f.Some? && q.Some? then Failing(f.value, q.value, pass.th) == Against(short, long, pass.th)
      else Against(short, long, pass.th) == Some(ActuaryMathError)
  {
    FiguresExactly(short, long);
    QualityExactly(pass, short, long);
  }

  /** One pair, exactly: it is dropped for the first thing against it, or offered as written. */
  lemma PairExactly(pass: Pass, short: ContractQuote, long: ContractQuote)
    requires Finds(pass, short) && Finds(pass, long) && long.strike.V() < short.strike.V()
    requires 0.0 < short.bid.V() < short.ask.V() && 0.0 < long.bid.V() < long.ask.V()
    requires short.delta.Some? && short.vega.Some? && long.delta.Some? && long.vega.Some?
    requires -1.0 <= short.delta.value.V() <= 1.0
    ensures match PriceOne(pass, short, long)
      case Dropped(d) =>
        Against(short, long, pass.th) == Some(d.reason)
        && d.candidateId == CandidateIdFor(pass.host, short, long, pass.hash)
      case Offered(p) =>
        && Against(short, long, pass.th).None?
        && p.candidateId == CandidateIdFor(pass.host, short, long, pass.hash)
        && Names(p, short, long, pass.asOf, pass.hash) && Costs(p, short, long) && Ranks(p, short, long, pass.th)
  {
    AgainstIs(pass, short, long);
    FiguresExactly(short, long);
    QualityExactly(pass, short, long);
    if PriceOne(pass, short, long).Offered? {
      OfferedOdds(pass, short, long);
    }
  }

  // ----- the whole pass ------------------------------------------------------------------------

  /** Two quotes of the snapshot that may be written as a spread. */
  predicate TwoPuts(s: Snapshot, th: Thresholds, universe: Option<set<string>>, short: ContractQuote,
                    long: ContractQuote) {
    && short in s.quotes && long in s.quotes && MakesSpread(short, long, th)
    && Tradable(short, s.asOf, th, universe) && Tradable(long, s.asOf, th, universe)
  }

  /** The offer of this pair, and nothing stands against it. */
  ghost predicate OfferOf(host: Host, s: Snapshot, th: Thresholds, universe: Option<set<string>>, p: Proposal,
                          short: ContractQuote, long: ContractQuote) {
    && TwoPuts(s, th, universe, short, long) && Against(short, long, th).None?
    && p.candidateId == CandidateIdFor(host, short, long, SnapshotHash(host, s))
    && Names(p, short, long, s.asOf, SnapshotHash(host, s)) && Costs(p, short, long) && Ranks(p, short, long, th)
  }

  /** The record of a pair that something stands against. */
  ghost predicate DropOf(host: Host, s: Snapshot, th: Thresholds, universe: Option<set<string>>, d: Discard,
                         short: ContractQuote, long: ContractQuote) {
    && TwoPuts(s, th, universe, short, long) && Against(short, long, th) == Some(d.reason)
    && d.candidateId == CandidateIdFor(host, short, long, SnapshotHash(host, s))
  }

  /** Why a put of the universe is not tradable: the first of these that applies. */
  function WhyNot(q: ContractQuote, asOf: int, th: Thresholds): Option<Reason> {
    if q.expiry - asOf / 86400 < th.dteMin || q.expiry - asOf / 86400 > th.dteMax then Some(DteOutOfWindow)
    else if !q.tradable then Some(NotTradable)
    else if !(0.0 < q.bid.V() < q.ask.V()) then Some(BadQuote)
    else if SpreadOf(q) > th.maxBidAskPct then Some(WideSpread)
    else if q.impliedVolatility.None? || q.impliedVolatility.value.V() <= th.ivMin
            || q.impliedVolatility.value.V() >= th.ivMax then Some(MissingIv)
    else if q.delta.None? || q.delta.value.V() > 1.0 || q.delta.value.V() < -1.0 || q.vega.None? then
      Some(MissingGreeks)
    else None
  }

  /** The record of a put of the universe that is not tradable. */
  ghost predicate ThrowOf(s: Snapshot, th: Thresholds, universe: Option<set<string>>, d: Discard, q: ContractQuote) {
    && q in s.quotes && q.right.Put? && (universe.Some? ==> q.underlying in universe.value)
    && WhyNot(q, s.asOf, th) == Some(d.reason) && d.candidateId == q.symbol
  }

  lemma ScreenIs(q: ContractQuote, asOf: int, th: Thresholds)
    ensures Screen(q, asOf / 86400, th) == WhyNot(q, asOf, th)
  {
    if 0.0 < q.bid.V() < q.ask.V() {
      SpreadIs(q);
    }
  }

  lemma EligibleIs(s: Snapshot, th: Thresholds, universe: Option<set<string>>, short: ContractQuote,
                   long: ContractQuote)
    ensures (short, long) in EligiblePairs(s.quotes, s.asOf, th, universe) <==> TwoPuts(s, th, universe, short, long)
  {
    UsableExactly(short, s.asOf, th, universe);
    UsableExactly(long, s.asOf, th, universe);
    EligibleExactly(short, long, th);
  }

  lemma PassFinds(host: Host, s: Snapshot, th: Thresholds, universe: Option<set<string>>, q: ContractQuote)
    requires DistinctSymbols(s.quotes) && q in s.quotes && Tradable(q, s.asOf, th, universe)
    ensures Finds(PassOf(host, s.quotes, s.asOf, SnapshotHash(host, s), th, universe), q)
  {
    UsableExactly(q, s.asOf, th, universe);
    UsableMembers(s.quotes, s.asOf / 86400, th, universe, q);
    UsableDistinct(s.quotes, s.asOf / 86400, th, universe);
    BySymbolIndexes(UsableOf(s.quotes, s.asOf, th, universe));
  }

  /** What the pass makes of one pair. */
  lemma PairPriced(host: Host, s: Snapshot, th: Thresholds, universe: Option<set<string>>, short: ContractQuote,
                   long: ContractQuote)
    requires DistinctSymbols(s.quotes) && TwoPuts(s, th, universe, short, long)
    ensures match PriceOne(PassOf(host, s.quotes, s.asOf, SnapshotHash(host, s), th, universe), short, long)
      case Offered(p) => OfferOf(host, s, th, universe, p, short, long)
      case Dropped(d) => DropOf(host, s, th, universe, d, short, long)
  {
    PassFinds(host, s, th, universe, short);
    PassFinds(host, s, th, universe, long);
    PairExactly(PassOf(host, s.quotes, s.asOf, SnapshotHash(host, s), th, universe), short, long);
  }

  /** Everything offered is the offer of two tradable puts of the snapshot that make a spread, at
      what they are worth, with nothing against it. */
  lemma EveryOfferIsASpread(host: Host, s: Snapshot, th: Thresholds, universe: Option<set<string>>, p: Proposal)
    returns (short: ContractQuote, long: ContractQuote)
    requires DistinctSymbols(s.quotes) && p in Price(host, s, th, universe).proposals
    ensures OfferOf(host, s, th, universe, p, short, long)
  {
    var hash := SnapshotHash(host, s);
    CompleteAndConserved(host, s.quotes, s.asOf, hash, th, universe);
    var pass := PassOf(host, s.quotes, s.asOf, hash, th, universe);
    var x :| x in EligiblePairs(s.quotes, s.asOf, th, universe) && PriceOne(pass, x.0, x.1) == Offered(p);
    short, long := x.0, x.1;
    EligibleIs(s, th, universe, short, long);
    PairPriced(host, s, th, universe, short, long);
  }

  /** And no such pair is passed over: it is offered exactly when nothing stands against it, and
      otherwise recorded with what does. */
  lemma EverySpreadIsJudged(host: Host, s: Snapshot, th: Thresholds, universe: Option<set<string>>,
                            short: ContractQuote, long: ContractQuote)
    requires DistinctSymbols(s.quotes) && TwoPuts(s, th, universe, short, long)
    ensures var r := Price(host, s, th, universe);
      && (Against(short, long, th).None? <==>
            exists p :: p in r.proposals && OfferOf(host, s, th, universe, p, short, long))
      && (Against(short, long, th).Some? ==>
            Discard(CandidateIdFor(host, short, long, SnapshotHash(host, s)), Against(short, long, th).value)
            in r.discards)
  {
    var hash := SnapshotHash(host, s);
    CompleteAndConserved(host, s.quotes, s.asOf, hash, th, universe);
    var pass := PassOf(host, s.quotes, s.asOf, hash, th, universe);
    var pairs := EligiblePairs(s.quotes, s.asOf, th, universe);
    EligibleIs(s, th, universe, short, long);
    PairPriced(host, s, th, universe, short, long);
    assert (short, long) in pairs;
    match PriceOne(pass, short, long)
    case Offered(p) => assert OfferedBy(pass, pairs, p);
    case Dropped(d) => assert DroppedBy(pass, pairs, d);
  }

  /** The discards, exactly: the spreads something stands against and the puts that are not
      tradable, each with its reason. */
  lemma DiscardsExactly(host: Host, s: Snapshot, th: Thresholds, universe: Option<set<string>>, d: Discard)
    requires DistinctSymbols(s.quotes)
    ensures d in Price(host, s, th, universe).discards <==>
      || (exists short, long :: DropOf(host, s, th, universe, d, short, long))
      || (exists q :: ThrowOf(s, th, universe, d, q))
  {
    var hash := SnapshotHash(host, s);
    CompleteAndConserved(host, s.quotes, s.asOf, hash, th, universe);
    DropsAre(host, s, th, universe, d);
    ThrowsAre(s, th, universe, d);
  }

  lemma DropsAre(host: Host, s: Snapshot, th: Thresholds, universe: Option<set<string>>, d: Discard)
    requires DistinctSymbols(s.quotes)
    ensures DroppedBy(PassOf(host, s.quotes, s.asOf, SnapshotHash(host, s), th, universe),
                      EligiblePairs(s.quotes, s.asOf, th, universe), d)
       <==> exists short, long :: DropOf(host, s, th, universe, d, short, long)
  {
    var pass := PassOf(host, s.quotes, s.asOf, SnapshotHash(host, s), th, universe);
    var pairs := EligiblePairs(s.quotes, s.asOf, th, universe);
    if DroppedBy(pass, pairs, d) {
      var x :| x in pairs && PriceOne(pass, x.0, x.1) == Dropped(d);
      EligibleIs(s, th, universe, x.0, x.1);
      PairPriced(host, s, th, universe, x.0, x.1);
      assert DropOf(host, s, th, universe, d, x.0, x.1);
    }
    if exists short, long :: DropOf(host, s, th, universe, d, short, long) {
      var short, long :| DropOf(host, s, th, universe, d, short, long);
      DropIsDropped(host, s, th, universe, d, short, long);
    }
  }

  lemma DropIsDropped(host: Host, s: Snapshot, th: Thresholds, universe: Option<set<string>>, d: Discard,
                      short: ContractQuote, long: ContractQuote)
    requires DistinctSymbols(s.quotes) && DropOf(host, s, th, universe, d, short, long)
    ensures DroppedBy(PassOf(host, s.quotes, s.asOf, SnapshotHash(host, s), th, universe),
                      EligiblePairs(s.quotes, s.asOf, th, universe), d)
  {
    EligibleIs(s, th, universe, short, long);
    PairPriced(host, s, th, universe, short, long);
    var x: Pair := (short, long);
    assert x in EligiblePairs(s.quotes, s.asOf, th, universe);
  }

  lemma ThrowsAre(s: Snapshot, th: Thresholds, universe: Option<set<string>>, d: Discard)
    ensures ThrownBy(Unusable(s.quotes, s.asOf, th, universe), s.asOf / 86400, th, d)
       <==> exists q :: ThrowOf(s, th, universe, d, q)
  {
    var unusable := Unusable(s.quotes, s.asOf, th, universe);
    if ThrownBy(unusable, s.asOf / 86400, th, d) {
      var q :| q in unusable && Screen(q, s.asOf / 86400, th).Some?
               && d == Discard(q.symbol, Screen(q, s.asOf / 86400, th).value);
      ScreenIs(q, s.asOf, th);
      assert ThrowOf(s, th, universe, d, q);
    }
    if exists q :: ThrowOf(s, th, universe, d, q) {
      var q :| ThrowOf(s, th, universe, d, q);
      ScreenIs(q, s.asOf, th);
      assert q in unusable;
    }
  }

  /** The best edge comes first, and among equal edges the lesser candidate id. */
  lemma BestEdgeFirst(host: Host, s: Snapshot, th: Thresholds, universe: Option<set<string>>, i: nat, j: nat)
    requires DistinctSymbols(s.quotes) && i < j < |Price(host, s, th, universe).proposals|
    ensures var ps := Price(host, s, th, universe).proposals;
      || ps[i].edgeRatio.V() > ps[j].edgeRatio.V()
      || (ps[i].edgeRatio.V() == ps[j].edgeRatio.V() && StrLe(U(ps[i].candidateId), U(ps[j].candidateId)))
  {
    CompleteAndConserved(host, s.quotes, s.asOf, SnapshotHash(host, s), th, universe);
  }

  // ----- liquidity -------------------------------------------------------------------------------

  lemma {:induction false} LargeStaysLarge(x: real)
    requires x >= TEN27 as real
    ensures Round28Positive(x) >= TEN27 as real
    decreases x.Floor
  {
    if x >= 10.0 * TEN27 as real {
      LargeStaysLarge(x / 10.0);
    } else {
      assert x.Floor >= TEN27;
    }
  }

  lemma {:induction false} RoundsNotBelow(x: real, n: nat)
    requires 1 <= n && n as real <= x < 10.0 * TEN27 as real
    ensures Round28Positive(x) >= n as real
    decreases 10 * TEN27 - n
  {
    if x >= TEN27 as real {
      assert x.Floor >= n;
    } else {
      assert 10.0 * x >= (10 * n) as real;
      RoundsNotBelow(10.0 * x, 10 * n);
    }
  }

  lemma OneOrMore(r: real)
    requires r >= 1.0
    ensures Round28Positive(r) >= 1.0
  {
    if r >= 10.0 * TEN27 as real {
      LargeStaysLarge(r);
    } else {
      RoundsNotBelow(r, 1);
    }
  }

  /** A part of a whole, and never more than all of it. */
  function ShareOf(part: real, whole: real): real
    requires whole > 0.0
  {
    if part >= whole then 1.0 else Div(part, whole)
  }

  lemma ShareIsCapped(part: real, whole: real)
    requires whole > 0.0 && part >= 0.0
    ensures SafeDiv(part, whole).Some? && Lesser(1.0, SafeDiv(part, whole).value) == Lesser(1.0, ShareOf(part, whole))
    ensures 0.0 <= Lesser(1.0, ShareOf(part, whole)) <= 1.0
  {
    var r := part / whole;
    assert r * whole == part;
    if part >= whole {
      AtLeastOne(r, whole, part);
      OneOrMore(r);
    }
    if r < 0.0 {
      RealLt(r, 0.0, whole);
    }
  }

  lemma AtLeastOne(r: real, whole: real, part: real)
    requires whole > 0.0 && r * whole == part >= whole
    ensures r >= 1.0
  {
    if r < 1.0 {
      RealLt(r, 1.0, whole);
    }
  }

  /** How tight, how deep and how widely held a quote is, each between nothing and one; an open
      interest that is not known counts as half. */
  function Tightness(q: ContractQuote, maxSpread: real): real
    requires maxSpread > 0.0 && 0.0 < q.bid.V() < q.ask.V()
  {
    1.0 - Lesser(1.0, ShareOf(SpreadOf(q), maxSpread))
  }

  function Depth(q: ContractQuote, minDepth: real): real
    requires minDepth > 0.0
  {
    Lesser(1.0, ShareOf((if q.bidSize <= q.askSize then q.bidSize else q.askSize) as real, minDepth))
  }

  function Interest(q: ContractQuote, minOi: real): real
    requires minOi > 0.0
  {
    match q.openInterest case None => 0.5 case Some(n) => Lesser(1.0, ShareOf(n as real, minOi))
  }

  lemma SpreadNotNegative(q: ContractQuote)
    requires 0.0 < q.bid.V() < q.ask.V()
    ensures SpreadOf(q) > 0.0
  {
    var mid := Div(q.bid.V() + q.ask.V(), 2.0);
    assert (q.bid.V() + q.ask.V()) / 2.0 > 0.0;
    PositiveRatio(q.ask.V() - q.bid.V(), mid);
  }

  lemma PositiveRatio(n: real, d: real)
    requires n > 0.0 && d > 0.0
    ensures n / d > 0.0 && Div(n, d) > 0.0
  {
  }

  /** The score, exactly: half for tightness, a quarter for depth on the thinner side, a quarter
      for open interest; and so it lies between nothing and one. */
  lemma LiquidityExactly(q: ContractQuote, maxSpread: real, minDepth: real, minOi: real)
    requires maxSpread > 0.0 && minDepth > 0.0 && minOi > 0.0 && 0.0 < q.bid.V() < q.ask.V()
    requires q.bidSize >= 0 && q.askSize >= 0 && (q.openInterest.Some? ==> q.openInterest.value >= 0)
    ensures var weighed := (2.0 * Tightness(q, maxSpread) + Depth(q, minDepth) + Interest(q, minOi)) / 4.0;
      && LiquidityScore(q, maxSpread, minDepth, minOi) == Some(Quantise(weighed, Ratio, HalfUp))
      && 0.0 <= weighed <= 1.0
  {
    SpreadIs(q);
    SpreadNotNegative(q);
    ShareIsCapped(SpreadOf(q), maxSpread);
    ShareIsCapped((if q.bidSize <= q.askSize then q.bidSize else q.askSize) as real, minDepth);
    if q.openInterest.Some? {
      ShareIsCapped(q.openInterest.value as real, minOi);
    }
  }
}
