/** Candidate enumeration and pricing: every eligible put credit spread in a snapshot,
    priced or discarded with a reason. */
module Actuary {
  import opened Strings
  import opened Decimals
  import opened Sorting
  import opened Canonical
  import opened Domain
  import opened Market
  import opened Formulas

  datatype Thresholds = Thresholds(
    minCreditToWidth: real,
    maxCreditToWidth: real,
    minEdgeRatio: real,
    minLiquidityScore: real,
    maxBidAskPct: real,
    shortDeltaMin: real,
    shortDeltaMax: real,
    dteMin: int,
    dteMax: int,
    widthMin: real,
    widthMax: real,
    minDepthTarget: real,
    minOiTarget: real,
    ivMin: real,
    ivMax: real)

  const DEFAULT_THRESHOLDS := Thresholds(
    0.20, 0.45, 0.05, 0.55, 0.15, 0.12, 0.28, 7, 21, 1.0, 5.0, 10.0, 500.0, 0.0, 5.0)

  datatype Reason =
    | BadQuote | WideSpread | MissingIv | MissingGreeks | NotTradable
    | DteOutOfWindow | CreditToWidthLow | CreditToWidthHigh | InsufficientEdge | Illiquid | ActuaryMathError

  datatype Discard = Discard(candidateId: string, reason: Reason)

  datatype ActuaryResult = ActuaryResult(proposals: seq<Proposal>, discards: seq<Discard>)

  // ----- one quote --------------------------------------------------------------

  /** `validate_quote`, on finite numbers. */
  function ValidateQuote(q: ContractQuote, th: Thresholds): Option<Reason> {
    if !q.tradable then Some(NotTradable)
    else if q.bid.V() <= 0.0 || q.ask.V() <= 0.0 || q.ask.V() <= q.bid.V() then Some(BadQuote)
    else
      match q.SpreadPct()
      case None => Some(BadQuote)
      case Some(spread) =>
        if spread > th.maxBidAskPct then Some(WideSpread)
        else if q.impliedVolatility.None? || !(th.ivMin < q.impliedVolatility.value.V() < th.ivMax) then Some(MissingIv)
        else if q.delta.None? || Size(q.delta.value.V()) > 1.0 then Some(MissingGreeks)
        else if q.vega.None? then Some(MissingGreeks)
        else None
  }

  /** A put of the universe, if one is given: what the pass accounts for. */
  predicate InScope(q: ContractQuote, universe: Option<set<string>>) {
    (universe.None? || q.underlying in universe.value) && q.right.Put?
  }

  function Screen(q: ContractQuote, today: int, th: Thresholds): Option<Reason> {
    if !(th.dteMin <= q.Dte(today) <= th.dteMax) then Some(DteOutOfWindow) else ValidateQuote(q, th)
  }

  // ----- one pair ----------------------------------------------------------------

  /** `short_delta_in_band` */
  predicate InBand(q: ContractQuote, th: Thresholds) {
    q.delta.Some? && th.shortDeltaMin <= Size(q.delta.value.V()) <= th.shortDeltaMax
  }

  predicate Pairs(short: ContractQuote, long: ContractQuote, th: Thresholds) {
    && long.underlying == short.underlying && long.expiry == short.expiry
    && long.strike.V() < short.strike.V()
    && th.widthMin <= short.strike.V() - long.strike.V() <= th.widthMax
  }

  predicate Eligible(short: ContractQuote, long: ContractQuote, th: Thresholds) {
    InBand(short, th) && Pairs(short, long, th)
  }

  /** What a pass holds fixed while it prices pairs. */
  datatype Pass = Pass(host: Host, hash: string, asOf: int, th: Thresholds, bySymbol: map<string, ContractQuote>)

  const CANDIDATE_KEYS := ["underlying", "structure", "expiry", "short_strike", "long_strike", "snapshot_hash"]

  /** `candidate_id_for` */
  function CandidateIdFor(host: Host, short: ContractQuote, long: ContractQuote, hash: string): string {
    var digest := Sha256Of(host, Record(CANDIDATE_KEYS,
      [ TextValue(short.underlying), TextValue(StructureText(PutCreditSpread)), TextValue(host.isoDate(short.expiry)),
        VDecimal(short.strike), VDecimal(long.strike), TextValue(hash) ]));
    "cand_" + (if |digest| <= 16 then digest else digest[..16])
  }

  function LegsOf(short: ContractQuote, long: ContractQuote): seq<Leg> {
    [ Leg(short.symbol, Put, Sell, short.strike, short.expiry, 1),
      Leg(long.symbol, Put, Buy, long.strike, long.expiry, 1) ]
  }

  /** The priced figures of a pair, all or none. */
  datatype Figures = Figures(width: Decimal, credit: Decimal, profit: Decimal, loss: Decimal, breakeven: Decimal,
                             creditToWidth: Decimal, pLoss: Decimal, ev: Decimal, edge: Decimal)

  function FiguresOf(shortStrike: real, longStrike: real, bid: real, ask: real, delta: real): Option<Figures> {
    match (SpreadWidth(shortStrike, longStrike), NetCredit(bid, ask))
    case (Some(width), Some(credit)) =>
      (match (MaxLoss(width.V(), credit.V()), CreditToWidth(credit.V(), width.V()), LossProbability(delta))
       case (Some(loss), Some(ctw), Some(p)) =>
         var profit := MaxProfit(credit.V());
         var ev := ExpectedValue(p.V(), profit.V(), loss.V());
         (match EdgeRatio(ev.V(), loss.V())
          case Some(edge) => Some(Figures(width, credit, profit, loss, Breakeven(shortStrike, credit.V()), ctw, p, ev,
                                          edge))
          case None => None)
       case _ => None)
    case _ => None
  }

  datatype Quality = Quality(liquidity: Decimal, worstSpread: real, netDelta: Decimal, netVega: Decimal)

  function ScoreOf(q: ContractQuote, th: Thresholds): Option<Decimal> {
    LiquidityScore(q, th.maxBidAskPct, th.minDepthTarget, th.minOiTarget)
  }

  /** A spread is only as liquid as its worse leg. */
  function QualityOf(pass: Pass, short: ContractQuote, long: ContractQuote): Option<Quality> {
    match (ScoreOf(short, pass.th), ScoreOf(long, pass.th), short.SpreadPct(), long.SpreadPct(),
           PositionGreeks(LegsOf(short, long), pass.bySymbol))
    case (Some(a), Some(b), Some(x), Some(y), Some(greeks)) =>
      Some(Quality(if b.V() < a.V() then b else a, Greater(x, y), greeks.0, greeks.1))
    case _ => None
  }

  /** The threshold a priced pair fails first, if any. */
  function Failing(f: Figures, q: Quality, th: Thresholds): Option<Reason> {
    if f.creditToWidth.V() < th.minCreditToWidth then Some(CreditToWidthLow)
    else if f.creditToWidth.V() > th.maxCreditToWidth then Some(CreditToWidthHigh)
    else if f.edge.V() < th.minEdgeRatio then Some(InsufficientEdge)
    else if q.liquidity.V() < th.minLiquidityScore then Some(Illiquid)
    else None
  }

  datatype Priced = Offered(proposal: Proposal) | Dropped(discard: Discard)

  /** `_price_one` */
  function PriceOne(pass: Pass, short: ContractQuote, long: ContractQuote): Priced {
    var id := CandidateIdFor(pass.host, short, long, pass.hash);
    if short.delta.None? then Dropped(Discard(id, MissingGreeks))
    else
      match (FiguresOf(short.strike.V(), long.strike.V(), short.bid.V(), long.ask.V(), short.delta.value.V()),
             QualityOf(pass, short, long))
      case (Some(f), Some(q)) =>
        (match Failing(f, q, pass.th)
         case Some(reason) => Dropped(Discard(id, reason))
         case None => Offered(ProposalFrom(pass, id, short, long, short.delta.value, f, q)))
      case _ => Dropped(Discard(id, ActuaryMathError))
  }

  function ProposalFrom(pass: Pass, id: string, short: ContractQuote, long: ContractQuote, delta: Decimal,
                        f: Figures, q: Quality): Proposal {
    Proposal(id, short.underlying, PutCreditSpread, Open, LegsOf(short, long), short.strike, long.strike,
             short.expiry, short.Dte(pass.asOf / 86400), f.credit, f.profit, f.loss, f.loss, f.breakeven,
             f.creditToWidth, f.pLoss, Quantise(1.0 - f.pLoss.V(), Ratio, HalfUp), f.ev, f.edge, q.liquidity,
             q.worstSpread, delta, q.netDelta, q.netVega, true, pass.hash, pass.asOf)
  }

  // ----- the pass -----------------------------------------------------------------

  /** Keeps what `f` makes of the elements it does not refuse, in order. */
  function Pick<A, B>(s: seq<A>, f: A -> Option<B>): seq<B> {
    if s == [] then []
    else
      var before := Pick(s[..|s| - 1], f);
      match f(s[|s| - 1]) case Some(b) => before + [b] case None => before
  }

  function Usable(today: int, th: Thresholds, universe: Option<set<string>>): ContractQuote -> Option<ContractQuote> {
    (q: ContractQuote) => if InScope(q, universe) && Screen(q, today, th).None? then Some(q) else None
  }

  function Thrown(today: int, th: Thresholds, universe: Option<set<string>>): ContractQuote -> Option<Discard> {
    (q: ContractQuote) =>
      if InScope(q, universe) && Screen(q, today, th).Some? then
        Some(Discard(q.symbol, Screen(q, today, th).value))
      else None
  }

  /** `{q.symbol: q for q in usable}` */
  function BySymbol(quotes: seq<ContractQuote>): map<string, ContractQuote> {
    if quotes == [] then map[]
    else BySymbol(quotes[..|quotes| - 1])[quotes[|quotes| - 1].symbol := quotes[|quotes| - 1]]
  }

  type Pair = (ContractQuote, ContractQuote)

  function PartnersOf(short: ContractQuote, longs: seq<ContractQuote>, th: Thresholds): seq<Pair> {
    if longs == [] then []
    else
      var before := PartnersOf(short, longs[..|longs| - 1], th);
      if Pairs(short, longs[|longs| - 1], th) then before + [(short, longs[|longs| - 1])] else before
  }

  /** The eligible pairs, in the order the nested loops meet them. */
  function PairsOf(shorts: seq<ContractQuote>, longs: seq<ContractQuote>, th: Thresholds): seq<Pair> {
    if shorts == [] then []
    else
      var before := PairsOf(shorts[..|shorts| - 1], longs, th);
      if InBand(shorts[|shorts| - 1], th) then before + PartnersOf(shorts[|shorts| - 1], longs, th) else before
  }

  function Offer(pass: Pass): Pair -> Option<Proposal> {
    (pair: Pair) => match PriceOne(pass, pair.0, pair.1) case Offered(p) => Some(p) case Dropped(_) => None
  }

  function Drop(pass: Pass): Pair -> Option<Discard> {
    (pair: Pair) => match PriceOne(pass, pair.0, pair.1) case Offered(_) => None case Dropped(d) => Some(d)
  }

  /** `(-edge_ratio, candidate_id)` */
  predicate ProposalLe(a: Proposal, b: Proposal) {
    a.edgeRatio.V() > b.edgeRatio.V()
    || (a.edgeRatio.V() == b.edgeRatio.V() && StrLe(U(a.candidateId), U(b.candidateId)))
  }

  function UsableOf(quotes: seq<ContractQuote>, asOf: int, th: Thresholds,
                    universe: Option<set<string>>): seq<ContractQuote> {
    Pick(quotes, Usable(asOf / 86400, th, universe))
  }

  /** The pass over quotes, given the hash of their snapshot. */
  function PriceAll(host: Host, quotes: seq<ContractQuote>, asOf: int, hash: string, th: Thresholds,
                    universe: Option<set<string>>): ActuaryResult {
    var usable := UsableOf(quotes, asOf, th, universe);
    var ordered := Sort(usable, QuoteLe);
    var pass := Pass(host, hash, asOf, th, BySymbol(usable));
    var pairs := PairsOf(ordered, ordered, th);
    ActuaryResult(Sort(Pick(pairs, Offer(pass)), ProposalLe),
                  Pick(quotes, Thrown(asOf / 86400, th, universe)) + Pick(pairs, Drop(pass)))
  }

  /** `price_put_credit_spreads` */
  function Price(host: Host, s: Snapshot, th: Thresholds, universe: Option<set<string>>): ActuaryResult {
    PriceAll(host, s.quotes, s.asOf, SnapshotHash(host, s), th, universe)
  }

  // ----- the loops ------------------------------------------------------------------

  lemma PickNext<A, B>(s: seq<A>, i: nat, f: A -> Option<B>)
    requires i < |s|
    ensures Pick(s[..i + 1], f) == match f(s[i]) case Some(b) => Pick(s[..i], f) + [b] case None => Pick(s[..i], f)
  {
    assert s[..i + 1][..i] == s[..i];
  }

  /** The first loop: what is usable and what is discarded. */
  method ScreenQuotes(quotes: seq<ContractQuote>, today: int, th: Thresholds, universe: Option<set<string>>)
    returns (usable: seq<ContractQuote>, discards: seq<Discard>)
    ensures usable == Pick(quotes, Usable(today, th, universe)) && discards == Pick(quotes, Thrown(today, th, universe))
  {
    usable, discards := [], [];
    for i := 0 to |quotes|
      invariant usable == Pick(quotes[..i], Usable(today, th, universe))
      invariant discards == Pick(quotes[..i], Thrown(today, th, universe))
    {
      PickNext(quotes, i, Usable(today, th, universe));
      PickNext(quotes, i, Thrown(today, th, universe));
      var q := quotes[i];
      if InScope(q, universe) {
        var failure := Screen(q, today, th);
        if failure.Some? {
          discards := discards + [Discard(q.symbol, failure.value)];
        } else {
          usable := usable + [q];
        }
      }
    }
    assert quotes[..|quotes|] == quotes;
  }

  lemma {:induction false} PickConcat<A, B>(a: seq<A>, b: seq<A>, f: A -> Option<B>)
    ensures Pick(a + b, f) == Pick(a, f) + Pick(b, f)
  {
    if b == [] {
      assert a + b == a;
    } else {
      assert (a + b)[..|a + b| - 1] == a + b[..|b| - 1];
      PickConcat(a, b[..|b| - 1], f);
    }
  }

  lemma PairStep(pass: Pass, short: ContractQuote, longs: seq<ContractQuote>, j: nat)
    requires j < |longs|
    ensures var now, next := PartnersOf(short, longs[..j], pass.th), PartnersOf(short, longs[..j + 1], pass.th);
      if Pairs(short, longs[j], pass.th) then
        match PriceOne(pass, short, longs[j])
        case Offered(p) =>
          && Pick(next, Offer(pass)) == Pick(now, Offer(pass)) + [p]
          && Pick(next, Drop(pass)) == Pick(now, Drop(pass))
        case Dropped(d) =>
          && Pick(next, Offer(pass)) == Pick(now, Offer(pass))
          && Pick(next, Drop(pass)) == Pick(now, Drop(pass)) + [d]
      else next == now
  {
    assert longs[..j + 1][..j] == longs[..j];
    if Pairs(short, longs[j], pass.th) {
      var now, next := PartnersOf(short, longs[..j], pass.th), PartnersOf(short, longs[..j + 1], pass.th);
      assert next[..|next| - 1] == now && next[|now|] == (short, longs[j]);
    }
  }

  /** The inner loop: every long leg a short leg pairs with. */
  method PricePartners(pass: Pass, short: ContractQuote, ordered: seq<ContractQuote>)
    returns (proposals: seq<Proposal>, discards: seq<Discard>)
    ensures proposals == Pick(PartnersOf(short, ordered, pass.th), Offer(pass))
    ensures discards == Pick(PartnersOf(short, ordered, pass.th), Drop(pass))
  {
    proposals, discards := [], [];
    for j := 0 to |ordered|
      invariant proposals == Pick(PartnersOf(short, ordered[..j], pass.th), Offer(pass))
      invariant discards == Pick(PartnersOf(short, ordered[..j], pass.th), Drop(pass))
    {
      PairStep(pass, short, ordered, j);
      if Pairs(short, ordered[j], pass.th) {
        var priced := PriceOne(pass, short, ordered[j]);
        match priced
        case Offered(p) => proposals := proposals + [p];
        case Dropped(d) => discards := discards + [d];
      }
    }
    assert ordered[..|ordered|] == ordered;
  }

  lemma ShortStep(pass: Pass, shorts: seq<ContractQuote>, longs: seq<ContractQuote>, i: nat)
    requires i < |shorts|
    ensures var now, next := PairsOf(shorts[..i], longs, pass.th), PairsOf(shorts[..i + 1], longs, pass.th);
      var more := PartnersOf(shorts[i], longs, pass.th);
      if InBand(shorts[i], pass.th) then
        && Pick(next, Offer(pass)) == Pick(now, Offer(pass)) + Pick(more, Offer(pass))
        && Pick(next, Drop(pass)) == Pick(now, Drop(pass)) + Pick(more, Drop(pass))
      else next == now
  {
    assert shorts[..i + 1][..i] == shorts[..i];
    var now, more := PairsOf(shorts[..i], longs, pass.th), PartnersOf(shorts[i], longs, pass.th);
    PickConcat(now, more, Offer(pass));
    PickConcat(now, more, Drop(pass));
  }

  /** The nested loops: every eligible pair, priced or discarded. */
  method PricePairs(pass: Pass, ordered: seq<ContractQuote>)
    returns (proposals: seq<Proposal>, discards: seq<Discard>)
    ensures proposals == Pick(PairsOf(ordered, ordered, pass.th), Offer(pass))
    ensures discards == Pick(PairsOf(ordered, ordered, pass.th), Drop(pass))
  {
    proposals, discards := [], [];
    for i := 0 to |ordered|
      invariant proposals == Pick(PairsOf(ordered[..i], ordered, pass.th), Offer(pass))
      invariant discards == Pick(PairsOf(ordered[..i], ordered, pass.th), Drop(pass))
    {
      ShortStep(pass, ordered, ordered, i);
      if InBand(ordered[i], pass.th) {
        var ps, ds := PricePartners(pass, ordered[i], ordered);
        proposals, discards := proposals + ps, discards + ds;
      }
    }
    assert ordered[..|ordered|] == ordered;
  }

  /** `price_put_credit_spreads` */
  method PricePutCreditSpreads(host: Host, s: Snapshot, th: Thresholds, universe: Option<set<string>>)
    returns (r: ActuaryResult)
    ensures r == Price(host, s, th, universe)
  {
    var hash := SnapshotHash(host, s);
    var usable, thrown := ScreenQuotes(s.quotes, s.asOf / 86400, th, universe);
    var pass := Pass(host, hash, s.asOf, th, BySymbol(usable));
    var proposals, dropped := PricePairs(pass, Sort(usable, QuoteLe));
    r := ActuaryResult(Sort(proposals, ProposalLe), thrown + dropped);
  }
}
