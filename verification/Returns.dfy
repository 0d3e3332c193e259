/** A policy through the book: what was offered and written is what a later cycle manages and sends
    out again, term for term, and at the debit the Claims Desk named. */
module Returns {
  import opened Numerals
  import opened Decimals
  import opened Division
  import opened Domain
  import opened KernelState
  import opened Market
  import opened Formulas
  import opened Orders
  import opened ExitLegs
  import opened Actuary
  import opened ActuaryLaws
  import opened Book
  import opened Claims
  import opened Exits
  import opened Patience
  import opened Verdicts
  import opened Positions
  import opened Spreads
  import B = Broker
  import E = Engine
  import M = Management
  import X = Execution

  // ----- the same policy -------------------------------------------------------------------

  lemma WidthAtMostFive(short: ContractQuote, long: ContractQuote)
    requires short.strike.V() - long.strike.V() <= 5.0
    ensures WidthOf(short, long).V() <= 5.0
  {
    var width := short.strike.V() - long.strike.V();
    QuantiseValue(width, PerShare, HalfUp);
    assert RoundTo(PerShare.Times(width), HalfUp) <= 50000;
  }

  /** What an offer is written in: one put sold above one put bought, at a loss in whole cents that
      Python divides exactly. */
  ghost predicate PlainSpread(p: Proposal) {
    PlainLegs(p) && Hundredths(p.maxLoss.V()) && 0.0 < p.maxLoss.V() < TEN27 as real / 1000.0
  }

  ghost predicate PlainLegs(p: Proposal) {
    && |p.legs| == 2 && p.legs[0].side.Sell? && p.legs[1].side.Buy?
    && (forall i :: 0 <= i < 2 ==> p.legs[i].right.Put? && p.legs[i].expiry == p.expiry && p.legs[i].ratioQty == 1)
    && p.shortStrike == p.legs[0].strike && p.longStrike == p.legs[1].strike
  }

  lemma NamedIsPlain(p: Proposal, short: ContractQuote, long: ContractQuote, asOf: int, hash: string)
    requires Names(p, short, long, asOf, hash) && short.expiry == long.expiry
    ensures PlainLegs(p)
  {
  }

  lemma OfferLosesCents(short: ContractQuote, long: ContractQuote, loss: real)
    requires short.strike.V() - long.strike.V() <= 5.0 && Priceable(short, long) && loss == LossOf(short, long)
    ensures 0.0 < loss <= 500.0
  {
    WidthAtMostFive(short, long);
    CreditIsNotNegative(short, long);
  }

  lemma OfferIsPlain(host: Host, s: Snapshot, universe: Option<set<string>>, p: Proposal, short: ContractQuote,
                     long: ContractQuote)
    requires OfferOf(host, s, DEFAULT_THRESHOLDS, universe, p, short, long) && Hundredths(p.maxLoss.V())
    ensures PlainSpread(p)
  {
    NamedIsPlain(p, short, long, s.asOf, SnapshotHash(host, s));
    CostedIsPlain(p, short, long);
  }

  lemma CostedIsPlain(p: Proposal, short: ContractQuote, long: ContractQuote)
    requires short.strike.V() - long.strike.V() <= 5.0 && short.delta.Some? && Priceable(short, long)
    requires p.maxLoss.V() == LossOf(short, long)
    ensures 0.0 < p.maxLoss.V() < TEN27 as real / 1000.0
  {
    OfferLosesCents(short, long, p.maxLoss.V());
  }

  lemma OffersArePlain(host: Host, s: Snapshot, universe: Option<set<string>>, p: Proposal)
    requires DistinctSymbols(s.quotes) && p in Price(host, s, DEFAULT_THRESHOLDS, universe).proposals
    ensures PlainSpread(p)
  {
    var short, long := EveryOfferIsASpread(host, s, DEFAULT_THRESHOLDS, universe, p);
    OffersMeetTheKernel(host, s, universe, p);
    OfferIsPlain(host, s, universe, p, short, long);
  }

  lemma LossComesBack(amount: real, loss: real, contracts: int)
    requires contracts >= 1 && Hundredths(loss) && 0.0 < loss < TEN27 as real / 1000.0
    requires amount == loss * contracts as real
    ensures PerSpread(amount, contracts) == loss
  {
    var q := amount / contracts as real;
    assert q * contracts as real == amount;
    SameFactor(q, loss, contracts as real);
    CentsAreExact(loss);
  }

  lemma SameFactor(a: real, b: real, n: real)
    requires n > 0.0 && a * n == b * n
    ensures a == b
  {
    if a < b { RealLt(a, b, n); }
    if b < a { RealLt(b, a, n); }
  }

  lemma LegsComeBack(legs: seq<Leg>, expiry: int)
    requires |legs| == 2 && legs[0].side.Sell? && legs[1].side.Buy?
    requires forall i :: 0 <= i < 2 ==> legs[i].right.Put? && legs[i].expiry == expiry && legs[i].ratioQty == 1
    ensures RebuildLegs(StoreLegs(legs), expiry) == Some(legs)
  {
    var kept := StoreLegs(legs);
    assert kept[1..][0] == kept[1];
    assert FirstOn(kept, Sell) == Some(kept[0]) && FirstOn(kept, Buy) == Some(kept[1]);
    assert [RebuiltLeg(kept[0], expiry), RebuiltLeg(kept[1], expiry)] == legs;
  }

  /** The exit of this proposal: the same legs to the same day at the same money, to be closed. */
  ghost predicate ClosesWhat(exit: Proposal, p: Proposal, now: int) {
    && exit.action.Close? && exit.underlying == p.underlying && exit.legs == p.legs && exit.expiry == p.expiry
    && exit.shortStrike == p.shortStrike && exit.longStrike == p.longStrike && exit.dte == p.expiry - now / 86400
    && exit.netCredit.V() == p.netCredit.V() && exit.maxLoss.V() == p.maxLoss.V() && exit.capitalReserve == exit.maxLoss
    && exit.netDelta.V() == 0.0 && exit.netVega.V() == 0.0
  }

  /** The position of this proposal, as it is managed. */
  ghost predicate ManagesWhat(m: ManagedPosition, p: Proposal, id: nat, contracts: int, feed: Feed) {
    && m.policyId == Digits(id) && m.contracts == contracts && m.expiry == p.expiry
    && m.openingCredit == p.netCredit.V() && m.shortStrike == p.shortStrike.V() && m.longStrike == p.longStrike.V()
    && m.costToClose == feed.cost(id) && m.underlyingPrice == feed.price(id)
  }

  /** Round trip through the book: whatever is offered and written, at any size, is rebuilt as an
      exit of exactly that spread and managed at exactly its terms. */
  lemma OfferComesBack(host: Host, s: Snapshot, universe: Option<set<string>>, p: Proposal, ps: seq<Policy>,
                       contracts: nat, year: nat, id: nat, feed: Feed, now: int)
    requires DistinctSymbols(s.quotes) && p in Price(host, s, DEFAULT_THRESHOLDS, universe).proposals
    requires contracts >= 1 && Reads(feed.columns(id), PolicyRow(ps, p, contracts, Live, year))
    ensures var row := PolicyRow(ps, p, contracts, Live, year);
      var exit := RebuildProposal(id, row, feed.columns(id), now);
      && exit.Some? && ClosesWhat(exit.value, p, now)
      && ManagesWhat(PositionOf(id, row, feed), p, id, contracts, feed)
  {
    OffersArePlain(host, s, universe, p);
    PlainComesBack(p, ps, contracts, year, id, feed, now);
  }

  lemma PlainComesBack(p: Proposal, ps: seq<Policy>, contracts: nat, year: nat, id: nat, feed: Feed, now: int)
    requires PlainSpread(p) && contracts >= 1 && Reads(feed.columns(id), PolicyRow(ps, p, contracts, Live, year))
    ensures var row := PolicyRow(ps, p, contracts, Live, year);
      var exit := RebuildProposal(id, row, feed.columns(id), now);
      && exit.Some? && ClosesWhat(exit.value, p, now)
      && ManagesWhat(PositionOf(id, row, feed), p, id, contracts, feed)
  {
    LegsComeBack(p.legs, p.expiry);
    LossComesBack(PolicyRow(ps, p, contracts, Live, year).maxLoss, p.maxLoss.V(), contracts);
    var kept := StoreLegs(p.legs);
    assert kept[1..][0] == kept[1];
    assert FirstOn(kept, Sell) == Some(kept[0]) && FirstOn(kept, Buy) == Some(kept[1]);
  }

  // ----- the debit an exit is sent at ------------------------------------------------------------

  /** What the spread costs to buy back, or its whole width if that is not known; a cent if it
      costs nothing. */
  function DebitOf(p: ManagedPosition): real {
    var debit := if p.costToClose.Some? then p.costToClose.value else p.shortStrike - p.longStrike;
    if debit == 0.0 then 0.01 else debit
  }

  /** The order is limited to this debit, raised to whole cents. */
  predicate LimitedTo(payload: Payload, debit: real) {
    && payload.kind == "limit" && Parse(payload.limitPrice).Some?
    && var limit := Parse(payload.limitPrice).value.V();
      Hundredths(limit) && limit - 0.01 < debit <= limit
  }

  lemma TargetIsDebit(p: ManagedPosition, today: int, rules: ClaimsPolicy)
    requires Judge(p, today, rules).ShouldClose()
    ensures M.TargetOf(Judge(p, today, rules)) == DebitOf(p)
  {
    TargetExactly(p, today, rules);
  }

  lemma ExitIsLimited(host: Host, closing: Proposal, n: nat, debit: real)
    requires closing.action.Close? && debit >= 0.0 && BuildOrder(host, closing, n, Some(debit), 0).Ok?
    ensures LimitedTo(BuildOrder(host, closing, n, Some(debit), 0).value, debit)
  {
    BuiltExactly(host, closing, n, Some(debit), 0);
    ExitLimitIs(debit, 0);
  }

  lemma SentIsLimited(d: M.Wiring, w: B.World, consumed: set<string>, closing: Proposal, v: KernelVerdict, now: int,
                      debit: real)
    requires B.SoundWorld(w) && closing.action.Close? && debit >= 0.0
    ensures var w' := E.Execute(d.host, d.script, d.cfg, d.secret, w, consumed, closing, Some(v), now,
                                Some(debit), 0).0;
      && |w.orders| <= |w'.orders| <= |w.orders| + 1
      && (|w'.orders| > |w.orders| ==> LimitedTo(w'.orders[|w.orders|].payload, debit))
  {
    SendsExactly(d.host, d.script, d.cfg, d.secret, w, consumed, closing, Some(v), now, Some(debit), 0);
    var a := AuthorizeWith(d.host, Some(v), ProposalHash(d.host, closing), d.secret, now, consumed).0;
    if a.Granted? && BuildOrder(d.host, closing, a.contracts, Some(debit), 0).Ok? {
      var payload := BuildOrder(d.host, closing, a.contracts, Some(debit), 0).value;
      ExitIsLimited(d.host, closing, a.contracts, debit);
      X.TransmitTells(d.script, d.cfg, w, payload, a.contracts, 1);
    }
    BuiltExactly(d.host, closing, if a.Granted? then a.contracts else 0, Some(debit), 0);
  }

  /** Every exit a management cycle sends is limited to what the Claims Desk said it should cost:
      the spread's price, its width if it has none, or a cent if it costs nothing. */
  lemma ExitIsSentAtTheDebit(d: M.Wiring, s: M.Setting, g: M.Progress, p: ManagedPosition, i: nat)
    requires B.SoundWorld(g.world) && DebitOf(p) >= 0.0
    ensures var w' := M.Turn(d, s, g, p, i).world;
      && |g.world.orders| <= |w'.orders| <= |g.world.orders| + 1
      && (|w'.orders| > |g.world.orders| ==> LimitedTo(w'.orders[|g.world.orders|].payload, DebitOf(p)))
  {
    var claims := Judge(p, s.today, s.rules);
    if g.raised.None? && claims.ShouldClose() && M.Prepared(d, s, p, s.nonces(i)).Transmit? {
      var t := M.Prepared(d, s, p, s.nonces(i));
      TargetIsDebit(p, s.today, s.rules);
      SentIsLimited(d, g.world, g.consumed, t.closing, t.verdict, M.WallClock(s, g.world), DebitOf(p));
    }
  }

  // ----- rows that were not written by an offer --------------------------------------------------

  /** Whatever row is rebuilt, its exit can be ordered exactly if neither leg is stored at a
      negative ratio: a ratio of nought is read as one. */
  lemma RebuiltExitBuilds(host: Host, id: nat, row: Policy, c: Columns, now: int, contracts: int, debit: real,
                          step: nat)
    requires RebuildProposal(id, row, c, now).Some? && contracts >= 1 && step <= 3
    ensures BuildOrder(host, RebuildProposal(id, row, c, now).value, contracts, Some(debit), step).Ok?
       <==> FirstOn(row.legs, Sell).value.ratioQty >= 0 && FirstOn(row.legs, Buy).value.ratioQty >= 0
  {
    BuiltExactly(host, RebuildProposal(id, row, c, now).value, contracts, Some(debit), step);
  }

  /** A position has a price exactly if both of its legs are on file and the market has one. */
  lemma PricedExactly(id: nat, row: Policy, feed: Feed)
    ensures PositionOf(id, row, feed).costToClose.Some?
       <==> RebuildLegs(row.legs, row.expiry).Some? && feed.cost(id).Some?
  {
  }

  /** A policy that has lost a leg is never sent out: it is escalated and held until it reaches the
      DTE floor; from there on no exit can be constructed, and it is no longer escalated. */
  lemma LostLegIsNeverSent(d: M.Wiring, s: M.Setting, g: M.Progress, ps: seq<Policy>, id: nat, feed: Feed, now: int,
                           i: nat)
    requires g.raised.None? && id < |ps| && RebuildLegs(ps[id].legs, ps[id].expiry).None?
    requires s.proposals == ProposalsFrom(ps, feed, now)
    ensures var next := M.Turn(d, s, g, PositionOf(id, ps[id], feed), i);
      && next.world == g.world && next.consumed == g.consumed && next.raised.None?
      && |next.attempts| == |g.attempts| + 1
      && next.attempts[|g.attempts|].handling
         == (if ps[id].expiry - s.today <= s.rules.forceFlatDte then M.Unconstructable else M.Held)
      && next.escalated
         == (if ps[id].expiry - s.today <= s.rules.forceFlatDte then g.escalated else g.escalated + [Digits(id)])
  {
    var p := PositionOf(id, ps[id], feed);
    PricedExactly(id, ps[id], feed);
    ProposedExactly(ps, id, feed, now);
    M.TurnExactly(d, s, g, p, i);
    M.TurnEscalates(d, s, g, p, i);
    PrecedenceExactly(p, s.today, s.rules);
  }
}
