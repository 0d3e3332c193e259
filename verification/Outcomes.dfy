/** What one underwriting cycle does, outcome by outcome: when it touches anything at all, when it
    sends, and what it then writes down. */
module Outcomes {
  import opened Decimals
  import opened Domain
  import opened Verdicts
  import opened KernelState
  import opened Rules
  import opened Kernel
  import opened Orders
  import opened Market
  import opened Formulas
  import opened Actuary
  import opened ActuaryLaws
  import opened Agent
  import opened Book
  import opened BoundedLoss
  import opened Solvency
  import opened Capacity
  import opened Entries
  import opened Spreads
  import opened Underwriting
  import B = Broker
  import E = Engine

  // ----- the outcomes ------------------------------------------------------------------------

  /** What the cycle offers the model. */
  function Supplied(d: Desk, input: CycleInput): seq<Proposal>
    requires input.snapshot.Some?
  {
    Price(d.host, input.snapshot.value, DEFAULT_THRESHOLDS, Some(input.universe)).proposals
  }

  /** The desk is active, there is a snapshot, and the model picked this candidate. */
  predicate Picks(d: Desk, input: CycleInput, p: Proposal, requested: int) {
    input.reading.mode.Active? && input.snapshot.Some?
    && Selection(Supplied(d, input), input.replies) == Selected(p, requested)
  }

  /** The Kernel's verdict on it, on the book as the cycle found it. */
  function VerdictOnPick(d: Desk, f: Firm, input: CycleInput, p: Proposal, requested: int): KernelVerdict
    requires input.snapshot.Some?
  {
    Adjudicated(d, f, p, requested, SuppliedIds(Supplied(d, input)), input)
  }

  ghost predicate Approved(d: Desk, f: Firm, input: CycleInput) {
    exists p, requested: int ::
      Picks(d, input, p, requested) && VerdictOnPick(d, f, input, p, requested).decision.Approve?
  }

  ghost predicate Refused(d: Desk, f: Firm, input: CycleInput) {
    exists p, requested: int ::
      Picks(d, input, p, requested) && VerdictOnPick(d, f, input, p, requested).decision.Reject?
  }

  lemma PickIsOne(d: Desk, f: Firm, input: CycleInput, p: Proposal, requested: int)
    requires Picks(d, input, p, requested)
    ensures Approved(d, f, input) <==> VerdictOnPick(d, f, input, p, requested).decision.Approve?
    ensures Refused(d, f, input) <==> VerdictOnPick(d, f, input, p, requested).decision.Reject?
  {
  }

  lemma CycleIs(d: Desk, f: Firm, input: CycleInput)
    requires input.reading.mode.Active? && input.snapshot.Some?
    ensures UnderwritingCycle(d, f, input) == Underwritten(d, f, Supplied(d, input), input)
  {
  }

  lemma PickIsTraded(d: Desk, f: Firm, ps: seq<Proposal>, input: CycleInput, p: Proposal, requested: int)
    requires Selection(ps, input.replies) == Selected(p, requested)
    ensures var v := Adjudicated(d, f, p, requested, SuppliedIds(ps), input);
      Underwritten(d, f, ps, input)
      == (if v.decision.Reject? then (f, KernelRejected)
          else if !input.live then (f, DryRunApproved) else Traded(d, f, p, v, input))
  {
  }

  lemma NothingPicked(d: Desk, f: Firm, ps: seq<Proposal>, input: CycleInput)
    requires !Selection(ps, input.replies).Selected?
    ensures Underwritten(d, f, ps, input) == (f, NotWritten(Selection(ps, input.replies)))
  {
  }

  lemma TradeEnds(d: Desk, f: Firm, p: Proposal, v: KernelVerdict, input: CycleInput)
    ensures Traded(d, f, p, v, input).1.Errored? || Traded(d, f, p, v, input).1.Finished?
  {
  }

  /** Every outcome, exactly; and nothing at all is changed unless the desk is live and the Kernel
      has approved: no order, no nonce, no policy, no reserve and no order row. */
  lemma OutcomeExactly(d: Desk, f: Firm, input: CycleInput)
    ensures var (after, outcome) := UnderwritingCycle(d, f, input);
      && (outcome == ModeBlocked <==> !input.reading.mode.Active?)
      && (outcome == Aborted <==> input.reading.mode.Active? && input.snapshot.None?)
      && (outcome.NotWritten? <==>
            && input.reading.mode.Active? && input.snapshot.Some?
            && !Selection(Supplied(d, input), input.replies).Selected?)
      && (outcome == KernelRejected <==> Refused(d, f, input))
      && (outcome == DryRunApproved <==> Approved(d, f, input) && !input.live)
      && (outcome.Errored? || outcome.Finished? <==> Approved(d, f, input) && input.live)
      && (!(Approved(d, f, input) && input.live) ==> after == f)
  {
    if input.reading.mode.Active? && input.snapshot.Some? {
      var ps := Supplied(d, input);
      CycleIs(d, f, input);
      var choice := Selection(ps, input.replies);
      if choice.Selected? {
        PickIsOne(d, f, input, choice.proposal, choice.contracts);
        PickIsTraded(d, f, ps, input, choice.proposal, choice.contracts);
        TradeEnds(d, f, choice.proposal, VerdictOnPick(d, f, input, choice.proposal, choice.contracts), input);
      } else {
        NothingPicked(d, f, ps, input);
      }
    }
  }

  // ----- what is written down ---------------------------------------------------------------------

  /** The leg as the book keeps it. */
  predicate KeptAs(leg: Leg, kept: PolicyLeg) {
    && kept.optionSymbol == leg.symbol && kept.side == leg.side
    && kept.ratioQty == leg.ratioQty && kept.strike == leg.strike
  }

  /** The policy of this proposal, for so many contracts. */
  ghost predicate PolicyOf(row: Policy, p: Proposal, contracts: int, status: PolicyStatus) {
    && row.underlying == p.underlying && row.contracts == contracts && row.expiry == p.expiry
    && row.openingCredit == p.netCredit.V() && row.maxProfit == p.maxProfit.V() * contracts as real
    && row.maxLoss == p.maxLoss.V() * contracts as real && row.capitalReserve == row.maxLoss
    && row.status == status && row.settlement.None?
    && |row.legs| == |p.legs| && forall i :: 0 <= i < |p.legs| ==> KeptAs(p.legs[i], row.legs[i])
  }

  /** One more policy and its reserve, held in full; everything before as it was. */
  ghost predicate OneMore(before: Tables, after: Tables, p: Proposal, contracts: int, status: PolicyStatus) {
    && |after.policies| == |before.policies| + 1 && before.policies <= after.policies
    && |after.reserves| == |before.reserves| + 1 && before.reserves <= after.reserves
    && var row, reserve := after.policies[|before.policies|], after.reserves[|before.reserves|];
      PolicyOf(row, p, contracts, status) && reserve == ReserveRow(|before.policies|, row.maxLoss, true)
  }

  lemma RowIsWrittenFor(t: Tables, p: Proposal, contracts: int, status: PolicyStatus, year: nat)
    ensures OneMore(t, Written(t, p, contracts, status, year), p, contracts, status)
  {
  }

  /** One more row of orders, filed under the proposal. */
  ghost predicate OneMoreOrder(host: Host, before: seq<OrderRow>, after: seq<OrderRow>, p: Proposal, status: E.Status) {
    && |after| == |before| + 1 && before <= after && after[|before|].status == status
    && after[|before|].clientOrderId == ClientOrderIdFor(ProposalHash(host, p))
  }

  lemma TradeWrites(d: Desk, f: Firm, p: Proposal, v: KernelVerdict, input: CycleInput)
    requires B.SoundWorld(f.world)
    ensures var (after, outcome) := Traded(d, f, p, v, input);
      if outcome.Finished? && (outcome.status.FILLED? || outcome.status.PARTIAL?) then
        && OneMore(f.tables, after.tables, p, v.approvedContracts, if outcome.status.FILLED? then Live else LegRisk)
        && OneMoreOrder(d.host, f.orders, after.orders, p, outcome.status)
      else after.tables == f.tables && after.orders == f.orders
  {
    var payload := ExecuteTells(d, f.world, f.consumed, p, Some(v), input.now, None, 0);
    var (w, consumed, outcome) := E.Execute(d.host, d.script, d.cfg, d.secret, f.world, f.consumed, p, Some(v),
                                            input.now, None, 0);
    RowIsWrittenFor(f.tables, p, v.approvedContracts, Live, input.year);
    RowIsWrittenFor(f.tables, p, v.approvedContracts, LegRisk, input.year);
  }

  /** What fills is written down, and nothing else: after a cycle that reports a fill, full or
      short, there is one policy more, of the picked candidate at the approved contracts, live
      or at leg risk, with its whole loss held, and one order row more under its id. After any
      other cycle the tables are as they were. */
  lemma FillsAreWrittenDown(d: Desk, f: Firm, input: CycleInput)
    requires B.SoundWorld(f.world)
    ensures var (after, outcome) := UnderwritingCycle(d, f, input);
      if outcome.Finished? && (outcome.status.FILLED? || outcome.status.PARTIAL?) then
        exists p, requested: int :: Picks(d, input, p, requested) &&
          var v := VerdictOnPick(d, f, input, p, requested);
          && v.decision.Approve?
          && OneMore(f.tables, after.tables, p, v.approvedContracts, if outcome.status.FILLED? then Live else LegRisk)
          && OneMoreOrder(d.host, f.orders, after.orders, p, outcome.status)
      else after.tables == f.tables && after.orders == f.orders
  {
    OutcomeExactly(d, f, input);
    if Approved(d, f, input) && input.live {
      var p, requested: int :| Picks(d, input, p, requested)
                               && VerdictOnPick(d, f, input, p, requested).decision.Approve?;
      PickIsWritten(d, f, input, p, requested);
    }
  }

  lemma PickIsWritten(d: Desk, f: Firm, input: CycleInput, p: Proposal, requested: int)
    requires B.SoundWorld(f.world) && Picks(d, input, p, requested) && input.live
    requires VerdictOnPick(d, f, input, p, requested).decision.Approve?
    ensures var (after, outcome) := UnderwritingCycle(d, f, input);
      var n := VerdictOnPick(d, f, input, p, requested).approvedContracts;
      if outcome.Finished? && (outcome.status.FILLED? || outcome.status.PARTIAL?) then
        && OneMore(f.tables, after.tables, p, n, if outcome.status.FILLED? then Live else LegRisk)
        && OneMoreOrder(d.host, f.orders, after.orders, p, outcome.status)
      else after.tables == f.tables && after.orders == f.orders
  {
    CycleIs(d, f, input);
    PickIsTraded(d, f, Supplied(d, input), input, p, requested);
    TradeWrites(d, f, p, VerdictOnPick(d, f, input, p, requested), input);
  }

  // ----- when an approved entry is sent --------------------------------------------------------------

  /** The order of a picked candidate, and whether anything stops it short of the broker. */
  function EntryOrder(d: Desk, f: Firm, input: CycleInput, p: Proposal, requested: int): E.Prepared
    requires input.snapshot.Some?
  {
    var v := VerdictOnPick(d, f, input, p, requested);
    E.Prepare(d.host, d.cfg, AuthorizeWith(d.host, Some(v), ProposalHash(d.host, p), d.secret, input.now, f.consumed).0,
              p, None, 0)
  }

  lemma RichMeansCredit(credit: real, width: real)
    requires width != 0.0 && Quantise(Div(credit, width), Ratio, HalfUp).V() >= 0.20
    ensures credit != 0.0
  {
    if credit == 0.0 {
      QuantiseValue(0.0, Ratio, HalfUp);
    }
  }

  lemma OfferPays(short: ContractQuote, long: ContractQuote)
    requires short.delta.Some? && Against(short, long, DEFAULT_THRESHOLDS).None?
    ensures Hundredths(CreditOf(short, long).V()) && CreditOf(short, long).V() > 0.0
  {
    CreditInCents(short.bid.V(), long.ask.V());
    RichMeansCredit(CreditOf(short, long).V(), WidthOf(short, long).V());
  }

  /** A proposal that can be built as an entry: two legs, one of each, and a credit in whole cents. */
  predicate Buildable(p: Proposal) {
    && p.action.Open? && |p.legs| == 2 && p.legs[0].ratioQty == 1 && p.legs[1].ratioQty == 1
    && Hundredths(p.netCredit.V()) && p.netCredit.V() > 0.0
  }

  lemma OfferIsBuildable(host: Host, s: Snapshot, universe: Option<set<string>>, p: Proposal, short: ContractQuote,
                         long: ContractQuote)
    requires OfferOf(host, s, DEFAULT_THRESHOLDS, universe, p, short, long)
    ensures Buildable(p)
  {
    OfferPays(short, long);
  }

  lemma OffersAreBuildable(host: Host, s: Snapshot, universe: Option<set<string>>, p: Proposal)
    requires DistinctSymbols(s.quotes) && p in Price(host, s, DEFAULT_THRESHOLDS, universe).proposals
    ensures Buildable(p)
  {
    var short, long := EveryOfferIsASpread(host, s, DEFAULT_THRESHOLDS, universe, p);
    OfferIsBuildable(host, s, universe, p, short, long);
  }

  lemma OfferBuilds(p: Proposal, contracts: int)
    requires Buildable(p) && contracts >= 1
    ensures CanBeBuilt(p, contracts, None, 0)
  {
  }

  lemma LimitIsCredit(credit: real)
    requires Hundredths(credit) && credit > 0.0
    ensures EntryLimitPrice(credit, 0).Ok? && EntryLimitPrice(credit, 0).value.V() == credit
  {
    EntryLimitIs(credit, 0);
    WholeQuantised(credit, (100.0 * credit).Floor, Down);
  }

  lemma GrantedExactly(d: Desk, hash: string, v: KernelVerdict, now: int, consumed: set<string>)
    requires v.decision.Approve? && v.signature.Some? && v.approvedContracts >= 1 && d.secret != ""
    requires v.proposalHash == hash && ProperlySigned(d.host, d.secret, v)
    ensures var a := AuthorizeWith(d.host, Some(v), hash, d.secret, now, consumed).0;
      && (a.Granted? <==> now <= v.expiresAt && v.nonce !in consumed)
      && (a.Granted? ==> a.contracts == v.approvedContracts)
  {
  }

  lemma PreparedExactly(d: Desk, a: Authorization, p: Proposal, n: nat)
    requires CanBeBuilt(p, n, None, 0) && p.action.Open? && (a.Granted? ==> a.contracts == n)
    ensures var order, built := E.Prepare(d.host, d.cfg, a, p, None, 0), BuildOrder(d.host, p, n, None, 0);
      && built.Ok? && B.QtyOf(built.value) == n
      && (order.Ready? <==> a.Granted? && !(d.cfg.preflight.Some? && d.cfg.preflight.value(built.value)))
      && (order.Ready? ==> order.payload == built.value && order.contracts == n)
  {
    BuiltExactly(d.host, p, n, None, 0);
    BuiltAsAuthorised(d.host, p, n, None, 0);
  }

  lemma EntryIsAtCredit(host: Host, p: Proposal, n: nat)
    requires CanBeBuilt(p, n, None, 0) && Buildable(p)
    ensures var limit := Parse(BuildOrder(host, p, n, None, 0).value.limitPrice);
      limit.Some? && limit.value.V() == p.netCredit.V()
  {
    BuiltExactly(host, p, n, None, 0);
    LimitIsCredit(p.netCredit.V());
  }

  /** An approved entry is handed to the broker exactly when its verdict is still alive, its nonce
      has not been used and no pre-flight stops it; and then at the approved contracts, at the
      modelled credit for a limit. Otherwise the broker hears nothing. */
  lemma ApprovedEntryIsSentExactly(d: Desk, f: Firm, input: CycleInput, p: Proposal, requested: int)
    requires Picks(d, input, p, requested) && DistinctSymbols(input.snapshot.value.quotes) && input.live
    requires VerdictOnPick(d, f, input, p, requested).decision.Approve?
    ensures var n := VerdictOnPick(d, f, input, p, requested).approvedContracts;
      var built := BuildOrder(d.host, p, n, None, 0);
      && n >= 1 && built.Ok? && B.QtyOf(built.value) == n
      && Parse(built.value.limitPrice).Some? && Parse(built.value.limitPrice).value.V() == p.netCredit.V()
      && UnderwritingCycle(d, f, input).0.world
         == (if input.now <= input.reading.now + 45 && input.nonce !in f.consumed
                && !(d.cfg.preflight.Some? && d.cfg.preflight.value(built.value)) then
               E.TransmitFrom(d.script, d.cfg, f.world, built.value, n, 1).0
             else f.world)
  {
    var v := VerdictOnPick(d, f, input, p, requested);
    PickIsSigned(d, f, input, p, requested);
    OffersAreBuildable(d.host, input.snapshot.value, Some(input.universe), p);
    OfferBuilds(p, v.approvedContracts);
    GrantedExactly(d, ProposalHash(d.host, p), v, input.now, f.consumed);
    PreparedExactly(d, AuthorizeWith(d.host, Some(v), ProposalHash(d.host, p), d.secret, input.now, f.consumed).0, p,
                    v.approvedContracts);
    EntryIsAtCredit(d.host, p, v.approvedContracts);
    PickedWorld(d, f, input, p, requested);
  }

  lemma PickIsSigned(d: Desk, f: Firm, input: CycleInput, p: Proposal, requested: int)
    requires Picks(d, input, p, requested) && VerdictOnPick(d, f, input, p, requested).decision.Approve?
    ensures var v := VerdictOnPick(d, f, input, p, requested);
      && p in Supplied(d, input) && d.secret != "" && v.signature.Some? && v.approvedContracts >= 1
      && v.proposalHash == ProposalHash(d.host, p) && ProperlySigned(d.host, d.secret, v)
      && v.nonce == input.nonce && v.expiresAt == input.reading.now + 45
  {
    SelectionIsSupplied(Supplied(d, input), input.replies);
    ApprovesExactly(d.host, Table(d.host), p, requested,
                    EntryContext(f.tables.policies, input.reading, SuppliedIds(Supplied(d, input))), d.secret,
                    DEFAULT_LIMITS, input.nonce);
  }

  lemma TradedWorld(d: Desk, f: Firm, p: Proposal, v: KernelVerdict, input: CycleInput)
    ensures var a := AuthorizeWith(d.host, Some(v), ProposalHash(d.host, p), d.secret, input.now, f.consumed).0;
      var order := E.Prepare(d.host, d.cfg, a, p, None, 0);
      Traded(d, f, p, v, input).0.world
      == (if order.Ready? then E.TransmitFrom(d.script, d.cfg, f.world, order.payload, order.contracts, 1).0
          else f.world)
  {
  }

  lemma PickedWorld(d: Desk, f: Firm, input: CycleInput, p: Proposal, requested: int)
    requires Picks(d, input, p, requested) && input.live
    requires VerdictOnPick(d, f, input, p, requested).decision.Approve?
    ensures var order := EntryOrder(d, f, input, p, requested);
      UnderwritingCycle(d, f, input).0.world
      == (if order.Ready? then E.TransmitFrom(d.script, d.cfg, f.world, order.payload, order.contracts, 1).0
          else f.world)
  {
    CycleIs(d, f, input);
    PickIsTraded(d, f, Supplied(d, input), input, p, requested);
    TradedWorld(d, f, p, VerdictOnPick(d, f, input, p, requested), input);
  }

  // ----- which candidates are approved -----------------------------------------------------------------

  /** The desk's own state lets it write: no key missing, no limit passed, no halt. */
  predicate MayEnter(secret: string, ps: seq<Policy>, r: Reading) {
    && secret != "" && |ShownFrom(ps, 0, r.today)| < 8 && Sum(ps, Realized()) >= -(r.equity * 0.03)
    && NotFarDown(r) && r.equity > 0.0 && !r.killSwitch
  }

  lemma OfferIsWorthWriting(host: Host, s: Snapshot, universe: Option<set<string>>, p: Proposal, c: KernelContext)
    requires DistinctSymbols(s.quotes) && p in Price(host, s, DEFAULT_THRESHOLDS, universe).proposals
    ensures WorthWriting(p, DEFAULT_LIMITS)
  {
    OffersMeetTheKernel(host, s, universe, p);
    QualityRules(p, c, DEFAULT_LIMITS);
    assert Sk002(p, c, DEFAULT_LIMITS).passed;
  }

  lemma SuppliedMayBeWritten(host: Host, ps: seq<Policy>, r: Reading, candidates: set<string>, p: Proposal)
    requires p.candidateId in candidates && p.shortStrike.V() > 0.0
    ensures MayBeWritten(host, p, EntryContext(ps, r, candidates))
  {
    var c := EntryContext(ps, r, candidates);
    ShownWithoutStrikes(ps, 0, r.today);
    forall i | 0 <= i < |c.openPolicies| ensures c.openPolicies[i].shortStrike != p.shortStrike.V() {
      assert c.openPolicies[i] in c.openPolicies;
    }
  }

  lemma BookIsOpen(ps: seq<Policy>, r: Reading, candidates: set<string>)
    requires r.mode.Active?
    ensures OpenForEntries(EntryContext(ps, r, candidates), DEFAULT_LIMITS) <==>
      && |ShownFrom(ps, 0, r.today)| < 8 && Sum(ps, Realized()) >= -(r.equity * 0.03)
      && NotFarDown(r) && r.equity > 0.0 && !r.killSwitch
  {
    DrawdownOnTheBook(ps, r);
    DrawdownIs(ContextOf(ps, r).account, 0.10);
  }

  /** How often a candidate's size is halved on the desk's own book, which shows no Greeks of what
      is open: once for each of its own exposures past the limit of the equity. */
  function OwnHalvings(p: Proposal, equity: real): nat {
    (if Overexposed(p.netDelta.V(), 15.0, equity, 10000.0) then 1 else 0)
    + (if Overexposed(p.netVega.V(), 50.0, equity, 100000.0) then 1 else 0)
  }

  /** This many fit the book, in its own figures. */
  ghost predicate FitsTheBook(ps: seq<Policy>, equity: real, p: Proposal, n: nat) {
    && Measure(0.03 * equity, 0.0, p.maxLoss.V()).Holds(n)
    && Measure(0.15 * equity, Sum(ps, ExposedLoss()), p.maxLoss.V()).Holds(n)
    && Measure(0.15 * equity, Sum(ps, ReservedFor(p.underlying)), p.maxLoss.V()).Holds(n)
    && Measure(0.60 * equity, Sum(ps, Reserved()), p.maxLoss.V()).Holds(n)
    && Measure(2.0 * equity, 0.0, p.shortStrike.V() * 100.0).Holds(n)
  }

  /** So many contracts, doubled for each of the candidate's exposures past its limit, are no more
      than was asked and fit the book. */
  ghost predicate AskedAndFits(ps: seq<Policy>, equity: real, p: Proposal, requested: int, n: nat) {
    var before := n * TwoTo(OwnHalvings(p, equity));
    before <= requested && FitsTheBook(ps, equity, p, before)
  }

  lemma OwnHalvingsAre(ps: seq<Policy>, r: Reading, candidates: set<string>, p: Proposal)
    ensures Halvings(p, EntryContext(ps, r, candidates), DEFAULT_LIMITS) == OwnHalvings(p, r.equity)
  {
    var c := EntryContext(ps, r, candidates);
    assert c.portfolioNetDelta + p.netDelta.V() == p.netDelta.V();
    assert c.portfolioNetVega + p.netVega.V() == p.netVega.V();
  }

  lemma SizeOnTheBook(ps: seq<Policy>, r: Reading, candidates: set<string>, p: Proposal, requested: int, n: nat)
    ensures SizeFits(p, requested, EntryContext(ps, r, candidates), n) <==> AskedAndFits(ps, r.equity, p, requested, n)
  {
    OwnHalvingsAre(ps, r, candidates, p);
    AffordsOnTheBook(ps, r, candidates, p, n * TwoTo(OwnHalvings(p, r.equity)));
  }

  lemma WorthyApprovedExactly(host: Host, secret: string, ps: seq<Policy>, r: Reading, candidates: set<string>,
                              p: Proposal, requested: int, nonce: string, n: nat)
    requires p.action.Open? && WorthWriting(p, DEFAULT_LIMITS) && p.candidateId in candidates && r.mode.Active?
    requires Measurable(p, EntryContext(ps, r, candidates), DEFAULT_LIMITS) && p.shortStrike.V() > 0.0 && n >= 1
    ensures var c := EntryContext(ps, r, candidates);
      var v := Evaluate(host, Table(host), p, requested, c, secret, DEFAULT_LIMITS, nonce);
      v.decision.Approve? && n <= v.approvedContracts <==> MayEnter(secret, ps, r) && SizeFits(p, requested, c, n)
  {
    EntryApprovedExactly(host, p, requested, EntryContext(ps, r, candidates), secret, nonce, n);
    SuppliedMayBeWritten(host, ps, r, candidates, p);
    BookIsOpen(ps, r, candidates);
  }

  lemma WorthyOnTheBook(host: Host, secret: string, ps: seq<Policy>, r: Reading, candidates: set<string>,
                        p: Proposal, requested: int, nonce: string, n: nat)
    requires p.action.Open? && WorthWriting(p, DEFAULT_LIMITS) && p.candidateId in candidates && r.mode.Active?
    requires WellKept(ps) && Countable(r.equity) && p.maxLoss.V() > 0.0 && TenThousandths(p.maxLoss.V()) && n >= 1
    requires TenThousandths(p.shortStrike.V() * 100.0) && p.shortStrike.V() > 0.0
    ensures var v := Evaluate(host, Table(host), p, requested, EntryContext(ps, r, candidates), secret, DEFAULT_LIMITS,
                              nonce);
      v.decision.Approve? && n <= v.approvedContracts <==>
      MayEnter(secret, ps, r) && AskedAndFits(ps, r.equity, p, requested, n)
  {
    BookIsMeasurable(ps, r, candidates, p);
    WorthyApprovedExactly(host, secret, ps, r, candidates, p, requested, nonce, n);
    SizeOnTheBook(ps, r, candidates, p, requested, n);
  }

  lemma PickIsWorthy(d: Desk, input: CycleInput, p: Proposal, requested: int, c: KernelContext)
    requires Picks(d, input, p, requested) && DistinctSymbols(input.snapshot.value.quotes)
    ensures p.action.Open? && WorthWriting(p, DEFAULT_LIMITS) && p.candidateId in SuppliedIds(Supplied(d, input))
    ensures p.maxLoss.V() > 0.0 && TenThousandths(p.maxLoss.V())
  {
    var s, universe := input.snapshot.value, Some(input.universe);
    SelectionIsSupplied(Supplied(d, input), input.replies);
    OffersAreAllowed(d.host, s, universe, p);
    OfferIsWorthWriting(d.host, s, universe, p, c);
  }

  /** The desk's own entries, from the candidate to the size: a picked candidate is approved at n
      contracts or more exactly when the desk may enter and n contracts, halvings allowed for, are
      no more than the model asked and fit the book.
      Nothing else the Kernel checks can refuse what the Actuary offers. */
  lemma CandidateApprovedExactly(d: Desk, f: Firm, input: CycleInput, p: Proposal, requested: int, n: nat)
    requires Picks(d, input, p, requested) && DistinctSymbols(input.snapshot.value.quotes) && n >= 1
    requires WellKept(f.tables.policies) && Countable(input.reading.equity)
    requires TenThousandths(p.shortStrike.V() * 100.0) && p.shortStrike.V() > 0.0
    ensures var v := VerdictOnPick(d, f, input, p, requested);
      v.decision.Approve? && n <= v.approvedContracts <==>
      && MayEnter(d.secret, f.tables.policies, input.reading)
      && AskedAndFits(f.tables.policies, input.reading.equity, p, requested, n)
  {
    var ps, r, candidates := f.tables.policies, input.reading, SuppliedIds(Supplied(d, input));
    PickIsWorthy(d, input, p, requested, EntryContext(ps, r, candidates));
    WorthyOnTheBook(d.host, d.secret, ps, r, candidates, p, requested, input.nonce, n);
  }
}
