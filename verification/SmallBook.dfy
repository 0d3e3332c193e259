/** A small spread, and that the Kernel approves it: the ground of every input below that is a
    run of entries. */
module SmallBook {
  import opened Decimals
  import opened Division
  import opened Domain
  import opened Verdicts
  import opened KernelState
  import opened Rules
  import opened Kernel
  import opened Closes
  import opened Book
  import opened Solvency
  import Engine

  const NO_AMOUNT := Decimal(false, 0, 0)
  const ONE_UNIT := Decimal(false, 1, 0)
  const LOSS := Decimal(false, 70, 0)

  function Short(): Leg { Leg("SPY-P10", Put, Sell, Decimal(false, 10, 0), 14, 1) }
  function Long(): Leg { Leg("SPY-P9", Put, Buy, Decimal(false, 9, 0), 14, 1) }

  /** A dollar-wide put spread at a credit of thirty cents, two weeks out, priced from one
      snapshot or another. */
  function SmallSpread(tag: string): Proposal {
    Proposal(tag, "SPY", PutCreditSpread, Open, [Short(), Long()], Short().strike, Long().strike, 14, 14,
             Decimal(false, 30, -2), Decimal(false, 30, 0), LOSS, LOSS, Decimal(false, 970, -2), NO_AMOUNT, NO_AMOUNT,
             NO_AMOUNT, NO_AMOUNT, ONE_UNIT, ONE_UNIT, 0.0, NO_AMOUNT, NO_AMOUNT, NO_AMOUNT, true, tag, 0)
  }

  const EQUITY := 10000.0

  /** Four contracts of it, asked for at an equity of ten thousand dollars. */
  function SmallEntry(tag: string, result: Engine.Status): Entry {
    Entry(SmallSpread(tag), 4, Reading(0, 0, EQUITY, None, Active, false), {tag}, "n", result, 2025)
  }

  lemma SmallAmounts()
    ensures LOSS.V() == 70.0 && NO_AMOUNT.V() == 0.0 && ONE_UNIT.V() == 1.0
    ensures Short().strike.V() == 10.0 && Long().strike.V() == 9.0
  {
  }

  // ----- a book with room for it --------------------------------------------------------

  /** Nothing open, or four contracts of the spread, and no losses past the limit. */
  ghost predicate BookShows(ps: seq<Policy>, used: int) {
    && (used == 0 || used == 280)
    && Sum(ps, Reserved()) == used as real && Sum(ps, ExposedLoss()) == used as real
    && Sum(ps, ReservedFor("SPY")) == used as real && Sum(ps, One()) <= 7.0
    && Sum(ps, Realized()) >= -300.0
  }

  lemma EmptyBookShows()
    ensures BookShows([], 0)
  {
  }

  /** What the Kernel is then shown. */
  ghost predicate ContextShows(c: KernelContext, tag: string, used: int) {
    && (used == 0 || used == 280)
    && c.TotalReserve() == used as real && c.PortfolioMaxLoss() == used as real && c.ReserveFor("SPY") == used as real
    && c.TotalAssignmentCost() == 0.0 && |c.openPolicies| <= 7
    && c.account.nav == EQUITY && c.account.equity == EQUITY && c.account.peakEquity == EQUITY
    && c.account.buyingPower == 20000.0 && c.account.dailyRealizedPnl >= -300.0 && c.account.readOk
    && c.now == c.dataAsOf && c.mode.Active? && !c.killSwitchEngaged && c.marketOpen
    && c.minutesSinceOpen == 60 && c.minutesToClose == 60 && c.portfolioNetDelta == 0.0 && c.portfolioNetVega == 0.0
    && tag in c.suppliedCandidateIds && c.breachedUnderlyings == {} && c.existingClientOrderIds == {}
  }

  lemma BookIsShown(ps: seq<Policy>, tag: string, result: Engine.Status, used: int)
    requires BookShows(ps, used)
    ensures ContextShows(EntryContext(ps, SmallEntry(tag, result).reading, {tag}), tag, used)
  {
    ShownSums(ps, 0, 0, "SPY");
    ShownWithoutStrikes(ps, 0, 0);
  }

  lemma NotADuplicate(host: Host, ps: seq<Policy>, tag: string, result: Engine.Status)
    ensures !Duplicate(host, SmallSpread(tag), EntryContext(ps, SmallEntry(tag, result).reading, {tag}))
  {
    SmallAmounts();
    StrikesAreNotSeen(host, ps, SmallEntry(tag, result).reading, SmallSpread(tag), DEFAULT_LIMITS);
  }

  lemma SmallSizing(c: KernelContext, tag: string, used: int)
    requires ContextShows(c, tag, used)
    ensures ComputeSizing(SmallSpread(tag), c, DEFAULT_LIMITS).Permitted() == 4
  {
    SmallAmounts();
    FloorDivExact(300, 70);
    FloorDivExact(1500 - used, 70);
    FloorDivExact(6000 - used, 70);
    FloorDivExact(20000, 1000);
  }

  lemma SmallFitsCapital(c: KernelContext, tag: string, used: int)
    requires ContextShows(c, tag, used)
    ensures CapitalPasses(SmallSpread(tag), c, DEFAULT_LIMITS)
  {
    SmallAmounts();
  }

  lemma SmallIsOfQuality(c: KernelContext, tag: string, used: int)
    requires ContextShows(c, tag, used)
    ensures EntryQualityPasses(SmallSpread(tag), c, DEFAULT_LIMITS)
  {
    SmallAmounts();
  }

  lemma SmallIsDefinedRisk(tag: string)
    ensures DefinedRisk(SmallSpread(tag).legs) && SmallSpread(tag).maxLoss.V() == 70.0
  {
    SmallAmounts();
    assert Covers(Long(), Short()) && SmallSpread(tag).legs[0] == Short() && SmallSpread(tag).legs[1] == Long();
  }

  lemma NoDrawdown(a: AccountState)
    requires a.equity == EQUITY && a.peakEquity == EQUITY
    ensures a.DrawdownPct() == 0.0
  {
  }

  lemma SmallIsSafe(host: Host, c: KernelContext, tag: string, used: int)
    requires ContextShows(c, tag, used) && !Duplicate(host, SmallSpread(tag), c)
    ensures SafetyPasses(host, SmallSpread(tag), c, DEFAULT_LIMITS)
  {
    SmallIsDefinedRisk(tag);
    NoDrawdown(c.account);
  }

  lemma SmallHasNoExposure(c: KernelContext, tag: string, used: int)
    requires ContextShows(c, tag, used)
    ensures Sk008(SmallSpread(tag), c, DEFAULT_LIMITS).passed && Sk009(SmallSpread(tag), c, DEFAULT_LIMITS).passed
  {
    SmallAmounts();
    NavIsPositive(10000.0);
    NavIsPositive(100000.0);
  }

  lemma NavIsPositive(unit: real)
    requires unit > 0.0
    ensures Div(EQUITY, unit) > 0.0
  {
    assert EQUITY / unit > 0.0;
  }

  lemma SmallSize(c: KernelContext, tag: string, used: int)
    requires ContextShows(c, tag, used)
    ensures RawSize(SmallSpread(tag), 4, c, DEFAULT_LIMITS) == 4
  {
    SmallSizing(c, tag, used);
  }

  lemma WholeSize(table: seq<RuleSpec>, p: Proposal, n: nat, c: KernelContext)
    requires RawSize(p, n, c, DEFAULT_LIMITS) == n && SoftFailures(RuleResults(table, p, c, DEFAULT_LIMITS)) == 0
    ensures ApprovedSize(table, p, n, c, DEFAULT_LIMITS) == n
  {
    DefaultSizeIsHalved(table, p, n, c);
  }

  lemma ClearlyApproved(host: Host, p: Proposal, n: nat, c: KernelContext, secret: string, nonce: string)
    requires secret != "" && n >= 1 && RawSize(p, n, c, DEFAULT_LIMITS) == n
    requires CapitalPasses(p, c, DEFAULT_LIMITS) && EntryQualityPasses(p, c, DEFAULT_LIMITS)
    requires SafetyPasses(host, p, c, DEFAULT_LIMITS)
    requires Sk008(p, c, DEFAULT_LIMITS).passed && Sk009(p, c, DEFAULT_LIMITS).passed
    ensures var v := Evaluate(host, Table(host), p, n, c, secret, DEFAULT_LIMITS, nonce);
      v.decision.Approve? && v.approvedContracts == n
  {
    TableMeaning(host, p, c, DEFAULT_LIMITS);
    WholeSize(Table(host), p, n, c);
    ApprovesExactly(host, Table(host), p, n, c, secret, DEFAULT_LIMITS, nonce);
  }

  lemma SmallIsApproved(host: Host, secret: string, ps: seq<Policy>, tag: string, result: Engine.Status, used: int)
    requires secret != "" && BookShows(ps, used)
    ensures var v := VerdictOn(host, secret, DEFAULT_LIMITS, ps, SmallEntry(tag, result));
      v.decision.Approve? && v.approvedContracts == 4
  {
    var e := SmallEntry(tag, result);
    var c := EntryContext(ps, e.reading, e.candidates);
    BookIsShown(ps, tag, result, used);
    NotADuplicate(host, ps, tag, result);
    SmallSize(c, tag, used);
    SmallFitsCapital(c, tag, used);
    SmallIsOfQuality(c, tag, used);
    SmallIsSafe(host, c, tag, used);
    SmallHasNoExposure(c, tag, used);
    ClearlyApproved(host, e.p, 4, c, secret, e.nonce);
  }

  lemma SmallIsAllowed(tag: string, result: Engine.Status)
    ensures Allowed(Enter(SmallEntry(tag, result)), EQUITY)
  {
    SmallAmounts();
    WholeIs(10000.0 * LOSS.V(), 700000);
    WholeIs(100.0 * EQUITY, 1000000);
  }

  // ----- two of it --------------------------------------------------------------------------

  /** The row of such a policy. */
  function SmallRow(ps: seq<Policy>, tag: string): Policy {
    PolicyRow(ps, SmallSpread(tag), 4, Live, 2025)
  }

  lemma SmallRowIs(ps: seq<Policy>, tag: string)
    ensures var row := SmallRow(ps, tag);
      row.maxLoss == 280.0 && row.capitalReserve == 280.0 && row.Exposed() && row.underlying == "SPY"
  {
    SmallAmounts();
  }

  lemma FilledEnters(host: Host, secret: string, t: Tables, tag: string, used: int)
    requires secret != "" && BookShows(t.policies, used)
    ensures Advance(host, secret, DEFAULT_LIMITS, t, Enter(SmallEntry(tag, Engine.FILLED)))
         == Added(t, SmallRow(t.policies, tag))
  {
    SmallIsApproved(host, secret, t.policies, tag, Engine.FILLED, used);
  }

  lemma RowShows(row: Policy)
    requires row.maxLoss == 280.0 && row.capitalReserve == 280.0 && row.Exposed() && row.underlying == "SPY"
    ensures BookShows([row], 280)
  {
    assert [row][1..] == [];
    assert Sum([row], Reserved()) == 280.0 + Sum([row][1..], Reserved());
    assert Sum([row], ExposedLoss()) == 280.0 + Sum([row][1..], ExposedLoss());
    assert Sum([row], ReservedFor("SPY")) == 280.0 + Sum([row][1..], ReservedFor("SPY"));
    assert Sum([row], One()) == 1.0 + Sum([row][1..], One());
    assert Sum([row], Realized()) == 0.0 + Sum([row][1..], Realized());
  }

  /** The run of two entries priced from two snapshots, both filled. */
  function TwoEntries(): seq<Move> {
    [Enter(SmallEntry("a", Engine.FILLED)), Enter(SmallEntry("b", Engine.FILLED))]
  }

  /** The book it leaves. */
  function TwoRows(): seq<Policy> {
    var a := SmallRow([], "a");
    [a, SmallRow([a], "b")]
  }

  lemma PlayNext(host: Host, secret: string, l: KernelLimits, moves: seq<Move>, m: Move)
    ensures Play(host, secret, l, moves + [m]) == Advance(host, secret, l, Play(host, secret, l, moves), m)
  {
    assert (moves + [m])[..|moves|] == moves;
  }

  lemma OneEntryPlayed(host: Host, secret: string)
    requires secret != ""
    ensures Play(host, secret, DEFAULT_LIMITS, [TwoEntries()[0]]).policies == [SmallRow([], "a")]
  {
    EmptyBookShows();
    FilledEnters(host, secret, EMPTY, "a", 0);
    PlayNext(host, secret, DEFAULT_LIMITS, [], TwoEntries()[0]);
    assert [] + [TwoEntries()[0]] == [TwoEntries()[0]];
  }

  lemma OneMoreEntered(host: Host, secret: string, t: Tables)
    requires secret != "" && t.policies == [SmallRow([], "a")]
    ensures Advance(host, secret, DEFAULT_LIMITS, t, TwoEntries()[1]).policies == TwoRows()
  {
    SmallRowIs([], "a");
    RowShows(SmallRow([], "a"));
    FilledEnters(host, secret, t, "b", 280);
  }

  lemma TwoEntriesPlayed(host: Host, secret: string)
    requires secret != ""
    ensures Play(host, secret, DEFAULT_LIMITS, TwoEntries()).policies == TwoRows()
  {
    var first, second := TwoEntries()[0], TwoEntries()[1];
    OneEntryPlayed(host, secret);
    PlayNext(host, secret, DEFAULT_LIMITS, [first], second);
    assert [first] + [second] == TwoEntries();
    OneMoreEntered(host, secret, Play(host, secret, DEFAULT_LIMITS, [first]));
  }

  /** What SK-021 means by identical: the same underlying, legs and expiry, both open. */
  predicate Twins(a: Policy, b: Policy) {
    a.Exposed() && b.Exposed() && a.underlying == b.underlying && a.legs == b.legs && a.expiry == b.expiry
  }

  lemma EntriesAreAllowed()
    ensures forall m :: m in TwoEntries() ==> Allowed(m, EQUITY)
  {
    SmallIsAllowed("a", Engine.FILLED);
    SmallIsAllowed("b", Engine.FILLED);
  }

  lemma RowsAreTwins()
    ensures |TwoRows()| == 2 && Twins(TwoRows()[0], TwoRows()[1])
  {
  }

  lemma SpreadsHashApart(host: Host)
    ensures host.Sound() ==> ProposalHash(host, SmallSpread("a")) != ProposalHash(host, SmallSpread("b"))
  {
    if host.Sound() {
      ProposalHashBinds(host, SmallSpread("a"), SmallSpread("b"));
    }
  }

  /** The input: a run of the desk's own moves that ends with two identical policies open, under
      two different proposals, each approved in its turn. */
  lemma TwinsAreWritten(host: Host, secret: string)
    requires secret != ""
    ensures (forall m :: m in TwoEntries() ==> Allowed(m, EQUITY))
    ensures var ps := Play(host, secret, DEFAULT_LIMITS, TwoEntries()).policies;
      |ps| == 2 && Twins(ps[0], ps[1])
    ensures host.Sound() ==> ProposalHash(host, SmallSpread("a")) != ProposalHash(host, SmallSpread("b"))
  {
    TwoEntriesPlayed(host, secret);
    EntriesAreAllowed();
    RowsAreTwins();
    SpreadsHashApart(host);
  }
}
