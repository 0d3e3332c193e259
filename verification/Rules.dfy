/** The rule table. Every rule is judged for one contract; how many fit is a
    question of sizing. */
module Rules {
  import opened Decimals
  import opened Domain
  import opened Verdicts
  import opened KernelState

  /** A rule may return a result, raise, or return something that is no result. */
  datatype RuleOutcome = Returned(result: RuleResult) | Raised | Junk

  type Evaluator = (Proposal, KernelContext, KernelLimits) -> RuleOutcome

  datatype RuleSpec = RuleSpec(ruleId: string, severity: Severity, evaluate: Evaluator)

  function ClientOrderIdFor(hash: string): string {
    "uw_" + (if |hash| <= 24 then hash else hash[..24])
  }

  function Result(id: string, passed: bool, severity: Severity, reason: string): RuleResult {
    RuleResult(id, passed, severity, if passed then "" else reason)
  }

  function RealAbs(x: real): real { if x < 0.0 then -x else x }

  // ----- capital: skipped for closes ----------------------------------------

  function Sk000(p: Proposal, c: KernelContext, l: KernelLimits): RuleResult {
    Result("SK-000", true, Hard, "")
  }

  function Sk001(p: Proposal, c: KernelContext, l: KernelLimits): RuleResult {
    Result("SK-001", p.action.Close? || c.TotalReserve() + p.capitalReserve.V() <= c.account.nav * l.maxDeployedPct,
           Hard, "MAX_DEPLOYED")
  }

  function Sk002(p: Proposal, c: KernelContext, l: KernelLimits): RuleResult {
    Result("SK-002", p.action.Close? || p.capitalReserve.V() == p.maxLoss.V(), Hard, "UNDER_RESERVED")
  }

  function Sk003(p: Proposal, c: KernelContext, l: KernelLimits): RuleResult {
    Result("SK-003", p.action.Close? || p.maxLoss.V() <= c.account.nav * l.maxPositionLossPct,
           Hard, "POSITION_LOSS_LIMIT")
  }

  function Sk007(p: Proposal, c: KernelContext, l: KernelLimits): RuleResult {
    Result("SK-007", p.action.Close? || c.PortfolioMaxLoss() + p.maxLoss.V() <= c.account.nav * l.maxPortfolioRiskPct,
           Hard, "MAX_PORTFOLIO_RISK")
  }

  // ----- structure and book shape -------------------------------------------

  /** `long` covers `short`: same type, no earlier expiry, and for a put a lower strike. */
  predicate Covers(long: Leg, short: Leg) {
    && long.side.Buy? && long.right == short.right && long.expiry >= short.expiry
    && (short.right.Put? ==> long.strike.V() < short.strike.V())
  }

  predicate Covered(legs: seq<Leg>, short: Leg) {
    exists i :: 0 <= i < |legs| && Covers(legs[i], short)
  }

  /** There is a short leg, and every short leg is covered. */
  predicate DefinedRisk(legs: seq<Leg>) {
    && (exists i :: 0 <= i < |legs| && legs[i].side.Sell?)
    && (forall i :: 0 <= i < |legs| && legs[i].side.Sell? ==> Covered(legs, legs[i]))
  }

  function Sk004(p: Proposal, c: KernelContext, l: KernelLimits): RuleResult {
    Result("SK-004", DefinedRisk(p.legs) && p.maxLoss.V() > 0.0, Hard, "UNDEFINED_RISK")
  }

  /** `sk004_defined_risk`: the search for a cover, short leg by short leg. */
  method Sk004DefinedRisk(p: Proposal, c: KernelContext, l: KernelLimits) returns (r: RuleResult)
    ensures r == Sk004(p, c, l)
  {
    var shorts := 0;
    var covered := true;
    for i := 0 to |p.legs|
      invariant covered <==> forall k :: 0 <= k < i && p.legs[k].side.Sell? ==> Covered(p.legs, p.legs[k])
      invariant shorts > 0 <==> exists k :: 0 <= k < i && p.legs[k].side.Sell?
      invariant shorts >= 0
    {
      if p.legs[i].side.Sell? {
        shorts := shorts + 1;
        var found := false;
        for j := 0 to |p.legs|
          invariant found <==> exists k :: 0 <= k < j && Covers(p.legs[k], p.legs[i])
        {
          if Covers(p.legs[j], p.legs[i]) {
            found := true;
          }
        }
        covered := covered && found;
      }
    }
    r := Result("SK-004", covered && p.maxLoss.V() > 0.0 && shorts > 0, Hard, "UNDEFINED_RISK");
  }

  function Sk005(p: Proposal, c: KernelContext, l: KernelLimits): RuleResult {
    Result("SK-005", |c.openPolicies| + (if p.action.Close? then 0 else 1) <= l.maxOpenPolicies, Hard, "MAX_POSITIONS")
  }

  function Sk006(p: Proposal, c: KernelContext, l: KernelLimits): RuleResult {
    Result("SK-006",
           p.action.Close? || c.ReserveFor(p.underlying) + p.capitalReserve.V()
             <= (c.account.nav * l.maxDeployedPct) * l.maxUnderlyingConcentration,
           Hard, "CONCENTRATION")
  }

  function Sk012(p: Proposal, c: KernelContext, l: KernelLimits): RuleResult {
    Result("SK-012", p.action.Close? || c.TotalAssignmentCost() + p.shortStrike.V() * 100.0 <= c.account.buyingPower,
           Hard, "ASSIGNMENT_COST")
  }

  function Sk013(p: Proposal, c: KernelContext, l: KernelLimits): RuleResult {
    Result("SK-013", p.action.Close? || p.underlying !in c.breachedUnderlyings, Hard, "BREACH_ACTIVE")
  }

  predicate Identical(o: OpenPolicy, p: Proposal) {
    && o.underlying == p.underlying && o.structure == p.structure
    && o.shortStrike == p.shortStrike.V() && o.longStrike == p.longStrike.V() && o.expiry == p.expiry
  }

  predicate Duplicate(host: Host, p: Proposal, c: KernelContext) {
    || (exists i :: 0 <= i < |c.openPolicies| && Identical(c.openPolicies[i], p))
    || ClientOrderIdFor(ProposalHash(host, p)) in c.existingClientOrderIds
  }

  function Sk021(host: Host, p: Proposal, c: KernelContext, l: KernelLimits): RuleResult {
    Result("SK-021", !Duplicate(host, p, c), Hard, "DUPLICATE")
  }

  // ----- Greeks: soft -------------------------------------------------------

  predicate WithinExposure(exposure: real, perUnit: real, nav: real, unit: real)
    requires unit > 0.0
  {
    var navUnits := if nav > 0.0 then Div(nav, unit) else 0.0;
    RealAbs(exposure) <= perUnit * navUnits
  }

  function Sk008(p: Proposal, c: KernelContext, l: KernelLimits): RuleResult {
    Result("SK-008", WithinExposure(c.portfolioNetDelta + p.netDelta.V(), l.maxNetDeltaPer10k, c.account.nav, 10000.0),
           Soft, "DELTA_LIMIT")
  }

  function Sk009(p: Proposal, c: KernelContext, l: KernelLimits): RuleResult {
    Result("SK-009", WithinExposure(c.portfolioNetVega + p.netVega.V(), l.maxVegaPer100k, c.account.nav, 100000.0),
           Soft, "VEGA_LIMIT")
  }

  // ----- loss control and mode ----------------------------------------------

  function Sk010(p: Proposal, c: KernelContext, l: KernelLimits): RuleResult {
    Result("SK-010", c.account.dailyRealizedPnl >= -(c.account.nav * l.maxDailyLossPct), Hard, "DAILY_LOSS_HALT")
  }

  function Sk022(p: Proposal, c: KernelContext, l: KernelLimits): RuleResult {
    Result("SK-022", c.account.DrawdownPct() <= l.maxDrawdownPct, Hard, "DRAWDOWN_HALT")
  }

  function Sk023(p: Proposal, c: KernelContext, l: KernelLimits): RuleResult {
    if c.killSwitchEngaged || c.mode.Halt? then
      Result("SK-023", false, Hard, if c.killSwitchEngaged then "KILL_SWITCH" else "MODE_BLOCKED")
    else
      Result("SK-023", c.mode.Active? || p.action.Close?, Hard, "MODE_BLOCKED")
  }

  // ----- data quality, timing and provenance --------------------------------

  function Sk011(p: Proposal, c: KernelContext, l: KernelLimits): RuleResult {
    Result("SK-011", p.action.Close? || p.dte >= l.minDteAtEntry, Hard, "DTE_TOO_SHORT")
  }

  function Sk014(p: Proposal, c: KernelContext, l: KernelLimits): RuleResult {
    Result("SK-014", p.action.Close? || p.liquidityScore.V() >= l.minLiquidityScore, Hard, "ILLIQUID")
  }

  function Sk015(p: Proposal, c: KernelContext, l: KernelLimits): RuleResult {
    Result("SK-015", p.action.Close? || p.maxLegSpreadPct <= l.maxBidAskPct, Hard, "WIDE_SPREAD")
  }

  function Sk016(p: Proposal, c: KernelContext, l: KernelLimits): RuleResult {
    Result("SK-016", p.action.Close? || p.edgeRatio.V() >= l.minEdgeRatio, Hard, "INSUFFICIENT_EDGE")
  }

  function Sk017(p: Proposal, c: KernelContext, l: KernelLimits): RuleResult {
    Result("SK-017",
           c.marketOpen && (p.action.Close?
             || !(c.minutesSinceOpen < l.blackoutOpenMin || c.minutesToClose < l.blackoutCloseMin)),
           Hard, "MARKET_CLOSED")
  }

  function Sk018(p: Proposal, c: KernelContext, l: KernelLimits): RuleResult {
    Result("SK-018", c.now - c.dataAsOf <= l.maxDataAgeSec, Hard, "STALE_DATA")
  }

  function Sk019(p: Proposal, c: KernelContext, l: KernelLimits): RuleResult {
    Result("SK-019", p.greeksComplete, Hard, "MISSING_GREEKS")
  }

  function Sk024(p: Proposal, c: KernelContext, l: KernelLimits): RuleResult {
    Result("SK-024", p.candidateId in c.suppliedCandidateIds, Hard, "LLM_OUTPUT_INVALID")
  }

  function Sk025(p: Proposal, c: KernelContext, l: KernelLimits): RuleResult {
    Result("SK-025", c.account.readOk, Hard, "ACCOUNT_UNAVAILABLE")
  }

  // ----- the table ----------------------------------------------------------

  function Capital(): seq<RuleSpec> {
    [ RuleSpec("SK-000", Hard, (p, c, l) => Returned(Sk000(p, c, l))),
      RuleSpec("SK-001", Hard, (p, c, l) => Returned(Sk001(p, c, l))),
      RuleSpec("SK-002", Hard, (p, c, l) => Returned(Sk002(p, c, l))),
      RuleSpec("SK-003", Hard, (p, c, l) => Returned(Sk003(p, c, l))),
      RuleSpec("SK-004", Hard, (p, c, l) => Returned(Sk004(p, c, l))) ]
  }

  function Shape(): seq<RuleSpec> {
    [ RuleSpec("SK-005", Hard, (p, c, l) => Returned(Sk005(p, c, l))),
      RuleSpec("SK-006", Hard, (p, c, l) => Returned(Sk006(p, c, l))),
      RuleSpec("SK-007", Hard, (p, c, l) => Returned(Sk007(p, c, l))),
      RuleSpec("SK-008", Soft, (p, c, l) => Returned(Sk008(p, c, l))),
      RuleSpec("SK-009", Soft, (p, c, l) => Returned(Sk009(p, c, l))) ]
  }

  function Control(): seq<RuleSpec> {
    [ RuleSpec("SK-010", Hard, (p, c, l) => Returned(Sk010(p, c, l))),
      RuleSpec("SK-011", Hard, (p, c, l) => Returned(Sk011(p, c, l))),
      RuleSpec("SK-012", Hard, (p, c, l) => Returned(Sk012(p, c, l))),
      RuleSpec("SK-013", Hard, (p, c, l) => Returned(Sk013(p, c, l))),
      RuleSpec("SK-014", Hard, (p, c, l) => Returned(Sk014(p, c, l))) ]
  }

  function Quality(): seq<RuleSpec> {
    [ RuleSpec("SK-015", Hard, (p, c, l) => Returned(Sk015(p, c, l))),
      RuleSpec("SK-016", Hard, (p, c, l) => Returned(Sk016(p, c, l))),
      RuleSpec("SK-017", Hard, (p, c, l) => Returned(Sk017(p, c, l))),
      RuleSpec("SK-018", Hard, (p, c, l) => Returned(Sk018(p, c, l))),
      RuleSpec("SK-019", Hard, (p, c, l) => Returned(Sk019(p, c, l))) ]
  }

  function Provenance(host: Host): seq<RuleSpec> {
    [ RuleSpec("SK-021", Hard, (p, c, l) => Returned(Sk021(host, p, c, l))),
      RuleSpec("SK-022", Hard, (p, c, l) => Returned(Sk022(p, c, l))),
      RuleSpec("SK-023", Hard, (p, c, l) => Returned(Sk023(p, c, l))),
      RuleSpec("SK-024", Hard, (p, c, l) => Returned(Sk024(p, c, l))),
      RuleSpec("SK-025", Hard, (p, c, l) => Returned(Sk025(p, c, l))) ]
  }

  /** `RULES` */
  function Table(host: Host): seq<RuleSpec> {
    Capital() + (Shape() + (Control() + (Quality() + Provenance(host))))
  }

  // ----- client order ids ---------------------------------------------------------------------

  /** What a client order id stands for: unless two hashes agree in their first twenty-four
      characters and differ later, two proposals share one exactly when they agree in every field
      an approval is bound to. So a retry collides with the original, and nothing else does. */
  lemma ClientOrderIdBinds(host: Host, p: Proposal, q: Proposal)
    requires host.Sound()
    requires var x, y := ProposalHash(host, p), ProposalHash(host, q);
      |x| >= 24 && |y| >= 24 && (x[..24] == y[..24] ==> x == y)
    ensures ClientOrderIdFor(ProposalHash(host, p)) == ClientOrderIdFor(ProposalHash(host, q)) <==> SameCovered(p, q)
  {
    ClientIdIsCut(ProposalHash(host, p));
    ClientIdIsCut(ProposalHash(host, q));
    ProposalHashBinds(host, p, q);
  }

  lemma ClientIdIsCut(hash: string)
    requires |hash| >= 24
    ensures var id := ClientOrderIdFor(hash);
      |id| == 27 && id[..3] == "uw_" && id[3..] == hash[..24]
  {
  }
}
