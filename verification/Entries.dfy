/** Which entries are approved, and at what size: the whole rule table and the whole sizing, read
    off the proposal and the context. */
module Entries {
  import opened Decimals
  import opened Division
  import opened Domain
  import opened Verdicts
  import opened KernelState
  import opened Rules
  import opened Kernel
  import opened Closes
  import opened Capacity

  // ----- the rules on fields ---------------------------------------------------------------

  /** A sold leg has a bought one of its kind, no sooner to expire and, for a put, at a lower
      strike. */
  predicate CoveredByOne(legs: seq<Leg>, i: nat)
    requires i < |legs|
  {
    exists j :: 0 <= j < |legs| && legs[j].side.Buy? && legs[j].right == legs[i].right
      && legs[i].expiry <= legs[j].expiry && (legs[i].right.Put? ==> legs[j].strike.V() < legs[i].strike.V())
  }

  predicate NoNakedShort(legs: seq<Leg>) {
    && (exists i :: 0 <= i < |legs| && legs[i].side.Sell?)
    && forall i :: 0 <= i < |legs| && legs[i].side.Sell? ==> CoveredByOne(legs, i)
  }

  lemma RiskIsDefined(legs: seq<Leg>)
    ensures DefinedRisk(legs) <==> NoNakedShort(legs)
  {
    forall i | 0 <= i < |legs| ensures Covered(legs, legs[i]) <==> CoveredByOne(legs, i) {
      if CoveredByOne(legs, i) {
        var j :| 0 <= j < |legs| && legs[j].side.Buy? && legs[j].right == legs[i].right
                 && legs[i].expiry <= legs[j].expiry
                 && (legs[i].right.Put? ==> legs[j].strike.V() < legs[i].strike.V());
        assert Covers(legs[j], legs[i]);
      }
      if Covered(legs, legs[i]) {
        var j :| 0 <= j < |legs| && Covers(legs[j], legs[i]);
        assert legs[j].side.Buy?;
      }
    }
  }

  /** Nothing open with the same terms, and no order under its client id. */
  predicate NoTwin(host: Host, p: Proposal, c: KernelContext) {
    && ClientOrderIdFor(ProposalHash(host, p)) !in c.existingClientOrderIds
    && forall i :: 0 <= i < |c.openPolicies| ==>
      var o := c.openPolicies[i];
      || o.underlying != p.underlying || o.structure != p.structure || o.shortStrike != p.shortStrike.V()
      || o.longStrike != p.longStrike.V() || o.expiry != p.expiry
  }

  lemma TwinIsDuplicate(host: Host, p: Proposal, c: KernelContext)
    ensures Duplicate(host, p, c) <==> !NoTwin(host, p, c)
  {
  }

  /** Down from the peak by no more than the limit. */
  predicate NearPeak(a: AccountState, limit: real) {
    if a.peakEquity > 0.0 then Div(a.peakEquity - a.equity, a.peakEquity) <= limit else 0.0 <= limit
  }

  lemma DrawdownIs(a: AccountState, limit: real)
    ensures NearPeak(a, limit) <==> a.DrawdownPct() <= limit
  {
  }

  /** An exposure past its limit on either side: so much for every unit of net asset value. */
  predicate Overexposed(exposure: real, perUnit: real, nav: real, unit: real)
    requires unit > 0.0
  {
    var limit := if nav > 0.0 then perUnit * Div(nav, unit) else perUnit * 0.0;
    exposure > limit || exposure < -limit
  }

  function Halvings(p: Proposal, c: KernelContext, l: KernelLimits): nat {
    (if Overexposed(c.portfolioNetDelta + p.netDelta.V(), l.maxNetDeltaPer10k, c.account.nav, 10000.0) then 1 else 0)
    + (if Overexposed(c.portfolioNetVega + p.netVega.V(), l.maxVegaPer100k, c.account.nav, 100000.0) then 1 else 0)
  }

  lemma SizeWithin(x: real, limit: real)
    ensures RealAbs(x) <= limit <==> !(x > limit || x < -limit)
  {
  }

  lemma OneExposure(exposure: real, perUnit: real, nav: real, unit: real)
    requires unit > 0.0
    ensures WithinExposure(exposure, perUnit, nav, unit) <==> !Overexposed(exposure, perUnit, nav, unit)
  {
    SizeWithin(exposure, perUnit * (if nav > 0.0 then Div(nav, unit) else 0.0));
  }

  lemma ExposuresHalve(p: Proposal, c: KernelContext, l: KernelLimits)
    ensures ExposureFailures(p, c, l) == Halvings(p, c, l)
  {
    OneExposure(c.portfolioNetDelta + p.netDelta.V(), l.maxNetDeltaPer10k, c.account.nav, 10000.0);
    OneExposure(c.portfolioNetVega + p.netVega.V(), l.maxVegaPer100k, c.account.nav, 100000.0);
  }

  /** The proposal itself is one the desk would write. */
  predicate WorthWriting(p: Proposal, l: KernelLimits) {
    && p.capitalReserve.V() == p.maxLoss.V() > 0.0 && NoNakedShort(p.legs)
    && p.dte >= l.minDteAtEntry && p.liquidityScore.V() >= l.minLiquidityScore
    && p.maxLegSpreadPct <= l.maxBidAskPct && p.edgeRatio.V() >= l.minEdgeRatio && p.greeksComplete
  }

  /** The desk is in a state to write anything. */
  predicate OpenForEntries(c: KernelContext, l: KernelLimits) {
    && |c.openPolicies| < l.maxOpenPolicies
    && -(c.account.nav * l.maxDailyLossPct) <= c.account.dailyRealizedPnl
    && NearPeak(c.account, l.maxDrawdownPct) && c.account.readOk
    && c.mode.Active? && !c.killSwitchEngaged
    && c.marketOpen && c.minutesSinceOpen >= l.blackoutOpenMin && c.minutesToClose >= l.blackoutCloseMin
    && c.now <= c.dataAsOf + l.maxDataAgeSec
  }

  /** And in a state to write this one. */
  predicate MayBeWritten(host: Host, p: Proposal, c: KernelContext) {
    && p.candidateId in c.suppliedCandidateIds && p.underlying !in c.breachedUnderlyings && NoTwin(host, p, c)
  }

  lemma QualityRules(p: Proposal, c: KernelContext, l: KernelLimits)
    requires p.action.Open?
    ensures WorthWriting(p, l) <==>
      && Sk002(p, c, l).passed && Sk004(p, c, l).passed && EntryQualityPasses(p, c, l) && Sk019(p, c, l).passed
  {
    RiskIsDefined(p.legs);
  }

  lemma StateRules(p: Proposal, c: KernelContext, l: KernelLimits)
    requires p.action.Open?
    ensures OpenForEntries(c, l) <==>
      && Sk005(p, c, l).passed && Sk010(p, c, l).passed && Sk017(p, c, l).passed && Sk018(p, c, l).passed
      && Sk022(p, c, l).passed && Sk023(p, c, l).passed && Sk025(p, c, l).passed
  {
  }

  lemma ProvenanceRules(host: Host, p: Proposal, c: KernelContext, l: KernelLimits)
    requires p.action.Open?
    ensures MayBeWritten(host, p, c) <==>
      Sk013(p, c, l).passed && Sk021(host, p, c, l).passed && Sk024(p, c, l).passed
  {
    TwinIsDuplicate(host, p, c);
  }

  /** The capital rules test one contract, so a size that fits passes them all. */
  lemma OneContractPasses(p: Proposal, c: KernelContext, l: KernelLimits)
    requires p.capitalReserve.V() == p.maxLoss.V() && Affords(p, c, l, 1)
    ensures Sk001(p, c, l).passed && Sk003(p, c, l).passed && Sk006(p, c, l).passed && Sk007(p, c, l).passed
    ensures Sk012(p, c, l).passed
  {
    OpenSums(c.openPolicies, p.underlying);
    OneIsEach(OnePosition(p, c, l));
    OneIsEach(WholePortfolio(p, c, l));
    OneIsEach(OneUnderlying(p, c, l));
    OneIsEach(Deployed(p, c, l));
    OneIsEach(Assigned(p, c));
  }

  lemma OneIsEach(m: Measure)
    requires m.Holds(1)
    ensures m.used + m.each <= m.limit
  {
  }

  /** The table, for an entry of which a contract fits. */
  lemma EntryRules(host: Host, p: Proposal, c: KernelContext, l: KernelLimits)
    requires p.action.Open? && Affords(p, c, l, 1)
    ensures NoHardFailure(RuleResults(Table(host), p, c, l)) <==>
      WorthWriting(p, l) && OpenForEntries(c, l) && MayBeWritten(host, p, c)
  {
    TableMeaning(host, p, c, l);
    QualityRules(p, c, l);
    StateRules(p, c, l);
    ProvenanceRules(host, p, c, l);
    if p.capitalReserve.V() == p.maxLoss.V() {
      OneContractPasses(p, c, l);
    }
  }

  // ----- the size --------------------------------------------------------------------------------

  lemma TimesWithin(n: nat, t: nat, raw: nat)
    requires t >= 1
    ensures n <= raw / t <==> n * t <= raw
  {
    QuotientBounds(raw, t);
    if n <= raw / t {
      MulLe(n, raw / t, t);
    } else {
      MulLe(raw / t + 1, n, t);
    }
  }

  /** An entry of n contracts is asked for and fits, before the exposure halvings take their share. */
  ghost predicate SizeFits(p: Proposal, requested: int, c: KernelContext, n: nat) {
    var before := n * TwoTo(Halvings(p, c, DEFAULT_LIMITS));
    before <= requested && Affords(p, c, DEFAULT_LIMITS, before)
  }

  lemma EntrySize(host: Host, p: Proposal, requested: int, c: KernelContext, n: nat)
    requires p.action.Open? && Measurable(p, c, DEFAULT_LIMITS) && n >= 1
    ensures n <= ApprovedSize(Table(host), p, requested, c, DEFAULT_LIMITS) <==> SizeFits(p, requested, c, n)
  {
    var t := TwoTo(Halvings(p, c, DEFAULT_LIMITS));
    DefaultSizeIsHalved(Table(host), p, requested, c);
    TableMeaning(host, p, c, DEFAULT_LIMITS);
    ExposuresHalve(p, c, DEFAULT_LIMITS);
    TimesWithin(n, t, RawSize(p, requested, c, DEFAULT_LIMITS));
    MulLe(1, n, t);
    PermittedExactly(p, c, DEFAULT_LIMITS, n * t);
    RawIs(p, requested, c, n * t);
  }

  lemma RawIs(p: Proposal, requested: int, c: KernelContext, k: nat)
    requires p.action.Open? && k >= 1
    ensures k <= RawSize(p, requested, c, DEFAULT_LIMITS) <==>
      k <= requested && k <= ComputeSizing(p, c, DEFAULT_LIMITS).Permitted()
  {
  }

  lemma SomethingFits(p: Proposal, requested: int, c: KernelContext, n: nat)
    requires Measurable(p, c, DEFAULT_LIMITS) && n >= 1 && SizeFits(p, requested, c, n)
    ensures Affords(p, c, DEFAULT_LIMITS, 1)
  {
    var t := TwoTo(Halvings(p, c, DEFAULT_LIMITS));
    MulLe(1, n, t);
    AffordsFewer(p, c, DEFAULT_LIMITS, 1, n * t);
  }

  /** The Kernel on an entry, whole: it approves n contracts or more exactly when there is a key
      to sign with, the proposal is worth writing, the desk may write it now, and n contracts,
      doubled for each exposure limit passed, are no more than was asked and fit in every
      measure of capital at once. */
  lemma EntryApprovedExactly(host: Host, p: Proposal, requested: int, c: KernelContext, secret: string,
                             nonce: string, n: nat)
    requires p.action.Open? && Measurable(p, c, DEFAULT_LIMITS) && n >= 1
    ensures var v := Evaluate(host, Table(host), p, requested, c, secret, DEFAULT_LIMITS, nonce);
      v.decision.Approve? && n <= v.approvedContracts <==>
      && secret != "" && WorthWriting(p, DEFAULT_LIMITS) && OpenForEntries(c, DEFAULT_LIMITS)
      && MayBeWritten(host, p, c) && SizeFits(p, requested, c, n)
  {
    ApprovesExactly(host, Table(host), p, requested, c, secret, DEFAULT_LIMITS, nonce);
    EntrySize(host, p, requested, c, n);
    if SizeFits(p, requested, c, n) {
      SomethingFits(p, requested, c, n);
      EntryRules(host, p, c, DEFAULT_LIMITS);
    }
  }
}
