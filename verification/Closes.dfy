/** What the rule table means for a whole order: every rule of an entry, and exactly
    the safety rules of a close. */
module Closes {
  import opened Decimals
  import opened Domain
  import opened Verdicts
  import opened KernelState
  import opened Rules
  import opened Kernel

  lemma ResultsOfConcat(a: seq<RuleSpec>, b: seq<RuleSpec>, p: Proposal, c: KernelContext, l: KernelLimits)
    ensures RuleResults(a + b, p, c, l) == RuleResults(a, p, c, l) + RuleResults(b, p, c, l)
  {
  }

  lemma {:induction false} SoftFailuresAppend(a: seq<RuleResult>, b: seq<RuleResult>)
    ensures SoftFailures(a + b) == SoftFailures(a) + SoftFailures(b)
  {
    if b == [] {
      assert a + b == a;
    } else {
      SoftFailuresAppend(a, b[..|b| - 1]);
      assert (a + b)[..|a + b| - 1] == a + b[..|b| - 1];
    }
  }

  lemma OneSoft(a: RuleResult)
    ensures SoftFailures([a]) == B(a.SoftFailure())
  {
    assert [a][..0] == [];
  }

  lemma FiveResults(a: RuleResult, b: RuleResult, c: RuleResult, d: RuleResult, e: RuleResult)
    ensures NoHardFailure([a, b, c, d, e]) <==>
      !a.HardFailure() && !b.HardFailure() && !c.HardFailure() && !d.HardFailure() && !e.HardFailure()
    ensures SoftFailures([a, b, c, d, e])
         == B(a.SoftFailure()) + B(b.SoftFailure()) + B(c.SoftFailure()) + B(d.SoftFailure()) + B(e.SoftFailure())
  {
    var s := [a, b, c, d, e];
    assert s[0] == a && s[1] == b && s[2] == c && s[3] == d && s[4] == e;
    OneSoft(a); OneSoft(b); OneSoft(c); OneSoft(d); OneSoft(e);
    assert [a] + [b] == [a, b] && [a, b] + [c] == [a, b, c];
    assert [a, b, c] + [d] == [a, b, c, d] && [a, b, c, d] + [e] == s;
    SoftFailuresAppend([a], [b]);
    SoftFailuresAppend([a, b], [c]);
    SoftFailuresAppend([a, b, c], [d]);
    SoftFailuresAppend([a, b, c, d], [e]);
  }

  function B(failed: bool): nat { if failed then 1 else 0 }

  lemma CapitalResults(p: Proposal, c: KernelContext, l: KernelLimits)
    ensures NoHardFailure(RuleResults(Capital(), p, c, l)) <==>
      Sk001(p, c, l).passed && Sk002(p, c, l).passed && Sk003(p, c, l).passed && Sk004(p, c, l).passed
    ensures SoftFailures(RuleResults(Capital(), p, c, l)) == 0
  {
    var rs := [Sk000(p, c, l), Sk001(p, c, l), Sk002(p, c, l), Sk003(p, c, l), Sk004(p, c, l)];
    assert RuleResults(Capital(), p, c, l) == rs;
    FiveResults(rs[0], rs[1], rs[2], rs[3], rs[4]);
  }

  lemma ShapeResults(p: Proposal, c: KernelContext, l: KernelLimits)
    ensures NoHardFailure(RuleResults(Shape(), p, c, l)) <==>
      Sk005(p, c, l).passed && Sk006(p, c, l).passed && Sk007(p, c, l).passed
    ensures SoftFailures(RuleResults(Shape(), p, c, l)) == B(!Sk008(p, c, l).passed) + B(!Sk009(p, c, l).passed)
  {
    var rs := [Sk005(p, c, l), Sk006(p, c, l), Sk007(p, c, l), Sk008(p, c, l), Sk009(p, c, l)];
    assert RuleResults(Shape(), p, c, l) == rs;
    FiveResults(rs[0], rs[1], rs[2], rs[3], rs[4]);
  }

  lemma ControlResults(p: Proposal, c: KernelContext, l: KernelLimits)
    ensures NoHardFailure(RuleResults(Control(), p, c, l)) <==>
      Sk010(p, c, l).passed && Sk011(p, c, l).passed && Sk012(p, c, l).passed && Sk013(p, c, l).passed
      && Sk014(p, c, l).passed
    ensures SoftFailures(RuleResults(Control(), p, c, l)) == 0
  {
    var rs := [Sk010(p, c, l), Sk011(p, c, l), Sk012(p, c, l), Sk013(p, c, l), Sk014(p, c, l)];
    assert RuleResults(Control(), p, c, l) == rs;
    FiveResults(rs[0], rs[1], rs[2], rs[3], rs[4]);
  }

  lemma QualityResults(p: Proposal, c: KernelContext, l: KernelLimits)
    ensures NoHardFailure(RuleResults(Quality(), p, c, l)) <==>
      Sk015(p, c, l).passed && Sk016(p, c, l).passed && Sk017(p, c, l).passed && Sk018(p, c, l).passed
      && Sk019(p, c, l).passed
    ensures SoftFailures(RuleResults(Quality(), p, c, l)) == 0
  {
    var rs := [Sk015(p, c, l), Sk016(p, c, l), Sk017(p, c, l), Sk018(p, c, l), Sk019(p, c, l)];
    assert RuleResults(Quality(), p, c, l) == rs;
    FiveResults(rs[0], rs[1], rs[2], rs[3], rs[4]);
  }

  lemma ProvenanceResults(host: Host, p: Proposal, c: KernelContext, l: KernelLimits)
    ensures NoHardFailure(RuleResults(Provenance(host), p, c, l)) <==>
      Sk021(host, p, c, l).passed && Sk022(p, c, l).passed && Sk023(p, c, l).passed && Sk024(p, c, l).passed
      && Sk025(p, c, l).passed
    ensures SoftFailures(RuleResults(Provenance(host), p, c, l)) == 0
  {
    var rs := [Sk021(host, p, c, l), Sk022(p, c, l), Sk023(p, c, l), Sk024(p, c, l), Sk025(p, c, l)];
    assert RuleResults(Provenance(host), p, c, l) == rs;
    FiveResults(rs[0], rs[1], rs[2], rs[3], rs[4]);
  }

  ghost predicate CapitalPasses(p: Proposal, c: KernelContext, l: KernelLimits) {
    && Sk001(p, c, l).passed && Sk002(p, c, l).passed && Sk003(p, c, l).passed && Sk006(p, c, l).passed
    && Sk007(p, c, l).passed && Sk012(p, c, l).passed && Sk013(p, c, l).passed
  }

  ghost predicate EntryQualityPasses(p: Proposal, c: KernelContext, l: KernelLimits) {
    && Sk011(p, c, l).passed && Sk014(p, c, l).passed && Sk015(p, c, l).passed && Sk016(p, c, l).passed
  }

  ghost predicate SafetyPasses(host: Host, p: Proposal, c: KernelContext, l: KernelLimits) {
    && Sk004(p, c, l).passed && Sk005(p, c, l).passed && Sk010(p, c, l).passed && Sk017(p, c, l).passed
    && Sk018(p, c, l).passed && Sk019(p, c, l).passed && Sk021(host, p, c, l).passed && Sk022(p, c, l).passed
    && Sk023(p, c, l).passed && Sk024(p, c, l).passed && Sk025(p, c, l).passed
  }

  /** The whole table, as a conjunction. */
  lemma TableMeaning(host: Host, p: Proposal, c: KernelContext, l: KernelLimits)
    ensures NoHardFailure(RuleResults(Table(host), p, c, l)) <==>
      CapitalPasses(p, c, l) && EntryQualityPasses(p, c, l) && SafetyPasses(host, p, c, l)
    ensures SoftFailures(RuleResults(Table(host), p, c, l)) == B(!Sk008(p, c, l).passed) + B(!Sk009(p, c, l).passed)
  {
    var r1, r2, r3 := RuleResults(Capital(), p, c, l), RuleResults(Shape(), p, c, l), RuleResults(Control(), p, c, l);
    var r4, r5 := RuleResults(Quality(), p, c, l), RuleResults(Provenance(host), p, c, l);
    CapitalResults(p, c, l);
    ShapeResults(p, c, l);
    ControlResults(p, c, l);
    QualityResults(p, c, l);
    ProvenanceResults(host, p, c, l);
    TableResults(host, p, c, l);
    NoHardFailureAppend(r4, r5);
    NoHardFailureAppend(r3, r4 + r5);
    NoHardFailureAppend(r2, r3 + (r4 + r5));
    NoHardFailureAppend(r1, r2 + (r3 + (r4 + r5)));
    SoftFailuresAppend(r4, r5);
    SoftFailuresAppend(r3, r4 + r5);
    SoftFailuresAppend(r2, r3 + (r4 + r5));
    SoftFailuresAppend(r1, r2 + (r3 + (r4 + r5)));
  }

  lemma TableResults(host: Host, p: Proposal, c: KernelContext, l: KernelLimits)
    ensures RuleResults(Table(host), p, c, l)
         == RuleResults(Capital(), p, c, l) + (RuleResults(Shape(), p, c, l) + (RuleResults(Control(), p, c, l)
            + (RuleResults(Quality(), p, c, l) + RuleResults(Provenance(host), p, c, l))))
  {
    ResultsOfConcat(Quality(), Provenance(host), p, c, l);
    ResultsOfConcat(Control(), Quality() + Provenance(host), p, c, l);
    ResultsOfConcat(Shape(), Control() + (Quality() + Provenance(host)), p, c, l);
    ResultsOfConcat(Capital(), Shape() + (Control() + (Quality() + Provenance(host))), p, c, l);
  }

  // ----- privileged closes --------------------------------------------------

  /** What a close still has to satisfy: everything but capital and entry quality. */
  ghost predicate CloseSafe(host: Host, p: Proposal, c: KernelContext, l: KernelLimits) {
    && DefinedRisk(p.legs) && p.maxLoss.V() > 0.0
    && |c.openPolicies| <= l.maxOpenPolicies
    && c.account.dailyRealizedPnl >= -(c.account.nav * l.maxDailyLossPct)
    && c.account.DrawdownPct() <= l.maxDrawdownPct
    && c.marketOpen && !c.killSwitchEngaged && !c.mode.Halt?
    && c.now - c.dataAsOf <= l.maxDataAgeSec
    && p.greeksComplete && c.account.readOk
    && !Duplicate(host, p, c)
    && p.candidateId in c.suppliedCandidateIds
  }

  /** How many of the two exposure rules fail: these halve a close as they halve an entry. */
  function ExposureFailures(p: Proposal, c: KernelContext, l: KernelLimits): nat {
    B(!Sk008(p, c, l).passed) + B(!Sk009(p, c, l).passed)
  }

  /** A close is approved exactly when the safety rules hold and its size survives the
      exposure halvings, and then at that size: no capital or entry rule can block it. */
  lemma CloseApprovedExactly(host: Host, p: Proposal, requested: int, c: KernelContext, secret: string, nonce: string)
    requires p.action.Close?
    ensures var v := Evaluate(host, Table(host), p, requested, c, secret, DEFAULT_LIMITS, nonce);
      var size := Max(0, requested) / TwoTo(ExposureFailures(p, c, DEFAULT_LIMITS));
      && (v.decision.Approve? <==> secret != "" && CloseSafe(host, p, c, DEFAULT_LIMITS) && size >= 1)
      && v.approvedContracts == (if v.decision.Approve? then size else 0)
  {
    ApprovesExactly(host, Table(host), p, requested, c, secret, DEFAULT_LIMITS, nonce);
    TableMeaning(host, p, c, DEFAULT_LIMITS);
    DefaultSizeIsHalved(Table(host), p, requested, c);
  }

  /** The exception to the privilege, for a close that carries Greeks: a single contract is
      refused outright as soon as either exposure rule fails, although both are soft. The exits
      the desk rebuilds from its book carry none. */
  lemma SoftFailureBlocksLastContract(host: Host, p: Proposal, c: KernelContext, secret: string, nonce: string)
    requires p.action.Close? && ExposureFailures(p, c, DEFAULT_LIMITS) > 0
    ensures Evaluate(host, Table(host), p, 1, c, secret, DEFAULT_LIMITS, nonce).decision.Reject?
  {
    CloseApprovedExactly(host, p, 1, c, secret, nonce);
    OneIsLost(ExposureFailures(p, c, DEFAULT_LIMITS));
  }

  lemma OneIsLost(k: nat)
    requires k > 0
    ensures 1 / TwoTo(k) == 0
  {
    assert TwoTo(k) == 2 * TwoTo(k - 1) >= 2;
    LessThanOne(TwoTo(k));
  }

  lemma LessThanOne(d: nat)
    requires d >= 2
    ensures 1 / d == 0
  {
  }

  /** Two proposals alike in all a close is judged and signed by; liquidity, leg spread,
      edge, days to expiry and every other priced number may differ. */
  ghost predicate SameClose(p: Proposal, q: Proposal) {
    && SameCovered(p, q) && p.action.Close?
    && p.greeksComplete == q.greeksComplete && p.netDelta == q.netDelta && p.netVega == q.netVega
  }

  /** Two open policies alike but for their size, reserve and remaining max loss. */
  ghost predicate SamePolicyShape(a: OpenPolicy, b: OpenPolicy) {
    && a.underlying == b.underlying && a.structure == b.structure
    && a.shortStrike == b.shortStrike && a.longStrike == b.longStrike && a.expiry == b.expiry
  }

  /** Two contexts alike but for capital in use, buying power, breaches and the blackout clock. */
  ghost predicate SameSafety(c: KernelContext, d: KernelContext) {
    && c.now == d.now && c.dataAsOf == d.dataAsOf && c.mode == d.mode
    && c.killSwitchEngaged == d.killSwitchEngaged && c.marketOpen == d.marketOpen
    && c.account.(buyingPower := 0.0) == d.account.(buyingPower := 0.0)
    && |c.openPolicies| == |d.openPolicies|
    && (forall i :: 0 <= i < |c.openPolicies| ==> SamePolicyShape(c.openPolicies[i], d.openPolicies[i]))
    && c.portfolioNetDelta == d.portfolioNetDelta && c.portfolioNetVega == d.portfolioNetVega
    && c.suppliedCandidateIds == d.suppliedCandidateIds
    && c.existingClientOrderIds == d.existingClientOrderIds
  }

  lemma SameHash(host: Host, p: Proposal, q: Proposal)
    requires SameCovered(p, q)
    ensures ProposalHash(host, p) == ProposalHash(host, q)
  {
    assert ProposalValues(host, p) == ProposalValues(host, q);
  }

  lemma SameDuplicate(host: Host, p: Proposal, q: Proposal, c: KernelContext, d: KernelContext)
    requires SameClose(p, q) && SameSafety(c, d)
    ensures Duplicate(host, p, c) == Duplicate(host, q, d)
  {
    SameHash(host, p, q);
    forall i | 0 <= i < |c.openPolicies|
      ensures Identical(c.openPolicies[i], p) == Identical(d.openPolicies[i], q)
    {
      assert SamePolicyShape(c.openPolicies[i], d.openPolicies[i]);
    }
  }

  lemma SameExposure(p: Proposal, q: Proposal, c: KernelContext, d: KernelContext, l: KernelLimits)
    requires SameClose(p, q) && SameSafety(c, d)
    ensures Sk008(p, c, l) == Sk008(q, d, l) && Sk009(p, c, l) == Sk009(q, d, l)
  {
    assert c.account.(buyingPower := 0.0).nav == d.account.(buyingPower := 0.0).nav;
    SameGreeks(p, q, c, d, l);
  }

  lemma SameGreeks(p: Proposal, q: Proposal, c: KernelContext, d: KernelContext, l: KernelLimits)
    requires p.netDelta == q.netDelta && p.netVega == q.netVega && c.account.nav == d.account.nav
    requires c.portfolioNetDelta == d.portfolioNetDelta && c.portfolioNetVega == d.portfolioNetVega
    ensures Sk008(p, c, l) == Sk008(q, d, l) && Sk009(p, c, l) == Sk009(q, d, l)
  {
  }

  lemma SameLossControl(p: Proposal, q: Proposal, c: KernelContext, d: KernelContext, l: KernelLimits)
    requires SameClose(p, q) && SameSafety(c, d)
    ensures Sk010(p, c, l) == Sk010(q, d, l) && Sk022(p, c, l) == Sk022(q, d, l)
    ensures Sk025(p, c, l) == Sk025(q, d, l)
  {
    var a, b := c.account.(buyingPower := 0.0), d.account.(buyingPower := 0.0);
    assert a.nav == b.nav && a.equity == b.equity && a.peakEquity == b.peakEquity;
    assert a.dailyRealizedPnl == b.dailyRealizedPnl && a.readOk == b.readOk;
  }

  lemma SameGroups(p: Proposal, q: Proposal, c: KernelContext, d: KernelContext, l: KernelLimits)
    requires SameClose(p, q) && SameSafety(c, d)
    ensures RuleResults(Capital(), p, c, l) == RuleResults(Capital(), q, d, l)
    ensures RuleResults(Shape(), p, c, l) == RuleResults(Shape(), q, d, l)
  {
    SameExposure(p, q, c, d, l);
    SameFive(Capital(), p, q, c, d, l);
    SameFive(Shape(), p, q, c, d, l);
  }

  lemma SameFive(g: seq<RuleSpec>, p: Proposal, q: Proposal, c: KernelContext, d: KernelContext, l: KernelLimits)
    requires |g| == 5
    requires Guarded(g[0], p, c, l) == Guarded(g[0], q, d, l)
    requires Guarded(g[1], p, c, l) == Guarded(g[1], q, d, l)
    requires Guarded(g[2], p, c, l) == Guarded(g[2], q, d, l)
    requires Guarded(g[3], p, c, l) == Guarded(g[3], q, d, l)
    requires Guarded(g[4], p, c, l) == Guarded(g[4], q, d, l)
    ensures RuleResults(g, p, c, l) == RuleResults(g, q, d, l)
  {
  }

  lemma SameTiming(p: Proposal, q: Proposal, c: KernelContext, d: KernelContext, l: KernelLimits)
    requires SameClose(p, q) && SameSafety(c, d)
    ensures RuleResults(Control(), p, c, l) == RuleResults(Control(), q, d, l)
    ensures RuleResults(Quality(), p, c, l) == RuleResults(Quality(), q, d, l)
  {
    SameLossControl(p, q, c, d, l);
    SameFive(Control(), p, q, c, d, l);
    SameFive(Quality(), p, q, c, d, l);
  }

  lemma SameProvenance(host: Host, p: Proposal, q: Proposal, c: KernelContext, d: KernelContext, l: KernelLimits)
    requires SameClose(p, q) && SameSafety(c, d)
    ensures RuleResults(Provenance(host), p, c, l) == RuleResults(Provenance(host), q, d, l)
  {
    SameDuplicate(host, p, q, c, d);
    SameLossControl(p, q, c, d, l);
    SameFive(Provenance(host), p, q, c, d, l);
  }

  lemma SameResults(host: Host, p: Proposal, q: Proposal, c: KernelContext, d: KernelContext, l: KernelLimits)
    requires SameClose(p, q) && SameSafety(c, d)
    ensures RuleResults(Table(host), p, c, l) == RuleResults(Table(host), q, d, l)
  {
    SameGroups(p, q, c, d, l);
    SameTiming(p, q, c, d, l);
    SameProvenance(host, p, q, c, d, l);
    TableResults(host, p, c, l);
    TableResults(host, q, d, l);
  }

  /** The whole verdict on a close, signature included, is blind to reserves, max losses,
      buying power, breaches, liquidity, leg spread, edge and days to expiry. */
  lemma CloseIgnoresCapital(host: Host, p: Proposal, q: Proposal, requested: int, c: KernelContext,
                            d: KernelContext, secret: string, l: KernelLimits, nonce: string)
    requires SameClose(p, q) && SameSafety(c, d)
    ensures Evaluate(host, Table(host), p, requested, c, secret, l, nonce)
         == Evaluate(host, Table(host), q, requested, d, secret, l, nonce)
  {
    SameHash(host, p, q);
    SameResults(host, p, q, c, d, l);
    SameSize(p, q, requested, c, d, l);
    var rs := RuleResults(Table(host), p, c, l);
    var approved := ApprovedSize(Table(host), p, requested, c, l);
    assert ApprovedSize(Table(host), q, requested, d, l) == approved;
    SameConclusion(host, p, q, rs + [SizeFloor(approved)], approved, c, d, secret, l, nonce);
  }

  lemma SameSize(p: Proposal, q: Proposal, requested: int, c: KernelContext, d: KernelContext, l: KernelLimits)
    requires p.action.Close? && q.action.Close?
    ensures RawSize(p, requested, c, l) == RawSize(q, requested, d, l)
  {
  }

  lemma SameConclusion(host: Host, p: Proposal, q: Proposal, results: seq<RuleResult>, approved: int,
                       c: KernelContext, d: KernelContext, secret: string, l: KernelLimits, nonce: string)
    requires ProposalHash(host, p) == ProposalHash(host, q) && c.now == d.now
    ensures Conclude(host, p, results, approved, c, secret, l, nonce)
         == Conclude(host, q, results, approved, d, secret, l, nonce)
  {
  }

  /** SK-021 turned on the desk itself: an open policy recorded with the strikes and expiry
      of the close blocks that close. */
  lemma OwnPolicyBlocksClose(host: Host, p: Proposal, requested: int, c: KernelContext, secret: string,
                             nonce: string, i: nat)
    requires p.action.Close? && i < |c.openPolicies| && Identical(c.openPolicies[i], p)
    ensures Evaluate(host, Table(host), p, requested, c, secret, DEFAULT_LIMITS, nonce).decision.Reject?
  {
    CloseApprovedExactly(host, p, requested, c, secret, nonce);
  }
}
