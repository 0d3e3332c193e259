/** The Solvency Kernel: guarded rules, sizing, soft halving, and the signed verdict. */
module Kernel {
  import opened Decimals
  import opened Division
  import opened Domain
  import opened Verdicts
  import opened KernelState
  import opened Rules

  const FAIL_CLOSED := "KERNEL_FAIL_CLOSED"

  // ----- sizing -------------------------------------------------------------

  datatype Sizing = Sizing(
    byPositionRisk: nat,
    byPortfolioRoom: nat,
    byConcentration: nat,
    byDeployedCapital: nat,
    byAssignmentCost: nat)
  {
    function Permitted(): (n: nat)
      ensures n <= byPositionRisk && n <= byPortfolioRoom && n <= byConcentration
      ensures n <= byDeployedCapital && n <= byAssignmentCost
      ensures n in {byPositionRisk, byPortfolioRoom, byConcentration, byDeployedCapital, byAssignmentCost}
    {
      Min(byPositionRisk, Min(byPortfolioRoom, Min(byConcentration, Min(byDeployedCapital, byAssignmentCost))))
    }
  }

  function Min(a: int, b: int): int { if a <= b then a else b }
  function Max(a: int, b: int): int { if a <= b then b else a }

  /** `compute_sizing` */
  function ComputeSizing(p: Proposal, c: KernelContext, l: KernelLimits): Sizing {
    var nav := c.account.nav;
    var maxLoss := p.maxLoss.V();
    var deployable := nav * l.maxDeployedPct;
    Sizing(
      FloorDiv(nav * l.maxPositionLossPct, maxLoss),
      FloorDiv(nav * l.maxPortfolioRiskPct - c.PortfolioMaxLoss(), maxLoss),
      FloorDiv(deployable * l.maxUnderlyingConcentration - c.ReserveFor(p.underlying), maxLoss),
      FloorDiv(deployable - c.TotalReserve(), maxLoss),
      FloorDiv(c.account.buyingPower - c.TotalAssignmentCost(), p.shortStrike.V() * 100.0))
  }

  // ----- evaluation ---------------------------------------------------------

  /** `_guarded`: a rule that raises or returns no result is a hard failure. */
  function Guarded(spec: RuleSpec, p: Proposal, c: KernelContext, l: KernelLimits): RuleResult {
    match spec.evaluate(p, c, l)
    case Returned(r) => r
    case _ => RuleResult(spec.ruleId, false, Hard, FAIL_CLOSED)
  }

  function RuleResults(table: seq<RuleSpec>, p: Proposal, c: KernelContext, l: KernelLimits): (r: seq<RuleResult>)
    ensures |r| == |table|
    ensures forall i :: 0 <= i < |table| ==> r[i] == Guarded(table[i], p, c, l)
  {
    seq(|table|, i requires 0 <= i < |table| => Guarded(table[i], p, c, l))
  }

  /** The product of one soft factor per soft failure, in table order. */
  function SoftMultiplier(rs: seq<RuleResult>, factor: real): real {
    if rs == [] then 1.0 else Softened(SoftMultiplier(rs[..|rs| - 1], factor), rs[|rs| - 1], factor)
  }

  function Softened(before: real, r: RuleResult, factor: real): real {
    if r.SoftFailure() then before * factor else before
  }

  function SoftFailures(rs: seq<RuleResult>): nat {
    if rs == [] then 0
    else SoftFailures(rs[..|rs| - 1]) + (if rs[|rs| - 1].SoftFailure() then 1 else 0)
  }

  /** The most the sizing allows; a close is bounded by what it asks for. */
  function Permitted(p: Proposal, requested: int, c: KernelContext, l: KernelLimits): nat {
    PermittedBy(p.action, requested, ComputeSizing(p, c, l).Permitted())
  }

  function PermittedBy(action: Action, requested: int, sized: nat): nat {
    if action.Close? then Max(0, requested) else sized
  }

  function Scaled(raw: nat, multiplier: real): int {
    (raw as real * multiplier).Floor
  }

  /** What is asked for, cut to what is permitted, before any reduction. */
  function RawSize(p: Proposal, requested: int, c: KernelContext, l: KernelLimits): nat {
    Min(Max(requested, 0), Permitted(p, requested, c, l))
  }

  function SizeAfter(soft: real, raw: nat, l: KernelLimits): int {
    Scaled(raw, soft * l.calibrationMultiplier)
  }

  function ApprovedSize(table: seq<RuleSpec>, p: Proposal, requested: int, c: KernelContext, l: KernelLimits): int {
    SizeAfter(SoftMultiplier(RuleResults(table, p, c, l), l.softFactor), RawSize(p, requested, c, l), l)
  }

  function SizeFloor(approved: int): RuleResult {
    Result("SK-020", approved >= 1, Hard, "SIZE_FLOOR")
  }

  function HardReasons(rs: seq<RuleResult>): seq<string> {
    if rs == [] then []
    else
      var before := HardReasons(rs[..|rs| - 1]);
      var r := rs[|rs| - 1];
      if r.HardFailure() then before + [if r.reasonCode != "" then r.reasonCode else r.ruleId] else before
  }

  predicate NoHardFailure(rs: seq<RuleResult>) {
    forall i :: 0 <= i < |rs| ==> !rs[i].HardFailure()
  }

  /** The refusal recorded when evaluation itself breaks. */
  function FailClosed(host: Host, p: Proposal, c: KernelContext): KernelVerdict {
    KernelVerdict(ProposalHash(host, p), Reject, 0, [RuleResult("SK-999", false, Hard, FAIL_CLOSED)],
                  [FAIL_CLOSED], "", c.now, c.now, None)
  }

  /** The verdict on a complete list of results. */
  function Conclude(host: Host, p: Proposal, results: seq<RuleResult>, approved: int, c: KernelContext,
                    secret: string, l: KernelLimits, nonce: string): KernelVerdict {
    var decision := if NoHardFailure(results) then Approve else Reject;
    match Mint(host, ProposalHash(host, p), decision, if decision.Approve? then approved else 0,
               results, HardReasons(results), c.now, l.verdictTtlSec, secret, nonce)
    case Some(v) => v
    case None => FailClosed(host, p, c)
  }

  /** `evaluate`, given the nonce `mint` draws. */
  function Evaluate(host: Host, table: seq<RuleSpec>, p: Proposal, requested: int, c: KernelContext,
                    secret: string, l: KernelLimits, nonce: string): KernelVerdict {
    var approved := ApprovedSize(table, p, requested, c, l);
    Conclude(host, p, RuleResults(table, p, c, l) + [SizeFloor(approved)], approved, c, secret, l, nonce)
  }

  lemma AppendResult(before: seq<RuleResult>, r: RuleResult, factor: real)
    ensures var rs := before + [r];
      && SoftMultiplier(rs, factor) == Softened(SoftMultiplier(before, factor), r, factor)
      && HardReasons(rs) == (if r.HardFailure()
                             then HardReasons(before) + [if r.reasonCode != "" then r.reasonCode else r.ruleId]
                             else HardReasons(before))
      && (NoHardFailure(rs) <==> NoHardFailure(before) && !r.HardFailure())
  {
    var rs := before + [r];
    assert rs[..|rs| - 1] == before && rs[|before|] == r;
    assert forall i :: 0 <= i < |before| ==> rs[i] == before[i];
  }

  /** What the loops keep of the results so far. */
  ghost predicate Tallied(rs: seq<RuleResult>, factor: real, multiplier: real, reasons: seq<string>, hard: bool) {
    multiplier == SoftMultiplier(rs, factor) && reasons == HardReasons(rs) && (hard <==> !NoHardFailure(rs))
  }

  function ReasonsWith(reasons: seq<string>, r: RuleResult): seq<string> {
    if r.HardFailure() then reasons + [if r.reasonCode != "" then r.reasonCode else r.ruleId] else reasons
  }

  lemma TallyNext(before: seq<RuleResult>, r: RuleResult, factor: real, multiplier: real, reasons: seq<string>,
                  hard: bool)
    requires Tallied(before, factor, multiplier, reasons, hard)
    ensures Tallied(before + [r], factor, Softened(multiplier, r, factor), ReasonsWith(reasons, r),
                    hard || r.HardFailure())
  {
    AppendResult(before, r, factor);
  }

  /** The loops of `_evaluate`: every rule is run, none is short-circuited. */
  method RunRules(table: seq<RuleSpec>, p: Proposal, c: KernelContext, l: KernelLimits)
    returns (results: seq<RuleResult>, multiplier: real, reasons: seq<string>, hard: bool)
    ensures results == RuleResults(table, p, c, l)
    ensures multiplier == SoftMultiplier(results, l.softFactor)
    ensures reasons == HardReasons(results) && (hard <==> !NoHardFailure(results))
  {
    results, multiplier, reasons, hard := [], 1.0, [], false;
    for i := 0 to |table|
      invariant results == RuleResults(table, p, c, l)[..i]
      invariant Tallied(results, l.softFactor, multiplier, reasons, hard)
    {
      var r := Guarded(table[i], p, c, l);
      TallyNext(results, r, l.softFactor, multiplier, reasons, hard);
      results := results + [r];
      multiplier := Softened(multiplier, r, l.softFactor);
      if r.HardFailure() {
        reasons := reasons + [if r.reasonCode != "" then r.reasonCode else r.ruleId];
        hard := true;
      }
    }
  }

  /** `evaluate` */
  method Adjudicate(host: Host, table: seq<RuleSpec>, p: Proposal, requested: int, c: KernelContext,
                    secret: string, l: KernelLimits, nonce: string) returns (v: KernelVerdict)
    ensures v == Evaluate(host, table, p, requested, c, secret, l, nonce)
  {
    var results, multiplier, reasons, hard := RunRules(table, p, c, l);
    var approved := SizeAfter(multiplier, RawSize(p, requested, c, l), l);
    v := Decide(host, p, results, reasons, hard, approved, c, secret, l, nonce);
  }

  /** The size floor, the decision, and the mint. */
  method Decide(host: Host, p: Proposal, results: seq<RuleResult>, reasons: seq<string>, hard: bool, approved: int,
                c: KernelContext, secret: string, l: KernelLimits, nonce: string) returns (v: KernelVerdict)
    requires reasons == HardReasons(results) && (hard <==> !NoHardFailure(results))
    ensures v == Conclude(host, p, results + [SizeFloor(approved)], approved, c, secret, l, nonce)
  {
    var last := SizeFloor(approved);
    AppendResult(results, last, 1.0);
    var refused := hard || last.HardFailure();
    var all := if last.HardFailure() then reasons + [last.reasonCode] else reasons;
    var minted := Mint(host, ProposalHash(host, p), if refused then Reject else Approve,
                       if refused then 0 else approved,
                       results + [last], all, c.now, l.verdictTtlSec, secret, nonce);
    v := match minted case Some(m) => m case None => FailClosed(host, p, c);
  }

  // ----- fail closed, for any table -----------------------------------------

  lemma NoHardFailureAppend(a: seq<RuleResult>, b: seq<RuleResult>)
    ensures NoHardFailure(a + b) <==> NoHardFailure(a) && NoHardFailure(b)
  {
    if NoHardFailure(a + b) {
      forall i | 0 <= i < |a| ensures !a[i].HardFailure() { assert (a + b)[i] == a[i]; }
      forall i | 0 <= i < |b| ensures !b[i].HardFailure() { assert (a + b)[|a| + i] == b[i]; }
    }
  }

  /** Whatever the rules are and however they misbehave: a verdict approves exactly
      when nothing failed hard, at least one contract is left and there is a key to
      sign with; it is signed exactly when it approves; and it is signed for this
      proposal, at this size, until the end of its time to live. */
  lemma ApprovesExactly(host: Host, table: seq<RuleSpec>, p: Proposal, requested: int, c: KernelContext,
                        secret: string, l: KernelLimits, nonce: string)
    ensures var v := Evaluate(host, table, p, requested, c, secret, l, nonce);
      var approved := ApprovedSize(table, p, requested, c, l);
      && (v.decision.Approve? <==>
            secret != "" && approved >= 1 && NoHardFailure(RuleResults(table, p, c, l)))
      && (v.signature.Some? <==> v.decision.Approve?)
      && v.approvedContracts == (if v.decision.Approve? then approved else 0)
      && (v.decision.Approve? ==>
            v.nonce == nonce && v.expiresAt == c.now + l.verdictTtlSec
            && v.proposalHash == ProposalHash(host, p) && ProperlySigned(host, secret, v))
  {
    ConcludesExactly(host, p, RuleResults(table, p, c, l), ApprovedSize(table, p, requested, c, l), c, secret, l,
                     nonce);
  }

  lemma ConcludesExactly(host: Host, p: Proposal, results: seq<RuleResult>, approved: int, c: KernelContext,
                         secret: string, l: KernelLimits, nonce: string)
    ensures var v := Conclude(host, p, results + [SizeFloor(approved)], approved, c, secret, l, nonce);
      && (v.decision.Approve? <==> secret != "" && approved >= 1 && NoHardFailure(results))
      && (v.signature.Some? <==> v.decision.Approve?)
      && v.approvedContracts == (if v.decision.Approve? then approved else 0)
      && (v.decision.Approve? ==>
            v.nonce == nonce && v.expiresAt == c.now + l.verdictTtlSec
            && v.proposalHash == ProposalHash(host, p) && ProperlySigned(host, secret, v))
  {
    NoHardFailureAppend(results, [SizeFloor(approved)]);
    assert NoHardFailure([SizeFloor(approved)]) <==> approved >= 1 by {
      assert [SizeFloor(approved)][0] == SizeFloor(approved);
    }
  }

  lemma HardReasonListed(rs: seq<RuleResult>, i: nat)
    requires i < |rs| && rs[i].HardFailure() && rs[i].reasonCode == FAIL_CLOSED
    ensures FAIL_CLOSED in HardReasons(rs)
  {
    if i < |rs| - 1 {
      HardReasonListed(rs[..|rs| - 1], i);
    }
  }

  /** One rule that raises, or answers with anything but a result, refuses the order
      and says why, even a rule that could only have reduced the size. */
  lemma BrokenRuleRefuses(host: Host, table: seq<RuleSpec>, p: Proposal, requested: int, c: KernelContext,
                          secret: string, l: KernelLimits, nonce: string, i: nat)
    requires i < |table| && !table[i].evaluate(p, c, l).Returned?
    ensures var v := Evaluate(host, table, p, requested, c, secret, l, nonce);
      v.decision.Reject? && v.approvedContracts == 0 && v.signature.None? && FAIL_CLOSED in v.rejectReasons
  {
    var rs := RuleResults(table, p, c, l);
    var results := rs + [SizeFloor(ApprovedSize(table, p, requested, c, l))];
    assert rs[i].HardFailure() && results[i] == rs[i];
    HardReasonListed(results, i);
  }

  // ----- how sizes shrink ---------------------------------------------------

  function Pow(x: real, k: nat): real {
    if k == 0 then 1.0 else Pow(x, k - 1) * x
  }

  lemma {:induction false} SoftMultiplierIsPower(rs: seq<RuleResult>, factor: real)
    ensures SoftMultiplier(rs, factor) == Pow(factor, SoftFailures(rs))
  {
    if rs != [] {
      SoftMultiplierIsPower(rs[..|rs| - 1], factor);
    }
  }

  lemma ProductAtMost(a: real, b: real)
    requires a <= 1.0 && 0.0 <= b
    ensures a * b <= b
  {
    RealLe(a, 1.0, b);
  }

  lemma ProductAtLeast(a: real, b: real)
    requires 0.0 <= a && 0.0 <= b
    ensures 0.0 <= a * b
  {
  }

  lemma ProductWithinUnit(a: real, b: real)
    requires 0.0 <= a <= 1.0 && 0.0 <= b <= 1.0
    ensures 0.0 <= a * b <= b
  {
    ProductAtMost(a, b);
    ProductAtLeast(a, b);
  }

  lemma NextPower(before: real, x: real, next: real)
    requires 0.0 <= before <= 1.0 && 0.0 <= x <= 1.0 && next == before * x
    ensures 0.0 <= next <= 1.0
  {
    ProductWithinUnit(before, x);
  }

  lemma {:induction false} PowWithinUnit(x: real, k: nat)
    requires 0.0 <= x <= 1.0
    ensures 0.0 <= Pow(x, k) <= 1.0
  {
    if k == 0 {
      assert Pow(x, k) == 1.0;
    } else {
      PowWithinUnit(x, k - 1);
      NextPower(Pow(x, k - 1), x, Pow(x, k));
    }
  }

  /** Factors that only ever reduce. */
  predicate Reducing(l: KernelLimits) {
    0.0 <= l.softFactor <= 1.0 && 0.0 <= l.calibrationMultiplier <= 1.0
  }

  lemma MultiplierWithinUnit(rs: seq<RuleResult>, l: KernelLimits)
    requires Reducing(l)
    ensures 0.0 <= SoftMultiplier(rs, l.softFactor) * l.calibrationMultiplier <= 1.0
  {
    SoftMultiplierIsPower(rs, l.softFactor);
    PowWithinUnit(l.softFactor, SoftFailures(rs));
    ProductWithinUnit(SoftMultiplier(rs, l.softFactor), l.calibrationMultiplier);
  }

  lemma ScaledWithin(raw: nat, m: real)
    requires 0.0 <= m <= 1.0
    ensures 0 <= Scaled(raw, m) <= raw
  {
    assert raw as real * m <= raw as real;
  }

  lemma ScaledMonotone(a: nat, b: nat, m: real)
    requires a <= b && m >= 0.0
    ensures Scaled(a, m) <= Scaled(b, m)
  {
    assert a as real * m <= b as real * m;
  }

  /** Reductions keep every size within what was permitted exactly when the combined
      multiplier is at most one. */
  lemma ReductionsReduceExactly(m: real)
    ensures (forall raw: nat :: Scaled(raw, m) <= raw) <==> m <= 1.0
  {
    if m <= 1.0 {
      forall raw: nat ensures Scaled(raw, m) <= raw {
        assert raw as real * m <= raw as real;
      }
    } else {
      var raw: nat := (1.0 / (m - 1.0)).Floor + 1;
      assert raw as real * (m - 1.0) >= 1.0 by {
        assert (1.0 / (m - 1.0)) * (m - 1.0) == 1.0;
      }
      assert raw as real * m == raw as real + raw as real * (m - 1.0);
      assert Scaled(raw, m) > raw;
    }
  }

  lemma SizeAfterWithin(soft: real, raw: nat, l: KernelLimits)
    requires 0.0 <= soft * l.calibrationMultiplier <= 1.0
    ensures 0 <= SizeAfter(soft, raw, l) <= raw
  {
    ScaledWithin(raw, soft * l.calibrationMultiplier);
  }

  lemma ApprovedSizeWithin(table: seq<RuleSpec>, p: Proposal, requested: int, c: KernelContext, l: KernelLimits)
    requires Reducing(l)
    ensures 0 <= ApprovedSize(table, p, requested, c, l) <= RawSize(p, requested, c, l)
  {
    MultiplierWithinUnit(RuleResults(table, p, c, l), l);
    SizeAfterWithin(SoftMultiplier(RuleResults(table, p, c, l), l.softFactor), RawSize(p, requested, c, l), l);
  }

  /** With soft and calibration factors at most one, an approval is at least one
      contract, no more than asked, and no more than every constraint permits. */
  lemma ApprovedWithin(host: Host, table: seq<RuleSpec>, p: Proposal, requested: int, c: KernelContext,
                       secret: string, l: KernelLimits, nonce: string)
    requires Reducing(l)
    ensures var v := Evaluate(host, table, p, requested, c, secret, l, nonce);
      v.decision.Approve? ==>
        1 <= v.approvedContracts <= requested && v.approvedContracts <= Permitted(p, requested, c, l)
  {
    ApprovesExactly(host, table, p, requested, c, secret, l, nonce);
    ApprovedSizeWithin(table, p, requested, c, l);
  }

  lemma ScaledUp(raw: nat, m: real)
    requires m >= 2.0
    ensures Scaled(raw, m) >= 2 * raw
  {
    RealLe(2.0, m, raw as real);
    assert raw as real * 2.0 == (2 * raw) as real;
  }

  /** A calibration factor of two or more breaks that bound: an order no rule objects to is
      approved, signed, at twice what every constraint permits. */
  lemma CalibrationAboveOneOverrides(host: Host, table: seq<RuleSpec>, p: Proposal, requested: int, c: KernelContext,
                                     secret: string, l: KernelLimits, nonce: string)
    requires l.calibrationMultiplier >= 2.0 && secret != ""
    requires NoHardFailure(RuleResults(table, p, c, l)) && SoftFailures(RuleResults(table, p, c, l)) == 0
    requires requested >= Permitted(p, requested, c, l) >= 1
    ensures var v := Evaluate(host, table, p, requested, c, secret, l, nonce);
      && v.decision.Approve? && v.signature.Some?
      && v.approvedContracts >= 2 * Permitted(p, requested, c, l) > Permitted(p, requested, c, l)
  {
    ApprovesExactly(host, table, p, requested, c, secret, l, nonce);
    UnsoftenedSize(table, p, requested, c, l);
    ScaledUp(RawSize(p, requested, c, l), l.calibrationMultiplier);
  }

  lemma UnsoftenedSize(table: seq<RuleSpec>, p: Proposal, requested: int, c: KernelContext, l: KernelLimits)
    requires SoftFailures(RuleResults(table, p, c, l)) == 0
    ensures ApprovedSize(table, p, requested, c, l) == Scaled(RawSize(p, requested, c, l), l.calibrationMultiplier)
  {
    SoftMultiplierIsPower(RuleResults(table, p, c, l), l.softFactor);
    assert 1.0 * l.calibrationMultiplier == l.calibrationMultiplier;
  }

  lemma SizeAfterMonotone(soft: real, a: nat, b: nat, l: KernelLimits)
    requires a <= b && 0.0 <= soft * l.calibrationMultiplier
    ensures SizeAfter(soft, a, l) <= SizeAfter(soft, b, l)
  {
    ScaledMonotone(a, b, soft * l.calibrationMultiplier);
  }

  lemma PermittedMonotone(action: Action, r1: int, r2: int, sized: nat)
    requires r1 <= r2
    ensures Min(Max(r1, 0), PermittedBy(action, r1, sized)) <= Min(Max(r2, 0), PermittedBy(action, r2, sized))
  {
  }

  /** Asking for more never yields less. */
  lemma ApprovedMonotone(table: seq<RuleSpec>, p: Proposal, r1: int, r2: int, c: KernelContext, l: KernelLimits)
    requires r1 <= r2 && Reducing(l)
    ensures ApprovedSize(table, p, r1, c, l) <= ApprovedSize(table, p, r2, c, l)
  {
    MultiplierWithinUnit(RuleResults(table, p, c, l), l);
    PermittedMonotone(p.action, r1, r2, ComputeSizing(p, c, l).Permitted());
    SizeAfterMonotone(SoftMultiplier(RuleResults(table, p, c, l), l.softFactor),
                      RawSize(p, r1, c, l), RawSize(p, r2, c, l), l);
  }

  function TwoTo(k: nat): (n: nat)
    ensures n >= 1
  {
    if k == 0 then 1 else 2 * TwoTo(k - 1)
  }

  lemma {:induction false} HalfPower(k: nat)
    ensures Pow(0.5, k) * TwoTo(k) as real == 1.0
  {
    if k > 0 {
      HalfPower(k - 1);
      assert TwoTo(k) as real == 2.0 * TwoTo(k - 1) as real;
    }
  }

  lemma HalvingIsDivision(raw: nat, k: nat)
    ensures Scaled(raw, Pow(0.5, k)) == raw / TwoTo(k)
  {
    HalfPower(k);
    QuotientBounds(raw, TwoTo(k));
    DivideByReciprocal(raw as real, Pow(0.5, k), TwoTo(k) as real);
    FloorOfRatio(raw, TwoTo(k), raw / TwoTo(k));
  }

  lemma DivideByReciprocal(x: real, m: real, t: real)
    requires t > 0.0 && m * t == 1.0
    ensures x * m == x / t
  {
    assert (x * m) * t == x * (m * t);
  }

  /** Under the default limits each soft failure halves the size; the halves are
      rounded down once, at the end. */
  lemma DefaultSizeIsHalved(table: seq<RuleSpec>, p: Proposal, requested: int, c: KernelContext)
    ensures ApprovedSize(table, p, requested, c, DEFAULT_LIMITS)
         == RawSize(p, requested, c, DEFAULT_LIMITS)
            / TwoTo(SoftFailures(RuleResults(table, p, c, DEFAULT_LIMITS)))
  {
    var rs := RuleResults(table, p, c, DEFAULT_LIMITS);
    SoftMultiplierIsPower(rs, 0.5);
    assert Pow(0.5, SoftFailures(rs)) * 1.0 == Pow(0.5, SoftFailures(rs));
    HalvingIsDivision(RawSize(p, requested, c, DEFAULT_LIMITS), SoftFailures(rs));
  }

  // ----- every reason is shown ----------------------------------------------------------------

  /** The reason a failed rule is refused for. */
  function CodeOf(r: RuleResult): string {
    if r.reasonCode == "" then r.ruleId else r.reasonCode
  }

  /** The places of the hard failures, in order. */
  ghost predicate FailuresAt(rs: seq<RuleResult>, at: seq<nat>) {
    && (forall k :: 0 <= k < |at| ==> at[k] < |rs|)
    && (forall j, k :: 0 <= j < k < |at| ==> at[j] < at[k])
    && forall i: nat :: i < |rs| ==> (i in at <==> !rs[i].passed && rs[i].severity.Hard?)
  }

  lemma OneMoreFailure(rs: seq<RuleResult>, n: nat, at: seq<nat>)
    requires |rs| == n + 1 && FailuresAt(rs[..n], at)
    ensures FailuresAt(rs, if rs[n].HardFailure() then at + [n] else at)
  {
    var now := if rs[n].HardFailure() then at + [n] else at;
    assert forall k :: 0 <= k < |at| ==> at[k] in at && at[k] < n;
    forall i: nat | i < |rs| ensures i in now <==> !rs[i].passed && rs[i].severity.Hard? {
      assert i < n ==> rs[..n][i] == rs[i];
      assert i in now <==> i in at || (i == n && rs[n].HardFailure());
    }
  }

  /** The reasons are those of the rules at these places. */
  ghost predicate ReasonsAt(rs: seq<RuleResult>, at: seq<nat>, reasons: seq<string>) {
    |reasons| == |at| && forall k :: 0 <= k < |at| ==> at[k] < |rs| && reasons[k] == CodeOf(rs[at[k]])
  }

  lemma OneMoreReason(rs: seq<RuleResult>, n: nat, at: seq<nat>)
    requires |rs| == n + 1 && ReasonsAt(rs[..n], at, HardReasons(rs[..n]))
    ensures ReasonsAt(rs, if rs[n].HardFailure() then at + [n] else at, HardReasons(rs))
  {
    var before := HardReasons(rs[..n]);
    forall k | 0 <= k < |at| ensures at[k] < n && before[k] == CodeOf(rs[at[k]]) {
      assert rs[..n][at[k]] == rs[at[k]];
    }
  }

  lemma {:induction false} ReasonsOfFailures(rs: seq<RuleResult>) returns (at: seq<nat>)
    ensures FailuresAt(rs, at) && ReasonsAt(rs, at, HardReasons(rs))
  {
    at := [];
    if rs != [] {
      var n := |rs| - 1;
      at := ReasonsOfFailures(rs[..n]);
      OneMoreFailure(rs, n, at);
      OneMoreReason(rs, n, at);
      at := if rs[n].HardFailure() then at + [n] else at;
    }
  }

  /** No rule is skipped and no reason is lost: a verdict records the result of every rule of the
      table, in order, and of the size last; and a refusal names every hard failure among them,
      each once and in order. */
  lemma EveryReasonIsShown(host: Host, table: seq<RuleSpec>, p: Proposal, requested: int, c: KernelContext,
                           secret: string, l: KernelLimits, nonce: string) returns (at: seq<nat>)
    requires secret != ""
    ensures var v := Evaluate(host, table, p, requested, c, secret, l, nonce);
      && |v.rules| == |table| + 1
      && (forall i :: 0 <= i < |table| ==> v.rules[i] == Guarded(table[i], p, c, l))
      && v.rules[|table|].ruleId == "SK-020"
      && (v.rules[|table|].passed <==> ApprovedSize(table, p, requested, c, l) >= 1)
      && FailuresAt(v.rules, at) && ReasonsAt(v.rules, at, v.rejectReasons)
      && (v.decision.Approve? <==> v.rejectReasons == [])
  {
    var results := RuleResults(table, p, c, l) + [SizeFloor(ApprovedSize(table, p, requested, c, l))];
    at := ReasonsOfFailures(results);
    var v := Evaluate(host, table, p, requested, c, secret, l, nonce);
    assert v.rules == results && v.rejectReasons == HardReasons(results);
    if at != [] {
      assert at[0] in at;
    }
  }

  /** Without a key to sign with, every approval and nothing else becomes a refusal, for no reason
      but that: a refusal is the same with a key and without. */
  lemma WithoutAKey(host: Host, table: seq<RuleSpec>, p: Proposal, requested: int, c: KernelContext, l: KernelLimits,
                    nonce: string, key: string)
    requires key != ""
    ensures var v := Evaluate(host, table, p, requested, c, "", l, nonce);
      var w := Evaluate(host, table, p, requested, c, key, l, nonce);
      if w.decision.Reject? then v == w
      else
        && v.decision.Reject? && v.signature.None? && v.approvedContracts == 0 && v.proposalHash == w.proposalHash
        && v.rejectReasons == ["KERNEL_FAIL_CLOSED"]
  {
  }

  /** The rule's result is its own: its id and its severity as it is registered, and a reason
      exactly if it failed. */
  predicate AnswersForItself(spec: RuleSpec, p: Proposal, c: KernelContext, l: KernelLimits) {
    var r := Guarded(spec, p, c, l);
    r.ruleId == spec.ruleId && r.severity == spec.severity && (r.passed <==> r.reasonCode == "")
  }

  lemma PartsAnswer(part: seq<RuleSpec>, p: Proposal, c: KernelContext, l: KernelLimits)
    requires |part| == 5 && forall i :: 0 <= i < 5 ==> AnswersForItself(part[i], p, c, l)
    ensures forall spec :: spec in part ==> AnswersForItself(spec, p, c, l)
  {
  }

  /** Every rule of the table answers under its own id, at the severity it is registered with. */
  lemma EveryRuleAnswersForItself(host: Host, p: Proposal, c: KernelContext, l: KernelLimits)
    ensures forall spec :: spec in Table(host) ==> AnswersForItself(spec, p, c, l)
  {
    PartsAnswer(Capital(), p, c, l);
    PartsAnswer(Shape(), p, c, l);
    PartsAnswer(Control(), p, c, l);
    PartsAnswer(Quality(), p, c, l);
    PartsAnswer(Provenance(host), p, c, l);
  }
}
