/** What the Kernel's size means: the most contracts that fit every capital measure at once, and
    which entries are approved at it. */
module Capacity {
  import opened Decimals
  import opened Division
  import opened Domain
  import opened Verdicts
  import opened KernelState
  import opened Rules
  import opened Kernel
  import opened Closes
  import opened Book
  import opened Solvency

  // ----- the sums over what is open ------------------------------------------------------

  function ReserveOf(): OpenPolicy -> real {
    (o: OpenPolicy) => o.reserve
  }

  function LossOf(): OpenPolicy -> real {
    (o: OpenPolicy) => o.maxLoss
  }

  function AssignmentOf(): OpenPolicy -> real {
    (o: OpenPolicy) => o.shortStrike * 100.0 * o.contracts as real
  }

  function ReserveOn(underlying: string): OpenPolicy -> real {
    (o: OpenPolicy) => if o.underlying == underlying then o.reserve else 0.0
  }

  lemma {:induction false} OpenSums(open: seq<OpenPolicy>, underlying: string)
    ensures SumReserve(open) == Sum(open, ReserveOf()) && SumMaxLoss(open) == Sum(open, LossOf())
    ensures SumAssignment(open) == Sum(open, AssignmentOf())
    ensures SumReserveFor(open, underlying) == Sum(open, ReserveOn(underlying))
  {
    if open != [] {
      OpenSums(open[1..], underlying);
    }
  }

  // ----- what fits -----------------------------------------------------------------------

  /** One measure of capital: its limit, what is in use, and what one contract takes. */
  datatype Measure = Measure(limit: real, used: real, each: real) {
    ghost predicate Holds(n: nat) {
      used + n as real * each <= limit
    }

    /** An amount left that Python divides exactly: in ten-thousandths, below 2 * 10^23 dollars. */
    ghost predicate Exact() {
      Divisible(limit - used) && TenThousandths(each) && each > 0.0
    }
  }

  /** A new policy alone. */
  function OnePosition(p: Proposal, c: KernelContext, l: KernelLimits): Measure {
    Measure(c.account.nav * l.maxPositionLossPct, 0.0, p.maxLoss.V())
  }

  /** All that can be lost at once. */
  function WholePortfolio(p: Proposal, c: KernelContext, l: KernelLimits): Measure {
    Measure(c.account.nav * l.maxPortfolioRiskPct, Sum(c.openPolicies, LossOf()), p.maxLoss.V())
  }

  /** The share of one underlying. */
  function OneUnderlying(p: Proposal, c: KernelContext, l: KernelLimits): Measure {
    Measure((c.account.nav * l.maxDeployedPct) * l.maxUnderlyingConcentration,
            Sum(c.openPolicies, ReserveOn(p.underlying)), p.maxLoss.V())
  }

  /** The capital deployed. */
  function Deployed(p: Proposal, c: KernelContext, l: KernelLimits): Measure {
    Measure(c.account.nav * l.maxDeployedPct, Sum(c.openPolicies, ReserveOf()), p.maxLoss.V())
  }

  /** The cash to take delivery, should every short leg be assigned. */
  function Assigned(p: Proposal, c: KernelContext): Measure {
    Measure(c.account.buyingPower, Sum(c.openPolicies, AssignmentOf()), p.shortStrike.V() * 100.0)
  }

  /** So many contracts fit in every measure at once. */
  ghost predicate Affords(p: Proposal, c: KernelContext, l: KernelLimits, n: nat) {
    && OnePosition(p, c, l).Holds(n) && WholePortfolio(p, c, l).Holds(n) && OneUnderlying(p, c, l).Holds(n)
    && Deployed(p, c, l).Holds(n) && Assigned(p, c).Holds(n)
  }

  ghost predicate Measurable(p: Proposal, c: KernelContext, l: KernelLimits) {
    && OnePosition(p, c, l).Exact() && WholePortfolio(p, c, l).Exact() && OneUnderlying(p, c, l).Exact()
    && Deployed(p, c, l).Exact() && Assigned(p, c).Exact()
  }

  lemma CostBelow(n: int, d: nat, k: nat)
    requires d > 0 && k * d <= n
    ensures k <= n / d
  {
    if k > n / d {
      QuotientBounds(n, d);
      MulLe(n / d + 1, k, d);
      assert false;
    }
  }

  /** Division by a cost asks how often the cost fits. */
  lemma FitsExactly(room: real, cost: real, k: nat)
    requires Divisible(room) && TenThousandths(cost) && cost > 0.0 && k >= 1
    ensures k <= FloorDiv(room, cost) <==> k as real * cost <= room
  {
    if k <= FloorDiv(room, cost) {
      FitsRoom(room, cost, k);
    }
    if k as real * cost <= room {
      var n, d := (10000.0 * room).Floor, (10000.0 * cost).Floor;
      assert room == n as real * 0.0001 && cost == d as real * 0.0001;
      GridProduct(k, d, cost);
      assert k * d <= n;
      FloorDivOnGrid(room, cost, n, d, 0.0001);
      MulLe(1, k, d);
      CostBelow(n, d, k);
    }
  }

  function CountIn(m: Measure): nat {
    FloorDiv(m.limit - m.used, m.each)
  }

  lemma MeasureCounts(m: Measure, k: nat)
    requires m.Exact() && k >= 1
    ensures k <= CountIn(m) <==> m.Holds(k)
  {
    FitsExactly(m.limit - m.used, m.each, k);
  }

  lemma SizingCounts(p: Proposal, c: KernelContext, l: KernelLimits)
    ensures ComputeSizing(p, c, l)
         == Sizing(CountIn(OnePosition(p, c, l)), CountIn(WholePortfolio(p, c, l)), CountIn(OneUnderlying(p, c, l)),
                   CountIn(Deployed(p, c, l)), CountIn(Assigned(p, c)))
  {
    OpenSums(c.openPolicies, p.underlying);
  }

  lemma LeastOfFive(a: Measure, b: Measure, c: Measure, d: Measure, e: Measure, k: nat)
    requires a.Exact() && b.Exact() && c.Exact() && d.Exact() && e.Exact() && k >= 1
    ensures k <= Sizing(CountIn(a), CountIn(b), CountIn(c), CountIn(d), CountIn(e)).Permitted()
       <==> a.Holds(k) && b.Holds(k) && c.Holds(k) && d.Holds(k) && e.Holds(k)
  {
    MeasureCounts(a, k);
    MeasureCounts(b, k);
    MeasureCounts(c, k);
    MeasureCounts(d, k);
    MeasureCounts(e, k);
  }

  /** The sizing is the largest count that fits: k contracts are permitted exactly when k fit. */
  lemma PermittedExactly(p: Proposal, c: KernelContext, l: KernelLimits, k: nat)
    requires Measurable(p, c, l) && k >= 1
    ensures k <= ComputeSizing(p, c, l).Permitted() <==> Affords(p, c, l, k)
  {
    SizingCounts(p, c, l);
    LeastOfFive(OnePosition(p, c, l), WholePortfolio(p, c, l), OneUnderlying(p, c, l), Deployed(p, c, l),
                Assigned(p, c), k);
  }

  /** Nothing is permitted of a proposal that costs nothing. */
  lemma NoCostNoSize(p: Proposal, c: KernelContext, l: KernelLimits)
    requires p.maxLoss.V() <= 0.0 || p.shortStrike.V() <= 0.0
    ensures ComputeSizing(p, c, l).Permitted() == 0
  {
  }

  lemma HoldsFewer(m: Measure, a: nat, b: nat)
    requires m.each > 0.0 && a <= b && m.Holds(b)
    ensures m.Holds(a)
  {
    RealLe(a as real, b as real, m.each);
  }

  /** What fits, fits in smaller numbers. */
  lemma AffordsFewer(p: Proposal, c: KernelContext, l: KernelLimits, a: nat, b: nat)
    requires Measurable(p, c, l) && a <= b && Affords(p, c, l, b)
    ensures Affords(p, c, l, a)
  {
    HoldsFewer(OnePosition(p, c, l), a, b);
    HoldsFewer(WholePortfolio(p, c, l), a, b);
    HoldsFewer(OneUnderlying(p, c, l), a, b);
    HoldsFewer(Deployed(p, c, l), a, b);
    HoldsFewer(Assigned(p, c), a, b);
  }

  // ----- approvals fit ---------------------------------------------------------------------

  /** Under any rules, and with factors that only reduce: every contract of an approved entry fits
      in every measure at once, though each rule tests one. */
  lemma ApprovedEntryFits(host: Host, table: seq<RuleSpec>, p: Proposal, requested: int, c: KernelContext,
                          secret: string, l: KernelLimits, nonce: string)
    requires Reducing(l) && p.action.Open? && Measurable(p, c, l)
    ensures var v := Evaluate(host, table, p, requested, c, secret, l, nonce);
      v.decision.Approve? ==> v.approvedContracts >= 1 && Affords(p, c, l, v.approvedContracts)
  {
    ApprovedWithin(host, table, p, requested, c, secret, l, nonce);
    var v := Evaluate(host, table, p, requested, c, secret, l, nonce);
    if v.decision.Approve? {
      OpenPermitted(p, requested, c, l);
      PermittedExactly(p, c, l, v.approvedContracts);
    }
  }

  // ----- on the desk's own book -----------------------------------------------------------------

  lemma {:induction false} ShownLosses(ps: seq<Policy>, id: nat, today: int, underlying: string)
    ensures var open := ShownFrom(ps, id, today);
      && Sum(open, LossOf()) == Sum(ps, ExposedLoss()) && Sum(open, ReserveOf()) == Sum(ps, Reserved())
      && Sum(open, ReserveOn(underlying)) == Sum(ps, ReservedFor(underlying)) && Sum(open, AssignmentOf()) == 0.0
  {
    ShownSums(ps, id, today, underlying);
    ShownWithoutStrikes(ps, id, today);
    OpenSums(ShownFrom(ps, id, today), underlying);
  }

  lemma DoubleDivides(equity: real)
    requires Countable(equity)
    ensures Divisible(equity * 2.0)
  {
    GridMultiple(equity * 2.0, 100.0 * equity, 200, 20000.0 * equity);
  }

  /** On a book the desk keeps, with an equity in whole cents, every measure is exact. */
  lemma BookIsMeasurable(ps: seq<Policy>, r: Reading, candidates: set<string>, p: Proposal)
    requires WellKept(ps) && Countable(r.equity)
    requires TenThousandths(p.maxLoss.V()) && p.maxLoss.V() > 0.0
    requires TenThousandths(p.shortStrike.V() * 100.0) && p.shortStrike.V() > 0.0
    ensures Measurable(p, EntryContext(ps, r, candidates), DEFAULT_LIMITS)
  {
    ShownLosses(ps, 0, r.today, p.underlying);
    RoomsDivide(ps, r.equity, p.underlying);
    ConcentrationShare(r.equity);
    DoubleDivides(r.equity);
  }

  lemma BookMeasures(ps: seq<Policy>, r: Reading, candidates: set<string>, p: Proposal)
    ensures var c := EntryContext(ps, r, candidates);
      && OnePosition(p, c, DEFAULT_LIMITS) == Measure(0.03 * r.equity, 0.0, p.maxLoss.V())
      && WholePortfolio(p, c, DEFAULT_LIMITS) == Measure(0.15 * r.equity, Sum(ps, ExposedLoss()), p.maxLoss.V())
      && OneUnderlying(p, c, DEFAULT_LIMITS)
         == Measure(0.15 * r.equity, Sum(ps, ReservedFor(p.underlying)), p.maxLoss.V())
      && Deployed(p, c, DEFAULT_LIMITS) == Measure(0.60 * r.equity, Sum(ps, Reserved()), p.maxLoss.V())
      && Assigned(p, c) == Measure(2.0 * r.equity, 0.0, p.shortStrike.V() * 100.0)
  {
    ShownLosses(ps, 0, r.today, p.underlying);
    ConcentrationShare(r.equity);
  }

  /** What fits on the desk's own book, in the book's own figures. */
  lemma AffordsOnTheBook(ps: seq<Policy>, r: Reading, candidates: set<string>, p: Proposal, n: nat)
    ensures Affords(p, EntryContext(ps, r, candidates), DEFAULT_LIMITS, n) <==>
      && Measure(0.03 * r.equity, 0.0, p.maxLoss.V()).Holds(n)
      && Measure(0.15 * r.equity, Sum(ps, ExposedLoss()), p.maxLoss.V()).Holds(n)
      && Measure(0.15 * r.equity, Sum(ps, ReservedFor(p.underlying)), p.maxLoss.V()).Holds(n)
      && Measure(0.60 * r.equity, Sum(ps, Reserved()), p.maxLoss.V()).Holds(n)
      && Measure(2.0 * r.equity, 0.0, p.shortStrike.V() * 100.0).Holds(n)
  {
    BookMeasures(ps, r, candidates, p);
  }
}
