/** The Claims Desk: when a position must be closed, at what debit, and what it then made. */
module Claims {
  import opened Decimals
  import opened Division
  import opened Domain
  import opened Market
  import opened Formulas
  import opened Orders

  datatype ExitReason = ForceFlat | StopLoss | Breach | ProfitTarget

  /** An open policy as a management cycle sees it; amounts per spread and per share. */
  datatype ManagedPosition = ManagedPosition(
    policyId: string,
    contracts: int,
    openingCredit: real,
    shortStrike: real,
    longStrike: real,
    expiry: int,
    costToClose: Option<real>,
    underlyingPrice: Option<real>)
  {
    function Dte(today: int): int { expiry - today }

    predicate IsBreached() { underlyingPrice.Some? && underlyingPrice.value <= shortStrike }
  }

  datatype ClaimsVerdict = ClaimsVerdict(reason: Option<ExitReason>, targetDebit: Option<real>, escalate: bool) {
    predicate ShouldClose() { reason.Some? }
  }

  datatype ClaimsPolicy = ClaimsPolicy(profitTargetPct: real, stopLossMultiple: real, forceFlatDte: int)

  const DEFAULT_CLAIMS_POLICY := ClaimsPolicy(0.50, 2.0, 2)

  /** `evaluate` */
  function Judge(p: ManagedPosition, today: int, rules: ClaimsPolicy): ClaimsVerdict {
    if p.Dte(today) <= rules.forceFlatDte then
      ClaimsVerdict(Some(ForceFlat),
                    Some(if p.costToClose.Some? then p.costToClose.value else p.shortStrike - p.longStrike), false)
    else if p.costToClose.None? then ClaimsVerdict(None, None, true)
    else
      var cost := p.costToClose.value;
      var target := (1.0 - rules.profitTargetPct) * p.openingCredit;
      if cost >= rules.stopLossMultiple * p.openingCredit then ClaimsVerdict(Some(StopLoss), Some(cost), false)
      else if p.IsBreached() && cost > target then ClaimsVerdict(Some(Breach), Some(cost), true)
      else if cost <= target then ClaimsVerdict(Some(ProfitTarget), Some(cost), false)
      else ClaimsVerdict(None, None, false)
  }

  // ----- precedence ---------------------------------------------------------------

  /** Whether a reason to close is present, each judged on its own. */
  predicate Applies(reason: ExitReason, p: ManagedPosition, today: int, rules: ClaimsPolicy) {
    match reason
    case ForceFlat => p.Dte(today) <= rules.forceFlatDte
    case StopLoss => p.costToClose.Some? && p.costToClose.value >= rules.stopLossMultiple * p.openingCredit
    case Breach => p.costToClose.Some? && p.IsBreached()
    case ProfitTarget => p.costToClose.Some? && p.costToClose.value <= (1.0 - rules.profitTargetPct) * p.openingCredit
  }

  /** The reason that wins over another: out first, then the stop, then profit over breach. */
  function Rank(reason: ExitReason): nat {
    match reason case ForceFlat => 0 case StopLoss => 1 case ProfitTarget => 2 case Breach => 3
  }

  /** A position is closed exactly when some reason is present, and for the one of least
      rank; a breach that is also at the profit target is closed for the profit. A position
      is held without being escalated only if it has a price and no reason is present. */
  lemma PrecedenceExactly(p: ManagedPosition, today: int, rules: ClaimsPolicy)
    ensures var v := Judge(p, today, rules);
      && (v.ShouldClose() <==> exists r :: Applies(r, p, today, rules))
      && (v.ShouldClose() ==> Applies(v.reason.value, p, today, rules))
      && (forall r :: Applies(r, p, today, rules) ==> v.ShouldClose() && Rank(v.reason.value) <= Rank(r))
      && (v.ShouldClose() ==> v.targetDebit.Some?)
      && (v.escalate <==> v.reason == Some(Breach) || (p.costToClose.None? && !v.ShouldClose()))
  {
    var v := Judge(p, today, rules);
    if v.ShouldClose() {
      assert Applies(v.reason.value, p, today, rules);
    }
  }

  /** What a close is meant to cost: what the spread costs now, and if that is not known, which
      only a force flat survives, its whole width. */
  lemma TargetExactly(p: ManagedPosition, today: int, rules: ClaimsPolicy)
    ensures var v := Judge(p, today, rules);
      && (v.ShouldClose() && p.costToClose.Some? ==> v.targetDebit == p.costToClose)
      && (v.ShouldClose() && p.costToClose.None? ==>
            v.reason == Some(ForceFlat) && v.targetDebit == Some(p.shortStrike - p.longStrike))
      && (!v.ShouldClose() ==> v.targetDebit.None?)
  {
  }

  // ----- profit and loss ------------------------------------------------------------

  /** `realized_pnl` */
  function RealizedPnl(credit: real, debit: real, contracts: int): real {
    (credit - debit) * 100.0 * contracts as real
  }

  /** A spread written for so many contracts: its width, its credit, and its reserve. */
  ghost predicate WrittenAt(width: real, credit: real, contracts: nat, reserve: real, profit: real) {
    && Hundredths(credit) && TenThousandths(width) && 0.0 <= credit < width
    && reserve == MaxLoss(width, credit).value.V() * contracts as real
    && profit == MaxProfit(credit).V() * contracts as real
  }

  lemma AmountsOf(width: real, credit: real, contracts: nat, reserve: real, profit: real)
    requires WrittenAt(width, credit, contracts, reserve, profit)
    ensures reserve == 100.0 * (width - credit) * contracts as real
    ensures profit == 100.0 * credit * contracts as real
  {
    ProfitPlusLoss(width, credit);
  }

  lemma PnlOrder(a: real, b: real, n: nat)
    requires a <= b
    ensures a * 100.0 * n as real <= b * 100.0 * n as real
  {
    RealLe(a * 100.0, b * 100.0, n as real);
  }

  lemma Regroup(x: real, n: real)
    ensures x * 100.0 * n == 100.0 * x * n && (0.0 - x) * 100.0 * n == 0.0 - 100.0 * x * n
  {
  }

  lemma AtLeast(width: real, credit: real, contracts: nat, fill: real, debit: real)
    requires fill >= credit && debit <= width
    ensures 0.0 - 100.0 * (width - credit) * contracts as real <= RealizedPnl(fill, debit, contracts)
  {
    PnlOrder(credit - width, fill - debit, contracts);
    Regroup(width - credit, contracts as real);
    assert credit - width == 0.0 - (width - credit);
  }

  lemma AtMost(credit: real, contracts: nat, debit: real)
    requires 0.0 <= debit
    ensures RealizedPnl(credit, debit, contracts) <= 100.0 * credit * contracts as real
  {
    PnlOrder(credit - debit, credit, contracts);
    Regroup(credit, contracts as real);
  }

  /** The loss is bounded in advance: closed at any debit the spread can cost, a policy filled
      at its modelled credit or better never loses more than the reserve held for it; at
      exactly its modelled credit it never makes more than its maximum profit. */
  lemma PnlWithinReserve(width: real, credit: real, contracts: nat, reserve: real, profit: real, fill: real,
                         debit: real)
    requires WrittenAt(width, credit, contracts, reserve, profit)
    requires fill >= credit && 0.0 <= debit <= width
    ensures 0.0 - reserve <= RealizedPnl(fill, debit, contracts)
    ensures fill == credit ==> RealizedPnl(fill, debit, contracts) <= profit
  {
    AmountsOf(width, credit, contracts, reserve, profit);
    AtLeast(width, credit, contracts, fill, debit);
    AtMost(credit, contracts, debit);
  }

  /** At the ends the bounds are met: bought back for the full width the whole reserve is
      lost, and for nothing the whole profit is kept. */
  lemma PnlAtTheEnds(width: real, credit: real, contracts: nat, reserve: real, profit: real)
    requires WrittenAt(width, credit, contracts, reserve, profit)
    ensures RealizedPnl(credit, width, contracts) == 0.0 - reserve
    ensures RealizedPnl(credit, 0.0, contracts) == profit
  {
    AmountsOf(width, credit, contracts, reserve, profit);
    Regroup(width - credit, contracts as real);
    Regroup(credit, contracts as real);
  }

  lemma OnGridWidth(shortStrike: real, longStrike: real)
    requires TenThousandths(shortStrike - longStrike) && shortStrike > longStrike
    ensures SpreadWidth(shortStrike, longStrike).value.V() == shortStrike - longStrike
  {
    var width := shortStrike - longStrike;
    QuantiseValue(width, PerShare, HalfUp);
    assert RoundTo(PerShare.Times(width), HalfUp) == (10000.0 * width).Floor;
  }

  /** The fallback of force flat: a position that cannot be priced is bought back at its full
      width, and loses exactly its reserve. */
  lemma UnpriceableForceFlat(p: ManagedPosition, today: int, rules: ClaimsPolicy, reserve: real, profit: real)
    requires p.costToClose.None? && p.Dte(today) <= rules.forceFlatDte
    requires p.contracts >= 0 && TenThousandths(p.shortStrike - p.longStrike) && p.shortStrike > p.longStrike
    requires WrittenAt(SpreadWidth(p.shortStrike, p.longStrike).value.V(), p.openingCredit, p.contracts, reserve,
                       profit)
    ensures Judge(p, today, rules).targetDebit.Some?
    ensures RealizedPnl(p.openingCredit, Judge(p, today, rules).targetDebit.value, p.contracts) == 0.0 - reserve
  {
    OnGridWidth(p.shortStrike, p.longStrike);
    PnlAtTheEnds(p.shortStrike - p.longStrike, p.openingCredit, p.contracts, reserve, profit);
  }

  /** What the spread costs to settle at expiry with the underlying at `price`. */
  function ExpiryDebit(shortStrike: real, longStrike: real, price: real): real {
    if price >= shortStrike then 0.0
    else if price <= longStrike then shortStrike - longStrike
    else shortStrike - price
  }

  lemma PnlSign(x: real, n: nat)
    requires n >= 1
    ensures x * 100.0 * n as real > 0.0 <==> x > 0.0
    ensures x * 100.0 * n as real == 0.0 <==> x == 0.0
  {
    if x > 0.0 {
      RealLt(0.0, x * 100.0, n as real);
    } else if x < 0.0 {
      RealLt(x * 100.0, 0.0, n as real);
    }
  }

  /** What a breakeven is: held to expiry, a policy makes money exactly when the underlying ends
      above it, and nothing exactly when it ends there. */
  lemma BreakevenExactly(shortStrike: real, longStrike: real, credit: real, contracts: nat, price: real)
    requires contracts >= 1 && 0.0 < credit < shortStrike - longStrike && TenThousandths(shortStrike - credit)
    ensures var pnl := RealizedPnl(credit, ExpiryDebit(shortStrike, longStrike, price), contracts);
      && (pnl > 0.0 <==> price > Breakeven(shortStrike, credit).V())
      && (pnl == 0.0 <==> price == Breakeven(shortStrike, credit).V())
  {
    var at := shortStrike - credit;
    QuantiseValue(at, PerShare, HalfUp);
    assert RoundTo(PerShare.Times(at), HalfUp) == (10000.0 * at).Floor;
    PnlSign(credit - ExpiryDebit(shortStrike, longStrike, price), contracts);
  }

  // ----- price steps ------------------------------------------------------------------

  lemma StepPrice(credit: real, step: int)
    requires Hundredths(credit) && 0 <= step && credit - 0.01 * step as real > 0.0
    ensures Quantise(credit - 0.01 * step as real, Cents, Down).V() == credit - 0.01 * step as real
  {
    WholeQuantised(credit - 0.01 * step as real, (100.0 * credit).Floor - step, Down);
  }

  lemma StepsOf(x: real, step: int, n: real)
    ensures ((x - 0.01 * step as real) * 100.0) * n == (x * 100.0) * n - step as real * n
  {
    assert (x - 0.01 * step as real) * 100.0 == x * 100.0 - step as real;
  }

  /** Where the bound gives way, and by how much: an entry that had to be walked down `step`
      cents is filled below the credit its reserve was computed from, and a full loss then
      exceeds the reserve by exactly `step` dollars a contract. */
  lemma PriceStepsExceedTheReserve(width: real, credit: real, contracts: nat, reserve: real, profit: real, step: int)
    requires WrittenAt(width, credit, contracts, reserve, profit)
    requires EntryLimitPrice(credit, step).Ok?
    ensures RealizedPnl(EntryLimitPrice(credit, step).value.V(), width, contracts)
         == 0.0 - reserve - step as real * contracts as real
  {
    StepPrice(credit, step);
    PnlAtTheEnds(width, credit, contracts, reserve, profit);
    StepsOf(credit - width, step, contracts as real);
    assert (credit - 0.01 * step as real) - width == (credit - width) - 0.01 * step as real;
  }
}
