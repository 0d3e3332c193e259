/** The exits of the desk's own policies: the proposal rebuilt from the stored row, and what
    the Kernel makes of it. */
module Exits {
  import opened Numerals
  import opened Decimals
  import opened Division
  import opened Domain
  import opened Verdicts
  import opened KernelState
  import opened Rules
  import opened Kernel
  import opened Closes
  import opened ExitLegs
  import opened Orders
  import opened Book
  import opened Solvency
  import opened Claims
  import M = Management

  /** A policy's money as the database returns it, in decimals, divided by its contracts. */
  datatype Columns = Columns(credit: Decimal, profit: Decimal, loss: Decimal, breakeven: Decimal, shortDelta: Decimal)

  const ZERO := Decimal(false, 0, 0)

  /** `policy.contracts or 1` */
  function Spreads(contracts: int): int {
    if contracts == 0 then 1 else contracts
  }

  function PerSpread(amount: real, contracts: int): real {
    if Spreads(contracts) > 0 then Div(amount, Spreads(contracts) as real) else amount
  }

  /** The columns of this row, as far as a verdict reads them. */
  predicate Reads(c: Columns, row: Policy) {
    c.credit.V() == row.openingCredit && c.loss.V() == PerSpread(row.maxLoss, row.contracts)
  }

  function ExitId(id: nat): string {
    "exit:" + Digits(id)
  }

  /** `rebuild_proposal` */
  function RebuildProposal(id: nat, row: Policy, c: Columns, now: int): Option<Proposal> {
    match RebuildLegs(row.legs, row.expiry)
    case None => None
    case Some(legs) =>
      Some(Proposal(ExitId(id), row.underlying, PutCreditSpread, Close, legs, legs[0].strike, legs[1].strike,
                    row.expiry, row.expiry - now / 86400, c.credit, c.profit, c.loss, c.loss, c.breakeven,
                    ZERO, ZERO, ZERO, ZERO, ZERO, ZERO, 0.0, c.shortDelta, ZERO, ZERO, true, ExitId(id), now))
  }

  // ----- the exposure rules ---------------------------------------------------------

  lemma NoExposure(perUnit: real, nav: real, unit: real)
    requires perUnit >= 0.0 && unit > 0.0
    ensures WithinExposure(0.0, perUnit, nav, unit)
  {
    if nav > 0.0 {
      assert nav / unit > 0.0;
      RealLe(0.0, Div(nav, unit), perUnit);
    }
  }

  /** A rebuilt exit carries no Greeks and a context rebuilt from the book carries none, so
      neither exposure rule ever halves an exit of the desk's own. */
  lemma ExitsAreNotHalved(ps: seq<Policy>, r: Reading, p: Proposal)
    requires p.netDelta == ZERO && p.netVega == ZERO
    ensures ExposureFailures(p, M.ExitContext(ContextOf(ps, r), p), DEFAULT_LIMITS) == 0
  {
    var c := M.ExitContext(ContextOf(ps, r), p);
    assert c.portfolioNetDelta + p.netDelta.V() == 0.0 && c.portfolioNetVega + p.netVega.V() == 0.0;
    NoExposure(15.0, c.account.nav, 10000.0);
    NoExposure(50.0, c.account.nav, 100000.0);
  }

  // ----- when an exit is approved -----------------------------------------------------

  /** The book and the account stop nothing: no halt, no kill switch, no loss limit passed. */
  predicate Unhalted(ps: seq<Policy>, r: Reading) {
    && |ShownFrom(ps, 0, r.today)| <= 8
    && Sum(ps, Realized()) >= -(r.equity * 0.03)
    && ContextOf(ps, r).account.DrawdownPct() <= 0.10
    && !r.killSwitch && !r.mode.Halt? && r.equity > 0.0
  }

  /** The stored legs make a spread of limited loss. */
  predicate Spread(row: Policy) {
    var legs := RebuildLegs(row.legs, row.expiry);
    row.maxLoss > 0.0 && legs.Some? && legs.value[1].strike.V() < legs.value[0].strike.V()
  }

  lemma PerSpreadPositive(amount: real, contracts: int)
    ensures PerSpread(amount, contracts) > 0.0 <==> amount > 0.0
  {
    var n := Spreads(contracts);
    if n > 0 {
      var q := amount / n as real;
      assert q * n as real == amount;
      SignOfQuotient(q, n as real, amount);
    }
  }

  lemma SignOfQuotient(q: real, n: real, amount: real)
    requires n > 0.0 && q * n == amount
    ensures q > 0.0 <==> amount > 0.0
  {
    if q > 0.0 { RealLt(0.0, q, n); } else { RealLe(q, 0.0, n); }
  }

  lemma RebuiltRisk(id: nat, row: Policy, c: Columns, now: int)
    requires Reads(c, row) && RebuildProposal(id, row, c, now).Some?
    ensures var p := RebuildProposal(id, row, c, now).value;
      DefinedRisk(p.legs) && p.maxLoss.V() > 0.0 <==> Spread(row)
  {
    var p := RebuildProposal(id, row, c, now).value;
    PerSpreadPositive(row.maxLoss, row.contracts);
    var short, long := p.legs[0], p.legs[1];
    var i := FirstIsThere(row.legs, Sell);
    var j := FirstIsThere(row.legs, Buy);
    assert short.side.Sell? && long.side.Buy?;
    assert Covered(p.legs, short) <==> long.strike.V() < short.strike.V();
  }

  lemma NeverADuplicate(host: Host, ps: seq<Policy>, r: Reading, p: Proposal)
    requires p.longStrike.V() < p.shortStrike.V()
    ensures !Duplicate(host, p, M.ExitContext(ContextOf(ps, r), p))
  {
    ShownUnstruck(ps, 0, r.today);
    var c := M.ExitContext(ContextOf(ps, r), p);
    forall i | 0 <= i < |c.openPolicies| ensures !Identical(c.openPolicies[i], p) {
      assert c.openPolicies[i] in c.openPolicies;
    }
  }

  lemma {:induction false} ShownUnstruck(ps: seq<Policy>, id: nat, today: int)
    ensures forall o :: o in ShownFrom(ps, id, today) ==> o.shortStrike == 0.0 && o.longStrike == 0.0
  {
    if ps != [] {
      ShownUnstruck(ps[1..], id + 1, today);
    }
  }

  /** The safety rules, on the desk's own exits and its own contexts: what is left of them. */
  lemma ExitIsSafe(host: Host, ps: seq<Policy>, r: Reading, id: nat, row: Policy, c: Columns, now: int)
    requires Reads(c, row) && RebuildProposal(id, row, c, now).Some?
    ensures var p := RebuildProposal(id, row, c, now).value;
      CloseSafe(host, p, M.ExitContext(ContextOf(ps, r), p), DEFAULT_LIMITS) <==> Unhalted(ps, r) && Spread(row)
  {
    var p := RebuildProposal(id, row, c, now).value;
    RebuiltRisk(id, row, c, now);
    if Spread(row) {
      NeverADuplicate(host, ps, r, p);
    }
  }

  ghost function ExitVerdictOn(host: Host, ps: seq<Policy>, r: Reading, p: Proposal, contracts: int, secret: string,
                               nonce: string): KernelVerdict {
    Evaluate(host, Table(host), p, contracts, M.ExitContext(ContextOf(ps, r), p), secret, DEFAULT_LIMITS, nonce)
  }

  /** An exit rebuilt from any row, judged against any book, is approved exactly when there is a
      key to sign with, the row is a spread of limited loss and of at least one contract, and no
      halt stands; and then for every contract: nothing about capital, Greeks or entry quality
      can block it or cut it short. */
  lemma ExitApprovedExactly(host: Host, ps: seq<Policy>, r: Reading, id: nat, row: Policy, c: Columns, now: int,
                            contracts: int, secret: string, nonce: string)
    requires Reads(c, row) && RebuildProposal(id, row, c, now).Some?
    ensures var v := ExitVerdictOn(host, ps, r, RebuildProposal(id, row, c, now).value, contracts, secret, nonce);
      && (v.decision.Approve? <==> secret != "" && Unhalted(ps, r) && Spread(row) && contracts >= 1)
      && (v.decision.Approve? ==> v.approvedContracts == contracts)
  {
    var p := RebuildProposal(id, row, c, now).value;
    CloseApprovedExactly(host, p, contracts, M.ExitContext(ContextOf(ps, r), p), secret, nonce);
    ExitsAreNotHalved(ps, r, p);
    ExitIsSafe(host, ps, r, id, row, c, now);
  }

  // ----- the client order id of an exit -----------------------------------------------

  /** The same policy later: its settlement and its status may have changed. */
  predicate SamePolicy(a: Policy, b: Policy) {
    a.(status := b.status, settlement := b.settlement) == b
  }

  /** Every exit of one policy, whenever it is rebuilt and whatever it is to close at, carries
      one client order id. */
  lemma ExitIdIsFixed(host: Host, id: nat, a: Policy, b: Policy, c: Columns, first: int, now: int)
    requires SamePolicy(a, b) && RebuildProposal(id, a, c, first).Some?
    ensures RebuildProposal(id, b, c, now).Some?
    ensures ProposalHash(host, RebuildProposal(id, a, c, first).value)
         == ProposalHash(host, RebuildProposal(id, b, c, now).value)
  {
    SameHash(host, RebuildProposal(id, a, c, first).value, RebuildProposal(id, b, c, now).value);
  }
}
