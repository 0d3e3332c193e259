/** Exits over runs of the desk's own jobs: whose exit is attempted, whose is approved and sent,
    and what stays on the book for good. */
module ExitRuns {
  import opened Numerals
  import opened Decimals
  import opened Division
  import opened Domain
  import opened Verdicts
  import opened KernelState
  import opened Rules
  import opened Kernel
  import opened Orders
  import opened Market
  import opened Actuary
  import opened ActuaryLaws
  import opened Agent
  import opened Book
  import opened Solvency
  import opened BoundedLoss
  import opened ExitLegs
  import opened Exits
  import opened Claims
  import opened Positions
  import opened OwnCycles
  import opened Turns
  import B = Broker
  import E = Engine
  import M = Management
  import U = Underwriting

  /** A row whose exit can be rebuilt, built and approved. */
  predicate Closable(row: Policy) {
    && row.contracts >= 1 && Spread(row)
    && PositiveRatios(Ratios(RebuildLegs(row.legs, row.expiry).value))
  }

  ghost predicate AllClosable(ps: seq<Policy>) {
    forall row :: row in ps ==> Closable(row)
  }

  /** The legs of an offer: one short put, one long put below it, one of each. */
  ghost predicate SpreadLegs(legs: seq<Leg>) {
    && |legs| == 2 && legs[0].side.Sell? && legs[1].side.Buy? && legs[1].strike.V() < legs[0].strike.V()
    && legs[0].ratioQty == 1 && legs[1].ratioQty == 1
  }

  lemma OffersAreSpreads(host: Host, s: Snapshot, universe: Option<set<string>>, p: Proposal)
    requires DistinctSymbols(s.quotes) && p in Price(host, s, DEFAULT_THRESHOLDS, universe).proposals
    ensures SpreadLegs(p.legs)
  {
    var hash := SnapshotHash(host, s);
    CompleteAndConserved(host, s.quotes, s.asOf, hash, DEFAULT_THRESHOLDS, universe);
    var pass := PassOf(host, s.quotes, s.asOf, hash, DEFAULT_THRESHOLDS, universe);
    var x :| x in EligiblePairs(s.quotes, s.asOf, DEFAULT_THRESHOLDS, universe)
             && PriceOne(pass, x.0, x.1) == Offered(p);
    OfferedLegs(pass, x.0, x.1);
  }

  lemma OfferedLegs(pass: Pass, short: ContractQuote, long: ContractQuote)
    requires PriceOne(pass, short, long).Offered? && long.strike.V() < short.strike.V()
    ensures SpreadLegs(PriceOne(pass, short, long).proposal.legs)
  {
    assert PriceOne(pass, short, long).proposal.legs == LegsOf(short, long);
  }

  lemma LossTimes(loss: real, n: int)
    requires loss > 0.0 && n >= 1
    ensures loss * n as real > 0.0
  {
    RealLt(0.0, n as real, loss);
  }

  lemma WrittenIsClosable(ps: seq<Policy>, p: Proposal, n: int, status: PolicyStatus, year: nat)
    requires SpreadLegs(p.legs) && p.maxLoss.V() > 0.0 && n >= 1
    ensures Closable(PolicyRow(ps, p, n, status, year))
  {
    var stored := StoreLegs(p.legs);
    assert stored[1..][0] == stored[1];
    assert FirstOn(stored, Sell) == Some(stored[0]) && FirstOn(stored, Buy) == Some(stored[1]);
    LossTimes(p.maxLoss.V(), n);
    var legs := RebuildLegs(stored, p.expiry).value;
    assert Ratios(legs) == [1, 1];
  }

  lemma RecordKeepsClosable(f: U.Firm, p: Proposal, r: U.E.ExecutionResult, n: int, year: nat)
    requires AllClosable(f.tables.policies) && SpreadLegs(p.legs) && p.maxLoss.V() > 0.0 && n >= 1
    ensures AllClosable(U.Record(f, p, r, n, year).0.tables.policies)
  {
    WrittenIsClosable(f.tables.policies, p, n, Live, year);
    WrittenIsClosable(f.tables.policies, p, n, LegRisk, year);
  }

  lemma CycleKeepsClosable(d: U.Desk, f: U.Firm, input: U.CycleInput, nav: real)
    requires AllClosable(f.tables.policies)
    requires U.Ordinary(U.Underwrite(input), nav)
    ensures AllClosable(U.UnderwritingCycle(d, f, input).0.tables.policies)
  {
    if input.reading.mode.Active? && input.snapshot.Some? {
      var universe := Some(input.universe);
      var ps := Price(d.host, input.snapshot.value, DEFAULT_THRESHOLDS, universe).proposals;
      SelectionIsSupplied(ps, input.replies);
      var choice := Selection(ps, input.replies);
      if choice.Selected? {
        OffersAreAllowed(d.host, input.snapshot.value, universe, choice.proposal);
        OffersAreSpreads(d.host, input.snapshot.value, universe, choice.proposal);
        TradeKeepsClosable(d, f, choice.proposal, choice.contracts, SuppliedIds(ps), input);
      }
    }
  }

  lemma TradeKeepsClosable(d: U.Desk, f: U.Firm, p: Proposal, requested: int, candidates: set<string>,
                           input: U.CycleInput)
    requires AllClosable(f.tables.policies) && SpreadLegs(p.legs) && p.maxLoss.V() > 0.0
    ensures var v := U.Adjudicated(d, f, p, requested, candidates, input);
      v.decision.Approve? ==> AllClosable(U.Traded(d, f, p, v, input).0.tables.policies)
  {
    var v := U.Adjudicated(d, f, p, requested, candidates, input);
    if v.decision.Approve? {
      ApprovesExactly(d.host, Table(d.host), p, requested, EntryContext(f.tables.policies, input.reading, candidates),
                      d.secret, DEFAULT_LIMITS, input.nonce);
      var (w, consumed, outcome) := U.E.Execute(d.host, d.script, d.cfg, d.secret, f.world, f.consumed, p, Some(v),
                                                input.now, None, 0);
      if outcome.Done? {
        RecordKeepsClosable(f.(world := w, consumed := consumed), p, outcome.result, v.approvedContracts, input.year);
      }
    }
  }

  // ----- what runs of the desk's own keep ----------------------------------------------

  predicate Unsettled(row: Policy) { row.status.Live? || row.status.LegRisk? }

  /** The book of a desk left to itself: within every bound, closable, and with nothing settled
      and nothing closing. */
  ghost predicate OwnBook(t: Tables, nav: real) {
    && Bounded(t, nav) && AllClosable(t.policies)
    && forall row :: row in t.policies ==> Unsettled(row)
  }

  lemma CycleKeepsStatus(d: U.Desk, f: U.Firm, input: U.CycleInput)
    requires forall row :: row in f.tables.policies ==> Unsettled(row)
    ensures forall row :: row in U.UnderwritingCycle(d, f, input).0.tables.policies ==> Unsettled(row)
  {
    var trade := U.CycleTrades(d, f, input);
    if trade.Some? {
      TradeKeepsStatus(d, f, trade.value.0, trade.value.1, input);
    }
  }

  lemma TradeKeepsStatus(d: U.Desk, f: U.Firm, p: Proposal, v: KernelVerdict, input: U.CycleInput)
    requires forall row :: row in f.tables.policies ==> Unsettled(row)
    ensures forall row :: row in U.Traded(d, f, p, v, input).0.tables.policies ==> Unsettled(row)
  {
    var (w, consumed, outcome) := E.Execute(d.host, d.script, d.cfg, d.secret, f.world, f.consumed, p, Some(v),
                                            input.now, None, 0);
    if outcome.Done? {
      RecordKeepsStatus(f.(world := w, consumed := consumed), p, outcome.result, v.approvedContracts, input.year);
    }
  }

  lemma RecordKeepsStatus(f: U.Firm, p: Proposal, r: E.ExecutionResult, n: int, year: nat)
    requires forall row :: row in f.tables.policies ==> Unsettled(row)
    ensures forall row :: row in U.Record(f, p, r, n, year).0.tables.policies ==> Unsettled(row)
  {
  }

  /** A shift on ordinary inputs. */
  ghost predicate OrdinaryShift(shift: Shift, nav: real) {
    shift.Underwrite? ==> U.Ordinary(U.Underwrite(shift.input), nav)
  }

  lemma {:induction false} WorkedKeepsBook(d: U.Desk, f: U.Firm, shifts: seq<Shift>, nav: real)
    requires OwnBook(f.tables, nav) && forall x :: x in shifts ==> OrdinaryShift(x, nav)
    ensures OwnBook(Worked(d, f, shifts).tables, nav)
  {
    if shifts != [] {
      var before, shift := shifts[..|shifts| - 1], shifts[|shifts| - 1];
      WorkedKeepsBook(d, f, before, nav);
      var f1 := Worked(d, f, before);
      if shift.Underwrite? {
        assert OrdinaryShift(shift, nav);
        U.CycleKeepsBounds(d, f1, shift.input, nav);
        CycleKeepsClosable(d, f1, shift.input, nav);
        CycleKeepsStatus(d, f1, shift.input);
      }
    }
  }

  lemma {:induction false} MoreReserves(a: seq<ReserveRow>, b: seq<ReserveRow>)
    requires a <= b && forall i :: 0 <= i < |b| ==> b[i].amount >= 0.0
    ensures Sum(a, Held()) <= Sum(b, Held())
  {
    if a == b {
    } else {
      var n := |b| - 1;
      MoreReserves(a, b[..n]);
      assert b == b[..n] + [b[n]];
      SumAppend(b[..n], b[n], Held());
    }
  }

  /** Capital goes in and never comes out. Over every run of the desk's own jobs: every reserve
      ever held is still held in full, and so what is held in all never falls, whatever was
      closed at the broker. */
  lemma HeldNeverFalls(d: U.Desk, f: U.Firm, shifts: seq<Shift>, nav: real)
    requires OwnBook(f.tables, nav) && forall x :: x in shifts ==> OrdinaryShift(x, nav)
    ensures var before, after := f.tables.reserves, Worked(d, f, shifts).tables.reserves;
      && before <= after && (forall i :: 0 <= i < |after| ==> after[i].held)
      && Sum(before, Held()) <= Sum(after, Held())
  {
    BookOnlyGrows(d, f, shifts);
    WorkedKeepsBook(d, f, shifts, nav);
    AllHeld(Worked(d, f, shifts).tables, nav);
    MoreReserves(f.tables.reserves, Worked(d, f, shifts).tables.reserves);
  }

  lemma AllHeld(t: Tables, nav: real)
    requires OwnBook(t, nav)
    ensures forall i :: 0 <= i < |t.reserves| ==> t.reserves[i].held && t.reserves[i].amount >= 0.0
  {
    forall i | 0 <= i < |t.reserves| ensures t.reserves[i].held && t.reserves[i].amount >= 0.0 {
      assert t.reserves[i] == ReserveRow(i, t.policies[i].maxLoss, !t.policies[i].status.Settled?);
      assert t.policies[i] in t.policies;
    }
  }

  lemma FoundedKeeps(clock: real, nav: real)
    requires nav >= 0.0
    ensures OwnBook(Founded(clock).tables, nav)
  {
  }

  // ----- one cycle on such a book ------------------------------------------------------

  /** The halts alone: the mode, the kill switch, the loss limits and a readable account. */
  predicate NoHalt(ps: seq<Policy>, r: Reading) {
    && Sum(ps, Realized()) >= -(r.equity * 0.03)
    && ContextOf(ps, r).account.DrawdownPct() <= 0.10
    && !r.killSwitch && !r.mode.Halt? && r.equity > 0.0
  }

  lemma NeverTooMany(ps: seq<Policy>, r: Reading, nav: real)
    requires Solvent(ps, nav)
    ensures Unhalted(ps, r) <==> NoHalt(ps, r)
  {
    ShownSums(ps, 0, r.today, "");
  }

  /** The database returns every row's amounts. */
  ghost predicate FeedReads(feed: Feed, ps: seq<Policy>) {
    forall id: nat :: id < |ps| ==> Reads(feed.columns(id), ps[id])
  }

  /** The cycle draws nonces nobody has used, each of them once. */
  ghost predicate FreshNonces(m: Sitting, f: U.Firm) {
    && (forall i: nat :: m.nonces(i) !in f.consumed)
    && (forall i: nat, j: nat :: i < j ==> m.nonces(i) != m.nonces(j))
  }

  lemma RebuiltIsBuildable(id: nat, row: Policy, c: Columns, now: int)
    requires Closable(row)
    ensures RebuildProposal(id, row, c, now).Some? && Buildable(RebuildProposal(id, row, c, now).value)
    ensures RebuildProposal(id, row, c, now).value.action.Close?
  {
  }

  lemma SittingIsInOrder(f: U.Firm, m: Sitting, nav: real)
    requires OwnBook(f.tables, nav) && FreshNonces(m, f)
    ensures InOrder(SettingOf(f.tables.policies, m), Opening(f))
  {
    var ps := f.tables.policies;
    var s := SettingOf(ps, m);
    forall key | key in s.proposals ensures Buildable(s.proposals[key]) {
      var id := ProposalsAreRebuilt(ps, m.feed, m.reading.now, key);
      assert ps[id] in ps;
      RebuiltIsBuildable(id, ps[id], m.feed.columns(id), m.reading.now);
    }
  }

  /** What becomes of a managed policy's exit up to its transmission. */
  ghost predicate PreparedExactly(d: U.Desk, ps: seq<Policy>, m: Sitting, id: nat, nonce: string)
    requires id < |ps|
  {
    var t := M.Prepared(WiringOf(d), SettingOf(ps, m), PositionOf(id, ps[id], m.feed), nonce);
    && (t.Transmit? <==> d.secret != "" && NoHalt(ps, m.reading) && m.live)
    && (t.Transmit? ==>
          && t.verdict.approvedContracts == ps[id].contracts >= 1
          && Some(t.closing) == RebuildProposal(id, ps[id], m.feed.columns(id), m.reading.now))
  }

  lemma ExitIsPrepared(d: U.Desk, ps: seq<Policy>, m: Sitting, nav: real, id: nat, nonce: string)
    requires Solvent(ps, nav) && id < |ps| && Closable(ps[id]) && ps[id].Exposed()
    requires Reads(m.feed.columns(id), ps[id])
    ensures PreparedExactly(d, ps, m, id, nonce)
  {
    var c, now := m.feed.columns(id), m.reading.now;
    ProposedExactly(ps, id, m.feed, now);
    RebuiltIsBuildable(id, ps[id], c, now);
    var closing := RebuildProposal(id, ps[id], c, now).value;
    assert closing.(action := Close) == closing;
    NeverTooMany(ps, m.reading, nav);
    ExitApprovedExactly(d.host, ps, m.reading, id, ps[id], c, now, ps[id].contracts, d.secret, nonce);
    VerdictIs(d, ps, m, id, closing, nonce);
  }

  lemma VerdictIs(d: U.Desk, ps: seq<Policy>, m: Sitting, id: nat, closing: Proposal, nonce: string)
    requires id < |ps|
    ensures M.ExitVerdict(WiringOf(d), SettingOf(ps, m), PositionOf(id, ps[id], m.feed), closing, nonce)
         == ExitVerdictOn(d.host, ps, m.reading, closing, ps[id].contracts, d.secret, nonce)
  {
  }

  /** Over every run of the desk's own jobs, for every policy it ever wrote: a management cycle
      is given the policy exactly if its entry filled in full; its exit is then rebuilt, and
      approved for every contract and sent, if and only if there is a key to sign with, no halt
      stands and the desk is live. */
  lemma EveryExitGetsThrough(d: U.Desk, clock: real, shifts: seq<Shift>, nav: real, m: Sitting, id: nat, nonce: string)
    requires nav >= 0.0 && forall x :: x in shifts ==> OrdinaryShift(x, nav)
    requires var ps := Worked(d, Founded(clock), shifts).tables.policies;
      id < |ps| && Reads(m.feed.columns(id), ps[id])
    ensures var ps := Worked(d, Founded(clock), shifts).tables.policies;
      && (Positions.Managed(PositionsFrom(ps, m.feed), id) <==> ps[id].status.Live?)
      && (ps[id].status.Live? ==> PreparedExactly(d, ps, m, id, nonce))
  {
    FoundedKeeps(clock, nav);
    WorkedKeepsBook(d, Founded(clock), shifts, nav);
    var t := Worked(d, Founded(clock), shifts).tables;
    BookedExitGetsThrough(d, t, nav, m, id, nonce);
  }

  lemma BookedExitGetsThrough(d: U.Desk, t: Tables, nav: real, m: Sitting, id: nat, nonce: string)
    requires OwnBook(t, nav) && id < |t.policies| && Reads(m.feed.columns(id), t.policies[id])
    ensures Positions.Managed(PositionsFrom(t.policies, m.feed), id) <==> t.policies[id].status.Live?
    ensures t.policies[id].status.Live? ==> PreparedExactly(d, t.policies, m, id, nonce)
  {
    assert t.policies[id] in t.policies && Closable(t.policies[id]) && Unsettled(t.policies[id]);
    ManagedExactly(t.policies, id, m.feed);
    if t.policies[id].status.Live? {
      ExitIsPrepared(d, t.policies, m, nav, id, nonce);
    }
  }
}
