/** One exit order per policy, for good. Every exit of a policy is rebuilt with the same hash
    and so the same client order id, and the broker keeps one order per id: once an exit order
    has died unfilled, no later exit of that policy can fill. */
module OneExit {
  import opened Decimals
  import opened Domain
  import opened Verdicts
  import opened KernelState
  import opened Numerals
  import opened Rules
  import opened Orders
  import opened Broker
  import opened Engine
  import opened Execution
  import opened Escapes
  import opened Actuary
  import opened Agent
  import opened Book
  import opened Solvency
  import opened Claims
  import opened Exits
  import opened Positions
  import opened OwnCycles
  import opened ExitRuns
  import opened ExitAttempts
  import opened Management
  import U = Underwriting

  // ----- an order is placed once -------------------------------------------------------

  /** Some broker would add an order to its books. */
  ghost predicate CanPlace(cfg: Settings, w: World, payload: Payload, contracts: nat) {
    exists script: Script :: Places(script, cfg, w, payload, contracts)
  }

  ghost predicate Places(script: Script, cfg: Settings, w: World, payload: Payload, contracts: nat) {
    |TransmitFrom(script, cfg, w, payload, contracts, 1).0.orders| > |w.orders|
  }

  /** A transmission can place an order exactly when none stands under its id, dead or alive. */
  lemma PlacesOnlyOnce(cfg: Settings, w: World, payload: Payload, contracts: nat)
    requires SoundWorld(w) && cfg.maxRetries >= 1 && QtyOf(payload) >= 1
    ensures CanPlace(cfg, w, payload, contracts) <==> !HasOrder(w, payload.clientOrderId)
  {
    if HasOrder(w, payload.clientOrderId) {
      forall script: Script ensures !Places(script, cfg, w, payload, contracts) {
        TransmitTells(script, cfg, w, payload, contracts, 1);
      }
    } else {
      SilenceFaults(cfg, w, payload, contracts);
      assert Places(Silence(), cfg, w, payload, contracts);
    }
  }

  // ----- a dead exit --------------------------------------------------------------------

  /** The order under this id ended with nothing filled. */
  ghost predicate DiedUnfilled(w: World, id: string) {
    exists i :: 0 <= i < |w.orders| && w.orders[i].clientOrderId == id
      && w.orders[i].state.IsTerminal() && !w.orders[i].state.Filled? && w.orders[i].filledQty == 0.0
  }

  lemma StaysDead(w: World, w': World, payload: Payload, id: string)
    requires DiedUnfilled(w, id) && Evolves(w, w', payload)
    ensures DiedUnfilled(w', id)
  {
    var i :| 0 <= i < |w.orders| && w.orders[i].clientOrderId == id
      && w.orders[i].state.IsTerminal() && !w.orders[i].state.Filled? && w.orders[i].filledQty == 0.0;
    assert Later(w.orders[i], w'.orders[i]);
  }

  lemma DeadMatchesNothing(w: World, id: string, row: U.OrderRow)
    requires SoundWorld(w) && DiedUnfilled(w, id) && row.clientOrderId == id
    ensures !U.AtBroker(row, w)
  {
    var i :| 0 <= i < |w.orders| && w.orders[i].clientOrderId == id
      && w.orders[i].state.IsTerminal() && !w.orders[i].state.Filled? && w.orders[i].filledQty == 0.0;
    forall j | 0 <= j < |w.orders| ensures !U.Matches(row, w.orders[j]) {
      if j != i {
        assert w.orders[j].clientOrderId != w.orders[i].clientOrderId;
      }
    }
  }

  predicate Fills(outcome: Outcome) {
    outcome.Done? && (outcome.result.status.FILLED? || outcome.result.status.PARTIAL?)
  }

  /** Sound books, on which the order under this id died unfilled. */
  ghost predicate Stuck(w: World, id: string) {
    SoundWorld(w) && DiedUnfilled(w, id)
  }

  lemma ExecutionKeepsDead(d: Wiring, w: World, consumed: set<string>, p: Proposal, v: KernelVerdict, now: int,
                           target: real, id: string)
    requires Stuck(w, id)
    ensures var (w', _, outcome) :=
        Execute(d.host, d.script, d.cfg, d.secret, w, consumed, p, Some(v), now, Some(target), 0);
      && Stuck(w', id)
      && (ClientOrderIdFor(ProposalHash(d.host, p)) == id ==> |w'.orders| == |w.orders| && !Fills(outcome))
  {
    var desk := U.Desk(d.host, d.script, d.cfg, d.secret);
    var payload := U.ExecuteTells(desk, w, consumed, p, Some(v), now, Some(target), 0);
    var (w', _, outcome) := Execute(d.host, d.script, d.cfg, d.secret, w, consumed, p, Some(v), now, Some(target), 0);
    StaysDead(w, w', payload, id);
    var own := ClientOrderIdFor(ProposalHash(d.host, p));
    if own == id {
      assert HasOrder(w, id);
      if Fills(outcome) {
        U.FilledIsAtBroker(outcome, w', own);
        DeadMatchesNothing(w', id, U.OrderRow(own, outcome.result.status, outcome.result.contractsFilled));
        assert false;
      }
    }
  }

  /** The market closes: every order dies as it stands. */
  function DayEnds(): Script {
    t => Move(0.0, (o: BrokerOrder) => (OrderState.Expired, o.filledQty), Processed(false), true, true, [], 0.0)
  }

  /** All it takes is one exit order that expires at the end of its day. */
  lemma ExpiresUnfilled(cfg: Settings, payload: Payload, contracts: nat, clock: real)
    requires cfg.maxRetries >= 1 && QtyOf(payload) >= 1
    ensures var (w', outcome) := TransmitFrom(DayEnds(), cfg, World([], clock, 0), payload, contracts, 1);
      outcome.Done? && outcome.result.status == CANCELLED && Stuck(w', payload.clientOrderId)
  {
    var script := DayEnds();
    var w := World([], clock, 0);
    var (w1, r1) := Submit(script, w, payload);
    assert Sound(FreshOrder(payload, 0).(state := OrderState.Expired));
    assert r1.Acknowledged? && r1.order.state.Expired? && w1.orders == [r1.order];
    AwaitTerminated(script, cfg, w1, r1.order, w1.clock + cfg.timeoutSec, payload, contracts, 1);
    TransmitTells(script, cfg, w, payload, contracts, 1);
    var w' := TransmitFrom(script, cfg, w, payload, contracts, 1).0;
    assert w'.orders[0] == r1.order;
  }

  // ----- in one management cycle ------------------------------------------------------------

  /** Whenever the cycle has an exit for this policy, it is the one of this client order id. */
  ghost predicate Carries(host: Host, s: Setting, policy: string, id: string) {
    policy in s.proposals ==> ClientOrderIdFor(ProposalHash(host, s.proposals[policy].(action := Close))) == id
  }

  predicate FilledAttempt(a: Attempt) {
    a.handling == Management.Sent(FILLED) || a.handling == Management.Sent(PARTIAL)
  }

  ghost predicate NeverFilled(g: Progress, policy: string) {
    forall i :: 0 <= i < |g.attempts| && g.attempts[i].policyId == policy ==> !FilledAttempt(g.attempts[i])
  }

  lemma AppendNeverFilled(g: Progress, next: Progress, policy: string, a: Attempt)
    requires NeverFilled(g, policy) && next.attempts == g.attempts + [a]
    requires a.policyId == policy ==> !FilledAttempt(a)
    ensures NeverFilled(next, policy)
  {
  }

  lemma SendingKeepsStuck(d: Wiring, s: Setting, g: Progress, p: ManagedPosition, claims: ClaimsVerdict,
                          closing: Proposal, v: KernelVerdict, policy: string, id: string)
    requires Stuck(g.world, id) && NeverFilled(g, policy)
    requires p.policyId == policy ==> ClientOrderIdFor(ProposalHash(d.host, closing)) == id
    ensures var next := Transmitted(d, s, g, p, claims, closing, v);
      Stuck(next.world, id) && NeverFilled(next, policy)
  {
    ExecutionKeepsDead(d, g.world, g.consumed, closing, v, WallClock(s, g.world), TargetOf(claims), id);
    var (_, _, outcome) :=
      Execute(d.host, d.script, d.cfg, d.secret, g.world, g.consumed, closing, Some(v), WallClock(s, g.world),
              Some(TargetOf(claims)), 0);
    var next := Transmitted(d, s, g, p, claims, closing, v);
    if outcome.Done? {
      AppendNeverFilled(g, next, policy, Attempt(p.policyId, claims, Management.Sent(outcome.result.status)));
    }
  }

  lemma TurnKeepsStuck(d: Wiring, s: Setting, g: Progress, p: ManagedPosition, i: nat, policy: string, id: string)
    requires Stuck(g.world, id) && NeverFilled(g, policy) && Carries(d.host, s, policy, id)
    ensures var next := Turn(d, s, g, p, i);
      Stuck(next.world, id) && NeverFilled(next, policy)
  {
    var claims := Judge(p, s.today, s.rules);
    if g.raised.None? {
      var next := Turn(d, s, g, p, i);
      if !claims.ShouldClose() {
        AppendNeverFilled(g, next, policy, Attempt(p.policyId, claims, Held));
      } else {
        match Management.Prepared(d, s, p, s.nonces(i))
        case Handled(handling) => AppendNeverFilled(g, next, policy, Attempt(p.policyId, claims, handling));
        case Transmit(closing, v) => SendingKeepsStuck(d, s, g, p, claims, closing, v, policy, id);
      }
    }
  }

  lemma {:induction false} CycleKeepsStuck(d: Wiring, s: Setting, g: Progress, positions: seq<ManagedPosition>,
                                           policy: string, id: string)
    requires Stuck(g.world, id) && NeverFilled(g, policy) && Carries(d.host, s, policy, id)
    ensures var end := Cycle(d, s, g, positions);
      Stuck(end.world, id) && NeverFilled(end, policy)
  {
    if positions != [] {
      var k := |positions| - 1;
      CycleKeepsStuck(d, s, g, positions[..k], policy, id);
      TurnKeepsStuck(d, s, Cycle(d, s, g, positions[..k]), positions[k], k, policy, id);
    }
  }

  // ----- over runs of the desk's own ---------------------------------------------------------

  /** With the same decimals for a policy, every cycle after any run has the one exit for it. */
  lemma BookCarries(d: U.Desk, f: U.Firm, shifts: seq<Shift>, c: Columns, m: Sitting, id: nat)
    requires id < |f.tables.policies| && Closable(f.tables.policies[id]) && m.feed.columns(id) == c
    ensures Carries(d.host, SettingOf(Worked(d, f, shifts).tables.policies, m), Digits(id),
                    ExitOrderOf(d.host, f.tables.policies, c, id))
  {
    RowStays(d, f, shifts, id);
    var ps, row := Worked(d, f, shifts).tables.policies, f.tables.policies[id];
    ProposedExactly(ps, id, m.feed, m.reading.now);
    RebuiltIsBuildable(id, row, c, m.reading.now);
    var closing := RebuildProposal(id, row, c, m.reading.now).value;
    assert closing.(action := Close) == closing;
    ExitIdIsFixed(d.host, id, row, row, c, 0, m.reading.now);
  }

  /** The client order id of every exit of a policy. */
  ghost function ExitOrderOf(host: Host, ps: seq<Policy>, c: Columns, id: nat): string
    requires id < |ps| && Closable(ps[id])
  {
    ClientOrderIdFor(ProposalHash(host, RebuildProposal(id, ps[id], c, 0).value))
  }

  lemma EntryKeepsDead(d: U.Desk, f: U.Firm, p: Proposal, v: KernelVerdict, input: U.CycleInput, id: string)
    requires Stuck(f.world, id)
    ensures Stuck(U.Traded(d, f, p, v, input).0.world, id)
  {
    var payload := U.ExecuteTells(d, f.world, f.consumed, p, Some(v), input.now, None, 0);
    var (w, consumed, outcome) := Execute(d.host, d.script, d.cfg, d.secret, f.world, f.consumed, p, Some(v), input.now,
                                          None, 0);
    StaysDead(f.world, w, payload, id);
    if outcome.Done? {
      RecordKeepsWorld(f.(world := w, consumed := consumed), p, outcome.result, v.approvedContracts, input.year);
    }
  }

  lemma RecordKeepsWorld(f: U.Firm, p: Proposal, r: ExecutionResult, contracts: int, year: nat)
    ensures U.Record(f, p, r, contracts, year).0.world == f.world
  {
  }

  lemma UnderwritingKeepsStuck(d: U.Desk, f: U.Firm, input: U.CycleInput, id: string)
    requires Stuck(f.world, id)
    ensures Stuck(U.UnderwritingCycle(d, f, input).0.world, id)
  {
    var trade := U.CycleTrades(d, f, input);
    if trade.Some? {
      EntryKeepsDead(d, f, trade.value.0, trade.value.1, input, id);
    }
  }

  /** Every management cycle of the run reads the same decimals for this policy. */
  ghost predicate SameColumns(shifts: seq<Shift>, id: nat, c: Columns) {
    forall x :: x in shifts && x.Manage? ==> x.sitting.feed.columns(id) == c
  }

  lemma ManagingKeepsStuck(d: U.Desk, f: U.Firm, shifts: seq<Shift>, m: Sitting, id: nat, c: Columns)
    requires id < |f.tables.policies| && Closable(f.tables.policies[id]) && m.feed.columns(id) == c
    requires Stuck(Worked(d, f, shifts).world, ExitOrderOf(d.host, f.tables.policies, c, id))
    ensures var end := OwnCycles.Managed(d, Worked(d, f, shifts), m);
      && Stuck(end.world, ExitOrderOf(d.host, f.tables.policies, c, id)) && NeverFilled(end, Digits(id))
  {
    var f1 := Worked(d, f, shifts);
    BookCarries(d, f, shifts, c, m, id);
    CycleKeepsStuck(OwnCycles.WiringOf(d), SettingOf(f1.tables.policies, m), Opening(f1),
                    PositionsFrom(f1.tables.policies, m.feed),
                    Digits(id), ExitOrderOf(d.host, f.tables.policies, c, id));
  }

  lemma {:induction false} WorkedKeepsStuck(d: U.Desk, f: U.Firm, shifts: seq<Shift>, id: nat, c: Columns)
    requires id < |f.tables.policies| && Closable(f.tables.policies[id]) && SameColumns(shifts, id, c)
    requires Stuck(f.world, ExitOrderOf(d.host, f.tables.policies, c, id))
    ensures Stuck(Worked(d, f, shifts).world, ExitOrderOf(d.host, f.tables.policies, c, id))
  {
    if shifts != [] {
      var before, shift := shifts[..|shifts| - 1], shifts[|shifts| - 1];
      WorkedKeepsStuck(d, f, before, id, c);
      if shift.Underwrite? {
        UnderwritingKeepsStuck(d, Worked(d, f, before), shift.input, ExitOrderOf(d.host, f.tables.policies, c, id));
      } else {
        ManagingKeepsStuck(d, f, before, shift.sitting, id, c);
      }
    }
  }

  /** Once an exit order of a policy has died unfilled, no management cycle of any later run of
      the desk's own jobs fills that policy's exit, against any broker: not the next target, not
      the stop, not the force flat. */
  lemma ExitIsStuckForGood(d: U.Desk, f: U.Firm, shifts: seq<Shift>, m: Sitting, id: nat, c: Columns)
    requires id < |f.tables.policies| && Closable(f.tables.policies[id])
    requires SameColumns(shifts, id, c) && m.feed.columns(id) == c
    requires Stuck(f.world, ExitOrderOf(d.host, f.tables.policies, c, id))
    ensures NeverFilled(OwnCycles.Managed(d, Worked(d, f, shifts), m), Digits(id))
  {
    WorkedKeepsStuck(d, f, shifts, id, c);
    ManagingKeepsStuck(d, f, shifts, m, id, c);
  }

  /** And nothing ever tells the book that an exit has filled. Whatever has become of a policy's
      exit at the broker, after any further run its row is as it was, its reserve is held, every
      management cycle is given it again, and prepares the same exit under the same client order
      id, as long as no halt stands. */
  lemma ExitIsSentAgain(d: U.Desk, f: U.Firm, shifts: seq<Shift>, nav: real, m: Sitting, id: nat, c: Columns,
                        nonce: string)
    requires OwnBook(f.tables, nav) && forall x :: x in shifts ==> OrdinaryShift(x, nav)
    requires id < |f.tables.policies| && f.tables.policies[id].status.Live? && Closable(f.tables.policies[id])
    requires m.feed.columns(id) == c && Reads(c, f.tables.policies[id])
    ensures var later := Worked(d, f, shifts).tables;
      && id < |later.policies| && later.policies[id] == f.tables.policies[id]
      && id < |later.reserves| && later.reserves[id] == ReserveRow(id, f.tables.policies[id].maxLoss, true)
      && Positions.Managed(PositionsFrom(later.policies, m.feed), id)
      && PreparedExactly(d, later.policies, m, id, nonce)
      && Carries(d.host, SettingOf(later.policies, m), Digits(id), ExitOrderOf(d.host, f.tables.policies, c, id))
  {
    RowStays(d, f, shifts, id);
    WorkedKeepsBook(d, f, shifts, nav);
    var later := Worked(d, f, shifts).tables;
    BookedExitGetsThrough(d, later, nav, m, id, nonce);
    BookCarries(d, f, shifts, c, m, id);
  }
}
