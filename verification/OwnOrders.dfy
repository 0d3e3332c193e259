/** The desk's promise over runs of its own jobs: every order at the broker was approved by the
    Kernel on the context rebuilt from the book at that moment; and what that leaves an exit to
    fill. */
module OwnOrders {
  import opened Numerals
  import opened Decimals
  import opened Domain
  import opened Verdicts
  import opened KernelState
  import opened Rules
  import opened Kernel
  import opened Closes
  import opened Orders
  import opened Actuary
  import opened Agent
  import opened Book
  import opened Solvency
  import opened Claims
  import opened Exits
  import opened Positions
  import opened OwnCycles
  import opened ExitRuns
  import opened OneExit
  import opened Turns
  import B = Broker
  import E = Engine
  import M = Management
  import U = Underwriting
  import X = Execution

  // ----- one execution ------------------------------------------------------------------

  /** Two looks at one order: what it was placed as does not change. */
  predicate SamePlacing(a: B.BrokerOrder, b: B.BrokerOrder) {
    a.clientOrderId == b.clientOrderId && a.orderedQty == b.orderedQty && a.payload == b.payload
  }

  /** The order of this proposal, at this size. */
  predicate OrderFor(host: Host, o: B.BrokerOrder, p: Proposal, n: int) {
    && o.orderedQty == n && n >= 1 && o.clientOrderId == ClientOrderIdFor(ProposalHash(host, p))
    && LegsPayload(p.legs, p.action) == Ok(o.payload.legs) && TradesAs(p.legs, p.action, o.payload.legs)
  }

  /** Sound books with every earlier order as it was placed, and at most one more: this one. */
  ghost predicate AddsOnly(host: Host, w: B.World, w': B.World, p: Proposal, n: int) {
    && B.SoundWorld(w') && |w.orders| <= |w'.orders| <= |w.orders| + 1
    && (forall i :: 0 <= i < |w.orders| ==> SamePlacing(w.orders[i], w'.orders[i]))
    && (|w'.orders| > |w.orders| ==> OrderFor(host, w'.orders[|w.orders|], p, n))
  }

  lemma TransmitAdds(d: U.Desk, w: B.World, payload: Payload, p: Proposal, n: nat)
    requires B.SoundWorld(w) && n >= 1 && B.QtyOf(payload) == n
    requires payload.clientOrderId == ClientOrderIdFor(ProposalHash(d.host, p))
    requires LegsPayload(p.legs, p.action) == Ok(payload.legs) && TradesAs(p.legs, p.action, payload.legs)
    ensures AddsOnly(d.host, w, E.TransmitFrom(d.script, d.cfg, w, payload, n, 1).0, p, n)
  {
    X.TransmitTells(d.script, d.cfg, w, payload, n, 1);
    var w' := E.TransmitFrom(d.script, d.cfg, w, payload, n, 1).0;
    forall i | 0 <= i < |w.orders| ensures SamePlacing(w.orders[i], w'.orders[i]) {
      assert B.Later(w.orders[i], w'.orders[i]);
    }
    if |w'.orders| > |w.orders| {
      assert B.Sound(w'.orders[|w.orders|]);
    }
  }

  lemma ExecuteAdds(d: U.Desk, w: B.World, consumed: set<string>, p: Proposal, v: KernelVerdict, now: int,
                    debit: Option<real>, step: int)
    requires B.SoundWorld(w)
    ensures AddsOnly(d.host, w,
                     E.Execute(d.host, d.script, d.cfg, d.secret, w, consumed, p, Some(v), now, debit, step).0,
                     p, v.approvedContracts)
  {
    var hash := ProposalHash(d.host, p);
    var a := AuthorizeWith(d.host, Some(v), hash, d.secret, now, consumed).0;
    match E.Prepare(d.host, d.cfg, a, p, debit, step)
    case Stopped(_) =>
    case Ready(payload, n) =>
      U.PreparedPayload(d, a, p, debit, step);
      U.GrantedSize(d, Some(v), hash, now, consumed);
      BuiltAsAuthorised(d.host, p, a.contracts, debit, step);
      TransmitAdds(d, w, payload, p, n);
  }

  // ----- one job --------------------------------------------------------------------------

  /** The entry of an offer of this cycle, approved on the context of this book. */
  ghost predicate EntryApproved(d: U.Desk, f: U.Firm, input: U.CycleInput, o: B.BrokerOrder) {
    exists p, requested: int :: EntryApprovedAs(d, f, input, o, p, requested)
  }

  ghost predicate EntryApprovedAs(d: U.Desk, f: U.Firm, input: U.CycleInput, o: B.BrokerOrder, p: Proposal,
                                  requested: int) {
    input.snapshot.Some? &&
    var ps := Price(d.host, input.snapshot.value, DEFAULT_THRESHOLDS, Some(input.universe)).proposals;
    var v := U.Adjudicated(d, f, p, requested, SuppliedIds(ps), input);
    && p in ps && v.decision.Approve? && OrderFor(d.host, o, p, v.approvedContracts)
  }

  /** The exit of an open policy, approved on the context of this book, at all its contracts. */
  ghost predicate ExitApprovedAs(d: U.Desk, f: U.Firm, m: Sitting, o: B.BrokerOrder, id: nat, nonce: string) {
    var ps := f.tables.policies;
    id < |ps| && ps[id].Exposed() &&
    match RebuildProposal(id, ps[id], m.feed.columns(id), m.reading.now)
    case None => false
    case Some(closing) =>
      && ExitVerdictOn(d.host, ps, m.reading, closing, ps[id].contracts, d.secret, nonce).decision.Approve?
      && OrderFor(d.host, o, closing, ps[id].contracts)
  }

  ghost predicate ExitApproved(d: U.Desk, f: U.Firm, m: Sitting, o: B.BrokerOrder) {
    exists id: nat, nonce: string :: ExitApprovedAs(d, f, m, o, id, nonce)
  }

  /** The Kernel approved this order in this job, on the book as it stood when the job began. */
  ghost predicate ApprovedIn(d: U.Desk, f: U.Firm, shift: Shift, o: B.BrokerOrder) {
    match shift
    case Underwrite(input) => EntryApproved(d, f, input, o)
    case Manage(m) => ExitApproved(d, f, m, o)
  }

  lemma SamePlacingApproved(d: U.Desk, f: U.Firm, shift: Shift, a: B.BrokerOrder, b: B.BrokerOrder)
    requires SamePlacing(a, b) && ApprovedIn(d, f, shift, a)
    ensures ApprovedIn(d, f, shift, b)
  {
    match shift
    case Underwrite(input) =>
      var p, requested: int :| EntryApprovedAs(d, f, input, a, p, requested);
      assert EntryApprovedAs(d, f, input, b, p, requested);
    case Manage(m) =>
      var id: nat, nonce: string :| ExitApprovedAs(d, f, m, a, id, nonce);
      assert ExitApprovedAs(d, f, m, b, id, nonce);
  }

  /** Sound books on which every order stood before the job, as it was placed, or was approved
      in it. */
  ghost predicate Accounted(d: U.Desk, f: U.Firm, shift: Shift, w: B.World) {
    && B.SoundWorld(w) && |f.world.orders| <= |w.orders|
    && (forall i :: 0 <= i < |f.world.orders| ==> SamePlacing(f.world.orders[i], w.orders[i]))
    && (forall i :: |f.world.orders| <= i < |w.orders| ==> ApprovedIn(d, f, shift, w.orders[i]))
  }

  lemma AccountedAtFirst(d: U.Desk, f: U.Firm, shift: Shift)
    requires B.SoundWorld(f.world)
    ensures Accounted(d, f, shift, f.world)
  {
  }

  /** What holds of every order placed since, and depends only on how it was placed. */
  ghost predicate HoldsSince(v: B.World, w: B.World, good: B.BrokerOrder -> bool) {
    && |v.orders| <= |w.orders| && (forall i :: 0 <= i < |v.orders| ==> SamePlacing(v.orders[i], w.orders[i]))
    && forall i :: |v.orders| <= i < |w.orders| ==> good(w.orders[i])
  }

  lemma OneMoreHolds(host: Host, v: B.World, w: B.World, w': B.World, p: Proposal, n: int,
                     good: B.BrokerOrder -> bool)
    requires HoldsSince(v, w, good) && AddsOnly(host, w, w', p, n)
    requires forall o :: OrderFor(host, o, p, n) ==> good(o)
    requires forall a, b :: SamePlacing(a, b) && good(a) ==> good(b)
    ensures HoldsSince(v, w', good)
  {
    forall i | 0 <= i < |v.orders| ensures SamePlacing(v.orders[i], w'.orders[i]) {
      PlacedBefore(host, v, w, w', p, n, i);
    }
    forall i | |v.orders| <= i < |w'.orders| ensures good(w'.orders[i]) {
      if i < |w.orders| {
        assert SamePlacing(w.orders[i], w'.orders[i]);
      }
    }
  }

  lemma PlacedBefore(host: Host, v: B.World, w: B.World, w': B.World, p: Proposal, n: int, i: nat)
    requires i < |v.orders| <= |w.orders| && SamePlacing(v.orders[i], w.orders[i]) && AddsOnly(host, w, w', p, n)
    ensures SamePlacing(v.orders[i], w'.orders[i])
  {
  }

  lemma OneMoreAccounted(d: U.Desk, f: U.Firm, shift: Shift, w: B.World, w': B.World, p: Proposal, n: int)
    requires Accounted(d, f, shift, w) && AddsOnly(d.host, w, w', p, n)
    requires forall o: B.BrokerOrder :: OrderFor(d.host, o, p, n) ==> ApprovedIn(d, f, shift, o)
    ensures Accounted(d, f, shift, w')
  {
    var good: B.BrokerOrder -> bool := o => ApprovedIn(d, f, shift, o);
    forall a, b | SamePlacing(a, b) && good(a) ensures good(b) {
      SamePlacingApproved(d, f, shift, a, b);
    }
    OneMoreHolds(d.host, f.world, w, w', p, n, good);
  }

  // ----- an underwriting cycle ---------------------------------------------------------------

  lemma TradeAccounted(d: U.Desk, f: U.Firm, p: Proposal, requested: int, input: U.CycleInput, ps: seq<Proposal>,
                       v: KernelVerdict)
    requires B.SoundWorld(f.world) && input.snapshot.Some? && p in ps
    requires ps == Price(d.host, input.snapshot.value, DEFAULT_THRESHOLDS, Some(input.universe)).proposals
    requires v == U.Adjudicated(d, f, p, requested, SuppliedIds(ps), input) && v.decision.Approve?
    ensures Accounted(d, f, Underwrite(input), U.Traded(d, f, p, v, input).0.world)
  {
    ExecuteAdds(d, f.world, f.consumed, p, v, input.now, None, 0);
    AccountedAtFirst(d, f, Underwrite(input));
    forall o: B.BrokerOrder | OrderFor(d.host, o, p, v.approvedContracts)
      ensures ApprovedIn(d, f, Underwrite(input), o)
    {
      assert EntryApprovedAs(d, f, input, o, p, requested);
    }
    var w := E.Execute(d.host, d.script, d.cfg, d.secret, f.world, f.consumed, p, Some(v), input.now, None, 0).0;
    OneMoreAccounted(d, f, Underwrite(input), f.world, w, p, v.approvedContracts);
    TradedWorld(d, f, p, v, input);
  }

  lemma TradedWorld(d: U.Desk, f: U.Firm, p: Proposal, v: KernelVerdict, input: U.CycleInput)
    ensures U.Traded(d, f, p, v, input).0.world
         == E.Execute(d.host, d.script, d.cfg, d.secret, f.world, f.consumed, p, Some(v), input.now, None, 0).0
  {
  }

  lemma UnderwrittenAccounted(d: U.Desk, f: U.Firm, input: U.CycleInput, ps: seq<Proposal>)
    requires B.SoundWorld(f.world) && input.snapshot.Some?
    requires ps == Price(d.host, input.snapshot.value, DEFAULT_THRESHOLDS, Some(input.universe)).proposals
    ensures Accounted(d, f, Underwrite(input), U.Underwritten(d, f, ps, input).0.world)
  {
    AccountedAtFirst(d, f, Underwrite(input));
    SelectionIsSupplied(ps, input.replies);
    var choice := Selection(ps, input.replies);
    if choice.Selected? {
      var v := U.Adjudicated(d, f, choice.proposal, choice.contracts, SuppliedIds(ps), input);
      if v.decision.Approve? && input.live {
        TradeAccounted(d, f, choice.proposal, choice.contracts, input, ps, v);
      }
    }
  }

  lemma CycleAccounted(d: U.Desk, f: U.Firm, input: U.CycleInput)
    requires B.SoundWorld(f.world)
    ensures Accounted(d, f, Underwrite(input), U.UnderwritingCycle(d, f, input).0.world)
  {
    AccountedAtFirst(d, f, Underwrite(input));
    if input.reading.mode.Active? && input.snapshot.Some? {
      UnderwrittenAccounted(d, f, input,
                            Price(d.host, input.snapshot.value, DEFAULT_THRESHOLDS, Some(input.universe)).proposals);
    }
  }

  // ----- a management cycle --------------------------------------------------------------------

  lemma Undivided(n: int, failures: nat)
    requires failures == 0
    ensures Max(0, n) / TwoTo(failures) == Max(0, n)
  {
  }

  lemma CloseIsWhole(host: Host, p: Proposal, requested: int, c: KernelContext, secret: string, nonce: string)
    requires p.action.Close? && ExposureFailures(p, c, DEFAULT_LIMITS) == 0
    ensures var v := Evaluate(host, Table(host), p, requested, c, secret, DEFAULT_LIMITS, nonce);
      v.decision.Approve? ==> v.approvedContracts == requested
  {
    CloseApprovedExactly(host, p, requested, c, secret, nonce);
    Undivided(requested, ExposureFailures(p, c, DEFAULT_LIMITS));
  }

  /** A rebuilt exit that is approved is approved at all the contracts of its policy. */
  lemma ExitIsWhole(d: U.Desk, ps: seq<Policy>, r: Reading, closing: Proposal, contracts: int, nonce: string)
    requires closing.action.Close? && closing.netDelta == ZERO && closing.netVega == ZERO
    ensures var v := ExitVerdictOn(d.host, ps, r, closing, contracts, d.secret, nonce);
      v.decision.Approve? ==> v.approvedContracts == contracts
  {
    ExitsAreNotHalved(ps, r, closing);
    CloseIsWhole(d.host, closing, contracts, M.ExitContext(ContextOf(ps, r), closing), d.secret, nonce);
  }

  /** What a turn of the desk's own sends is the rebuilt exit of an open policy. */
  lemma SendsRebuilt(d: U.Desk, f: U.Firm, m: Sitting, k: nat, nonce: string) returns (id: nat)
    requires k < |PositionsFrom(f.tables.policies, m.feed)|
    requires var s := SettingOf(f.tables.policies, m);
      M.Prepared(OwnCycles.WiringOf(d), s, PositionsFrom(f.tables.policies, m.feed)[k], nonce).Transmit?
    ensures var ps := f.tables.policies;
      var t := M.Prepared(OwnCycles.WiringOf(d), SettingOf(ps, m), PositionsFrom(ps, m.feed)[k], nonce);
      && id < |ps| && ps[id].Exposed()
      && RebuildProposal(id, ps[id], m.feed.columns(id), m.reading.now) == Some(t.closing)
      && t.verdict == ExitVerdictOn(d.host, ps, m.reading, t.closing, ps[id].contracts, d.secret, nonce)
      && t.verdict.decision.Approve? && t.verdict.approvedContracts == ps[id].contracts
  {
    var ps, s := f.tables.policies, SettingOf(f.tables.policies, m);
    id := ListedIsOpen(ps, k, m.feed);
    PreparedIs(OwnCycles.WiringOf(d), s, PositionOf(id, ps[id], m.feed), nonce);
    ProposedExactly(ps, id, m.feed, m.reading.now);
    var closing := s.proposals[Digits(id)];
    assert closing.(action := Close) == closing;
    VerdictIs(d, ps, m, id, closing, nonce);
    ExitIsWhole(d, ps, m.reading, closing, ps[id].contracts, nonce);
  }

  lemma SendingAccounted(d: U.Desk, f: U.Firm, m: Sitting, g: M.Progress, p: ManagedPosition, claims: ClaimsVerdict,
                         closing: Proposal, v: KernelVerdict, id: nat, nonce: string)
    requires Accounted(d, f, Manage(m), g.world) && id < |f.tables.policies| && f.tables.policies[id].Exposed()
    requires RebuildProposal(id, f.tables.policies[id], m.feed.columns(id), m.reading.now) == Some(closing)
    requires v == ExitVerdictOn(d.host, f.tables.policies, m.reading, closing, f.tables.policies[id].contracts,
                                d.secret, nonce)
    requires v.decision.Approve? && v.approvedContracts == f.tables.policies[id].contracts
    ensures Accounted(d, f, Manage(m),
                      M.Transmitted(OwnCycles.WiringOf(d), SettingOf(f.tables.policies, m), g, p, claims, closing,
                                    v).world)
  {
    var s := SettingOf(f.tables.policies, m);
    ExecuteAdds(d, g.world, g.consumed, closing, v, M.WallClock(s, g.world), Some(M.TargetOf(claims)), 0);
    forall o: B.BrokerOrder | OrderFor(d.host, o, closing, v.approvedContracts)
      ensures ApprovedIn(d, f, Manage(m), o)
    {
      assert ExitApprovedAs(d, f, m, o, id, nonce);
    }
    var w := E.Execute(d.host, d.script, d.cfg, d.secret, g.world, g.consumed, closing, Some(v),
                       M.WallClock(s, g.world), Some(M.TargetOf(claims)), 0).0;
    OneMoreAccounted(d, f, Manage(m), g.world, w, closing, v.approvedContracts);
    TransmittedWorld(d, s, g, p, claims, closing, v);
  }

  lemma TransmittedWorld(d: U.Desk, s: M.Setting, g: M.Progress, p: ManagedPosition, claims: ClaimsVerdict,
                         closing: Proposal, v: KernelVerdict)
    ensures M.Transmitted(OwnCycles.WiringOf(d), s, g, p, claims, closing, v).world
         == E.Execute(d.host, d.script, d.cfg, d.secret, g.world, g.consumed, closing, Some(v),
                      M.WallClock(s, g.world), Some(M.TargetOf(claims)), 0).0
  {
  }

  lemma IdleTurn(d: M.Wiring, s: M.Setting, g: M.Progress, p: ManagedPosition, i: nat)
    requires !Begins(d, s, g, p, i)
    ensures M.Turn(d, s, g, p, i).world == g.world
  {
  }

  lemma TurnAccounted(d: U.Desk, f: U.Firm, m: Sitting, g: M.Progress, k: nat)
    requires Accounted(d, f, Manage(m), g.world) && k < |PositionsFrom(f.tables.policies, m.feed)|
    ensures var ps := f.tables.policies;
      Accounted(d, f, Manage(m),
                M.Turn(OwnCycles.WiringOf(d), SettingOf(ps, m), g, PositionsFrom(ps, m.feed)[k], k).world)
  {
    var d', s, p := OwnCycles.WiringOf(d), SettingOf(f.tables.policies, m), PositionsFrom(f.tables.policies, m.feed)[k];
    if Begins(d', s, g, p, k) {
      var t := M.Prepared(d', s, p, s.nonces(k));
      var id := SendsRebuilt(d, f, m, k, s.nonces(k));
      TurnTransmits(d', s, g, p, k);
      SendingAccounted(d, f, m, g, p, Judge(p, s.today, s.rules), t.closing, t.verdict, id, s.nonces(k));
    } else {
      IdleTurn(d', s, g, p, k);
    }
  }

  lemma {:induction false} TurnsAccounted(d: U.Desk, f: U.Firm, m: Sitting, k: nat)
    requires B.SoundWorld(f.world) && k <= |PositionsFrom(f.tables.policies, m.feed)|
    ensures var ps := f.tables.policies;
      Accounted(d, f, Manage(m),
                M.Cycle(OwnCycles.WiringOf(d), SettingOf(ps, m), Opening(f), PositionsFrom(ps, m.feed)[..k]).world)
  {
    if k == 0 {
      AccountedAtFirst(d, f, Manage(m));
    } else {
      var positions := PositionsFrom(f.tables.policies, m.feed);
      var d', s := OwnCycles.WiringOf(d), SettingOf(f.tables.policies, m);
      TurnsAccounted(d, f, m, k - 1);
      CycleNext(d', s, Opening(f), positions[..k - 1], positions[k - 1]);
      assert positions[..k - 1] + [positions[k - 1]] == positions[..k];
      TurnAccounted(d, f, m, M.Cycle(d', s, Opening(f), positions[..k - 1]), k - 1);
    }
  }

  lemma ManagingAccounted(d: U.Desk, f: U.Firm, m: Sitting)
    requires B.SoundWorld(f.world)
    ensures Accounted(d, f, Manage(m), OwnCycles.Managed(d, f, m).world)
  {
    var positions := PositionsFrom(f.tables.policies, m.feed);
    TurnsAccounted(d, f, m, |positions|);
    assert positions[..|positions|] == positions;
  }

  lemma WorkAccounted(d: U.Desk, f: U.Firm, shift: Shift)
    requires B.SoundWorld(f.world)
    ensures Accounted(d, f, shift, Work(d, f, shift).world)
  {
    match shift
    case Underwrite(input) => CycleAccounted(d, f, input);
    case Manage(m) => ManagingAccounted(d, f, m);
  }

  // ----- over every run ---------------------------------------------------------------------------

  /** The Kernel approved this order in one job of the run, on the book as it stood then. */
  ghost predicate ApprovedDuring(d: U.Desk, clock: real, shifts: seq<Shift>, o: B.BrokerOrder) {
    exists k :: 0 <= k < |shifts| && ApprovedAt(d, clock, shifts, o, k)
  }

  ghost predicate ApprovedAt(d: U.Desk, clock: real, shifts: seq<Shift>, o: B.BrokerOrder, k: nat)
    requires k < |shifts|
  {
    ApprovedIn(d, Worked(d, Founded(clock), shifts[..k]), shifts[k], o)
  }

  lemma ApprovedEarlier(d: U.Desk, clock: real, shifts: seq<Shift>, a: B.BrokerOrder, b: B.BrokerOrder)
    requires shifts != [] && SamePlacing(a, b) && ApprovedDuring(d, clock, shifts[..|shifts| - 1], a)
    ensures ApprovedDuring(d, clock, shifts, b)
  {
    var before := shifts[..|shifts| - 1];
    var k :| 0 <= k < |before| && ApprovedAt(d, clock, before, a, k);
    SameMoment(d, clock, shifts, a, k);
    ApprovedAlike(d, clock, shifts, a, b, k);
  }

  lemma SameMoment(d: U.Desk, clock: real, shifts: seq<Shift>, o: B.BrokerOrder, k: nat)
    requires k < |shifts| - 1
    ensures ApprovedAt(d, clock, shifts[..|shifts| - 1], o, k) == ApprovedAt(d, clock, shifts, o, k)
  {
    var before := shifts[..|shifts| - 1];
    assert before[..k] == shifts[..k] && before[k] == shifts[k];
  }

  lemma ApprovedAlike(d: U.Desk, clock: real, shifts: seq<Shift>, a: B.BrokerOrder, b: B.BrokerOrder, k: nat)
    requires k < |shifts| && SamePlacing(a, b) && ApprovedAt(d, clock, shifts, a, k)
    ensures ApprovedAt(d, clock, shifts, b, k)
  {
    SamePlacingApproved(d, Worked(d, Founded(clock), shifts[..k]), shifts[k], a, b);
  }

  /** Nothing bypasses the Kernel. Over every run of the desk's own jobs, against every broker:
      each order on the broker's books is the entry of an offer or the exit of an open policy
      that the Kernel approved, at that size, on the context rebuilt from the book at that
      moment; and no two orders share a client order id. No signature is taken on trust here,
      and nothing is assumed of the hashes. */
  lemma {:induction false} EveryOrderWasApproved(d: U.Desk, clock: real, shifts: seq<Shift>)
    ensures var w := Worked(d, Founded(clock), shifts).world;
      && B.SoundWorld(w)
      && forall i :: 0 <= i < |w.orders| ==> ApprovedDuring(d, clock, shifts, w.orders[i])
  {
    if shifts != [] {
      var n := |shifts| - 1;
      EveryOrderWasApproved(d, clock, shifts[..n]);
      var before := Worked(d, Founded(clock), shifts[..n]);
      WorkAccounted(d, before, shifts[n]);
      var w := Worked(d, Founded(clock), shifts).world;
      forall i | 0 <= i < |w.orders| ensures ApprovedDuring(d, clock, shifts, w.orders[i]) {
        if i < |before.world.orders| {
          ApprovedEarlier(d, clock, shifts, before.world.orders[i], w.orders[i]);
        } else {
          assert ApprovedAt(d, clock, shifts, w.orders[i], n);
        }
      }
    }
  }

  // ----- what an exit can fill --------------------------------------------------------------------

  /** Every management cycle of the run reads the same decimals. */
  ghost predicate SameFeed(shifts: seq<Shift>, columns: nat -> Columns) {
    forall x, id: nat :: x in shifts && x.Manage? ==> x.sitting.feed.columns(id) == columns(id)
  }

  /** On this book, no other policy's exit goes by this client order id. */
  ghost predicate NoOtherExit(host: Host, ps: seq<Policy>, columns: nat -> Columns, id: nat, order: string) {
    forall j: nat :: j < |ps| && j != id && Closable(ps[j]) ==> ExitOrderOf(host, ps, columns(j), j) != order
  }

  /** The cycle prices this proposal. */
  ghost predicate Offers(host: Host, shift: Shift, p: Proposal) {
    shift.Underwrite? && shift.input.snapshot.Some?
    && p in Price(host, shift.input.snapshot.value, DEFAULT_THRESHOLDS, Some(shift.input.universe)).proposals
  }

  /** And no offer of the run does. A client order id is the first 24 digits of a hash. */
  ghost predicate NoEntry(host: Host, shifts: seq<Shift>, order: string) {
    forall x, p :: x in shifts && Offers(host, x, p) ==> ClientOrderIdFor(ProposalHash(host, p)) != order
  }

  lemma PrefixOf(d: U.Desk, f: U.Firm, shifts: seq<Shift>, k: nat)
    requires k <= |shifts|
    ensures Grows(Worked(d, f, shifts[..k]).tables, Worked(d, f, shifts).tables)
    decreases |shifts|
  {
    if k < |shifts| {
      var n := |shifts| - 1;
      assert shifts[..n][..k] == shifts[..k];
      PrefixOf(d, f, shifts[..n], k);
      WorkGrows(d, Worked(d, f, shifts[..n]), shifts[n]);
    } else {
      assert shifts[..k] == shifts;
    }
  }

  lemma ExitGoesBy(host: Host, ps: seq<Policy>, qs: seq<Policy>, c: Columns, j: nat, now: int, closing: Proposal)
    requires ps <= qs && j < |ps| && Closable(qs[j]) && RebuildProposal(j, ps[j], c, now) == Some(closing)
    ensures ClientOrderIdFor(ProposalHash(host, closing)) == ExitOrderOf(host, qs, c, j)
  {
    assert ps[j] == qs[j];
    ExitIdIsFixed(host, j, qs[j], qs[j], c, now, 0);
  }

  /** The order is the exit of this policy, at its contracts. */
  lemma ExitOrderIsSized(d: U.Desk, f: U.Firm, m: Sitting, qs: seq<Policy>, columns: nat -> Columns, id: nat,
                         o: B.BrokerOrder)
    requires ExitApproved(d, f, m, o) && f.tables.policies <= qs && AllClosable(qs) && id < |qs|
    requires forall j: nat :: m.feed.columns(j) == columns(j)
    requires o.clientOrderId == ExitOrderOf(d.host, qs, columns(id), id)
    requires NoOtherExit(d.host, qs, columns, id, o.clientOrderId)
    ensures o.orderedQty == qs[id].contracts
  {
    var j: nat, nonce: string :| ExitApprovedAs(d, f, m, o, j, nonce);
    var ps := f.tables.policies;
    assert qs[j] in qs && ps[j] == qs[j];
    var closing := RebuildProposal(j, ps[j], m.feed.columns(j), m.reading.now).value;
    ExitGoesBy(d.host, ps, qs, columns(j), j, m.reading.now, closing);
  }

  lemma EntryIsOffered(d: U.Desk, f: U.Firm, shifts: seq<Shift>, k: nat, o: B.BrokerOrder)
    requires k < |shifts| && shifts[k].Underwrite? && EntryApproved(d, f, shifts[k].input, o)
    ensures !NoEntry(d.host, shifts, o.clientOrderId)
  {
    var p, requested: int :| EntryApprovedAs(d, f, shifts[k].input, o, p, requested);
    assert Offers(d.host, shifts[k], p) && shifts[k] in shifts;
  }

  /** However often an exit is sent again, it never fills past its policy. Over every run of the
      desk's own jobs, for every policy on the book, and unless another proposal of the run
      happens on its client order id: at most one order ever stands under the exit's id, it is
      for exactly the policy's contracts, and no more than those are filled. */
  lemma ExitNeverFillsPastItsPolicy(d: U.Desk, clock: real, shifts: seq<Shift>, nav: real, columns: nat -> Columns,
                                    id: nat)
    requires nav >= 0.0 && (forall x :: x in shifts ==> OrdinaryShift(x, nav)) && SameFeed(shifts, columns)
    requires var ps := Worked(d, Founded(clock), shifts).tables.policies;
      id < |ps| && Closable(ps[id]) &&
      var order := ExitOrderOf(d.host, ps, columns(id), id);
      NoOtherExit(d.host, ps, columns, id, order) && NoEntry(d.host, shifts, order)
    ensures var f := Worked(d, Founded(clock), shifts);
      var order := ExitOrderOf(d.host, f.tables.policies, columns(id), id);
      && (forall i :: 0 <= i < |f.world.orders| && f.world.orders[i].clientOrderId == order ==>
            && f.world.orders[i].orderedQty == f.tables.policies[id].contracts
            && f.world.orders[i].filledQty <= f.tables.policies[id].contracts as real)
      && (forall i, j :: 0 <= i < j < |f.world.orders| && f.world.orders[i].clientOrderId == order ==>
            f.world.orders[j].clientOrderId != order)
  {
    var f := Worked(d, Founded(clock), shifts);
    var order := ExitOrderOf(d.host, f.tables.policies, columns(id), id);
    EveryOrderWasApproved(d, clock, shifts);
    FoundedKeeps(clock, nav);
    WorkedKeepsBook(d, Founded(clock), shifts, nav);
    forall i | 0 <= i < |f.world.orders| && f.world.orders[i].clientOrderId == order
      ensures f.world.orders[i].orderedQty == f.tables.policies[id].contracts
    {
      OneExitIsSized(d, clock, shifts, columns, id, f.world.orders[i]);
    }
  }

  lemma OneExitIsSized(d: U.Desk, clock: real, shifts: seq<Shift>, columns: nat -> Columns, id: nat, o: B.BrokerOrder)
    requires SameFeed(shifts, columns) && ApprovedDuring(d, clock, shifts, o)
    requires var ps := Worked(d, Founded(clock), shifts).tables.policies;
      && AllClosable(ps) && id < |ps| && Closable(ps[id])
      && o.clientOrderId == ExitOrderOf(d.host, ps, columns(id), id)
      && NoOtherExit(d.host, ps, columns, id, o.clientOrderId) && NoEntry(d.host, shifts, o.clientOrderId)
    ensures o.orderedQty == Worked(d, Founded(clock), shifts).tables.policies[id].contracts
  {
    var k :| 0 <= k < |shifts| && ApprovedAt(d, clock, shifts, o, k);
    var begun := Worked(d, Founded(clock), shifts[..k]);
    PrefixOf(d, Founded(clock), shifts, k);
    match shifts[k]
    case Underwrite(input) =>
      EntryIsOffered(d, begun, shifts, k, o);
      assert false;
    case Manage(m) =>
      assert shifts[k] in shifts;
      ExitOrderIsSized(d, begun, m, Worked(d, Founded(clock), shifts).tables.policies, columns, id, o);
  }
}
