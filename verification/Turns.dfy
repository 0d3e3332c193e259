/** The turns of a management cycle: exactly when every position gets one, and the inputs on
    which one does not. */
module Turns {
  import opened Numerals
  import opened Decimals
  import opened Domain
  import opened Verdicts
  import opened KernelState
  import opened Rules
  import opened Kernel
  import opened Orders
  import opened Broker
  import opened Engine
  import opened Claims
  import opened Management
  import opened Escapes

  // ----- one turn ---------------------------------------------------------------------

  /** The order of any size for this exit can be built. */
  predicate Buildable(closing: Proposal) {
    PositiveRatios(Ratios(closing.legs)) && |closing.legs| >= 2
  }

  /** Every verdict of a cycle is minted at its context's moment, and lives so long. */
  function Expiry(s: Setting): int {
    s.context.now + s.limits.verdictTtlSec
  }

  /** What an execution comes to after that. */
  const LATE := Unauthorized(Refusal.Expired)

  /** The turn is reached, and comes to the execution of an approved exit. */
  predicate Begins(d: Wiring, s: Setting, g: Progress, p: ManagedPosition, i: nat) {
    && g.raised.None? && Judge(p, s.today, s.rules).ShouldClose()
    && Management.Prepared(d, s, p, s.nonces(i)).Transmit?
  }

  predicate InTime(d: Wiring, s: Setting, g: Progress, p: ManagedPosition, i: nat) {
    Begins(d, s, g, p, i) ==> WallClock(s, g.world) <= Expiry(s)
  }

  /** The requests of an authorised exit that must be answered. */
  function SendAsks(d: Wiring, w: World, closing: Proposal, n: nat, target: real): seq<Ask> {
    match Engine.Prepare(d.host, d.cfg, Granted(n), closing, Some(target), 0)
    case Stopped(_) => []
    case Ready(payload, _) => AsksOf(d.script, d.cfg, w, payload, 1)
  }

  /** The requests of this turn that must be answered. */
  function TurnAsks(d: Wiring, s: Setting, g: Progress, p: ManagedPosition, i: nat): seq<Ask> {
    if !Begins(d, s, g, p, i) || WallClock(s, g.world) > Expiry(s) then []
    else
      match Management.Prepared(d, s, p, s.nonces(i))
      case Handled(_) => []
      case Transmit(closing, v) =>
        SendAsks(d, g.world, closing, if v.approvedContracts >= 1 then v.approvedContracts else 0,
                 TargetOf(Judge(p, s.today, s.rules)))
  }

  /** An approved exit starts while its verdict lives, and what it must be told it is told. */
  predicate Clear(d: Wiring, s: Setting, g: Progress, p: ManagedPosition, i: nat) {
    InTime(d, s, g, p, i) && AllAnswered(d.script, TurnAsks(d, s, g, p, i))
  }

  lemma ExitBuilds(host: Host, closing: Proposal, n: int, target: real)
    requires closing.action.Close? && Buildable(closing) && n >= 1
    ensures BuildOrder(host, closing, n, Some(target), 0).Ok?
  {
  }

  /** The gate opens to an approval of the cycle's own until it expires, and not after. */
  lemma ApprovalAtTheGate(d: Wiring, s: Setting, p: ManagedPosition, closing: Proposal, nonce: string,
                          consumed: set<string>, now: int)
    requires ExitVerdict(d, s, p, closing, nonce).decision.Approve? && nonce !in consumed
    ensures var v := ExitVerdict(d, s, p, closing, nonce);
      && v.approvedContracts >= 1
      && AuthorizeWith(d.host, Some(v), ProposalHash(d.host, closing), d.secret, now, consumed)
         == if now <= Expiry(s) then (Granted(v.approvedContracts), consumed + {nonce})
            else (Authorization.Refused(Refusal.Expired), consumed)
  {
    ApprovesExactly(d.host, Table(d.host), closing, p.contracts, ExitContext(s.context, closing), d.secret, s.limits,
                    nonce);
  }

  /** An authorised order of an exit that builds. */
  function Send(d: Wiring, w: World, closing: Proposal, n: nat, target: real): (World, Outcome) {
    match Engine.Prepare(d.host, d.cfg, Granted(n), closing, Some(target), 0)
    case Stopped(outcome) => (w, outcome)
    case Ready(payload, k) => TransmitFrom(d.script, d.cfg, w, payload, k, 1)
  }

  lemma SendFaults(d: Wiring, w: World, closing: Proposal, n: nat, target: real)
    requires closing.action.Close? && Buildable(closing) && n >= 1
    ensures FaultsExactly(d.script, SendAsks(d, w, closing, n, target), Send(d, w, closing, n, target).1)
  {
    ExitBuilds(d.host, closing, n, target);
    var prepared := Engine.Prepare(d.host, d.cfg, Granted(n), closing, Some(target), 0);
    match prepared
    case Ready(payload, k) => TransmitFaultsExactly(d.script, d.cfg, w, payload, k, 1);
    case Stopped(outcome) => NothingAsked(d.script, outcome);
  }

  lemma ExecuteSends(d: Wiring, w: World, consumed: set<string>, closing: Proposal, v: KernelVerdict, now: int,
                     target: real, n: nat, after: set<string>)
    requires AuthorizeWith(d.host, Some(v), ProposalHash(d.host, closing), d.secret, now, consumed)
          == (Granted(n), after)
    ensures var (w', outcome) := Send(d, w, closing, n, target);
      Execute(d.host, d.script, d.cfg, d.secret, w, consumed, closing, Some(v), now, Some(target), 0)
      == (w', after, outcome)
  {
  }

  lemma ExecuteRefuses(d: Wiring, w: World, consumed: set<string>, closing: Proposal, v: KernelVerdict, now: int,
                       target: real, why: Refusal)
    requires AuthorizeWith(d.host, Some(v), ProposalHash(d.host, closing), d.secret, now, consumed)
          == (Authorization.Refused(why), consumed)
    ensures Execute(d.host, d.script, d.cfg, d.secret, w, consumed, closing, Some(v), now, Some(target), 0)
         == (w, consumed, Unauthorized(why))
  {
  }

  /** What the turn keeps of an execution. */
  lemma TransmittedIs(d: Wiring, s: Setting, g: Progress, p: ManagedPosition, claims: ClaimsVerdict, closing: Proposal,
                      v: KernelVerdict, end: (World, Outcome), after: set<string>)
    requires Execute(d.host, d.script, d.cfg, d.secret, g.world, g.consumed, closing, Some(v), WallClock(s, g.world),
                     Some(TargetOf(claims)), 0) == (end.0, after, end.1)
    ensures var next := Transmitted(d, s, g, p, claims, closing, v);
      && next.world == end.0 && next.consumed == after
      && next.raised == (if end.1.Done? then g.raised else Some(end.1))
      && next.attempts == (if end.1.Done? then g.attempts + [Attempt(p.policyId, claims, Sent(end.1.result.status))]
                           else g.attempts)
  {
  }

  /** How a turn ends: with an error exactly when it was not clear, and then which one. */
  ghost predicate EndsClear(g: Progress, next: Progress, nonce: string, inTime: bool, answered: bool) {
    && next.consumed <= g.consumed + {nonce}
    && (next.raised.None? <==> inTime && answered)
    && (next.raised.Some? ==>
          next.raised == Some(if inTime then Faulted else LATE))
    && (!inTime ==> next.world == g.world)
  }

  lemma SentEndsClear(d: Wiring, s: Setting, g: Progress, p: ManagedPosition, claims: ClaimsVerdict, closing: Proposal,
                      nonce: string)
    requires g.raised.None? && closing.action.Close? && Buildable(closing) && nonce !in g.consumed
    requires WallClock(s, g.world) <= Expiry(s) && ExitVerdict(d, s, p, closing, nonce).decision.Approve?
    ensures var v := ExitVerdict(d, s, p, closing, nonce);
      && v.approvedContracts >= 1
      && EndsClear(g, Transmitted(d, s, g, p, claims, closing, v), nonce, true,
                   AllAnswered(d.script, SendAsks(d, g.world, closing, v.approvedContracts, TargetOf(claims))))
  {
    ApprovalAtTheGate(d, s, p, closing, nonce, g.consumed, WallClock(s, g.world));
    var v := ExitVerdict(d, s, p, closing, nonce);
    var n: nat := v.approvedContracts;
    SendFaults(d, g.world, closing, n, TargetOf(claims));
    ExecuteSends(d, g.world, g.consumed, closing, v, WallClock(s, g.world), TargetOf(claims), n, g.consumed + {nonce});
    TransmittedIs(d, s, g, p, claims, closing, v, Send(d, g.world, closing, n, TargetOf(claims)), g.consumed + {nonce});
  }

  lemma LateEndsClear(d: Wiring, s: Setting, g: Progress, p: ManagedPosition, claims: ClaimsVerdict, closing: Proposal,
                      nonce: string)
    requires g.raised.None? && nonce !in g.consumed && WallClock(s, g.world) > Expiry(s)
    requires ExitVerdict(d, s, p, closing, nonce).decision.Approve?
    ensures var next := Transmitted(d, s, g, p, claims, closing, ExitVerdict(d, s, p, closing, nonce));
      next == g.(raised := Some(LATE), escalated := next.escalated)
  {
    ApprovalAtTheGate(d, s, p, closing, nonce, g.consumed, WallClock(s, g.world));
    var v := ExitVerdict(d, s, p, closing, nonce);
    ExecuteRefuses(d, g.world, g.consumed, closing, v, WallClock(s, g.world), TargetOf(claims), Refusal.Expired);
    TransmittedIs(d, s, g, p, claims, closing, v, (g.world, LATE), g.consumed);
  }

  /** A turn that comes to no execution raises nothing. */
  lemma QuietTurn(d: Wiring, s: Setting, g: Progress, p: ManagedPosition, i: nat)
    requires g.raised.None? && !Begins(d, s, g, p, i)
    ensures var next := Turn(d, s, g, p, i);
      next.raised.None? && next.world == g.world && next.consumed == g.consumed
  {
  }

  lemma PreparedIs(d: Wiring, s: Setting, p: ManagedPosition, nonce: string)
    requires Management.Prepared(d, s, p, nonce).Transmit?
    ensures var t := Management.Prepared(d, s, p, nonce);
      && s.live && p.policyId in s.proposals && t.closing == s.proposals[p.policyId].(action := Close)
      && t.verdict == ExitVerdict(d, s, p, t.closing, nonce) && t.verdict.decision.Approve?
  {
  }

  lemma TurnTransmits(d: Wiring, s: Setting, g: Progress, p: ManagedPosition, i: nat)
    requires Begins(d, s, g, p, i)
    ensures var t := Management.Prepared(d, s, p, s.nonces(i));
      Turn(d, s, g, p, i) == Transmitted(d, s, g, p, Judge(p, s.today, s.rules), t.closing, t.verdict)
  {
  }

  /** A turn with a fresh nonce and a buildable exit raises exactly when it is not clear. */
  lemma TurnRaisesExactly(d: Wiring, s: Setting, g: Progress, p: ManagedPosition, i: nat)
    requires g.raised.None? && s.nonces(i) !in g.consumed
    requires forall id :: id in s.proposals ==> Buildable(s.proposals[id])
    ensures EndsClear(g, Turn(d, s, g, p, i), s.nonces(i), InTime(d, s, g, p, i),
                      AllAnswered(d.script, TurnAsks(d, s, g, p, i)))
  {
    if !Begins(d, s, g, p, i) {
      QuietTurn(d, s, g, p, i);
    } else {
      var claims := Judge(p, s.today, s.rules);
      var t := Management.Prepared(d, s, p, s.nonces(i));
      PreparedIs(d, s, p, s.nonces(i));
      TurnTransmits(d, s, g, p, i);
      assert Buildable(s.proposals[p.policyId]) && t.closing.legs == s.proposals[p.policyId].legs;
      if WallClock(s, g.world) <= Expiry(s) {
        SentEndsClear(d, s, g, p, claims, t.closing, s.nonces(i));
      } else {
        LateEndsClear(d, s, g, p, claims, t.closing, s.nonces(i));
      }
    }
  }

  // ----- a whole cycle ------------------------------------------------------------------

  /** A cycle as the desk sets it up: fresh nonces, and exits whose orders can be built. */
  ghost predicate InOrder(s: Setting, g: Progress) {
    && (forall i: nat :: s.nonces(i) !in g.consumed)
    && (forall i: nat, j: nat :: i < j ==> s.nonces(i) != s.nonces(j))
    && (forall id :: id in s.proposals ==> Buildable(s.proposals[id]))
  }

  /** Every turn is clear, as far as the cycle comes. */
  predicate Undisturbed(d: Wiring, s: Setting, g: Progress, positions: seq<ManagedPosition>) {
    positions == [] ||
    (var k := |positions| - 1;
     && Undisturbed(d, s, g, positions[..k])
     && Clear(d, s, Cycle(d, s, g, positions[..k]), positions[k], k))
  }

  /** Only the nonces of the turns so far have been used. */
  ghost predicate UsedUpTo(s: Setting, g: Progress, now: Progress, turns: nat) {
    forall x :: x in now.consumed ==> x in g.consumed || exists i: nat :: i < turns && x == s.nonces(i)
  }

  /** How far it is with a cycle after so many turns. */
  ghost predicate Underway(d: Wiring, s: Setting, g: Progress, now: Progress, undisturbed: bool, turns: nat) {
    && UsedUpTo(s, g, now, turns)
    && (now.raised.None? <==> undisturbed)
    && (now.raised.Some? ==> now.raised == Some(Faulted) || now.raised == Some(LATE))
  }

  lemma StillFresh(s: Setting, g: Progress, now: Progress, turns: nat)
    requires InOrder(s, g) && UsedUpTo(s, g, now, turns)
    ensures s.nonces(turns) !in now.consumed
  {
    assert forall i: nat :: i < turns ==> s.nonces(i) != s.nonces(turns);
  }

  lemma UsedNext(s: Setting, g: Progress, now: Progress, next: Progress, turns: nat)
    requires UsedUpTo(s, g, now, turns) && next.consumed <= now.consumed + {s.nonces(turns)}
    ensures UsedUpTo(s, g, next, turns + 1)
  {
    forall x | x in next.consumed ensures x in g.consumed || exists i: nat :: i < turns + 1 && x == s.nonces(i) {
      if x in now.consumed && x !in g.consumed {
        var i: nat :| i < turns && x == s.nonces(i);
        assert i < turns + 1;
      }
    }
  }

  lemma {:induction false} CycleUnderway(d: Wiring, s: Setting, g: Progress, positions: seq<ManagedPosition>)
    requires InOrder(s, g) && g.raised.None?
    ensures Underway(d, s, g, Cycle(d, s, g, positions), Undisturbed(d, s, g, positions), |positions|)
  {
    if positions != [] {
      var k := |positions| - 1;
      CycleUnderway(d, s, g, positions[..k]);
      var before := Cycle(d, s, g, positions[..k]);
      var next := Turn(d, s, before, positions[k], k);
      if before.raised.None? {
        StillFresh(s, g, before, k);
        TurnRaisesExactly(d, s, before, positions[k], k);
      }
      UsedNext(s, g, before, next, k);
    }
  }

  /** A cycle in order attempts every position, whatever the Kernel decides and the broker
      refuses, loses or fills, if and only if every approved exit it comes to starts while its
      verdict lives and no poll, no cancel and no confirmation goes unanswered. Any other end is
      one of those two errors. */
  lemma AttemptsEveryPositionExactly(d: Wiring, s: Setting, g: Progress, positions: seq<ManagedPosition>)
    requires InOrder(s, g) && g.raised.None? && g.attempts == []
    ensures var end := Cycle(d, s, g, positions);
      && (|end.attempts| == |positions| <==> Undisturbed(d, s, g, positions))
      && (end.raised.None? <==> Undisturbed(d, s, g, positions))
      && (end.raised.Some? ==> end.raised == Some(Faulted) || end.raised == Some(LATE))
  {
    CycleUnderway(d, s, g, positions);
    CyclesAreFaithful(d, s, g, positions);
  }

  lemma {:induction false} AttemptsGrow(d: Wiring, s: Setting, g: Progress, positions: seq<ManagedPosition>, i: nat)
    requires i <= |positions|
    ensures var before, end := Cycle(d, s, g, positions[..i]), Cycle(d, s, g, positions);
      && |before.attempts| <= |end.attempts| && end.attempts[..|before.attempts|] == before.attempts
      && (before.raised.Some? ==> end == before)
  {
    if i == |positions| {
      assert positions[..i] == positions;
    } else {
      var k := |positions| - 1;
      assert positions[..k][..i] == positions[..i];
      AttemptsGrow(d, s, g, positions[..k], i);
      OneTurnGrows(d, s, Cycle(d, s, g, positions[..k]), positions[k], k);
    }
  }

  lemma OneTurnGrows(d: Wiring, s: Setting, g: Progress, p: ManagedPosition, i: nat)
    ensures var next := Turn(d, s, g, p, i);
      && |g.attempts| <= |next.attempts| && next.attempts[..|g.attempts|] == g.attempts
      && (g.raised.Some? ==> next == g)
  {
    if g.raised.None? {
      NextTurn(d, s, g, p, i);
    }
  }

  /** One position is attempted exactly when everything up to and including its own turn was
      undisturbed. */
  lemma AttemptedExactly(d: Wiring, s: Setting, g: Progress, positions: seq<ManagedPosition>, i: nat)
    requires InOrder(s, g) && g.raised.None? && g.attempts == [] && i < |positions|
    ensures i < |Cycle(d, s, g, positions).attempts| <==> Undisturbed(d, s, g, positions[..i + 1])
  {
    AttemptsEveryPositionExactly(d, s, g, positions[..i + 1]);
    CyclesAreFaithful(d, s, g, positions[..i + 1]);
    AttemptsGrow(d, s, g, positions, i + 1);
  }

  // ----- into silence ---------------------------------------------------------------------

  /** There is no pre-flight, or it stops nothing. */
  ghost predicate Admits(cfg: Settings) {
    cfg.preflight.Some? ==> forall payload: Payload :: !cfg.preflight.value(payload)
  }

  lemma SendsPayload(d: Wiring, w: World, closing: Proposal, n: nat, target: real) returns (payload: Payload)
    requires Admits(d.cfg) && closing.action.Close? && Buildable(closing) && n >= 1
    ensures QtyOf(payload) == n && payload.clientOrderId == ClientOrderIdFor(ProposalHash(d.host, closing))
    ensures Send(d, w, closing, n, target) == TransmitFrom(d.script, d.cfg, w, payload, n, 1)
  {
    ExitBuilds(d.host, closing, n, target);
    BuiltAsAuthorised(d.host, closing, n, Some(target), 0);
    payload := BuildOrder(d.host, closing, n, Some(target), 0).value;
  }

  /** The id every order of this position's exit is sent under. */
  function ExitOrderId(d: Wiring, s: Setting, p: ManagedPosition): string
    requires p.policyId in s.proposals
  {
    ClientOrderIdFor(ProposalHash(d.host, s.proposals[p.policyId].(action := Close)))
  }

  /** The first exit of this cycle is approved, starts in time, and nobody has placed it. */
  ghost predicate Leads(d: Wiring, s: Setting, g: Progress, p: ManagedPosition) {
    && g.raised.None? && g.attempts == [] && Begins(d, s, g, p, 0) && WallClock(s, g.world) <= Expiry(s)
    && p.policyId in s.proposals && !HasOrder(g.world, ExitOrderId(d, s, p))
  }

  /** A broker, a cycle in order, and its first exit, with nothing in the way. */
  ghost predicate Sets(d: Wiring, script: Script, s: Setting, g: Progress, first: ManagedPosition) {
    && d.script == script && d.cfg.maxRetries >= 1 && Admits(d.cfg)
    && InOrder(s, g) && Leads(d, s, g, first)
  }

  function SentAttempt(s: Setting, p: ManagedPosition, status: Status): Attempt {
    Attempt(p.policyId, Judge(p, s.today, s.rules), Sent(status))
  }

  /** The first turn transmits one payload, and ends as that transmission does. */
  lemma FirstTurnSends(d: Wiring, s: Setting, g: Progress, p: ManagedPosition) returns (payload: Payload, n: nat)
    requires Admits(d.cfg) && InOrder(s, g) && Leads(d, s, g, p)
    ensures QtyOf(payload) >= 1 && payload.clientOrderId == ExitOrderId(d, s, p)
    ensures var (w', outcome) := TransmitFrom(d.script, d.cfg, g.world, payload, n, 1);
      var end := Turn(d, s, g, p, 0);
      && end.world == w' && end.raised == (if outcome.Done? then None else Some(outcome))
      && end.attempts == (if outcome.Done? then [SentAttempt(s, p, outcome.result.status)] else [])
      && end.consumed == g.consumed + {s.nonces(0)}
  {
    var claims := Judge(p, s.today, s.rules);
    var t := Management.Prepared(d, s, p, s.nonces(0));
    PreparedIs(d, s, p, s.nonces(0));
    TurnTransmits(d, s, g, p, 0);
    assert Buildable(s.proposals[p.policyId]) && t.closing.legs == s.proposals[p.policyId].legs;
    ApprovalAtTheGate(d, s, p, t.closing, s.nonces(0), g.consumed, WallClock(s, g.world));
    n := t.verdict.approvedContracts;
    payload := SendsPayload(d, g.world, t.closing, n, TargetOf(claims));
    ExecuteSends(d, g.world, g.consumed, t.closing, t.verdict, WallClock(s, g.world), TargetOf(claims), n,
                 g.consumed + {s.nonces(0)});
    TransmittedIs(d, s, g, p, claims, t.closing, t.verdict, Send(d, g.world, t.closing, n, TargetOf(claims)),
                  g.consumed + {s.nonces(0)});
  }

  lemma OneTurn(d: Wiring, s: Setting, g: Progress, p: ManagedPosition)
    ensures Cycle(d, s, g, [p]) == Turn(d, s, g, p, 0)
  {
    assert [p][..0] == [];
  }

  /** The input: a broker that acknowledges the first exit and answers nothing else. The cycle
      ends there. The order stands, the exit is not even on the report, and no later position
      gets a turn: not one that expires today. */
  lemma SilenceStrandsTheRest(d: Wiring, s: Setting, g: Progress, first: ManagedPosition, rest: seq<ManagedPosition>)
    requires Sets(d, Silence(), s, g, first)
    ensures var end := Cycle(d, s, g, [first] + rest);
      && end.raised == Some(Faulted) && end.attempts == [] && HasOrder(end.world, ExitOrderId(d, s, first))
  {
    var payload, n := FirstTurnSends(d, s, g, first);
    SilenceFaults(d.cfg, g.world, payload, n);
    OneTurn(d, s, g, first);
    ErrorStrandsTheRest(d, s, g, [first], rest);
  }

  // ----- slow, and answered -----------------------------------------------------------------

  /** A broker that answers everything and fills every order in full, and takes so long over
      its first answer after this tick. */
  function SlowAnswer(tick: nat, seconds: real): Script {
    t => Move(if t == tick then seconds else 0.0,
              (o: BrokerOrder) => (OrderState.Filled, o.orderedQty as real), Processed(false), true, true, [], 0.0)
  }

  lemma SlowFill(cfg: Settings, w: World, payload: Payload, contracts: nat, seconds: real)
    requires cfg.maxRetries >= 1 && QtyOf(payload) >= 1 && !HasOrder(w, payload.clientOrderId) && seconds >= 0.0
    ensures var (w', outcome) := TransmitFrom(SlowAnswer(w.tick, seconds), cfg, w, payload, contracts, 1);
      && outcome.Done? && outcome.result.status == FILLED && outcome.result.contractsFilled == QtyOf(payload) as real
      && w'.clock == w.clock + seconds && |w'.orders| == |w.orders| + 1
  {
    var script := SlowAnswer(w.tick, seconds);
    ExecutionEdges.PassAddsNothing(script, w, 0.0, payload.clientOrderId);
    var (w1, r1) := Submit(script, w, payload);
    var placed := FreshOrder(payload, |w.orders|);
    assert Sound(placed.(state := OrderState.Filled, filledQty := placed.orderedQty as real));
    assert r1.Acknowledged? && r1.order.state.Filled? && r1.order.filledQty == r1.order.orderedQty as real;
    AwaitTerminated(script, cfg, w1, r1.order, w1.clock + cfg.timeoutSec, payload, contracts, 1);
    AcknowledgedFill(script, cfg, w, payload, contracts, w1, r1.order);
  }

  lemma AcknowledgedFill(script: Script, cfg: Settings, w: World, payload: Payload, contracts: nat, w1: World,
                         o: BrokerOrder)
    requires cfg.maxRetries >= 1 && Submit(script, w, payload) == (w1, Acknowledged(o)) && o.state.IsTerminal()
    ensures TransmitFrom(script, cfg, w, payload, contracts, 1) == Finalise(script, w1, o, payload, contracts, 1)
  {
    ExecutionEdges.SubmitAnswered(script, cfg, w, payload, contracts, 1, w1, o);
    AwaitTerminated(script, cfg, w1, o, w1.clock + cfg.timeoutSec, payload, contracts, 1);
  }

  lemma ClockMovesOn(s: Setting, w: World, w': World, seconds: int)
    requires w'.clock >= w.clock + seconds as real
    ensures WallClock(s, w') >= WallClock(s, w) + seconds
  {
  }

  lemma LateTurn(d: Wiring, s: Setting, g: Progress, p: ManagedPosition, i: nat)
    requires Begins(d, s, g, p, i) && s.nonces(i) !in g.consumed && WallClock(s, g.world) > Expiry(s)
    ensures var end := Turn(d, s, g, p, i);
      end.raised == Some(LATE) && end.world == g.world && end.attempts == g.attempts
  {
    var t := Management.Prepared(d, s, p, s.nonces(i));
    PreparedIs(d, s, p, s.nonces(i));
    TurnTransmits(d, s, g, p, i);
    LateEndsClear(d, s, g, p, Judge(p, s.today, s.rules), t.closing, s.nonces(i));
  }

  lemma TwoTurns(d: Wiring, s: Setting, g: Progress, p: ManagedPosition, q: ManagedPosition)
    ensures Cycle(d, s, g, [p, q]) == Turn(d, s, Turn(d, s, g, p, 0), q, 1)
  {
    OneTurn(d, s, g, p);
    CycleNext(d, s, g, [p], q);
    assert [p] + [q] == [p, q];
  }

  lemma CycleNext(d: Wiring, s: Setting, g: Progress, before: seq<ManagedPosition>, p: ManagedPosition)
    ensures Cycle(d, s, g, before + [p]) == Turn(d, s, Cycle(d, s, g, before), p, |before|)
  {
    assert (before + [p])[..|before|] == before;
  }

  /** A second position whose exit the Kernel approves like the first. */
  predicate Follows(d: Wiring, s: Setting, second: ManagedPosition) {
    Judge(second, s.today, s.rules).ShouldClose() && Management.Prepared(d, s, second, s.nonces(1)).Transmit?
  }

  /** The other input: a broker that answers every request there is and fills the first exit in
      full, but takes one second longer over it than a verdict lives. The second exit is turned
      away at the gate as expired, with nothing sent; that error ends the cycle, and no position
      after it gets a turn. */
  lemma SlowFillStrandsTheRest(d: Wiring, s: Setting, g: Progress, first: ManagedPosition, second: ManagedPosition,
                               rest: seq<ManagedPosition>, seconds: nat)
    requires Sets(d, SlowAnswer(g.world.tick, seconds as real), s, g, first) && Follows(d, s, second)
    requires seconds > s.limits.verdictTtlSec && WallClock(s, g.world) >= s.context.now
    ensures var end := Cycle(d, s, g, [first, second] + rest);
      && end.raised == Some(LATE)
      && end.attempts == [SentAttempt(s, first, FILLED)]
      && |end.world.orders| <= |g.world.orders| + 1
      && (forall t :: Heard(d.script, t))
  {
    var payload, n := FirstTurnSends(d, s, g, first);
    SlowFill(d.cfg, g.world, payload, n, seconds as real);
    var g1 := Turn(d, s, g, first, 0);
    ClockMovesOn(s, g.world, g1.world, seconds);
    assert s.nonces(0) != s.nonces(1);
    LateTurn(d, s, g1, second, 1);
    TwoTurns(d, s, g, first, second);
    ErrorStrandsTheRest(d, s, g, [first, second], rest);
  }

  /** The broker answers, and a cancel would reach it. */
  predicate Heard(script: Script, t: nat) {
    script(t).answers && script(t).cancelArrives
  }
}
