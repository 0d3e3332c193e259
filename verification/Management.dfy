/** The management cycle: every open position judged, and every exit taken through the
    Kernel and the execution engine. */
module Management {
  import opened Decimals
  import opened Domain
  import opened Verdicts
  import opened KernelState
  import opened Rules
  import opened Kernel
  import opened Broker
  import opened Engine
  import opened Claims

  /** What one cycle is given, besides its positions and the engine. Its context is read once;
      `epoch` is what the wall clock says when the broker world's monotone clock says zero. */
  datatype Setting = Setting(
    today: int,
    epoch: int,
    rules: ClaimsPolicy,
    context: KernelContext,
    limits: KernelLimits,
    proposals: map<string, Proposal>,
    nonces: nat -> string,
    live: bool)

  /** The desk's own constants. */
  datatype Wiring = Wiring(host: Host, script: Script, cfg: Settings, secret: string)

  datatype Handling = Held | Unconstructable | Vetoed(reasons: seq<string>) | NotTransmitted | Sent(status: Status)

  datatype Attempt = Attempt(policyId: string, claims: ClaimsVerdict, handling: Handling)

  /** How far a cycle has come; an error that escapes an execution ends it. */
  datatype Progress = Progress(
    world: World,
    consumed: set<string>,
    attempts: seq<Attempt>,
    escalated: seq<string>,
    raised: Option<Outcome>)

  /** `datetime.now(UTC)`, as each execution reads it for itself. */
  function WallClock(s: Setting, w: World): int {
    s.epoch + w.clock.Floor
  }

  /** `claims.target_debit or Decimal("0.01")` */
  function TargetOf(claims: ClaimsVerdict): real {
    if claims.targetDebit.Some? && claims.targetDebit.value != 0.0 then claims.targetDebit.value else 0.01
  }

  function ExitContext(c: KernelContext, closing: Proposal): KernelContext {
    c.(suppliedCandidateIds := {closing.candidateId})
  }

  function ExitVerdict(d: Wiring, s: Setting, p: ManagedPosition, closing: Proposal, nonce: string): KernelVerdict {
    Evaluate(d.host, Table(d.host), closing, p.contracts, ExitContext(s.context, closing), d.secret, s.limits, nonce)
  }

  datatype Exiting = Handled(handling: Handling) | Transmit(closing: Proposal, verdict: KernelVerdict)

  /** `_attempt_exit`, up to the transmission. */
  function Prepared(d: Wiring, s: Setting, p: ManagedPosition, nonce: string): Exiting {
    if p.policyId !in s.proposals then Handled(Unconstructable)
    else
      var closing := s.proposals[p.policyId].(action := Close);
      var v := ExitVerdict(d, s, p, closing, nonce);
      if !v.decision.Approve? then Handled(Vetoed(v.rejectReasons))
      else if !s.live then Handled(NotTransmitted)
      else Exiting.Transmit(closing, v)
  }

  function After(g: Progress, p: ManagedPosition, claims: ClaimsVerdict, handling: Handling): Progress {
    g.(attempts := g.attempts + [Attempt(p.policyId, claims, handling)],
       escalated := if claims.escalate then g.escalated + [p.policyId] else g.escalated)
  }

  function Transmitted(d: Wiring, s: Setting, g: Progress, p: ManagedPosition, claims: ClaimsVerdict, closing: Proposal,
                       v: KernelVerdict): Progress {
    var (w, consumed, outcome) :=
      Execute(d.host, d.script, d.cfg, d.secret, g.world, g.consumed, closing, Some(v), WallClock(s, g.world),
              Some(TargetOf(claims)), 0);
    if outcome.Done? then After(g.(world := w, consumed := consumed), p, claims, Sent(outcome.result.status))
    else g.(world := w, consumed := consumed, raised := Some(outcome),
            escalated := if claims.escalate then g.escalated + [p.policyId] else g.escalated)
  }

  /** One turn of the loop. */
  function Turn(d: Wiring, s: Setting, g: Progress, p: ManagedPosition, i: nat): Progress {
    var claims := Judge(p, s.today, s.rules);
    if g.raised.Some? then g
    else if !claims.ShouldClose() then After(g, p, claims, Held)
    else
      match Prepared(d, s, p, s.nonces(i))
      case Handled(handling) => After(g, p, claims, handling)
      case Transmit(closing, v) => Transmitted(d, s, g, p, claims, closing, v)
  }

  function Cycle(d: Wiring, s: Setting, g: Progress, positions: seq<ManagedPosition>): Progress {
    if positions == [] then g
    else Turn(d, s, Cycle(d, s, g, positions[..|positions| - 1]), positions[|positions| - 1], |positions| - 1)
  }

  lemma {:induction false} RaisedStays(d: Wiring, s: Setting, g: Progress, positions: seq<ManagedPosition>, i: nat)
    requires i <= |positions| && Cycle(d, s, g, positions[..i]).raised.Some?
    ensures Cycle(d, s, g, positions) == Cycle(d, s, g, positions[..i])
  {
    if i < |positions| {
      assert positions[..|positions| - 1][..i] == positions[..i];
      RaisedStays(d, s, g, positions[..|positions| - 1], i);
    } else {
      assert positions[..i] == positions;
    }
  }

  function CountHeld(attempts: seq<Attempt>): nat {
    if attempts == [] then 0
    else CountHeld(attempts[..|attempts| - 1]) + (if attempts[|attempts| - 1].handling.Held? then 1 else 0)
  }

  function CountClosed(attempts: seq<Attempt>): nat {
    if attempts == [] then 0
    else CountClosed(attempts[..|attempts| - 1]) + (if attempts[|attempts| - 1].handling == Sent(FILLED) then 1 else 0)
  }

  lemma CountNext(attempts: seq<Attempt>, a: Attempt)
    ensures CountHeld(attempts + [a]) == CountHeld(attempts) + (if a.handling.Held? then 1 else 0)
    ensures CountClosed(attempts + [a]) == CountClosed(attempts) + (if a.handling == Sent(FILLED) then 1 else 0)
  {
    assert (attempts + [a])[..|attempts|] == attempts;
  }

  /** What became of the positions, in order. */
  function Handlings(attempts: seq<Attempt>): (r: seq<Handling>)
    ensures |r| == |attempts|
  {
    seq(|attempts|, i requires 0 <= i < |attempts| => attempts[i].handling)
  }

  /** The two figures of the report count the positions held and the exits filled in full. */
  lemma {:induction false} CountsExactly(attempts: seq<Attempt>)
    ensures CountHeld(attempts) == multiset(Handlings(attempts))[Held]
    ensures CountClosed(attempts) == multiset(Handlings(attempts))[Sent(FILLED)]
  {
    if attempts != [] {
      var n := |attempts| - 1;
      CountsExactly(attempts[..n]);
      assert Handlings(attempts) == Handlings(attempts[..n]) + [attempts[n].handling];
    }
  }

  function WiringOf(engine: ExecutionEngine): Wiring {
    Wiring(engine.host, engine.broker.script, engine.cfg, engine.secret)
  }

  /** The state a cycle starts from. */
  function Start(engine: ExecutionEngine): Progress
    reads engine.broker, engine.nonces
  {
    Progress(engine.broker.world, engine.nonces.consumed, [], [], None)
  }

  /** One position that must close: what became of it, or the error that ends the cycle. */
  method ExitOne(engine: ExecutionEngine, s: Setting, p: ManagedPosition, claims: ClaimsVerdict, i: nat,
                 ghost g: Progress)
    returns (handling: Handling, raised: Option<Outcome>)
    requires claims == Judge(p, s.today, s.rules) && claims.ShouldClose() && g.raised.None?
    requires g.world == engine.broker.world && g.consumed == engine.nonces.consumed
    modifies engine.broker, engine.nonces
    ensures var next := Turn(WiringOf(engine), s, g, p, i);
      && next.world == engine.broker.world && next.consumed == engine.nonces.consumed && next.raised == raised
      && (raised.None? ==> next.attempts == g.attempts + [Attempt(p.policyId, claims, handling)])
      && (raised.Some? ==> next.attempts == g.attempts)
      && next.escalated == (if claims.escalate then g.escalated + [p.policyId] else g.escalated)
  {
    var prepared := Prepared(WiringOf(engine), s, p, s.nonces(i));
    match prepared
    case Handled(h) =>
      handling, raised := h, None;
    case Transmit(closing, v) =>
      var outcome :=
        engine.ExecuteOrder(closing, Some(v), WallClock(s, engine.broker.world), Some(TargetOf(claims)), 0);
      if outcome.Done? {
        handling, raised := Sent(outcome.result.status), None;
      } else {
        handling, raised := Held, Some(outcome);
      }
  }

  /** `run_management_cycle` */
  method RunManagementCycle(engine: ExecutionEngine, s: Setting, positions: seq<ManagedPosition>)
    returns (attempts: seq<Attempt>, escalated: seq<string>, held: nat, closed: nat, raised: Option<Outcome>)
    modifies engine.broker, engine.nonces
    ensures Cycle(WiringOf(engine), s, old(Start(engine)), positions)
         == Progress(engine.broker.world, engine.nonces.consumed, attempts, escalated, raised)
    ensures held == CountHeld(attempts) && closed == CountClosed(attempts)
  {
    attempts, escalated, held, closed, raised := [], [], 0, 0, None;
    ghost var g := Start(engine);
    for i := 0 to |positions|
      invariant g == Cycle(WiringOf(engine), s, old(Start(engine)), positions[..i])
      invariant g == Progress(engine.broker.world, engine.nonces.consumed, attempts, escalated, None)
      invariant held == CountHeld(attempts) && closed == CountClosed(attempts) && raised.None?
    {
      assert positions[..i + 1][..i] == positions[..i];
      var p := positions[i];
      var claims := Judge(p, s.today, s.rules);
      var handling: Handling := Held;
      ghost var next := Turn(WiringOf(engine), s, g, p, i);
      if claims.ShouldClose() {
        handling, raised := ExitOne(engine, s, p, claims, i, g);
      }
      if claims.escalate {
        escalated := escalated + [p.policyId];
      }
      if raised.Some? {
        RaisedStays(WiringOf(engine), s, old(Start(engine)), positions, i + 1);
        return;
      }
      CountNext(attempts, Attempt(p.policyId, claims, handling));
      attempts := attempts + [Attempt(p.policyId, claims, handling)];
      held := held + (if handling.Held? then 1 else 0);
      closed := closed + (if handling == Sent(FILLED) then 1 else 0);
      g := next;
    }
    assert positions[..|positions|] == positions;
  }

  // ----- what a cycle guarantees ----------------------------------------------------

  ghost predicate FaithfulAttempt(s: Setting, a: Attempt, p: ManagedPosition) {
    && a.policyId == p.policyId && a.claims == Judge(p, s.today, s.rules)
    && (a.handling.Held? <==> !a.claims.ShouldClose())
  }

  /** The attempts so far are the positions so far, each held exactly if the Claims Desk
      found no reason to close it. */
  ghost predicate Faithful(s: Setting, g: Progress, positions: seq<ManagedPosition>) {
    && |g.attempts| <= |positions| && (g.raised.None? ==> |g.attempts| == |positions|)
    && (g.raised.Some? ==> |g.attempts| < |positions|)
    && forall i :: 0 <= i < |g.attempts| ==> FaithfulAttempt(s, g.attempts[i], positions[i])
  }

  lemma NextTurn(d: Wiring, s: Setting, g: Progress, p: ManagedPosition, i: nat)
    requires g.raised.None?
    ensures var next := Turn(d, s, g, p, i);
      if next.raised.Some? then next.attempts == g.attempts
      else |next.attempts| == |g.attempts| + 1 && next.attempts[..|g.attempts|] == g.attempts
           && FaithfulAttempt(s, next.attempts[|g.attempts|], p)
  {
    TurnExactly(d, s, g, p, i);
  }

  lemma {:induction false} CyclesAreFaithful(d: Wiring, s: Setting, g: Progress, positions: seq<ManagedPosition>)
    requires g.attempts == [] && g.raised.None?
    ensures Faithful(s, Cycle(d, s, g, positions), positions)
  {
    if positions != [] {
      var before := positions[..|positions| - 1];
      CyclesAreFaithful(d, s, g, before);
      var g1 := Cycle(d, s, g, before);
      if g1.raised.None? {
        NextTurn(d, s, g1, positions[|positions| - 1], |positions| - 1);
        var end := Turn(d, s, g1, positions[|positions| - 1], |positions| - 1);
        forall i | 0 <= i < |end.attempts| ensures FaithfulAttempt(s, end.attempts[i], positions[i]) {
          if i < |g1.attempts| {
            assert FaithfulAttempt(s, g1.attempts[i], before[i]);
            assert end.attempts[..|g1.attempts|][i] == end.attempts[i];
          }
        }
      }
    }
  }

  /** No management cycle holds a position at or inside the DTE floor: every one it comes to
      is closed as force flat, whatever its price, its profit, the Kernel and the broker; and
      it comes to every one, unless an error escapes an execution. */
  lemma ForceFlatIsNeverHeld(d: Wiring, s: Setting, g: Progress, positions: seq<ManagedPosition>, i: nat)
    requires g.attempts == [] && g.raised.None?
    requires i < |positions| && positions[i].Dte(s.today) <= s.rules.forceFlatDte
    ensures var end := Cycle(d, s, g, positions);
      i < |end.attempts| ==>
        !end.attempts[i].handling.Held? && end.attempts[i].claims.reason == Some(ForceFlat)
    ensures Cycle(d, s, g, positions).raised.None? ==> i < |Cycle(d, s, g, positions).attempts|
  {
    CyclesAreFaithful(d, s, g, positions);
  }

  /** An error that escapes one execution ends the cycle there. What follows is as if the later
      positions were not on the book, however close to expiry they are. */
  lemma ErrorStrandsTheRest(d: Wiring, s: Setting, g: Progress, handled: seq<ManagedPosition>,
                            rest: seq<ManagedPosition>)
    requires Cycle(d, s, g, handled).raised.Some?
    ensures Cycle(d, s, g, handled + rest) == Cycle(d, s, g, handled)
  {
    assert (handled + rest)[..|handled|] == handled;
    RaisedStays(d, s, g, handled + rest, |handled|);
  }

  // ----- what is escalated -------------------------------------------------------------------

  /** Someone has to look: the underlying is through the short strike and the close is for that,
      or the position cannot be priced and is not yet at the floor. */
  ghost predicate NeedsEyes(p: ManagedPosition, today: int, rules: ClaimsPolicy) {
    Judge(p, today, rules).reason == Some(Breach) || (p.costToClose.None? && p.Dte(today) > rules.forceFlatDte)
  }

  /** How many positions the cycle came to. */
  function Reached(end: Progress, positions: seq<ManagedPosition>): nat {
    if end.raised.None? then |positions| else |end.attempts| + 1
  }

  lemma TurnEscalates(d: Wiring, s: Setting, g: Progress, p: ManagedPosition, i: nat)
    requires g.raised.None?
    ensures Turn(d, s, g, p, i).escalated
         == (if NeedsEyes(p, s.today, s.rules) then g.escalated + [p.policyId] else g.escalated)
  {
    PrecedenceExactly(p, s.today, s.rules);
  }

  /** The positions so far that need eyes, in order. */
  ghost function EyesOn(s: Setting, positions: seq<ManagedPosition>): seq<string> {
    if positions == [] then []
    else
      var last := positions[|positions| - 1];
      EyesOn(s, positions[..|positions| - 1]) + (if NeedsEyes(last, s.today, s.rules) then [last.policyId] else [])
  }

  /** The position an error escapes from is reported by no attempt. */
  lemma LastTurnIsReached(d: Wiring, s: Setting, g: Progress, p: ManagedPosition, i: nat)
    requires g.raised.None?
    ensures Turn(d, s, g, p, i).raised.Some? ==> |Turn(d, s, g, p, i).attempts| == |g.attempts|
  {
    NextTurn(d, s, g, p, i);
  }

  lemma EyesOnOneMore(s: Setting, positions: seq<ManagedPosition>, n: nat)
    requires n < |positions|
    ensures EyesOn(s, positions[..n + 1])
         == EyesOn(s, positions[..n])
            + (if NeedsEyes(positions[n], s.today, s.rules) then [positions[n].policyId] else [])
  {
    assert positions[..n + 1][..n] == positions[..n];
  }

  /** A cycle escalates the positions that need eyes, each once and in order, out of those it came
      to: all of them, unless an error escaped, and otherwise up to the one it escaped from. */
  lemma {:induction false} EscalatedExactly(d: Wiring, s: Setting, g: Progress, positions: seq<ManagedPosition>)
    requires g.attempts == [] && g.escalated == [] && g.raised.None?
    ensures var end := Cycle(d, s, g, positions);
      Reached(end, positions) <= |positions| && end.escalated == EyesOn(s, positions[..Reached(end, positions)])
  {
    if positions == [] {
      assert positions[..0] == [];
    } else {
      var n := |positions| - 1;
      var before := Cycle(d, s, g, positions[..n]);
      EscalatedExactly(d, s, g, positions[..n]);
      if before.raised.None? {
        CyclesAreFaithful(d, s, g, positions[..n]);
        TurnEscalates(d, s, before, positions[n], n);
        LastTurnIsReached(d, s, before, positions[n], n);
        assert positions[..n][..n] == positions[..n];
        EyesOnOneMore(s, positions, n);
      } else {
        assert positions[..n][..|before.attempts| + 1] == positions[..|before.attempts| + 1];
      }
    }
  }

  // ----- what becomes of one position ----------------------------------------------------------

  /** The exit the Kernel is asked about, and its verdict. */
  function ClosingOf(s: Setting, p: ManagedPosition): Proposal
    requires p.policyId in s.proposals
  {
    s.proposals[p.policyId].(action := Close)
  }

  function VerdictOnExit(d: Wiring, s: Setting, p: ManagedPosition, i: nat): KernelVerdict
    requires p.policyId in s.proposals
  {
    ExitVerdict(d, s, p, ClosingOf(s, p), s.nonces(i))
  }

  /** Its exit is to be executed: there is reason to close, the exit can be built, the Kernel
      approves it and the desk is live. */
  predicate ToBeSent(d: Wiring, s: Setting, p: ManagedPosition, i: nat) {
    Judge(p, s.today, s.rules).ShouldClose() && p.policyId in s.proposals
    && VerdictOnExit(d, s, p, i).decision.Approve? && s.live
  }

  /** What is reported of a position that is not sent out. */
  function KeptFor(d: Wiring, s: Setting, p: ManagedPosition, i: nat): Handling {
    if !Judge(p, s.today, s.rules).ShouldClose() then Held
    else if p.policyId !in s.proposals then Unconstructable
    else if VerdictOnExit(d, s, p, i).decision.Reject? then Vetoed(VerdictOnExit(d, s, p, i).rejectReasons)
    else NotTransmitted
  }

  /** One turn, exactly: the broker and the nonces are touched only if the exit is to be sent; the
      position is then reported with the status of its order, unless an error escapes, and is
      otherwise reported with the one thing that kept it. */
  lemma TurnExactly(d: Wiring, s: Setting, g: Progress, p: ManagedPosition, i: nat)
    requires g.raised.None?
    ensures var next := Turn(d, s, g, p, i);
      && (!ToBeSent(d, s, p, i) ==>
            && next.world == g.world && next.consumed == g.consumed && next.raised.None?
            && next.attempts == g.attempts + [Attempt(p.policyId, Judge(p, s.today, s.rules), KeptFor(d, s, p, i))])
      && (ToBeSent(d, s, p, i) ==> SentOrRaised(s, g, next, p))
  {
    if ToBeSent(d, s, p, i) {
      SendingTurn(d, s, g, p, i);
    } else {
      KeepingTurn(d, s, g, p, i);
    }
  }

  /** The position is reported with the status of its order, or an error has escaped. */
  predicate SentOrRaised(s: Setting, g: Progress, next: Progress, p: ManagedPosition) {
    if next.raised.Some? then next.attempts == g.attempts && !next.raised.value.Done?
    else
      && |next.attempts| == |g.attempts| + 1 && next.attempts[..|g.attempts|] == g.attempts
      && var last := next.attempts[|g.attempts|];
        last.policyId == p.policyId && last.claims == Judge(p, s.today, s.rules) && last.handling.Sent?
  }

  lemma SendingTurn(d: Wiring, s: Setting, g: Progress, p: ManagedPosition, i: nat)
    requires g.raised.None? && ToBeSent(d, s, p, i)
    ensures SentOrRaised(s, g, Turn(d, s, g, p, i), p)
  {
  }

  lemma KeepingTurn(d: Wiring, s: Setting, g: Progress, p: ManagedPosition, i: nat)
    requires g.raised.None? && !ToBeSent(d, s, p, i)
    ensures Turn(d, s, g, p, i) == After(g, p, Judge(p, s.today, s.rules), KeptFor(d, s, p, i))
  {
  }
}
