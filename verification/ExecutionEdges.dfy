/** Where the engine's report and the broker's books can part, and exactly when. */
module ExecutionEdges {
  import opened Decimals
  import opened Orders
  import opened Broker
  import opened Engine
  import opened Execution

  // ----- REJECTED while an order is live ---------------------------------------

  /** The report of one transmission of an order nobody has placed yet. */
  ghost predicate RejectionTruthful(cfg: Settings) {
    forall script: Script, w: World, payload: Payload, contracts: nat ::
      SoundWorld(w) && !HasOrder(w, payload.clientOrderId) ==> RejectedMeansAbsent(script, cfg, w, payload, contracts)
  }

  ghost predicate RejectedMeansAbsent(script: Script, cfg: Settings, w: World, payload: Payload, contracts: nat) {
    var (w', outcome) := TransmitFrom(script, cfg, w, payload, contracts, 1);
    Unnamed(outcome, REJECTED) ==> !HasOrder(w', payload.clientOrderId)
  }

  /** A result that names no broker order. */
  predicate Unnamed(outcome: Outcome, status: Status) {
    outcome.Done? && outcome.result.brokerOrderId.None? && outcome.result.status == status
  }

  predicate Named(outcome: Outcome) {
    outcome.Done? ==> outcome.result.brokerOrderId.Some?
  }

  lemma {:induction false} AwaitNamesItsOrder(script: Script, cfg: Settings, w: World, o: BrokerOrder, deadline: real,
                                              payload: Payload, contracts: nat, attempts: nat)
    ensures Named(Await(script, cfg, w, o, deadline, payload, contracts, attempts).1)
    decreases Polls(deadline - w.clock, cfg.pollInterval)
  {
    if !o.state.IsTerminal() && w.clock < deadline {
      PollStepDecreases(script, cfg, w, o.clientOrderId, deadline);
      var (w2, reply) := PollStep(script, cfg, w, o.clientOrderId);
      if reply.Found? {
        AwaitNamesItsOrder(script, cfg, w2, reply.order, deadline, payload, contracts, attempts);
      }
    }
  }

  lemma TerminalNamesItsOrder(script: Script, cfg: Settings, w: World, o: BrokerOrder,
                              payload: Payload, contracts: nat, attempts: nat)
    ensures Named(AwaitTerminal(script, cfg, w, o, payload, contracts, attempts).1)
  {
    var deadline := w.clock + cfg.timeoutSec;
    var outcome := Await(script, cfg, w, o, deadline, payload, contracts, attempts).1;
    assert Named(outcome) by {
      AwaitNamesItsOrder(script, cfg, w, o, deadline, payload, contracts, attempts);
    }
  }

  lemma ResolveNeverRejects(script: Script, cfg: Settings, w: World, payload: Payload, contracts: nat, attempts: nat)
    ensures !Unnamed(ResolveUnknown(script, cfg, w, payload, contracts, attempts).1, REJECTED)
  {
    var (w1, reply) := Lookup(script, w, payload.clientOrderId);
    if reply.Found? {
      TerminalNamesItsOrder(script, cfg, w1, reply.order, payload, contracts, attempts);
    }
  }

  lemma RefusalPlacesNothing(script: Script, w: World, payload: Payload)
    requires !HasOrder(w, payload.clientOrderId)
    ensures var (w1, reply) := Submit(script, w, payload);
      reply.PermanentError? ==> !HasOrder(w1, payload.clientOrderId)
  {
    PassAddsNothing(script, w, 0.0, payload.clientOrderId);
  }

  lemma SingleAttemptTruthful(script: Script, cfg: Settings, w: World, payload: Payload, contracts: nat)
    requires cfg.maxRetries <= 1 && SoundWorld(w) && !HasOrder(w, payload.clientOrderId)
    ensures RejectedMeansAbsent(script, cfg, w, payload, contracts)
  {
    if cfg.maxRetries == 1 {
      RefusalPlacesNothing(script, w, payload);
      var (w1, reply) := Submit(script, w, payload);
      if reply.Acknowledged? {
        TerminalNamesItsOrder(script, cfg, w1, reply.order, payload, contracts, 1);
      } else if reply.TransientError? {
        ResolveNeverRejects(script, cfg, w1, payload, contracts, 1);
      }
    }
  }

  lemma PassAddsNothing(script: Script, w: World, seconds: real, id: string)
    ensures HasOrder(Pass(script, w, seconds), id) <==> HasOrder(w, id)
  {
    var w1 := Pass(script, w, seconds);
    if HasOrder(w, id) {
      var i :| 0 <= i < |w.orders| && w.orders[i].clientOrderId == id;
      assert w1.orders[i].clientOrderId == id;
    }
    if HasOrder(w1, id) {
      var i :| 0 <= i < |w1.orders| && w1.orders[i].clientOrderId == id;
      assert w.orders[i].clientOrderId == id;
    }
  }

  /** A quiet market: nothing moves, everything is answered, but the first reply is lost. */
  function FirstReplyLost(): Script {
    t => Move(0.0, (o: BrokerOrder) => (o.state, o.filledQty), Processed(t == 0), true, true, [], 0.0)
  }

  /** The first submit lands, its reply is lost, and the resubmit is refused as a
      duplicate: the engine reports REJECTED while the order is live. */
  lemma RejectedWhileLive(cfg: Settings, payload: Payload, contracts: nat, clock: real)
    requires cfg.maxRetries >= 2 && QtyOf(payload) >= 1
    ensures var (w', outcome) := TransmitFrom(FirstReplyLost(), cfg, World([], clock, 0), payload, contracts, 1);
      && Unnamed(outcome, REJECTED) && HasOrder(w', payload.clientOrderId)
      && |w'.orders| == 1 && !w'.orders[0].state.IsTerminal() && w'.orders[0].payload == payload
  {
    var script := FirstReplyLost();
    var w := World([], clock, 0);
    var (w1, r1) := Submit(script, w, payload);
    assert r1.TransientError? && |w1.orders| == 1 && w1.orders[0].clientOrderId == payload.clientOrderId;
    assert w1.orders[0].state == New && w1.tick == 1;
    var w2 := Pass(script, w1, Backoff(script, w1, 1));
    assert w2.orders[0].clientOrderId == payload.clientOrderId && w2.tick == 2 && |w2.orders| == 1;
    var (w3, r3) := Submit(script, w2, payload);
    var w2' := Pass(script, w2, 0.0);
    assert w2'.orders[0].clientOrderId == payload.clientOrderId;
    assert r3.PermanentError? && w3 == w2';
    assert TransmitFrom(script, cfg, w2, payload, contracts, 2) == (w3, NotSent(REJECTED, payload, contracts, 2));
    assert TransmitFrom(script, cfg, w, payload, contracts, 1) == TransmitFrom(script, cfg, w2, payload, contracts, 2);
    assert w3.orders[0].clientOrderId == payload.clientOrderId;
  }

  /** A refusal is always the truth, for every broker, exactly when the engine is
      configured never to resubmit. */
  lemma RejectionTruthfulExactly(cfg: Settings)
    ensures RejectionTruthful(cfg) <==> cfg.maxRetries <= 1
  {
    if cfg.maxRetries <= 1 {
      forall script: Script, w: World, payload: Payload, contracts: nat
        | SoundWorld(w) && !HasOrder(w, payload.clientOrderId)
        ensures RejectedMeansAbsent(script, cfg, w, payload, contracts)
      {
        SingleAttemptTruthful(script, cfg, w, payload, contracts);
      }
    } else {
      OneLot();
      RejectedWhileLive(cfg, ONE_LOT, 1, 0.0);
      var w := World([], 0.0, 0);
      assert SoundWorld(w) && !HasOrder(w, ONE_LOT.clientOrderId);
      assert !RejectedMeansAbsent(FirstReplyLost(), cfg, w, ONE_LOT, 1);
    }
  }

  // ----- FILLED with nothing filled --------------------------------------------

  /** Every order is reported filled at once, with no quantity. */
  function FillsWithoutQuantity(): Script {
    t => Move(0.0, (o: BrokerOrder) => (OrderState.Filled, o.filledQty), Processed(false), true, true, [], 0.0)
  }

  /** An order in state filled without a fill is no short fill, so the engine reports FILLED. */
  lemma FilledWithNothing(cfg: Settings, payload: Payload, contracts: nat, clock: real)
    requires cfg.maxRetries >= 1 && QtyOf(payload) >= 1
    ensures var (w', outcome) := TransmitFrom(FillsWithoutQuantity(), cfg, World([], clock, 0), payload, contracts, 1);
      && outcome.Done? && outcome.result.status == FILLED && outcome.result.contractsFilled == 0.0
      && outcome.result.clientOrderId == payload.clientOrderId
      && |w'.orders| == 1 && w'.orders[0].filledQty == 0.0 && w'.orders[0].orderedQty == QtyOf(payload)
  {
    var script := FillsWithoutQuantity();
    var w := World([], clock, 0);
    var (w1, r1) := Submit(script, w, payload);
    assert Sound(FreshOrder(payload, 0).(state := OrderState.Filled));
    assert r1.Acknowledged? && r1.order.state.Filled? && r1.order.filledQty == 0.0;
    AwaitTerminated(script, cfg, w1, r1.order, w1.clock + cfg.timeoutSec, payload, contracts, 1);
  }

  // ----- FAILED while an order is live -----------------------------------------

  /** The broker's world at the lookup that resolves a submission in doubt, if it comes to one. */
  function Resolving(script: Script, cfg: Settings, w: World, payload: Payload, attempt: nat): Option<World>
    requires 1 <= attempt
    decreases cfg.maxRetries + 1 - attempt
  {
    if attempt > cfg.maxRetries then None
    else
      match Submit(script, w, payload)
      case (w1, TransientError) =>
        if attempt == cfg.maxRetries then Some(w1)
        else Resolving(script, cfg, Pass(script, w1, Backoff(script, w1, attempt)), payload, attempt + 1)
      case _ => None
  }

  /** A submit had landed, and the one lookup that would have found it was not answered. */
  ghost predicate LandedUnanswered(script: Script, z: Option<World>, id: string) {
    z.Some? && HasOrder(z.value, id) && !script(z.value.tick).answers
  }

  lemma LookupKeeps(script: Script, w: World, id: string)
    ensures var (w1, reply) := Lookup(script, w, id);
      && (HasOrder(w1, id) <==> HasOrder(w, id))
      && (reply.LookupFault? <==> !script(w.tick).answers) && (reply.Absent? ==> !HasOrder(w, id))
  {
    PassAddsNothing(script, w, 0.0, id);
  }

  lemma ResolutionFailsExactly(script: Script, cfg: Settings, w: World, payload: Payload, contracts: nat, attempts: nat)
    ensures var (w', outcome) := ResolveUnknown(script, cfg, w, payload, contracts, attempts);
      Unnamed(outcome, FAILED) ==>
        (HasOrder(w', payload.clientOrderId) <==> LandedUnanswered(script, Some(w), payload.clientOrderId))
  {
    LookupKeeps(script, w, payload.clientOrderId);
    var (w1, reply) := Lookup(script, w, payload.clientOrderId);
    if reply.Found? {
      TerminalNamesItsOrder(script, cfg, w1, reply.order, payload, contracts, attempts);
    } else {
      PassAddsNothing(script, w1, 0.0, payload.clientOrderId);
    }
  }

  /** A failure that names no order leaves one behind if and only if a submit had landed and
      the one resolving lookup went unanswered. No other answer of the broker's matters. */
  lemma {:induction false} FailedLeavesOrderExactly(script: Script, cfg: Settings, w: World, payload: Payload,
                                                    contracts: nat, attempt: nat)
    requires SoundWorld(w) && 1 <= attempt <= cfg.maxRetries
    ensures var (w', outcome) := TransmitFrom(script, cfg, w, payload, contracts, attempt);
      Unnamed(outcome, FAILED) ==>
        (HasOrder(w', payload.clientOrderId) <==>
         LandedUnanswered(script, Resolving(script, cfg, w, payload, attempt), payload.clientOrderId))
    decreases cfg.maxRetries - attempt
  {
    SubmitEvolves(script, w, payload);
    var (w1, reply) := Submit(script, w, payload);
    if reply.Acknowledged? {
      TerminalNamesItsOrder(script, cfg, w1, reply.order, payload, contracts, attempt);
    } else if reply.TransientError? {
      if attempt == cfg.maxRetries {
        ResolutionFailsExactly(script, cfg, w1, payload, contracts, attempt);
      } else {
        PassEvolves(script, w1, Backoff(script, w1, attempt), payload);
        FailedLeavesOrderExactly(script, cfg, Pass(script, w1, Backoff(script, w1, attempt)), payload, contracts,
                                 attempt + 1);
      }
    }
  }

  /** Every submit is processed unanswered and no lookup is answered. */
  function DeafBroker(): Script {
    t => Move(0.0, (o: BrokerOrder) => (o.state, o.filledQty), Processed(true), false, false, [], 0.0)
  }

  lemma DeafSubmit(w: World, payload: Payload)
    requires QtyOf(payload) >= 1
    ensures var (w1, reply) := Submit(DeafBroker(), w, payload);
      reply.TransientError? && HasOrder(w1, payload.clientOrderId)
  {
    var (w1, reply) := Submit(DeafBroker(), w, payload);
    if !HasOrder(Pass(DeafBroker(), w, 0.0), payload.clientOrderId) {
      assert w1.orders[|w1.orders| - 1].clientOrderId == payload.clientOrderId;
    }
  }

  /** An unnamed failure, and an order under this id. */
  ghost predicate FailedLive(end: (World, Outcome), id: string) {
    Unnamed(end.1, FAILED) && HasOrder(end.0, id)
  }

  lemma DeafResolution(cfg: Settings, w: World, payload: Payload, contracts: nat, attempts: nat)
    requires HasOrder(w, payload.clientOrderId)
    ensures FailedLive(ResolveUnknown(DeafBroker(), cfg, w, payload, contracts, attempts), payload.clientOrderId)
  {
    LookupKeeps(DeafBroker(), w, payload.clientOrderId);
    PassAddsNothing(DeafBroker(), Lookup(DeafBroker(), w, payload.clientOrderId).0, 0.0, payload.clientOrderId);
  }

  /** The engine then reports that no order exists, with the order live: however often it
      retries, and from whatever the broker held before. */
  lemma {:induction false} FailedWhileLive(cfg: Settings, w: World, payload: Payload, contracts: nat, attempt: nat)
    requires 1 <= attempt <= cfg.maxRetries && QtyOf(payload) >= 1
    ensures FailedLive(TransmitFrom(DeafBroker(), cfg, w, payload, contracts, attempt), payload.clientOrderId)
    decreases cfg.maxRetries - attempt
  {
    DeafSubmit(w, payload);
    var w1 := Submit(DeafBroker(), w, payload).0;
    if attempt == cfg.maxRetries {
      DeafResolution(cfg, w1, payload, contracts, attempt);
    } else {
      FailedWhileLive(cfg, Pass(DeafBroker(), w1, Backoff(DeafBroker(), w1, attempt)), payload, contracts, attempt + 1);
    }
    DeafEnds(cfg, w, payload, contracts, attempt, w1);
  }

  lemma DeafEnds(cfg: Settings, w: World, payload: Payload, contracts: nat, attempt: nat, w1: World)
    requires 1 <= attempt <= cfg.maxRetries && Submit(DeafBroker(), w, payload) == (w1, TransientError)
    requires FailedLive(
      if attempt == cfg.maxRetries then ResolveUnknown(DeafBroker(), cfg, w1, payload, contracts, attempt)
      else
        TransmitFrom(DeafBroker(), cfg, Pass(DeafBroker(), w1, Backoff(DeafBroker(), w1, attempt)), payload, contracts,
                     attempt + 1), payload.clientOrderId)
    ensures FailedLive(TransmitFrom(DeafBroker(), cfg, w, payload, contracts, attempt), payload.clientOrderId)
  {
    TransmitInDoubt(DeafBroker(), cfg, w, payload, contracts, attempt);
  }

  ghost predicate FailedMeansAbsent(script: Script, cfg: Settings, w: World, payload: Payload, contracts: nat) {
    var (w', outcome) := TransmitFrom(script, cfg, w, payload, contracts, 1);
    Unnamed(outcome, FAILED) ==> !HasOrder(w', payload.clientOrderId)
  }

  /** The report of a failed transmission of an order nobody has placed yet. */
  ghost predicate FailureTruthful(cfg: Settings) {
    forall script: Script, w: World, payload: Payload, contracts: nat ::
      SoundWorld(w) && !HasOrder(w, payload.clientOrderId) ==> FailedMeansAbsent(script, cfg, w, payload, contracts)
  }

  /** A payload of one contract. */
  const ONE_LOT := Payload("mleg", "1", "limit", "day", "1.00", [], "uw_")

  lemma OneLot()
    ensures QtyOf(ONE_LOT) == 1
  {
    assert ONE_LOT.qty[..0] == "";
  }

  /** A failure is always the truth, for every broker, exactly when nothing is ever submitted:
      no number of retries helps. */
  lemma FailureTruthfulExactly(cfg: Settings)
    ensures FailureTruthful(cfg) <==> cfg.maxRetries == 0
  {
    if cfg.maxRetries > 0 {
      OneLot();
      var w := World([], 0.0, 0);
      FailedWhileLive(cfg, w, ONE_LOT, 1, 1);
      assert SoundWorld(w) && !HasOrder(w, ONE_LOT.clientOrderId);
      assert !FailedMeansAbsent(DeafBroker(), cfg, w, ONE_LOT, 1);
    }
  }

  // ----- CANCELLED with a live fill --------------------------------------------

  /** What the lookup after the cancel found, if the wait came to a cancel that was confirmed. */
  function Confirmation(script: Script, cfg: Settings, w: World, o: BrokerOrder, deadline: real): Option<BrokerOrder>
    decreases Polls(deadline - w.clock, cfg.pollInterval)
  {
    if o.state.IsTerminal() then None
    else if w.clock >= deadline then
      var (w1, ok) := Cancel(script, w, o.brokerOrderId);
      if !ok then None
      else match Lookup(script, w1, o.clientOrderId).1 case Found(c) => Some(c) case _ => None
    else
      PollStepDecreases(script, cfg, w, o.clientOrderId, deadline);
      match PollStep(script, cfg, w, o.clientOrderId)
      case (w2, Found(polled)) => Confirmation(script, cfg, w2, polled, deadline)
      case _ => None
  }

  /** The same with the deadline run from the first look. */
  function TerminalConfirmation(script: Script, cfg: Settings, w: World, o: BrokerOrder): Option<BrokerOrder> {
    Confirmation(script, cfg, w, o, w.clock + cfg.timeoutSec)
  }

  /** The order under a client id is on the books, and alive. */
  ghost predicate Alive(w: World, id: string) {
    exists i :: 0 <= i < |w.orders| && w.orders[i].clientOrderId == id && !w.orders[i].state.IsTerminal()
  }

  predicate Cancelled(outcome: Outcome) {
    outcome.Done? && outcome.result.status == CANCELLED
  }

  /** The confirmation found the order alive with something filled, and the market did not end
      it while the report was made up, in the last tick of the call. */
  ghost predicate ConfirmedAlive(script: Script, c: Option<BrokerOrder>, end: World) {
    && c.Some? && !c.value.state.IsTerminal() && c.value.filledQty > 0.0 && end.tick >= 1
    && !Advance(c.value, script(end.tick - 1).status(c.value)).state.IsTerminal()
  }

  /** `CANCELLED` is reported and the order lives on exactly when the confirmation found it so. */
  ghost predicate CancelledAliveExactly(script: Script, c: Option<BrokerOrder>, end: (World, Outcome), id: string) {
    Cancelled(end.1) && Alive(end.0, id) <==> ConfirmedAlive(script, c, end.0)
  }

  lemma OneOrder(w: World, i: nat, j: nat)
    requires SoundWorld(w) && i < |w.orders| && j < |w.orders| && w.orders[i].clientOrderId == w.orders[j].clientOrderId
    ensures i == j
  {
  }

  lemma AliveAfterPass(script: Script, w: World, o: BrokerOrder, id: string)
    requires SoundWorld(w) && o in w.orders && o.clientOrderId == id
    ensures Alive(Pass(script, w, 0.0), id) <==> !Advance(o, script(w.tick).status(o)).state.IsTerminal()
  {
    var w1 := Pass(script, w, 0.0);
    var k :| 0 <= k < |w.orders| && w.orders[k] == o;
    assert w1.orders[k] == Advance(o, script(w.tick).status(o));
    if Alive(w1, id) {
      var i :| 0 <= i < |w1.orders| && w1.orders[i].clientOrderId == id && !w1.orders[i].state.IsTerminal();
      assert w.orders[i].clientOrderId == id;
      OneOrder(w, i, k);
    }
  }

  lemma FinalisedAlive(script: Script, w: World, o: BrokerOrder, payload: Payload, contracts: nat, attempts: nat)
    requires SoundWorld(w) && o in w.orders && o.filledQty > 0.0
    ensures var (w', outcome) := Finalise(script, w, o, payload, contracts, attempts);
      && w'.tick == w.tick + 1
      && (Cancelled(outcome) && Alive(w', o.clientOrderId)
          <==> !o.state.IsTerminal() && !Advance(o, script(w.tick).status(o)).state.IsTerminal())
  {
    AliveAfterPass(script, w, o, o.clientOrderId);
  }

  lemma CancelKeepsOrder(script: Script, w: World, o: BrokerOrder, payload: Payload)
    requires SoundWorld(w) && o in w.orders
    ensures SoundWorld(Cancel(script, w, o.brokerOrderId).0)
    ensures HasOrder(Cancel(script, w, o.brokerOrderId).0, o.clientOrderId)
  {
    CancelEvolves(script, w, o.brokerOrderId, payload);
    OnBooks(w, o);
    HasOrderKept(w, Cancel(script, w, o.brokerOrderId).0, payload, o.clientOrderId);
  }

  lemma CancellationExact(script: Script, cfg: Settings, w: World, o: BrokerOrder, deadline: real, payload: Payload,
                          contracts: nat, attempts: nat)
    requires SoundWorld(w) && o in w.orders && !o.state.IsTerminal() && w.clock >= deadline
    ensures CancelledAliveExactly(script, Confirmation(script, cfg, w, o, deadline),
                                  CancelAndConfirm(script, w, o, payload, contracts, attempts), o.clientOrderId)
  {
    CancelKeepsOrder(script, w, o, payload);
    var (w1, ok) := Cancel(script, w, o.brokerOrderId);
    if ok {
      LookupEvolves(script, w1, o.clientOrderId, payload);
      LookupKeeps(script, w1, o.clientOrderId);
      var (w2, reply) := Lookup(script, w1, o.clientOrderId);
      if reply.Found? && reply.order.filledQty > 0.0 {
        FinalisedAlive(script, w2, reply.order, payload, contracts, attempts);
      }
    }
  }

  lemma TerminalIsDead(script: Script, w: World, o: BrokerOrder, payload: Payload, contracts: nat, attempts: nat)
    requires SoundWorld(w) && o in w.orders && o.state.IsTerminal()
    ensures !Alive(Finalise(script, w, o, payload, contracts, attempts).0, o.clientOrderId)
  {
    AliveAfterPass(script, w, o, o.clientOrderId);
  }

  lemma EndCancelsExactly(script: Script, cfg: Settings, w: World, o: BrokerOrder, deadline: real,
                          payload: Payload, contracts: nat, attempts: nat)
    requires SoundWorld(w) && o in w.orders && (o.state.IsTerminal() || w.clock >= deadline)
    ensures CancelledAliveExactly(script, Confirmation(script, cfg, w, o, deadline),
                                  Await(script, cfg, w, o, deadline, payload, contracts, attempts), o.clientOrderId)
  {
    if o.state.IsTerminal() {
      AwaitTerminated(script, cfg, w, o, deadline, payload, contracts, attempts);
      TerminalIsDead(script, w, o, payload, contracts, attempts);
    } else {
      AwaitTimesOut(script, cfg, w, o, deadline, payload, contracts, attempts);
      CancellationExact(script, cfg, w, o, deadline, payload, contracts, attempts);
    }
  }

  lemma ConfirmationPolls(script: Script, cfg: Settings, w: World, o: BrokerOrder, deadline: real)
    requires !o.state.IsTerminal() && w.clock < deadline
    ensures var (w2, reply) := PollStep(script, cfg, w, o.clientOrderId);
      Confirmation(script, cfg, w, o, deadline)
      == if reply.Found? then Confirmation(script, cfg, w2, reply.order, deadline) else None
  {
  }

  lemma {:induction false} AwaitCancelsExactly(script: Script, cfg: Settings, w: World, o: BrokerOrder, deadline: real,
                                               payload: Payload, contracts: nat, attempts: nat)
    requires SoundWorld(w) && o in w.orders
    ensures CancelledAliveExactly(script, Confirmation(script, cfg, w, o, deadline),
                                  Await(script, cfg, w, o, deadline, payload, contracts, attempts), o.clientOrderId)
    decreases Polls(deadline - w.clock, cfg.pollInterval)
  {
    if o.state.IsTerminal() || w.clock >= deadline {
      EndCancelsExactly(script, cfg, w, o, deadline, payload, contracts, attempts);
    } else {
      var w2, reply := NextPoll(script, cfg, w, o, deadline, payload);
      if reply.Found? {
        AwaitCancelsExactly(script, cfg, w2, reply.order, deadline, payload, contracts, attempts);
      }
      PollCancelsExactly(script, cfg, w, o, deadline, payload, contracts, attempts, w2, reply);
    }
  }

  lemma PollCancelsExactly(script: Script, cfg: Settings, w: World, o: BrokerOrder, deadline: real, payload: Payload,
                           contracts: nat, attempts: nat, w2: World, reply: LookupReply)
    requires !o.state.IsTerminal() && w.clock < deadline && (w2, reply) == PollStep(script, cfg, w, o.clientOrderId)
    requires !reply.Absent?
    requires reply.Found? ==>
      CancelledAliveExactly(script, Confirmation(script, cfg, w2, reply.order, deadline),
                            Await(script, cfg, w2, reply.order, deadline, payload, contracts, attempts),
                            o.clientOrderId)
    ensures CancelledAliveExactly(script, Confirmation(script, cfg, w, o, deadline),
                                  Await(script, cfg, w, o, deadline, payload, contracts, attempts), o.clientOrderId)
  {
    AwaitPolls(script, cfg, w, o, deadline, payload, contracts, attempts);
    ConfirmationPolls(script, cfg, w, o, deadline);
    if reply.LookupFault? {
      NoneCancelled(script, (w2, Faulted), o.clientOrderId);
    }
  }

  /** Nothing was confirmed, and nothing is reported cancelled. */
  lemma NoneCancelled(script: Script, end: (World, Outcome), id: string)
    requires !Cancelled(end.1)
    ensures CancelledAliveExactly(script, None, end, id)
  {
  }

  lemma NextPoll(script: Script, cfg: Settings, w: World, o: BrokerOrder, deadline: real, payload: Payload)
    returns (w2: World, reply: LookupReply)
    requires SoundWorld(w) && o in w.orders && w.clock < deadline
    ensures (w2, reply) == PollStep(script, cfg, w, o.clientOrderId) && SoundWorld(w2) && !reply.Absent?
    ensures reply.Found? ==> reply.order in w2.orders && reply.order.clientOrderId == o.clientOrderId
    ensures Polls(deadline - w2.clock, cfg.pollInterval) < Polls(deadline - w.clock, cfg.pollInterval)
  {
    PollStepDecreases(script, cfg, w, o.clientOrderId, deadline);
    PollIsSound(script, cfg, w, o, payload);
    var step := PollStep(script, cfg, w, o.clientOrderId);
    w2, reply := step.0, step.1;
  }

  /** The confirmation of a submission resolved by lookup. */
  function ResolvedConfirmation(script: Script, cfg: Settings, w: World, id: string): Option<BrokerOrder> {
    match Lookup(script, w, id)
    case (w1, Found(o)) => TerminalConfirmation(script, cfg, w1, o)
    case _ => None
  }

  /** The same of a whole transmission: the confirmation its wait came to, if it came to one. */
  function TransmitConfirmation(script: Script, cfg: Settings, w: World, payload: Payload,
                                attempt: nat): Option<BrokerOrder>
    requires 1 <= attempt
    decreases cfg.maxRetries + 1 - attempt
  {
    if attempt > cfg.maxRetries then None
    else
      match Submit(script, w, payload)
      case (w1, Acknowledged(o)) => TerminalConfirmation(script, cfg, w1, o)
      case (w1, PermanentError) => None
      case (w1, TransientError) =>
        if attempt == cfg.maxRetries then ResolvedConfirmation(script, cfg, w1, payload.clientOrderId)
        else TransmitConfirmation(script, cfg, Pass(script, w1, Backoff(script, w1, attempt)), payload, attempt + 1)
  }

  /** The wait for an order, from the first look at it. */
  lemma WaitIsExact(script: Script, cfg: Settings, w: World, o: BrokerOrder, payload: Payload, contracts: nat,
                    attempts: nat, c: Option<BrokerOrder>, end: (World, Outcome))
    requires SoundWorld(w) && o in w.orders && c == TerminalConfirmation(script, cfg, w, o)
    requires end == AwaitTerminal(script, cfg, w, o, payload, contracts, attempts)
    ensures CancelledAliveExactly(script, c, end, o.clientOrderId)
  {
    var deadline := w.clock + cfg.timeoutSec;
    assert end == Await(script, cfg, w, o, deadline, payload, contracts, attempts);
    AwaitCancelsExactly(script, cfg, w, o, deadline, payload, contracts, attempts);
  }

  lemma ResolveFinds(script: Script, cfg: Settings, w: World, payload: Payload, contracts: nat, attempts: nat,
                     w1: World, o: BrokerOrder)
    requires Lookup(script, w, payload.clientOrderId) == (w1, Found(o))
    ensures ResolveUnknown(script, cfg, w, payload, contracts, attempts)
         == AwaitTerminal(script, cfg, w1, o, payload, contracts, attempts)
  {
  }

  lemma ResolveMisses(script: Script, cfg: Settings, w: World, payload: Payload, contracts: nat, attempts: nat)
    requires !Lookup(script, w, payload.clientOrderId).1.Found?
    ensures !Cancelled(ResolveUnknown(script, cfg, w, payload, contracts, attempts).1)
  {
  }

  lemma ResolvedConfirmationFinds(script: Script, cfg: Settings, w: World, id: string, w1: World, o: BrokerOrder)
    requires Lookup(script, w, id) == (w1, Found(o))
    ensures ResolvedConfirmation(script, cfg, w, id) == TerminalConfirmation(script, cfg, w1, o)
  {
  }

  lemma ResolutionCancelsExactly(script: Script, cfg: Settings, w: World, payload: Payload, contracts: nat,
                                 attempts: nat, c: Option<BrokerOrder>, end: (World, Outcome))
    requires SoundWorld(w) && c == ResolvedConfirmation(script, cfg, w, payload.clientOrderId)
    requires end == ResolveUnknown(script, cfg, w, payload, contracts, attempts)
    ensures CancelledAliveExactly(script, c, end, payload.clientOrderId)
  {
    LookupEvolves(script, w, payload.clientOrderId, payload);
    var (w1, reply) := Lookup(script, w, payload.clientOrderId);
    if reply.Found? {
      ResolveFinds(script, cfg, w, payload, contracts, attempts, w1, reply.order);
      ResolvedConfirmationFinds(script, cfg, w, payload.clientOrderId, w1, reply.order);
      WaitIsExact(script, cfg, w1, reply.order, payload, contracts, attempts, c, end);
    } else {
      ResolveMisses(script, cfg, w, payload, contracts, attempts);
      NoneCancelled(script, end, payload.clientOrderId);
    }
  }

  lemma SubmitAnswered(script: Script, cfg: Settings, w: World, payload: Payload, contracts: nat, attempt: nat,
                       w1: World, o: BrokerOrder)
    requires 1 <= attempt <= cfg.maxRetries && Submit(script, w, payload) == (w1, Acknowledged(o))
    ensures TransmitFrom(script, cfg, w, payload, contracts, attempt)
         == AwaitTerminal(script, cfg, w1, o, payload, contracts, attempt)
  {
  }

  lemma SubmitRefused(script: Script, cfg: Settings, w: World, payload: Payload, contracts: nat, attempt: nat)
    requires 1 <= attempt <= cfg.maxRetries && Submit(script, w, payload).1.PermanentError?
    ensures !Cancelled(TransmitFrom(script, cfg, w, payload, contracts, attempt).1)
    ensures TransmitConfirmation(script, cfg, w, payload, attempt) == None
  {
  }

  lemma SubmitConfirmation(script: Script, cfg: Settings, w: World, payload: Payload, attempt: nat, w1: World,
                           o: BrokerOrder)
    requires 1 <= attempt <= cfg.maxRetries && Submit(script, w, payload) == (w1, Acknowledged(o))
    ensures TransmitConfirmation(script, cfg, w, payload, attempt)
         == TerminalConfirmation(script, cfg, w1, o)
  {
  }

  lemma AnsweredCancelsExactly(script: Script, cfg: Settings, w: World, payload: Payload, contracts: nat, attempt: nat,
                               c: Option<BrokerOrder>, end: (World, Outcome))
    requires SoundWorld(w) && 1 <= attempt <= cfg.maxRetries && !Submit(script, w, payload).1.TransientError?
    requires c == TransmitConfirmation(script, cfg, w, payload, attempt)
    requires end == TransmitFrom(script, cfg, w, payload, contracts, attempt)
    ensures CancelledAliveExactly(script, c, end, payload.clientOrderId)
  {
    SubmitEvolves(script, w, payload);
    var (w1, reply) := Submit(script, w, payload);
    if reply.Acknowledged? {
      SubmitAnswered(script, cfg, w, payload, contracts, attempt, w1, reply.order);
      SubmitConfirmation(script, cfg, w, payload, attempt, w1, reply.order);
      WaitIsExact(script, cfg, w1, reply.order, payload, contracts, attempt, c, end);
    } else {
      SubmitRefused(script, cfg, w, payload, contracts, attempt);
      NoneCancelled(script, end, payload.clientOrderId);
    }
  }

  lemma ConfirmationInDoubt(script: Script, cfg: Settings, w: World, payload: Payload, attempt: nat)
    requires 1 <= attempt <= cfg.maxRetries && Submit(script, w, payload).1.TransientError?
    ensures var w1 := Submit(script, w, payload).0;
      TransmitConfirmation(script, cfg, w, payload, attempt)
      == if attempt == cfg.maxRetries then ResolvedConfirmation(script, cfg, w1, payload.clientOrderId)
         else TransmitConfirmation(script, cfg, Pass(script, w1, Backoff(script, w1, attempt)), payload, attempt + 1)
  {
  }

  /** A transmission reports CANCELLED of an order that lives on, for every broker, if and only
      if the lookup after its cancel found the order alive with a fill, and the market left it
      alive in the tick the report took. */
  lemma {:induction false} CancelledWhileAliveExactly(script: Script, cfg: Settings, w: World, payload: Payload,
                                                      contracts: nat, attempt: nat)
    requires SoundWorld(w) && 1 <= attempt
    ensures CancelledAliveExactly(script, TransmitConfirmation(script, cfg, w, payload, attempt),
                                  TransmitFrom(script, cfg, w, payload, contracts, attempt), payload.clientOrderId)
    decreases cfg.maxRetries + 1 - attempt
  {
    var c := TransmitConfirmation(script, cfg, w, payload, attempt);
    var end := TransmitFrom(script, cfg, w, payload, contracts, attempt);
    if attempt > cfg.maxRetries {
      NoneCancelled(script, end, payload.clientOrderId);
    } else if !Submit(script, w, payload).1.TransientError? {
      AnsweredCancelsExactly(script, cfg, w, payload, contracts, attempt, c, end);
    } else {
      TransmitInDoubt(script, cfg, w, payload, contracts, attempt);
      ConfirmationInDoubt(script, cfg, w, payload, attempt);
      SubmitIsSound(script, w, payload);
      var w1 := Submit(script, w, payload).0;
      if attempt == cfg.maxRetries {
        ResolutionCancelsExactly(script, cfg, w1, payload, contracts, attempt, c, end);
      } else {
        BackoffIsSound(script, w1, attempt, payload);
        CancelledWhileAliveExactly(script, cfg, Pass(script, w1, Backoff(script, w1, attempt)), payload, contracts,
                                   attempt + 1);
      }
    }
  }

  lemma SubmitIsSound(script: Script, w: World, payload: Payload)
    requires SoundWorld(w)
    ensures SoundWorld(Submit(script, w, payload).0)
  {
    SubmitEvolves(script, w, payload);
  }

  lemma BackoffIsSound(script: Script, w: World, attempt: nat, payload: Payload)
    requires SoundWorld(w) && attempt >= 1
    ensures SoundWorld(Pass(script, w, Backoff(script, w, attempt)))
  {
    PassEvolves(script, w, Backoff(script, w, attempt), payload);
  }

  /** The tick of the lookup that confirms a cancel: the first look is already too late if
      there is no time to wait, and otherwise one poll goes by. */
  function ConfirmingTick(cfg: Settings): nat {
    if cfg.timeoutSec <= 0.0 then 2 else 4
  }

  /** The first poll takes up all the time there is, and the order begins to fill between the
      cancel and the look. */
  function FillsDuringCancel(cfg: Settings): Script {
    t => Move(if t == 1 then cfg.timeoutSec else 0.0,
              (o: BrokerOrder) => if t >= ConfirmingTick(cfg) then (PartiallyFilled, 1.0) else (o.state, o.filledQty),
              Processed(false), true, true, [], 0.0)
  }

  lemma QuietTick(cfg: Settings, w: World, seconds: real)
    requires w.tick < ConfirmingTick(cfg)
    ensures Pass(FillsDuringCancel(cfg), w, seconds).orders == w.orders
  {
    var w1 := Pass(FillsDuringCancel(cfg), w, seconds);
    forall i | 0 <= i < |w.orders| ensures w1.orders[i] == w.orders[i] {
    }
  }

  /** The cancel and its confirmation, one tick each. */
  lemma CancelFindsFill(cfg: Settings, w: World, o: BrokerOrder, payload: Payload, contracts: nat, attempts: nat)
    requires w.orders == [o] && Sound(o) && o.state == New && o.filledQty == 0.0 && w.tick + 1 == ConfirmingTick(cfg)
    ensures var (w', outcome) := CancelAndConfirm(FillsDuringCancel(cfg), w, o, payload, contracts, attempts);
      && Cancelled(outcome) && outcome.result.contractsFilled == 1.0
      && |w'.orders| == 1 && w'.orders[0].state == PartiallyFilled && w'.orders[0].filledQty == 1.0
      && w'.orders[0].clientOrderId == o.clientOrderId
  {
    var script := FillsDuringCancel(cfg);
    QuietTick(cfg, w, 0.0);
    var (w1, ok) := Cancel(script, w, o.brokerOrderId);
    var marked := o.(cancelRequested := true);
    assert ok && w1.orders == [marked] && w1.tick == ConfirmingTick(cfg);
    var filled := marked.(state := PartiallyFilled, filledQty := 1.0);
    var (w2, reply) := Lookup(script, w1, o.clientOrderId);
    assert Sound(marked) && Sound(filled);
    assert w2.orders[0] == filled;
    assert w2.orders == [filled];
    assert reply == Found(filled);
    var (w3, _) := Finalise(script, w2, filled, payload, contracts, attempts);
    assert w3.orders[0] == filled;
  }

  lemma SubmitsQuietly(cfg: Settings, payload: Payload, clock: real)
    requires QtyOf(payload) >= 1
    ensures var (w1, reply) := Submit(FillsDuringCancel(cfg), World([], clock, 0), payload);
      && reply.Acknowledged? && w1.orders == [reply.order] && w1.tick == 1 && w1.clock == clock
      && Sound(reply.order) && reply.order.state == New && reply.order.filledQty == 0.0
      && reply.order.clientOrderId == payload.clientOrderId
  {
    assert ConfirmingTick(cfg) >= 2;
  }

  lemma PollsQuietly(cfg: Settings, w: World, o: BrokerOrder)
    requires cfg.timeoutSec > 0.0 && w.orders == [o] && w.tick == 1
    ensures var (w1, reply) := PollStep(FillsDuringCancel(cfg), cfg, w, o.clientOrderId);
      reply == Found(o) && w1.orders == [o] && w1.tick == 3 && w1.clock >= w.clock + cfg.timeoutSec
  {
    var script := FillsDuringCancel(cfg);
    QuietTick(cfg, w, cfg.pollInterval);
    QuietTick(cfg, Pass(script, w, cfg.pollInterval), 0.0);
  }

  /** The confirmation is not terminal but has a fill: the engine reports CANCELLED, the
      cycle records no policy, and the order lives on with a contract filled. Any time to wait,
      any number of retries and any size of order will do. */
  lemma CancelledWhileFilling(cfg: Settings, payload: Payload, contracts: nat, clock: real)
    requires cfg.maxRetries >= 1 && QtyOf(payload) >= 1
    ensures var (w', outcome) := TransmitFrom(FillsDuringCancel(cfg), cfg, World([], clock, 0), payload, contracts, 1);
      && Cancelled(outcome) && outcome.result.contractsFilled == 1.0
      && |w'.orders| == 1 && w'.orders[0].state == PartiallyFilled && w'.orders[0].filledQty == 1.0
      && w'.orders[0].clientOrderId == payload.clientOrderId
  {
    SubmitsQuietly(cfg, payload, clock);
    var (w1, r1) := Submit(FillsDuringCancel(cfg), World([], clock, 0), payload);
    AwaitFindsFill(cfg, w1, r1.order, payload, contracts);
  }

  lemma AwaitFindsFill(cfg: Settings, w: World, o: BrokerOrder, payload: Payload, contracts: nat)
    requires w.orders == [o] && w.tick == 1 && Sound(o) && o.state == New && o.filledQty == 0.0
    ensures var (w', outcome) := AwaitTerminal(FillsDuringCancel(cfg), cfg, w, o, payload, contracts, 1);
      && Cancelled(outcome) && outcome.result.contractsFilled == 1.0
      && |w'.orders| == 1 && w'.orders[0].state == PartiallyFilled && w'.orders[0].filledQty == 1.0
      && w'.orders[0].clientOrderId == o.clientOrderId
  {
    var script, deadline := FillsDuringCancel(cfg), w.clock + cfg.timeoutSec;
    if cfg.timeoutSec <= 0.0 {
      AwaitTimesOut(script, cfg, w, o, deadline, payload, contracts, 1);
      CancelFindsFill(cfg, w, o, payload, contracts, 1);
    } else {
      PollsQuietly(cfg, w, o);
      AwaitPolls(script, cfg, w, o, deadline, payload, contracts, 1);
      var w2 := PollStep(script, cfg, w, o.clientOrderId).0;
      AwaitTimesOut(script, cfg, w2, o, deadline, payload, contracts, 1);
      CancelFindsFill(cfg, w2, o, payload, contracts, 1);
    }
  }

  ghost predicate CancelledMeansDead(script: Script, cfg: Settings, w: World, payload: Payload, contracts: nat) {
    var (w', outcome) := TransmitFrom(script, cfg, w, payload, contracts, 1);
    Cancelled(outcome) ==> !Alive(w', payload.clientOrderId)
  }

  /** The report of a cancelled transmission of an order nobody has placed yet. */
  ghost predicate CancellationTruthful(cfg: Settings) {
    forall script: Script, w: World, payload: Payload, contracts: nat ::
      SoundWorld(w) && !HasOrder(w, payload.clientOrderId) ==> CancelledMeansDead(script, cfg, w, payload, contracts)
  }

  /** A cancellation is always the truth, for every broker, exactly when nothing is ever
      submitted: no time to wait and no number of retries helps. */
  lemma CancellationTruthfulExactly(cfg: Settings)
    ensures CancellationTruthful(cfg) <==> cfg.maxRetries == 0
  {
    if cfg.maxRetries > 0 {
      OneLot();
      var w := World([], 0.0, 0);
      CancelledWhileFilling(cfg, ONE_LOT, 1, 0.0);
      assert SoundWorld(w) && !HasOrder(w, ONE_LOT.clientOrderId);
      assert Alive(TransmitFrom(FillsDuringCancel(cfg), cfg, w, ONE_LOT, 1, 1).0, ONE_LOT.clientOrderId);
      assert !CancelledMeansDead(FillsDuringCancel(cfg), cfg, w, ONE_LOT, 1);
    }
  }
}
