/** The errors that escape a transmission: exactly when they do, and what they leave behind. */
module Escapes {
  import opened Numerals
  import opened Decimals
  import opened Domain
  import opened Orders
  import opened Broker
  import opened Engine
  import opened ExecutionEdges

  // ----- the requests that must be answered --------------------------------------------

  /** A request whose failure nothing catches, and the tick it is made at. */
  datatype Ask = Poll(tick: nat) | CancelIt(tick: nat) | Confirm(tick: nat)

  /** The broker answers, and a cancel also reaches it. */
  predicate Answered(script: Script, a: Ask) {
    script(a.tick).answers && (a.CancelIt? ==> script(a.tick).cancelArrives)
  }

  predicate AllAnswered(script: Script, asks: seq<Ask>) {
    forall i :: 0 <= i < |asks| ==> Answered(script, asks[i])
  }

  /** The requests of the wait for an order, as far as it comes: polls, then perhaps a cancel
      and its confirmation. */
  function WaitingAsks(script: Script, cfg: Settings, w: World, o: BrokerOrder, deadline: real): seq<Ask>
    decreases Polls(deadline - w.clock, cfg.pollInterval)
  {
    if o.state.IsTerminal() then []
    else if w.clock >= deadline then
      [CancelIt(w.tick)] + (if Cancel(script, w, o.brokerOrderId).1 then [Confirm(w.tick + 1)] else [])
    else
      PollStepDecreases(script, cfg, w, o.clientOrderId, deadline);
      [Poll(w.tick + 1)] +
      (match PollStep(script, cfg, w, o.clientOrderId)
       case (w2, Found(polled)) => WaitingAsks(script, cfg, w2, polled, deadline)
       case _ => [])
  }

  /** The same with the deadline run from the first look. */
  function TerminalAsks(script: Script, cfg: Settings, w: World, o: BrokerOrder): seq<Ask> {
    WaitingAsks(script, cfg, w, o, w.clock + cfg.timeoutSec)
  }

  function ResolvingAsks(script: Script, cfg: Settings, w: World, id: string): seq<Ask> {
    match Lookup(script, w, id)
    case (w1, Found(o)) => TerminalAsks(script, cfg, w1, o)
    case _ => []
  }

  /** The requests of one transmission that must be answered. */
  function AsksOf(script: Script, cfg: Settings, w: World, payload: Payload, attempt: nat): seq<Ask>
    requires 1 <= attempt
    decreases cfg.maxRetries + 1 - attempt
  {
    if attempt > cfg.maxRetries then []
    else
      match Submit(script, w, payload)
      case (w1, Acknowledged(o)) => TerminalAsks(script, cfg, w1, o)
      case (w1, PermanentError) => []
      case (w1, TransientError) =>
        if attempt == cfg.maxRetries then ResolvingAsks(script, cfg, w1, payload.clientOrderId)
        else AsksOf(script, cfg, Pass(script, w1, Backoff(script, w1, attempt)), payload, attempt + 1)
  }

  // ----- an error escapes exactly when one goes unanswered ---------------------------------

  /** An error escaped exactly when one of these went unanswered, and no other error did. */
  predicate FaultsExactly(script: Script, asks: seq<Ask>, outcome: Outcome) {
    && !outcome.Unauthorized? && !outcome.Unbuildable?
    && (outcome.Faulted? <==> !AllAnswered(script, asks))
  }

  lemma NothingAsked(script: Script, outcome: Outcome)
    requires outcome.Done?
    ensures FaultsExactly(script, [], outcome)
  {
  }

  lemma CancelFaults(script: Script, w: World, o: BrokerOrder, payload: Payload, contracts: nat, attempts: nat)
    ensures var ok := Cancel(script, w, o.brokerOrderId).1;
      FaultsExactly(script, [CancelIt(w.tick)] + (if ok then [Confirm(w.tick + 1)] else []),
                    CancelAndConfirm(script, w, o, payload, contracts, attempts).1)
  {
    var ok := Cancel(script, w, o.brokerOrderId).1;
    var asks := [CancelIt(w.tick)] + (if ok then [Confirm(w.tick + 1)] else []);
    assert asks[0] == CancelIt(w.tick) && (ok ==> asks[1] == Confirm(w.tick + 1));
  }

  lemma EndFaults(script: Script, cfg: Settings, w: World, o: BrokerOrder, deadline: real, payload: Payload,
                  contracts: nat, attempts: nat)
    requires o.state.IsTerminal() || w.clock >= deadline
    ensures FaultsExactly(script, WaitingAsks(script, cfg, w, o, deadline),
                          Await(script, cfg, w, o, deadline, payload, contracts, attempts).1)
  {
    if o.state.IsTerminal() {
      AwaitTerminated(script, cfg, w, o, deadline, payload, contracts, attempts);
    } else {
      AwaitTimesOut(script, cfg, w, o, deadline, payload, contracts, attempts);
      CancelFaults(script, w, o, payload, contracts, attempts);
    }
  }

  lemma AsksPoll(script: Script, cfg: Settings, w: World, o: BrokerOrder, deadline: real)
    requires !o.state.IsTerminal() && w.clock < deadline
    ensures var (w2, reply) := PollStep(script, cfg, w, o.clientOrderId);
      && WaitingAsks(script, cfg, w, o, deadline)
         == [Poll(w.tick + 1)] + (if reply.Found? then WaitingAsks(script, cfg, w2, reply.order, deadline) else [])
      && (reply.LookupFault? <==> !script(w.tick + 1).answers)
  {
  }

  lemma PolledFaults(script: Script, t: nat, reply: LookupReply, rest: seq<Ask>, outcome: Outcome)
    requires reply.LookupFault? <==> !script(t).answers
    requires match reply
             case LookupFault => outcome == Faulted
             case Absent => outcome.Done?
             case Found(_) => FaultsExactly(script, rest, outcome)
    ensures FaultsExactly(script, [Poll(t)] + (if reply.Found? then rest else []), outcome)
  {
    var asks := [Poll(t)] + (if reply.Found? then rest else []);
    assert asks[0] == Poll(t);
    if reply.Found? {
      assert forall i :: 0 <= i < |rest| ==> asks[i + 1] == rest[i];
    }
  }

  lemma PollFaults(script: Script, cfg: Settings, w: World, o: BrokerOrder, deadline: real, payload: Payload,
                   contracts: nat, attempts: nat, w2: World, reply: LookupReply)
    requires !o.state.IsTerminal() && w.clock < deadline && (w2, reply) == PollStep(script, cfg, w, o.clientOrderId)
    requires reply.Found? ==>
      FaultsExactly(script, WaitingAsks(script, cfg, w2, reply.order, deadline),
                    Await(script, cfg, w2, reply.order, deadline, payload, contracts, attempts).1)
    ensures FaultsExactly(script, WaitingAsks(script, cfg, w, o, deadline),
                          Await(script, cfg, w, o, deadline, payload, contracts, attempts).1)
  {
    AwaitPolls(script, cfg, w, o, deadline, payload, contracts, attempts);
    AsksPoll(script, cfg, w, o, deadline);
    PolledFaults(script, w.tick + 1, reply,
                 if reply.Found? then WaitingAsks(script, cfg, w2, reply.order, deadline) else [],
                 Await(script, cfg, w, o, deadline, payload, contracts, attempts).1);
  }

  lemma {:induction false} AwaitFaults(script: Script, cfg: Settings, w: World, o: BrokerOrder, deadline: real,
                                       payload: Payload, contracts: nat, attempts: nat)
    ensures FaultsExactly(script, WaitingAsks(script, cfg, w, o, deadline),
                          Await(script, cfg, w, o, deadline, payload, contracts, attempts).1)
    decreases Polls(deadline - w.clock, cfg.pollInterval)
  {
    if o.state.IsTerminal() || w.clock >= deadline {
      EndFaults(script, cfg, w, o, deadline, payload, contracts, attempts);
    } else {
      PollStepDecreases(script, cfg, w, o.clientOrderId, deadline);
      var (w2, reply) := PollStep(script, cfg, w, o.clientOrderId);
      if reply.Found? {
        AwaitFaults(script, cfg, w2, reply.order, deadline, payload, contracts, attempts);
      }
      PollFaults(script, cfg, w, o, deadline, payload, contracts, attempts, w2, reply);
    }
  }

  lemma TerminalFaults(script: Script, cfg: Settings, w: World, o: BrokerOrder, payload: Payload, contracts: nat,
                       attempts: nat)
    ensures FaultsExactly(script, TerminalAsks(script, cfg, w, o),
                          AwaitTerminal(script, cfg, w, o, payload, contracts, attempts).1)
  {
    AwaitFaults(script, cfg, w, o, w.clock + cfg.timeoutSec, payload, contracts, attempts);
  }

  lemma ResolveFaults(script: Script, cfg: Settings, w: World, payload: Payload, contracts: nat, attempts: nat)
    ensures FaultsExactly(script, ResolvingAsks(script, cfg, w, payload.clientOrderId),
                          ResolveUnknown(script, cfg, w, payload, contracts, attempts).1)
  {
    var (w1, reply) := Lookup(script, w, payload.clientOrderId);
    if reply.Found? {
      ResolveFinds(script, cfg, w, payload, contracts, attempts, w1, reply.order);
      TerminalFaults(script, cfg, w1, reply.order, payload, contracts, attempts);
    }
  }

  lemma AnsweredFaults(script: Script, cfg: Settings, w: World, payload: Payload, contracts: nat, attempt: nat)
    requires 1 <= attempt <= cfg.maxRetries && !Submit(script, w, payload).1.TransientError?
    ensures FaultsExactly(script, AsksOf(script, cfg, w, payload, attempt),
                          TransmitFrom(script, cfg, w, payload, contracts, attempt).1)
  {
    var (w1, reply) := Submit(script, w, payload);
    if reply.Acknowledged? {
      SubmitAnswered(script, cfg, w, payload, contracts, attempt, w1, reply.order);
      TerminalFaults(script, cfg, w1, reply.order, payload, contracts, attempt);
    }
  }

  lemma AsksInDoubt(script: Script, cfg: Settings, w: World, payload: Payload, attempt: nat)
    requires 1 <= attempt <= cfg.maxRetries && Submit(script, w, payload).1.TransientError?
    ensures var w1 := Submit(script, w, payload).0;
      AsksOf(script, cfg, w, payload, attempt)
      == if attempt == cfg.maxRetries then ResolvingAsks(script, cfg, w1, payload.clientOrderId)
         else AsksOf(script, cfg, Pass(script, w1, Backoff(script, w1, attempt)), payload, attempt + 1)
  {
  }

  /** For every broker: an error escapes a transmission if and only if a poll, a cancel or the
      lookup that confirms it went unanswered. Lost submits, refusals, a silent resolving lookup
      and unread positions never let one out. */
  lemma {:induction false} TransmitFaultsExactly(script: Script, cfg: Settings, w: World, payload: Payload,
                                                 contracts: nat, attempt: nat)
    requires 1 <= attempt
    ensures FaultsExactly(script, AsksOf(script, cfg, w, payload, attempt),
                          TransmitFrom(script, cfg, w, payload, contracts, attempt).1)
    decreases cfg.maxRetries + 1 - attempt
  {
    if attempt > cfg.maxRetries {
      NothingAsked(script, TransmitFrom(script, cfg, w, payload, contracts, attempt).1);
    } else if !Submit(script, w, payload).1.TransientError? {
      AnsweredFaults(script, cfg, w, payload, contracts, attempt);
    } else {
      TransmitInDoubt(script, cfg, w, payload, contracts, attempt);
      AsksInDoubt(script, cfg, w, payload, attempt);
      var w1 := Submit(script, w, payload).0;
      if attempt == cfg.maxRetries {
        ResolveFaults(script, cfg, w1, payload, contracts, attempt);
      } else {
        TransmitFaultsExactly(script, cfg, Pass(script, w1, Backoff(script, w1, attempt)), payload, contracts,
                              attempt + 1);
      }
    }
  }

  // ----- silence ------------------------------------------------------------------------

  /** A broker that acknowledges every submit and answers nothing else. */
  function Silence(): Script {
    t => Move(0.0, (o: BrokerOrder) => (o.state, o.filledQty), Processed(false), false, false, [], 0.0)
  }

  lemma SilentSubmit(w: World, payload: Payload)
    requires QtyOf(payload) >= 1 && !HasOrder(w, payload.clientOrderId)
    ensures var (w1, reply) := Submit(Silence(), w, payload);
      && reply.Acknowledged? && reply.order.state == New && HasOrder(w1, payload.clientOrderId)
      && |w1.orders| == |w.orders| + 1
  {
    PassAddsNothing(Silence(), w, 0.0, payload.clientOrderId);
    var w2 := Submit(Silence(), w, payload).0;
    assert w2.orders[|w2.orders| - 1].clientOrderId == payload.clientOrderId;
  }

  lemma StillThere(w: World, w1: World, id: string)
    requires |w1.orders| == |w.orders| && HasOrder(w, id)
    requires forall i :: 0 <= i < |w.orders| ==> w1.orders[i].clientOrderId == w.orders[i].clientOrderId
    ensures HasOrder(w1, id)
  {
    var i :| 0 <= i < |w.orders| && w.orders[i].clientOrderId == id;
    assert w1.orders[i].clientOrderId == id;
  }

  /** The first request after the submit raises: a poll, or the cancel if there is no time. */
  lemma SilentWait(cfg: Settings, w: World, o: BrokerOrder, payload: Payload, contracts: nat, attempts: nat)
    requires o.state == New
    ensures var (w', outcome) := AwaitTerminal(Silence(), cfg, w, o, payload, contracts, attempts);
      && outcome == Faulted && |w'.orders| == |w.orders|
      && forall i :: 0 <= i < |w.orders| ==> w'.orders[i].clientOrderId == w.orders[i].clientOrderId
  {
    var deadline := w.clock + cfg.timeoutSec;
    if w.clock >= deadline {
      AwaitTimesOut(Silence(), cfg, w, o, deadline, payload, contracts, attempts);
    } else {
      AwaitPolls(Silence(), cfg, w, o, deadline, payload, contracts, attempts);
    }
  }

  lemma SilentAnswer(cfg: Settings, w: World, payload: Payload, contracts: nat)
    requires cfg.maxRetries >= 1 && Submit(Silence(), w, payload).1.Acknowledged?
    ensures var (w1, reply) := Submit(Silence(), w, payload);
      TransmitFrom(Silence(), cfg, w, payload, contracts, 1)
      == AwaitTerminal(Silence(), cfg, w1, reply.order, payload, contracts, 1)
  {
  }

  /** Then every transmission of a new order raises, and leaves the order behind. */
  lemma SilenceFaults(cfg: Settings, w: World, payload: Payload, contracts: nat)
    requires cfg.maxRetries >= 1 && QtyOf(payload) >= 1 && !HasOrder(w, payload.clientOrderId)
    ensures var (w', outcome) := TransmitFrom(Silence(), cfg, w, payload, contracts, 1);
      outcome == Faulted && HasOrder(w', payload.clientOrderId) && |w'.orders| == |w.orders| + 1
  {
    SilentSubmit(w, payload);
    SilentAnswer(cfg, w, payload, contracts);
    var (w1, reply) := Submit(Silence(), w, payload);
    SilentWait(cfg, w1, reply.order, payload, contracts, 1);
    StillThere(w1, TransmitFrom(Silence(), cfg, w, payload, contracts, 1).0, payload.clientOrderId);
  }

  /** No transmission of a new order ever raises. */
  ghost predicate NeverRaises(cfg: Settings) {
    forall script: Script, w: World, payload: Payload, contracts: nat ::
      SoundWorld(w) && !HasOrder(w, payload.clientOrderId) ==>
        !TransmitFrom(script, cfg, w, payload, contracts, 1).1.Faulted?
  }

  /** No time to wait and no number of retries helps: it is so only if nothing is ever sent. */
  lemma NeverRaisesExactly(cfg: Settings)
    ensures NeverRaises(cfg) <==> cfg.maxRetries == 0
  {
    if cfg.maxRetries > 0 {
      OneLot();
      var w := World([], 0.0, 0);
      SilenceFaults(cfg, w, ONE_LOT, 1);
      assert SoundWorld(w) && !HasOrder(w, ONE_LOT.clientOrderId);
      assert TransmitFrom(Silence(), cfg, w, ONE_LOT, 1, 1).1.Faulted?;
    }
  }
}
