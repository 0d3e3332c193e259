/** The guarded execution path: authorise, build, submit with retries, poll to a
    terminal state, cancel and confirm on timeout. */
module Engine {
  import opened Decimals
  import opened Division
  import opened Domain
  import opened Verdicts
  import opened Rules
  import opened Orders
  import opened Broker

  /** Timeout, poll interval, retries, and the optional pre-flight that may block. */
  datatype Config = Config(timeoutSec: real, pollInterval: real, maxRetries: nat, preflight: Option<Payload -> bool>)

  type Settings = c: Config | c.pollInterval > 0.0 witness Config(120.0, 2.0, 3, None)

  datatype Status = FILLED | PARTIAL | CANCELLED | REJECTED | TIMED_OUT | FAILED

  datatype Divergence = ReconcileFailed | Holds(symbol: string, qty: real)

  datatype ExecutionResult = ExecutionResult(
    status: Status,
    clientOrderId: string,
    brokerOrderId: Option<nat>,
    contractsOrdered: nat,
    contractsFilled: real,
    request: Payload,
    attempts: nat,
    divergences: seq<Divergence>)

  /** How a call ends: refused, unbuildable, a broker error that escaped, or a result. */
  datatype Outcome =
    | Unauthorized(why: Refusal) | Unbuildable(error: OrderError) | Faulted | Done(result: ExecutionResult)

  // ----- reconciliation -----------------------------------------------------

  function Divergences(positions: seq<Position>): seq<Divergence> {
    if positions == [] then []
    else
      var rest := Divergences(positions[1..]);
      if positions[0].qty != 0.0 then [Holds(positions[0].symbol, positions[0].qty)] + rest else rest
  }

  /** `_reconcile` */
  function Reconcile(script: Script, w: World): (World, seq<Divergence>) {
    var (w1, positions) := ListPositions(script, w);
    (w1, match positions case None => [ReconcileFailed] case Some(ps) => Divergences(ps))
  }

  // ----- classification -----------------------------------------------------

  /** The branches of `_finalise`. */
  function Classify(o: BrokerOrder): Status {
    if o.IsPartial() then PARTIAL
    else if o.state.Filled? then FILLED
    else if o.state.Rejected? then REJECTED
    else CANCELLED
  }

  function Finalise(script: Script, w: World, o: BrokerOrder, payload: Payload, contracts: nat,
                    attempts: nat): (World, Outcome) {
    var (w1, divergences) := Reconcile(script, w);
    (w1, Done(ExecutionResult(Classify(o), o.clientOrderId, Some(o.brokerOrderId), contracts, o.filledQty,
                              payload, attempts, divergences)))
  }

  /** `_cancel_and_confirm` */
  function CancelAndConfirm(script: Script, w: World, o: BrokerOrder, payload: Payload, contracts: nat,
                            attempts: nat): (World, Outcome) {
    var (w1, ok) := Cancel(script, w, o.brokerOrderId);
    if !ok then (w1, Faulted)
    else
      match Lookup(script, w1, o.clientOrderId)
      case (w2, LookupFault) => (w2, Faulted)
      case (w2, reply) =>
        var confirmed := if reply.Found? then reply.order else o;
        if confirmed.filledQty > 0.0 then Finalise(script, w2, confirmed, payload, contracts, attempts)
        else
          var (w3, divergences) := Reconcile(script, w2);
          (w3, Done(ExecutionResult(TIMED_OUT, o.clientOrderId, Some(o.brokerOrderId), contracts, 0.0,
                                    payload, attempts, divergences)))
  }

  lemma QuotientGap(x: real, y: real, a: real, b: real, c: real)
    requires c > 0.0 && x * c == a && y * c == b && a <= b - c
    ensures x <= y - 1.0
  {
    assert (y - 1.0) * c == y * c - c;
    if x > y - 1.0 {
      RealLt(y - 1.0, x, c);
      assert false;
    }
  }

  lemma FloorGap(remaining: real, interval: real)
    requires interval > 0.0 && remaining > 0.0
    ensures ((remaining - interval) / interval).Floor < (remaining / interval).Floor
    ensures (remaining / interval).Floor >= 0
  {
    var x, y := (remaining - interval) / interval, remaining / interval;
    assert x * interval == remaining - interval && y * interval == remaining;
    QuotientGap(x, y, remaining - interval, remaining, interval);
    QuotientGap(-1.0, y, -interval, remaining, interval);
  }

  /** The polls left before the deadline, at most. */
  function Polls(remaining: real, interval: real): nat
    requires interval > 0.0
    decreases (remaining / interval).Floor + 1
  {
    if remaining <= 0.0 then 0
    else
      FloorGap(remaining, interval);
      1 + Polls(remaining - interval, interval)
  }

  lemma {:induction false} PollsMonotone(a: real, b: real, interval: real)
    requires interval > 0.0 && a <= b
    ensures Polls(a, interval) <= Polls(b, interval)
    decreases Polls(b, interval)
  {
    if a > 0.0 {
      PollsMonotone(a - interval, b - interval, interval);
    }
  }

  /** Sleep for one interval, then ask. */
  function PollStep(script: Script, cfg: Settings, w: World, id: string): (World, LookupReply) {
    Lookup(script, Pass(script, w, cfg.pollInterval), id)
  }

  lemma PollStepDecreases(script: Script, cfg: Settings, w: World, id: string, deadline: real)
    requires w.clock < deadline
    ensures Polls(deadline - PollStep(script, cfg, w, id).0.clock, cfg.pollInterval)
          < Polls(deadline - w.clock, cfg.pollInterval)
  {
    var w2 := PollStep(script, cfg, w, id).0;
    assert w2.clock >= w.clock + cfg.pollInterval;
    PollsMonotone(deadline - w2.clock, deadline - w.clock - cfg.pollInterval, cfg.pollInterval);
  }

  function Vanished(o: BrokerOrder, payload: Payload, contracts: nat, attempts: nat): Outcome {
    Done(ExecutionResult(FAILED, o.clientOrderId, Some(o.brokerOrderId), contracts, 0.0, payload, attempts, []))
  }

  /** `_await_terminal` after the deadline is set: poll, or time out and cancel. It
      terminates because every poll sleeps through at least one interval. */
  function Await(script: Script, cfg: Settings, w: World, o: BrokerOrder, deadline: real,
                 payload: Payload, contracts: nat, attempts: nat): (World, Outcome)
    decreases Polls(deadline - w.clock, cfg.pollInterval)
  {
    if o.state.IsTerminal() then Finalise(script, w, o, payload, contracts, attempts)
    else if w.clock >= deadline then CancelAndConfirm(script, w, o, payload, contracts, attempts)
    else
      PollStepDecreases(script, cfg, w, o.clientOrderId, deadline);
      match PollStep(script, cfg, w, o.clientOrderId)
      case (w2, LookupFault) => (w2, Faulted)
      case (w2, Absent) => (w2, Vanished(o, payload, contracts, attempts))
      case (w2, Found(polled)) => Await(script, cfg, w2, polled, deadline, payload, contracts, attempts)
  }

  lemma AwaitTerminated(script: Script, cfg: Settings, w: World, o: BrokerOrder, deadline: real,
                        payload: Payload, contracts: nat, attempts: nat)
    requires o.state.IsTerminal()
    ensures Await(script, cfg, w, o, deadline, payload, contracts, attempts)
         == Finalise(script, w, o, payload, contracts, attempts)
  {
  }

  lemma AwaitTimesOut(script: Script, cfg: Settings, w: World, o: BrokerOrder, deadline: real,
                      payload: Payload, contracts: nat, attempts: nat)
    requires !o.state.IsTerminal() && w.clock >= deadline
    ensures Await(script, cfg, w, o, deadline, payload, contracts, attempts)
         == CancelAndConfirm(script, w, o, payload, contracts, attempts)
  {
  }

  lemma AwaitPolls(script: Script, cfg: Settings, w: World, o: BrokerOrder, deadline: real,
                   payload: Payload, contracts: nat, attempts: nat)
    requires !o.state.IsTerminal() && w.clock < deadline
    ensures var (w2, reply) := PollStep(script, cfg, w, o.clientOrderId);
      Await(script, cfg, w, o, deadline, payload, contracts, attempts)
      == match reply
         case LookupFault => (w2, Faulted)
         case Absent => (w2, Vanished(o, payload, contracts, attempts))
         case Found(polled) => Await(script, cfg, w2, polled, deadline, payload, contracts, attempts)
  {
  }

  /** `_await_terminal`: the deadline runs from the first look. */
  function AwaitTerminal(script: Script, cfg: Settings, w: World, o: BrokerOrder,
                         payload: Payload, contracts: nat, attempts: nat): (World, Outcome) {
    Await(script, cfg, w, o, w.clock + cfg.timeoutSec, payload, contracts, attempts)
  }

  function Unresolved(payload: Payload, contracts: nat, attempts: nat, divergences: seq<Divergence>): Outcome {
    Done(ExecutionResult(FAILED, payload.clientOrderId, None, contracts, 0.0, payload, attempts, divergences))
  }

  /** `_resolve_unknown` */
  function ResolveUnknown(script: Script, cfg: Settings, w: World, payload: Payload, contracts: nat,
                          attempts: nat): (World, Outcome) {
    match Lookup(script, w, payload.clientOrderId)
    case (w1, Found(existing)) =>
      AwaitTerminal(script, cfg, w1, existing, payload, contracts, attempts)
    case (w1, _) =>
      var (w2, divergences) := Reconcile(script, w1);
      (w2, Unresolved(payload, contracts, attempts, divergences))
  }

  function PowTwo(k: nat): real {
    if k == 0 then 1.0 else 2.0 * PowTwo(k - 1)
  }

  /** `_backoff`: exponential, with jitter. */
  function Backoff(script: Script, w: World, attempt: nat): real
    requires attempt >= 1
  {
    0.5 * PowTwo(attempt - 1) * (1.0 + AtLeastZero(script(w.tick).jitter))
  }

  function NotSent(status: Status, payload: Payload, contracts: nat, attempts: nat): Outcome {
    Done(ExecutionResult(status, payload.clientOrderId, None, contracts, 0.0, payload, attempts, []))
  }

  /** `_transmit` from the given attempt on. */
  function TransmitFrom(script: Script, cfg: Settings, w: World, payload: Payload, contracts: nat,
                        attempt: nat): (World, Outcome)
    requires 1 <= attempt
    decreases cfg.maxRetries + 1 - attempt
  {
    if attempt > cfg.maxRetries then (w, NotSent(FAILED, payload, contracts, attempt - 1))
    else
      match Submit(script, w, payload)
      case (w1, Acknowledged(o)) =>
        AwaitTerminal(script, cfg, w1, o, payload, contracts, attempt)
      case (w1, PermanentError) => (w1, NotSent(REJECTED, payload, contracts, attempt))
      case (w1, TransientError) =>
        if attempt == cfg.maxRetries then ResolveUnknown(script, cfg, w1, payload, contracts, attempt)
        else
          TransmitFrom(script, cfg, Pass(script, w1, Backoff(script, w1, attempt)), payload, contracts, attempt + 1)
  }

  /** A submit in doubt is followed by the resolving lookup, or by a pause and the next attempt. */
  lemma TransmitInDoubt(script: Script, cfg: Settings, w: World, payload: Payload, contracts: nat, attempt: nat)
    requires 1 <= attempt <= cfg.maxRetries && Submit(script, w, payload).1.TransientError?
    ensures var w1 := Submit(script, w, payload).0;
      TransmitFrom(script, cfg, w, payload, contracts, attempt)
      == if attempt == cfg.maxRetries then ResolveUnknown(script, cfg, w1, payload, contracts, attempt)
         else
           TransmitFrom(script, cfg, Pass(script, w1, Backoff(script, w1, attempt)), payload, contracts, attempt + 1)
  {
  }

  /** What the authorised call transmits, if it gets that far. */
  datatype Prepared = Ready(payload: Payload, contracts: nat) | Stopped(outcome: Outcome)

  function Prepare(host: Host, cfg: Settings, a: Authorization, p: Proposal, targetDebit: Option<real>,
                   step: int): Prepared {
    match a
    case Refused(why) => Stopped(Unauthorized(why))
    case Granted(n) =>
      match BuildOrder(host, p, n, targetDebit, step)
      case Fails(e) => Stopped(Unbuildable(e))
      case Ok(payload) =>
        if cfg.preflight.Some? && cfg.preflight.value(payload) then Stopped(NotSent(REJECTED, payload, n, 0))
        else Ready(payload, n)
  }

  /** `execute`, as a function of the world and of the nonces consumed so far. */
  function Execute(host: Host, script: Script, cfg: Settings, secret: string, w: World, consumed: set<string>,
                   p: Proposal, v: Option<KernelVerdict>, now: int, targetDebit: Option<real>, step: int)
    : (World, set<string>, Outcome)
  {
    var (a, consumed') := AuthorizeWith(host, v, ProposalHash(host, p), secret, now, consumed);
    match Prepare(host, cfg, a, p, targetDebit, step)
    case Stopped(outcome) => (w, consumed', outcome)
    case Ready(payload, n) =>
      var (w', outcome) := TransmitFrom(script, cfg, w, payload, n, 1);
      (w', consumed', outcome)
  }

  // ----- the engine ---------------------------------------------------------

  class ExecutionEngine {
    const host: Host
    const broker: BrokerLink
    const nonces: NonceRegistry
    const secret: string
    const cfg: Settings

    constructor (host: Host, broker: BrokerLink, nonces: NonceRegistry, secret: string, cfg: Settings)
      ensures this.host == host && this.broker == broker && this.nonces == nonces
      ensures this.secret == secret && this.cfg == cfg
    {
      this.host, this.broker, this.nonces, this.secret, this.cfg := host, broker, nonces, secret, cfg;
    }

    method ReconcileNow() returns (divergences: seq<Divergence>)
      modifies broker
      ensures (broker.world, divergences) == Reconcile(broker.script, old(broker.world))
    {
      var positions := broker.Positions();
      divergences := match positions case None => [ReconcileFailed] case Some(ps) => Divergences(ps);
    }

    method FinaliseOrder(o: BrokerOrder, payload: Payload, contracts: nat, attempts: nat) returns (outcome: Outcome)
      modifies broker
      ensures (broker.world, outcome) == Finalise(broker.script, old(broker.world), o, payload, contracts, attempts)
    {
      var divergences := ReconcileNow();
      outcome := Done(ExecutionResult(Classify(o), o.clientOrderId, Some(o.brokerOrderId), contracts, o.filledQty,
                                      payload, attempts, divergences));
    }

    method CancelOrder(o: BrokerOrder, payload: Payload, contracts: nat, attempts: nat) returns (outcome: Outcome)
      modifies broker
      ensures (broker.world, outcome)
           == CancelAndConfirm(broker.script, old(broker.world), o, payload, contracts, attempts)
    {
      var ok := broker.CancelOrder(o.brokerOrderId);
      if !ok {
        return Faulted;
      }
      var reply := broker.GetOrderByClientId(o.clientOrderId);
      if reply.LookupFault? {
        return Faulted;
      }
      var confirmed := if reply.Found? then reply.order else o;
      if confirmed.filledQty > 0.0 {
        outcome := FinaliseOrder(confirmed, payload, contracts, attempts);
      } else {
        var divergences := ReconcileNow();
        outcome := Done(ExecutionResult(TIMED_OUT, o.clientOrderId, Some(o.brokerOrderId), contracts, 0.0,
                                        payload, attempts, divergences));
      }
    }

    method PollOnce(id: string) returns (reply: LookupReply)
      modifies broker
      ensures (broker.world, reply) == PollStep(broker.script, cfg, old(broker.world), id)
    {
      broker.Sleep(cfg.pollInterval);
      reply := broker.GetOrderByClientId(id);
    }

    /** At the deadline: cancel, and confirm. */
    method TimeOut(current: BrokerOrder, deadline: real, payload: Payload, contracts: nat, attempts: nat)
      returns (outcome: Outcome)
      requires !current.state.IsTerminal() && broker.world.clock >= deadline
      modifies broker
      ensures (broker.world, outcome)
           == Await(broker.script, cfg, old(broker.world), current, deadline, payload, contracts, attempts)
    {
      AwaitTimesOut(broker.script, cfg, broker.world, current, deadline, payload, contracts, attempts);
      outcome := CancelOrder(current, payload, contracts, attempts);
    }

    /** Before the deadline: sleep, ask, and go on with what the broker answers. */
    method PollInTime(current: BrokerOrder, deadline: real, payload: Payload, contracts: nat, attempts: nat)
      returns (ended: bool, outcome: Outcome, polled: BrokerOrder)
      requires !current.state.IsTerminal() && broker.world.clock < deadline
      modifies broker
      ensures var goal := Await(broker.script, cfg, old(broker.world), current, deadline, payload, contracts, attempts);
        if ended then (broker.world, outcome) == goal
        else Await(broker.script, cfg, broker.world, polled, deadline, payload, contracts, attempts) == goal
      ensures !ended ==>
        Polls(deadline - broker.world.clock, cfg.pollInterval)
        < Polls(deadline - old(broker.world).clock, cfg.pollInterval)
    {
      ended, outcome, polled := true, Faulted, current;
      PollStepDecreases(broker.script, cfg, broker.world, current.clientOrderId, deadline);
      AwaitPolls(broker.script, cfg, broker.world, current, deadline, payload, contracts, attempts);
      var reply := PollOnce(current.clientOrderId);
      if reply.Absent? {
        outcome := Vanished(current, payload, contracts, attempts);
      } else if reply.Found? {
        ended, polled := false, reply.order;
      }
    }

    /** The poll loop. */
    method AwaitOrder(o: BrokerOrder, payload: Payload, contracts: nat, attempts: nat) returns (outcome: Outcome)
      modifies broker
      ensures (broker.world, outcome)
           == AwaitTerminal(broker.script, cfg, old(broker.world), o, payload, contracts, attempts)
    {
      var deadline := broker.world.clock + cfg.timeoutSec;
      var current := o;
      ghost var goal := AwaitTerminal(broker.script, cfg, broker.world, o, payload, contracts, attempts);
      while !current.state.IsTerminal()
        invariant Await(broker.script, cfg, broker.world, current, deadline, payload, contracts, attempts) == goal
        decreases Polls(deadline - broker.world.clock, cfg.pollInterval)
      {
        if broker.world.clock >= deadline {
          outcome := TimeOut(current, deadline, payload, contracts, attempts);
          return;
        }
        var ended, ending, polled := PollInTime(current, deadline, payload, contracts, attempts);
        if ended {
          return ending;
        }
        current := polled;
      }
      AwaitTerminated(broker.script, cfg, broker.world, current, deadline, payload, contracts, attempts);
      outcome := FinaliseOrder(current, payload, contracts, attempts);
    }

    method Resolve(payload: Payload, contracts: nat, attempts: nat) returns (outcome: Outcome)
      modifies broker
      ensures (broker.world, outcome)
           == ResolveUnknown(broker.script, cfg, old(broker.world), payload, contracts, attempts)
    {
      var reply := broker.GetOrderByClientId(payload.clientOrderId);
      if reply.Found? {
        outcome := AwaitOrder(reply.order, payload, contracts, attempts);
      } else {
        var divergences := ReconcileNow();
        outcome := Unresolved(payload, contracts, attempts, divergences);
      }
    }

    /** The retry loop. */
    method Transmit(payload: Payload, contracts: nat) returns (outcome: Outcome)
      modifies broker
      ensures (broker.world, outcome)
           == TransmitFrom(broker.script, cfg, old(broker.world), payload, contracts, 1)
    {
      var attempt: nat := 1;
      while attempt <= cfg.maxRetries
        invariant attempt >= 1
        invariant TransmitFrom(broker.script, cfg, broker.world, payload, contracts, attempt)
               == TransmitFrom(broker.script, cfg, old(broker.world), payload, contracts, 1)
      {
        var reply := broker.SubmitOrder(payload);
        match reply
        case Acknowledged(o) =>
          outcome := AwaitOrder(o, payload, contracts, attempt);
          return;
        case PermanentError =>
          return NotSent(REJECTED, payload, contracts, attempt);
        case TransientError =>
          if attempt == cfg.maxRetries {
            outcome := Resolve(payload, contracts, attempt);
            return;
          }
          broker.Sleep(Backoff(broker.script, broker.world, attempt));
          attempt := attempt + 1;
      }
      outcome := NotSent(FAILED, payload, contracts, attempt - 1);
    }

    /** The single entry point. */
    method ExecuteOrder(p: Proposal, v: Option<KernelVerdict>, now: int, targetDebit: Option<real>, step: int)
      returns (outcome: Outcome)
      modifies broker, nonces
      ensures (broker.world, nonces.consumed, outcome)
           == Execute(host, broker.script, cfg, secret, old(broker.world), old(nonces.consumed), p, v, now,
                      targetDebit, step)
    {
      var a := Authorize(host, v, ProposalHash(host, p), secret, now, nonces);
      var prepared := Prepare(host, cfg, a, p, targetDebit, step);
      match prepared
      case Stopped(stopped) =>
        outcome := stopped;
      case Ready(payload, n) =>
        outcome := Transmit(payload, n);
    }
  }
}
