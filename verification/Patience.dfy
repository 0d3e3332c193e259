/** What stands between an order and the broker, and how long the engine waits for one: nothing is
    sent past a pre-flight, no cancel is asked for before the timeout, and retries wait ever longer. */
module Patience {
  import opened Decimals
  import opened Division
  import opened Domain
  import opened Verdicts
  import opened Kernel
  import opened Orders
  import opened Broker
  import opened Engine

  // ----- before anything is sent --------------------------------------------------------------

  predicate Blocks(cfg: Settings, payload: Payload) {
    cfg.preflight.Some? && cfg.preflight.value(payload)
  }

  /** Nothing was sent: no order is named, nothing is filled, no attempt was made. */
  predicate NeverSent(r: ExecutionResult, payload: Payload, contracts: nat) {
    && r.status == REJECTED && r.clientOrderId == payload.clientOrderId && r.brokerOrderId.None?
    && r.contractsOrdered == contracts && r.contractsFilled == 0.0 && r.attempts == 0 && r.request == payload
    && r.divergences == []
  }

  /** One call, exactly: the broker is spoken to if and only if the verdict is granted, the order
      can be built and no pre-flight blocks it. The grant's nonce is spent in any case. */
  lemma SendsExactly(host: Host, script: Script, cfg: Settings, secret: string, w: World, consumed: set<string>,
                     p: Proposal, v: Option<KernelVerdict>, now: int, debit: Option<real>, step: int)
    ensures var (a, used) := AuthorizeWith(host, v, ProposalHash(host, p), secret, now, consumed);
      var (w', consumed', outcome) := Execute(host, script, cfg, secret, w, consumed, p, v, now, debit, step);
      && consumed' == used
      && (a.Refused? ==> w' == w && outcome == Unauthorized(a.why))
      && (a.Granted? ==>
            var built := BuildOrder(host, p, a.contracts, debit, step);
            if !CanBeBuilt(p, a.contracts, debit, step) then w' == w && outcome.Unbuildable?
            else if Blocks(cfg, built.value) then
              w' == w && outcome.Done? && NeverSent(outcome.result, built.value, a.contracts)
            else (w', outcome) == TransmitFrom(script, cfg, w, built.value, a.contracts, 1))
  {
    var a := AuthorizeWith(host, v, ProposalHash(host, p), secret, now, consumed).0;
    if a.Granted? {
      BuiltExactly(host, p, a.contracts, debit, step);
    }
  }

  // ----- no cancel before the timeout ------------------------------------------------------------

  /** No cancel was asked for between these two looks at the books. */
  ghost predicate SameCancels(w: World, w': World) {
    && |w.orders| <= |w'.orders| && w.clock <= w'.clock
    && (forall i :: 0 <= i < |w.orders| ==> w'.orders[i].cancelRequested == w.orders[i].cancelRequested)
    && forall i :: |w.orders| <= i < |w'.orders| ==> !w'.orders[i].cancelRequested
  }

  /** If one was, or the order is reported as timed out, then it was no sooner than this. */
  ghost predicate CancelsBy(w: World, end: (World, Outcome), deadline: real) {
    && w.clock <= end.0.clock
    && (end.0.clock >= deadline
        || (SameCancels(w, end.0) && !(end.1.Done? && end.1.result.status == TIMED_OUT)))
  }

  lemma CancelsAfter(w: World, w1: World, end: (World, Outcome), deadline: real, later: real)
    requires SameCancels(w, w1) && CancelsBy(w1, end, later) && later >= deadline
    ensures CancelsBy(w, end, deadline)
  {
  }

  lemma PassCancels(script: Script, w: World, seconds: real)
    ensures SameCancels(w, Pass(script, w, seconds)) && Pass(script, w, seconds).clock >= w.clock + seconds
  {
  }

  lemma FinaliseCancels(script: Script, w: World, o: BrokerOrder, payload: Payload, contracts: nat, attempts: nat,
                        deadline: real)
    ensures CancelsBy(w, Finalise(script, w, o, payload, contracts, attempts), deadline)
  {
    PassCancels(script, w, 0.0);
  }

  lemma ConfirmTakesTime(script: Script, w: World, o: BrokerOrder, payload: Payload, contracts: nat, attempts: nat)
    ensures CancelAndConfirm(script, w, o, payload, contracts, attempts).0.clock >= w.clock
  {
  }

  lemma {:induction false} AwaitCancels(script: Script, cfg: Settings, w: World, o: BrokerOrder, deadline: real,
                                        payload: Payload, contracts: nat, attempts: nat)
    ensures CancelsBy(w, Await(script, cfg, w, o, deadline, payload, contracts, attempts), deadline)
    decreases Polls(deadline - w.clock, cfg.pollInterval)
  {
    if o.state.IsTerminal() {
      FinaliseCancels(script, w, o, payload, contracts, attempts, deadline);
    } else if w.clock >= deadline {
      ConfirmTakesTime(script, w, o, payload, contracts, attempts);
    } else {
      PollStepDecreases(script, cfg, w, o.clientOrderId, deadline);
      AwaitPolls(script, cfg, w, o, deadline, payload, contracts, attempts);
      var (w2, reply) := PollStep(script, cfg, w, o.clientOrderId);
      PollCancels(script, cfg, w, o.clientOrderId);
      if reply.Found? {
        AwaitCancels(script, cfg, w2, reply.order, deadline, payload, contracts, attempts);
        CancelsAfter(w, w2, Await(script, cfg, w2, reply.order, deadline, payload, contracts, attempts), deadline,
                     deadline);
      }
    }
  }

  lemma PollCancels(script: Script, cfg: Settings, w: World, id: string)
    ensures SameCancels(w, PollStep(script, cfg, w, id).0)
  {
    var w1 := Pass(script, w, cfg.pollInterval);
    PassCancels(script, w, cfg.pollInterval);
    PassCancels(script, w1, 0.0);
  }

  lemma SubmitCancels(script: Script, w: World, payload: Payload)
    ensures SameCancels(w, Submit(script, w, payload).0)
  {
    PassCancels(script, w, 0.0);
  }

  /** Given its whole time from here. */
  ghost predicate InTime(w: World, end: (World, Outcome), timeout: real) {
    CancelsBy(w, end, w.clock + timeout)
  }

  lemma InTimeAfter(w: World, w1: World, end: (World, Outcome), timeout: real)
    requires SameCancels(w, w1) && InTime(w1, end, timeout)
    ensures InTime(w, end, timeout)
  {
    CancelsAfter(w, w1, end, w.clock + timeout, w1.clock + timeout);
  }

  lemma AtOnce(w: World, outcome: Outcome, timeout: real)
    requires outcome.Done? ==> outcome.result.status != TIMED_OUT
    ensures InTime(w, (w, outcome), timeout)
  {
  }

  lemma TerminalCancels(script: Script, cfg: Settings, w: World, o: BrokerOrder, payload: Payload, contracts: nat,
                        attempts: nat)
    ensures InTime(w, AwaitTerminal(script, cfg, w, o, payload, contracts, attempts), cfg.timeoutSec)
  {
    AwaitCancels(script, cfg, w, o, w.clock + cfg.timeoutSec, payload, contracts, attempts);
  }

  lemma UnresolvedCancels(script: Script, w: World, payload: Payload, contracts: nat, attempts: nat, timeout: real)
    ensures var (w2, divergences) := Reconcile(script, w);
      InTime(w, (w2, Unresolved(payload, contracts, attempts, divergences)), timeout)
  {
    PassCancels(script, w, 0.0);
  }

  lemma ResolveCancels(script: Script, cfg: Settings, w: World, payload: Payload, contracts: nat, attempts: nat)
    ensures InTime(w, ResolveUnknown(script, cfg, w, payload, contracts, attempts), cfg.timeoutSec)
  {
    PassCancels(script, w, 0.0);
    var (w1, reply) := Lookup(script, w, payload.clientOrderId);
    var end := ResolveUnknown(script, cfg, w, payload, contracts, attempts);
    if reply.Found? {
      TerminalCancels(script, cfg, w1, reply.order, payload, contracts, attempts);
    } else {
      UnresolvedCancels(script, w1, payload, contracts, attempts, cfg.timeoutSec);
    }
    InTimeAfter(w, w1, end, cfg.timeoutSec);
  }

  /** An order is given its time: against every broker, no cancel is asked for and nothing is
      reported as timed out until the whole timeout has passed. */
  lemma {:induction false} NoCancelBeforeTheTimeout(script: Script, cfg: Settings, w: World, payload: Payload,
                                                    contracts: nat, attempt: nat)
    requires 1 <= attempt
    ensures InTime(w, TransmitFrom(script, cfg, w, payload, contracts, attempt), cfg.timeoutSec)
    decreases cfg.maxRetries + 1 - attempt
  {
    var end := TransmitFrom(script, cfg, w, payload, contracts, attempt);
    if attempt > cfg.maxRetries {
      AtOnce(w, end.1, cfg.timeoutSec);
    } else {
      SubmitCancels(script, w, payload);
      var (w1, reply) := Submit(script, w, payload);
      match reply
      case Acknowledged(o) => TerminalCancels(script, cfg, w1, o, payload, contracts, attempt);
      case PermanentError => AtOnce(w1, end.1, cfg.timeoutSec);
      case TransientError =>
        TransmitInDoubt(script, cfg, w, payload, contracts, attempt);
        if attempt == cfg.maxRetries {
          ResolveCancels(script, cfg, w1, payload, contracts, attempt);
        } else {
          var wait := Backoff(script, w1, attempt);
          PassCancels(script, w1, wait);
          NoCancelBeforeTheTimeout(script, cfg, Pass(script, w1, wait), payload, contracts, attempt + 1);
          InTimeAfter(w1, Pass(script, w1, wait), end, cfg.timeoutSec);
        }
      InTimeAfter(w, w1, end, cfg.timeoutSec);
    }
  }

  // ----- how often, and after how long -------------------------------------------------------------

  lemma {:induction false} WaitsDouble(k: nat)
    ensures PowTwo(k) == TwoTo(k) as real
  {
    if k > 0 {
      WaitsDouble(k - 1);
    }
  }

  /** The result is of this order, at this size, from so many attempts, and no sooner than this. */
  ghost predicate Accounts(outcome: Outcome, payload: Payload, contracts: nat, first: nat, last: nat) {
    outcome.Done? ==>
      && outcome.result.request == payload && outcome.result.contractsOrdered == contracts
      && first <= outcome.result.attempts <= last
  }

  lemma CancelAccounts(script: Script, w: World, o: BrokerOrder, payload: Payload, contracts: nat, attempts: nat)
    ensures Accounts(CancelAndConfirm(script, w, o, payload, contracts, attempts).1, payload, contracts, attempts,
                     attempts)
  {
  }

  lemma {:induction false} AwaitAccounts(script: Script, cfg: Settings, w: World, o: BrokerOrder, deadline: real,
                                         payload: Payload, contracts: nat, attempts: nat)
    ensures Accounts(Await(script, cfg, w, o, deadline, payload, contracts, attempts).1, payload, contracts, attempts,
                     attempts)
    decreases Polls(deadline - w.clock, cfg.pollInterval)
  {
    if o.state.IsTerminal() {
    } else if w.clock >= deadline {
      AwaitTimesOut(script, cfg, w, o, deadline, payload, contracts, attempts);
      CancelAccounts(script, w, o, payload, contracts, attempts);
    } else {
      PollStepDecreases(script, cfg, w, o.clientOrderId, deadline);
      AwaitPolls(script, cfg, w, o, deadline, payload, contracts, attempts);
      var (w2, reply) := PollStep(script, cfg, w, o.clientOrderId);
      if reply.Found? {
        AwaitAccounts(script, cfg, w2, reply.order, deadline, payload, contracts, attempts);
      }
    }
  }

  lemma ResolveAccounts(script: Script, cfg: Settings, w: World, payload: Payload, contracts: nat, attempts: nat)
    ensures Accounts(ResolveUnknown(script, cfg, w, payload, contracts, attempts).1, payload, contracts, attempts,
                     attempts)
  {
    var (w1, reply) := Lookup(script, w, payload.clientOrderId);
    if reply.Found? {
      TerminalAccounts(script, cfg, w1, reply.order, payload, contracts, attempts);
    }
  }

  /** What the pauses between two attempts come to, at least: half a second, doubled every time. */
  function Pauses(first: nat, last: nat): real
    requires 1 <= first && 1 <= last
  {
    0.5 * (TwoTo(last - 1) as real - TwoTo(first - 1) as real)
  }

  lemma OnePause(script: Script, w: World, attempt: nat)
    requires attempt >= 1
    ensures Backoff(script, w, attempt) >= Pauses(attempt, attempt + 1)
  {
    WaitsDouble(attempt - 1);
    RealLe(1.0, 1.0 + AtLeastZero(script(w.tick).jitter), 0.5 * PowTwo(attempt - 1));
    assert TwoTo(attempt) == 2 * TwoTo(attempt - 1);
  }

  lemma PausesAdd(first: nat, last: nat)
    requires 1 <= first < last
    ensures Pauses(first, last) == Pauses(first, first + 1) + Pauses(first + 1, last) && Pauses(first, first) == 0.0
  {
  }

  /** The call's end: of this order, after these attempts, and so long after its beginning. */
  ghost predicate Paced(w: World, end: (World, Outcome), payload: Payload, contracts: nat, first: nat, last: nat)
    requires first >= 1
  {
    && Accounts(end.1, payload, contracts, first, last) && w.clock <= end.0.clock
    && (end.1.Done? ==> w.clock + Pauses(first, end.1.result.attempts) <= end.0.clock)
  }

  lemma PacedAtOnce(w: World, end: (World, Outcome), payload: Payload, contracts: nat, attempt: nat, last: nat)
    requires 1 <= attempt <= last && Accounts(end.1, payload, contracts, attempt, attempt) && w.clock <= end.0.clock
    ensures Paced(w, end, payload, contracts, attempt, last)
  {
  }

  lemma PacedAfter(w: World, w2: World, end: (World, Outcome), payload: Payload, contracts: nat, attempt: nat,
                   last: nat)
    requires 1 <= attempt < last && w.clock + Pauses(attempt, attempt + 1) <= w2.clock && w.clock <= w2.clock
    requires Paced(w2, end, payload, contracts, attempt + 1, last)
    ensures Paced(w, end, payload, contracts, attempt, last)
  {
    if end.1.Done? {
      PausesAdd(attempt, end.1.result.attempts);
    }
  }

  /** Retries are counted and paced: against every broker, a result reports the order, the size and
      at most the configured number of attempts; and reporting the k-th it comes no sooner than
      half a second, doubled for each attempt, adds up to. */
  lemma {:induction false} RetriesArePaced(script: Script, cfg: Settings, w: World, payload: Payload, contracts: nat,
                                           attempt: nat)
    requires 1 <= attempt <= cfg.maxRetries
    ensures Paced(w, TransmitFrom(script, cfg, w, payload, contracts, attempt), payload, contracts, attempt,
                  cfg.maxRetries)
    decreases cfg.maxRetries - attempt
  {
    if Submit(script, w, payload).1.TransientError? && attempt < cfg.maxRetries {
      var w2 := Paused(script, w, payload, attempt);
      RetriesArePaced(script, cfg, w2, payload, contracts, attempt + 1);
      GoesOn(script, cfg, w, payload, contracts, attempt);
      PausedClock(script, w, payload, attempt);
      PacedAfter(w, w2, TransmitFrom(script, cfg, w2, payload, contracts, attempt + 1), payload, contracts, attempt,
                 cfg.maxRetries);
    } else {
      LastAttemptIsPaced(script, cfg, w, payload, contracts, attempt);
    }
  }

  /** Where a retry starts from. */
  function Paused(script: Script, w: World, payload: Payload, attempt: nat): World
    requires attempt >= 1
  {
    var w1 := Submit(script, w, payload).0;
    Pass(script, w1, Backoff(script, w1, attempt))
  }

  lemma GoesOn(script: Script, cfg: Settings, w: World, payload: Payload, contracts: nat, attempt: nat)
    requires 1 <= attempt < cfg.maxRetries && Submit(script, w, payload).1.TransientError?
    ensures TransmitFrom(script, cfg, w, payload, contracts, attempt)
         == TransmitFrom(script, cfg, Paused(script, w, payload, attempt), payload, contracts, attempt + 1)
  {
    TransmitInDoubt(script, cfg, w, payload, contracts, attempt);
  }

  lemma LastAttemptIsPaced(script: Script, cfg: Settings, w: World, payload: Payload, contracts: nat, attempt: nat)
    requires 1 <= attempt <= cfg.maxRetries
    requires Submit(script, w, payload).1.TransientError? ==> attempt == cfg.maxRetries
    ensures Paced(w, TransmitFrom(script, cfg, w, payload, contracts, attempt), payload, contracts, attempt,
                  cfg.maxRetries)
  {
    LastAttemptAccounts(script, cfg, w, payload, contracts, attempt);
    NoCancelBeforeTheTimeout(script, cfg, w, payload, contracts, attempt);
    PacedAtOnce(w, TransmitFrom(script, cfg, w, payload, contracts, attempt), payload, contracts, attempt,
                cfg.maxRetries);
  }

  lemma PausedClock(script: Script, w: World, payload: Payload, attempt: nat)
    requires attempt >= 1
    ensures Paused(script, w, payload, attempt).clock >= w.clock + Pauses(attempt, attempt + 1)
    ensures Paused(script, w, payload, attempt).clock >= w.clock
  {
    OnePause(script, Submit(script, w, payload).0, attempt);
  }

  lemma LastAttemptAccounts(script: Script, cfg: Settings, w: World, payload: Payload, contracts: nat, attempt: nat)
    requires 1 <= attempt <= cfg.maxRetries
    requires Submit(script, w, payload).1.TransientError? ==> attempt == cfg.maxRetries
    ensures Accounts(TransmitFrom(script, cfg, w, payload, contracts, attempt).1, payload, contracts, attempt, attempt)
  {
    var (w1, reply) := Submit(script, w, payload);
    LastAttemptIs(script, cfg, w, payload, contracts, attempt);
    match reply
    case Acknowledged(o) => TerminalAccounts(script, cfg, w1, o, payload, contracts, attempt);
    case PermanentError =>
    case TransientError => ResolveAccounts(script, cfg, w1, payload, contracts, attempt);
  }

  lemma LastAttemptIs(script: Script, cfg: Settings, w: World, payload: Payload, contracts: nat, attempt: nat)
    requires 1 <= attempt <= cfg.maxRetries
    requires Submit(script, w, payload).1.TransientError? ==> attempt == cfg.maxRetries
    ensures var (w1, reply) := Submit(script, w, payload);
      TransmitFrom(script, cfg, w, payload, contracts, attempt)
      == (if reply.Acknowledged? then AwaitTerminal(script, cfg, w1, reply.order, payload, contracts, attempt)
          else if reply.PermanentError? then (w1, NotSent(REJECTED, payload, contracts, attempt))
          else ResolveUnknown(script, cfg, w1, payload, contracts, attempt))
  {
  }

  lemma TerminalAccounts(script: Script, cfg: Settings, w: World, o: BrokerOrder, payload: Payload, contracts: nat,
                         attempts: nat)
    ensures Accounts(AwaitTerminal(script, cfg, w, o, payload, contracts, attempts).1, payload, contracts, attempts,
                     attempts)
  {
    AwaitAccounts(script, cfg, w, o, w.clock + cfg.timeoutSec, payload, contracts, attempts);
  }

  // ----- what the broker was found to hold ----------------------------------------------------------

  /** The positions reported after a call are those the broker holds anything of. */
  lemma {:induction false} DivergencesExactly(positions: seq<Position>, d: Divergence)
    ensures d in Divergences(positions) <==>
      exists i :: 0 <= i < |positions| && positions[i].qty != 0.0 && d == Holds(positions[i].symbol, positions[i].qty)
  {
    if positions != [] {
      DivergencesExactly(positions[1..], d);
      assert forall i :: 0 <= i < |positions| - 1 ==> positions[1..][i] == positions[i + 1];
      if exists i :: 0 <= i < |positions| && positions[i].qty != 0.0
                     && d == Holds(positions[i].symbol, positions[i].qty) {
        var i :| 0 <= i < |positions| && positions[i].qty != 0.0 && d == Holds(positions[i].symbol, positions[i].qty);
        assert i > 0 ==> positions[1..][i - 1] == positions[i];
      }
    }
  }

  // ----- after every attempt ---------------------------------------------------------------------------

  /** What the broker answers to the last question of the call. */
  predicate LastAnswer(script: Script, w: World, divergences: seq<Divergence>) {
    w.tick >= 1 && divergences == (if script(w.tick - 1).answers then Divergences(script(w.tick - 1).positions)
                                   else [ReconcileFailed])
  }

  /** A result that names an order, unless that order has vanished, ends with the broker's own
      positions. */
  predicate Reconciled(script: Script, end: (World, Outcome)) {
    end.1.Done? && end.1.result.brokerOrderId.Some? && end.1.result.status != FAILED ==>
      LastAnswer(script, end.0, end.1.result.divergences)
  }

  lemma FinaliseReconciles(script: Script, w: World, o: BrokerOrder, payload: Payload, contracts: nat, attempts: nat)
    ensures Reconciled(script, Finalise(script, w, o, payload, contracts, attempts))
  {
  }

  lemma CancelReconciles(script: Script, w: World, o: BrokerOrder, payload: Payload, contracts: nat, attempts: nat)
    ensures Reconciled(script, CancelAndConfirm(script, w, o, payload, contracts, attempts))
  {
    var (w1, ok) := Cancel(script, w, o.brokerOrderId);
    var (w2, reply) := Lookup(script, w1, o.clientOrderId);
    if ok && !reply.LookupFault? {
      FinaliseReconciles(script, w2, if reply.Found? then reply.order else o, payload, contracts, attempts);
    }
  }

  lemma {:induction false} AwaitReconciles(script: Script, cfg: Settings, w: World, o: BrokerOrder, deadline: real,
                                           payload: Payload, contracts: nat, attempts: nat)
    ensures Reconciled(script, Await(script, cfg, w, o, deadline, payload, contracts, attempts))
    decreases Polls(deadline - w.clock, cfg.pollInterval)
  {
    if o.state.IsTerminal() {
      FinaliseReconciles(script, w, o, payload, contracts, attempts);
    } else if w.clock >= deadline {
      AwaitTimesOut(script, cfg, w, o, deadline, payload, contracts, attempts);
      CancelReconciles(script, w, o, payload, contracts, attempts);
    } else {
      PollStepDecreases(script, cfg, w, o.clientOrderId, deadline);
      AwaitPolls(script, cfg, w, o, deadline, payload, contracts, attempts);
      var (w2, reply) := PollStep(script, cfg, w, o.clientOrderId);
      if reply.Found? {
        AwaitReconciles(script, cfg, w2, reply.order, deadline, payload, contracts, attempts);
      }
    }
  }

  lemma TerminalReconciles(script: Script, cfg: Settings, w: World, o: BrokerOrder, payload: Payload, contracts: nat,
                           attempts: nat)
    ensures Reconciled(script, AwaitTerminal(script, cfg, w, o, payload, contracts, attempts))
  {
    AwaitReconciles(script, cfg, w, o, w.clock + cfg.timeoutSec, payload, contracts, attempts);
  }

  lemma ResolveReconciles(script: Script, cfg: Settings, w: World, payload: Payload, contracts: nat, attempts: nat)
    ensures Reconciled(script, ResolveUnknown(script, cfg, w, payload, contracts, attempts))
  {
    var (w1, reply) := Lookup(script, w, payload.clientOrderId);
    if reply.Found? {
      TerminalReconciles(script, cfg, w1, reply.order, payload, contracts, attempts);
    }
  }

  /** After every attempt the broker is asked what it holds, and that is what the result reports. */
  lemma {:induction false} AttemptsAreReconciled(script: Script, cfg: Settings, w: World, payload: Payload,
                                                 contracts: nat, attempt: nat)
    requires 1 <= attempt
    ensures Reconciled(script, TransmitFrom(script, cfg, w, payload, contracts, attempt))
    decreases cfg.maxRetries + 1 - attempt
  {
    if attempt <= cfg.maxRetries {
      var (w1, reply) := Submit(script, w, payload);
      match reply
      case Acknowledged(o) => TerminalReconciles(script, cfg, w1, o, payload, contracts, attempt);
      case PermanentError =>
      case TransientError =>
        TransmitInDoubt(script, cfg, w, payload, contracts, attempt);
        if attempt == cfg.maxRetries {
          ResolveReconciles(script, cfg, w1, payload, contracts, attempt);
        } else {
          AttemptsAreReconciled(script, cfg, Pass(script, w1, Backoff(script, w1, attempt)), payload, contracts,
                                attempt + 1);
        }
    }
  }

  // ----- no longer than that ------------------------------------------------------------------------------

  /** A broker that takes no time over anything. */
  ghost predicate Prompt(script: Script) {
    forall k :: script(k).delay <= 0.0
  }

  lemma PromptPass(script: Script, w: World, seconds: real)
    requires Prompt(script) && seconds >= 0.0
    ensures Pass(script, w, seconds).clock == w.clock + seconds
  {
    assert script(w.tick).delay <= 0.0;
  }

  lemma PromptPoll(script: Script, cfg: Settings, w: World, id: string)
    requires Prompt(script)
    ensures PollStep(script, cfg, w, id).0.clock == w.clock + cfg.pollInterval
  {
    PromptPass(script, w, cfg.pollInterval);
    PromptPass(script, Pass(script, w, cfg.pollInterval), 0.0);
  }

  lemma PromptFinalise(script: Script, w: World, o: BrokerOrder, payload: Payload, contracts: nat, attempts: nat)
    requires Prompt(script)
    ensures Finalise(script, w, o, payload, contracts, attempts).0.clock == w.clock
  {
    PromptPass(script, w, 0.0);
  }

  lemma PromptCancel(script: Script, w: World, o: BrokerOrder, payload: Payload, contracts: nat, attempts: nat)
    requires Prompt(script)
    ensures CancelAndConfirm(script, w, o, payload, contracts, attempts).0.clock == w.clock
  {
    var w1 := Cancel(script, w, o.brokerOrderId).0;
    PromptPass(script, w, 0.0);
    PromptPass(script, w1, 0.0);
    PromptPass(script, Lookup(script, w1, o.clientOrderId).0, 0.0);
  }

  /** And an order is given no longer: with a broker that answers at once, the engine is done with it
      within one poll of the timeout. */
  lemma {:induction false} DoneWithinAPoll(script: Script, cfg: Settings, w: World, o: BrokerOrder, deadline: real,
                                           payload: Payload, contracts: nat, attempts: nat)
    requires Prompt(script) && w.clock <= deadline + cfg.pollInterval
    ensures Await(script, cfg, w, o, deadline, payload, contracts, attempts).0.clock <= deadline + cfg.pollInterval
    decreases Polls(deadline - w.clock, cfg.pollInterval)
  {
    if o.state.IsTerminal() {
      PromptFinalise(script, w, o, payload, contracts, attempts);
    } else if w.clock >= deadline {
      PromptCancel(script, w, o, payload, contracts, attempts);
    } else {
      PollStepDecreases(script, cfg, w, o.clientOrderId, deadline);
      AwaitPolls(script, cfg, w, o, deadline, payload, contracts, attempts);
      PromptPoll(script, cfg, w, o.clientOrderId);
      var (w2, reply) := PollStep(script, cfg, w, o.clientOrderId);
      if reply.Found? {
        DoneWithinAPoll(script, cfg, w2, reply.order, deadline, payload, contracts, attempts);
      }
    }
  }

  /** So an acknowledged order is given its timeout, and at most one poll more. */
  lemma TimeoutIsKept(script: Script, cfg: Settings, w: World, o: BrokerOrder, payload: Payload, contracts: nat,
                      attempts: nat)
    requires Prompt(script) && cfg.timeoutSec >= 0.0
    ensures AwaitTerminal(script, cfg, w, o, payload, contracts, attempts).0.clock
         <= w.clock + cfg.timeoutSec + cfg.pollInterval
  {
    DoneWithinAPoll(script, cfg, w, o, w.clock + cfg.timeoutSec, payload, contracts, attempts);
  }
}
