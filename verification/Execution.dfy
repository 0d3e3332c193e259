/** Safety of whole runs of the execution engine against any broker script: every
    order on the broker's books was approved, once, at that size; and what each
    result says about its order is so. */
module Execution {
  import opened Numerals
  import opened Decimals
  import opened Domain
  import opened Verdicts
  import opened KernelState
  import opened Rules
  import opened Kernel
  import opened Orders
  import opened Broker
  import opened Engine

  // ----- what one call does to the books -------------------------------------

  /** The order last seen as `o` is still on the books, at some later time. */
  ghost predicate StandsAs(w: World, o: BrokerOrder) {
    exists i :: 0 <= i < |w.orders| && Later(o, w.orders[i])
  }

  /** The result reports the order as it was last seen: in a terminal state, or still
      alive after a cancel that reached the broker. */
  ghost predicate Told(r: ExecutionResult, o: BrokerOrder) {
    && Sound(o) && r.brokerOrderId == Some(o.brokerOrderId) && r.clientOrderId == o.clientOrderId
    && r.contractsFilled == o.filledQty
    && if o.state.IsTerminal() then
         r.status == Classify(o) || (r.status == TIMED_OUT && o.filledQty == 0.0 && o.cancelRequested)
       else
         o.cancelRequested && r.status == (if o.filledQty > 0.0 then CANCELLED else TIMED_OUT)
  }

  ghost predicate Truthful(outcome: Outcome, w: World) {
    outcome.Done? && outcome.result.brokerOrderId.Some? ==>
      exists o :: Told(outcome.result, o) && StandsAs(w, o)
  }

  lemma Seen(w: World, o: BrokerOrder, w': World, payload: Payload)
    requires o in w.orders && Evolves(w, w', payload)
    ensures StandsAs(w', o)
  {
    var i :| 0 <= i < |w.orders| && w.orders[i] == o;
    assert Later(o, w'.orders[i]);
  }

  lemma FinaliseTells(script: Script, w: World, o: BrokerOrder, payload: Payload, contracts: nat, attempts: nat)
    requires SoundWorld(w) && o in w.orders
    requires o.state.IsTerminal() || (o.cancelRequested && o.filledQty > 0.0)
    ensures var (w', outcome) := Finalise(script, w, o, payload, contracts, attempts);
      SoundWorld(w') && Evolves(w, w', payload) && Truthful(outcome, w')
  {
    PassEvolves(script, w, 0.0, payload);
    var (w', outcome) := Finalise(script, w, o, payload, contracts, attempts);
    Seen(w, o, w', payload);
    assert Told(outcome.result, o);
  }

  /** Two looks at one client order id see the same order. */
  lemma SameOrder(w: World, o: BrokerOrder, w': World, o': BrokerOrder, payload: Payload)
    requires SoundWorld(w) && SoundWorld(w') && Evolves(w, w', payload)
    requires o in w.orders && o' in w'.orders && o.clientOrderId == o'.clientOrderId
    ensures Later(o, o')
  {
    var i :| 0 <= i < |w.orders| && w.orders[i] == o;
    var j :| 0 <= j < |w'.orders| && w'.orders[j] == o';
    assert w'.orders[i].clientOrderId == w'.orders[j].clientOrderId;
  }

  lemma CancelMarks(script: Script, w: World, o: BrokerOrder, payload: Payload)
    requires SoundWorld(w) && o in w.orders && Cancel(script, w, o.brokerOrderId).1
    ensures var w1 := Cancel(script, w, o.brokerOrderId).0;
      exists c :: c in w1.orders && Later(o, c) && c.cancelRequested
  {
    CancelEvolves(script, w, o.brokerOrderId, payload);
    var w1 := Cancel(script, w, o.brokerOrderId).0;
    var i :| 0 <= i < |w.orders| && w.orders[i] == o;
    assert Later(o, w1.orders[i]) && w1.orders[i].cancelRequested && w1.orders[i] in w1.orders;
  }

  lemma CancelTells(script: Script, w: World, o: BrokerOrder, payload: Payload, contracts: nat, attempts: nat)
    requires SoundWorld(w) && o in w.orders
    ensures var (w', outcome) := CancelAndConfirm(script, w, o, payload, contracts, attempts);
      SoundWorld(w') && Evolves(w, w', payload) && Truthful(outcome, w')
  {
    CancelEvolves(script, w, o.brokerOrderId, payload);
    var (w1, ok) := Cancel(script, w, o.brokerOrderId);
    if ok {
      LookupEvolves(script, w1, o.clientOrderId, payload);
      var (w2, reply) := Lookup(script, w1, o.clientOrderId);
      EvolvesTransitive(w, w1, w2, payload);
      if !reply.LookupFault? {
        CancelMarks(script, w, o, payload);
        var c :| c in w1.orders && Later(o, c) && c.cancelRequested;
        ConfirmTells(script, w1, w2, o, c, payload, contracts, attempts);
        var (w', _) := CancelAndConfirm(script, w, o, payload, contracts, attempts);
        EvolvesTransitive(w, w2, w', payload);
      }
    }
  }

  lemma ConfirmTells(script: Script, w1: World, w2: World, o: BrokerOrder, c: BrokerOrder,
                     payload: Payload, contracts: nat, attempts: nat)
    requires SoundWorld(w1) && SoundWorld(w2) && Evolves(w1, w2, payload)
    requires c in w1.orders && Later(o, c) && c.cancelRequested
    requires (w2, Lookup(script, w1, o.clientOrderId).1) == Lookup(script, w1, o.clientOrderId)
    requires !Lookup(script, w1, o.clientOrderId).1.LookupFault?
    ensures var reply := Lookup(script, w1, o.clientOrderId).1;
      reply.Found? &&
      var (w', outcome) :=
        if reply.order.filledQty > 0.0 then Finalise(script, w2, reply.order, payload, contracts, attempts)
        else
          var (w3, ds) := Reconcile(script, w2);
          (w3, Done(ExecutionResult(TIMED_OUT, o.clientOrderId, Some(o.brokerOrderId), contracts, 0.0, payload,
                                    attempts, ds)));
      SoundWorld(w') && Evolves(w2, w', payload) && Truthful(outcome, w')
  {
    LookupEvolves(script, w1, o.clientOrderId, payload);
    Seen(w1, c, w2, payload);
    var reply := Lookup(script, w1, o.clientOrderId).1;
    var i :| 0 <= i < |w2.orders| && Later(c, w2.orders[i]);
    assert HasOrder(w2, o.clientOrderId);
    var confirmed := reply.order;
    SameOrder(w1, c, w2, confirmed, payload);
    PassEvolves(script, w2, 0.0, payload);
    if confirmed.filledQty > 0.0 {
      FinaliseTells(script, w2, confirmed, payload, contracts, attempts);
    } else {
      var (w3, ds) := Reconcile(script, w2);
      Seen(w2, confirmed, w3, payload);
      var r := ExecutionResult(TIMED_OUT, o.clientOrderId, Some(o.brokerOrderId), contracts, 0.0, payload, attempts,
                               ds);
      var k :| 0 <= k < |w2.orders| && w2.orders[k] == confirmed;
      assert Told(r, confirmed);
    }
  }

  lemma PollStepEvolves(script: Script, cfg: Settings, w: World, id: string, payload: Payload)
    requires SoundWorld(w) && HasOrder(w, id)
    ensures var (w2, reply) := PollStep(script, cfg, w, id);
      && SoundWorld(w2) && Evolves(w, w2, payload) && |w2.orders| == |w.orders|
      && !reply.Absent?
      && (reply.Found? ==> reply.order in w2.orders && reply.order.clientOrderId == id)
  {
    var w1 := Pass(script, w, cfg.pollInterval);
    PassEvolves(script, w, cfg.pollInterval, payload);
    LookupEvolves(script, w1, id, payload);
    var (w2, reply) := PollStep(script, cfg, w, id);
    EvolvesTransitive(w, w1, w2, payload);
    HasOrderKept(w, w2, payload, id);
  }

  /** A step that leaves sound books, evolved from `w`, and a truthful outcome. */
  ghost predicate Good(w: World, end: (World, Outcome), payload: Payload) {
    SoundWorld(end.0) && Evolves(w, end.0, payload) && Truthful(end.1, end.0)
  }

  lemma GoodAfter(w: World, w1: World, end: (World, Outcome), payload: Payload)
    requires SoundWorld(w) && SoundWorld(w1) && Evolves(w, w1, payload) && Good(w1, end, payload)
    ensures Good(w, end, payload)
  {
    EvolvesTransitive(w, w1, end.0, payload);
  }

  lemma OnBooks(w: World, o: BrokerOrder)
    requires o in w.orders
    ensures HasOrder(w, o.clientOrderId)
  {
    var i :| 0 <= i < |w.orders| && w.orders[i] == o;
  }

  lemma {:induction false} AwaitTells(script: Script, cfg: Settings, w: World, o: BrokerOrder, deadline: real,
                                      payload: Payload, contracts: nat, attempts: nat)
    requires SoundWorld(w) && o in w.orders
    ensures Good(w, Await(script, cfg, w, o, deadline, payload, contracts, attempts), payload)
    decreases Polls(deadline - w.clock, cfg.pollInterval)
  {
    if o.state.IsTerminal() || w.clock >= deadline {
      EndTells(script, cfg, w, o, deadline, payload, contracts, attempts);
    } else {
      PollStepDecreases(script, cfg, w, o.clientOrderId, deadline);
      var (w2, reply) := PollStep(script, cfg, w, o.clientOrderId);
      PollIsSound(script, cfg, w, o, payload);
      if reply.Found? {
        AwaitTells(script, cfg, w2, reply.order, deadline, payload, contracts, attempts);
      }
      PollTells(script, cfg, w, o, deadline, payload, contracts, attempts, w2, reply);
    }
  }

  lemma EndTells(script: Script, cfg: Settings, w: World, o: BrokerOrder, deadline: real,
                 payload: Payload, contracts: nat, attempts: nat)
    requires SoundWorld(w) && o in w.orders && (o.state.IsTerminal() || w.clock >= deadline)
    ensures Good(w, Await(script, cfg, w, o, deadline, payload, contracts, attempts), payload)
  {
    if o.state.IsTerminal() {
      FinaliseTells(script, w, o, payload, contracts, attempts);
    } else {
      CancelTells(script, w, o, payload, contracts, attempts);
    }
  }

  lemma PollIsSound(script: Script, cfg: Settings, w: World, o: BrokerOrder, payload: Payload)
    requires SoundWorld(w) && o in w.orders
    ensures var (w2, reply) := PollStep(script, cfg, w, o.clientOrderId);
      SoundWorld(w2) && Evolves(w, w2, payload) && !reply.Absent? && (reply.Found? ==> reply.order in w2.orders)
  {
    OnBooks(w, o);
    PollStepEvolves(script, cfg, w, o.clientOrderId, payload);
  }

  lemma PollTells(script: Script, cfg: Settings, w: World, o: BrokerOrder, deadline: real,
                  payload: Payload, contracts: nat, attempts: nat, w2: World, reply: LookupReply)
    requires !o.state.IsTerminal() && w.clock < deadline && (w2, reply) == PollStep(script, cfg, w, o.clientOrderId)
    requires SoundWorld(w) && SoundWorld(w2) && Evolves(w, w2, payload) && !reply.Absent?
    requires reply.Found? ==>
      Good(w2, Await(script, cfg, w2, reply.order, deadline, payload, contracts, attempts), payload)
    ensures Good(w, Await(script, cfg, w, o, deadline, payload, contracts, attempts), payload)
  {
    AwaitPolls(script, cfg, w, o, deadline, payload, contracts, attempts);
    PolledTells(w, w2, reply, Await(script, cfg, w, o, deadline, payload, contracts, attempts), payload);
  }

  lemma PolledTells(w: World, w2: World, reply: LookupReply, end: (World, Outcome), payload: Payload)
    requires SoundWorld(w) && SoundWorld(w2) && Evolves(w, w2, payload)
    requires if reply.Found? then Good(w2, end, payload) else end == (w2, Faulted)
    ensures Good(w, end, payload)
  {
    if reply.Found? {
      GoodAfter(w, w2, end, payload);
    }
  }

  lemma AwaitTerminalTells(script: Script, cfg: Settings, w: World, o: BrokerOrder,
                           payload: Payload, contracts: nat, attempts: nat)
    requires SoundWorld(w) && o in w.orders
    ensures Good(w, AwaitTerminal(script, cfg, w, o, payload, contracts, attempts), payload)
  {
    var deadline := w.clock + cfg.timeoutSec;
    var end := Await(script, cfg, w, o, deadline, payload, contracts, attempts);
    assert Good(w, end, payload) by {
      AwaitTells(script, cfg, w, o, deadline, payload, contracts, attempts);
    }
  }

  lemma ResolveTells(script: Script, cfg: Settings, w: World, payload: Payload, contracts: nat, attempts: nat)
    requires SoundWorld(w)
    ensures Good(w, ResolveUnknown(script, cfg, w, payload, contracts, attempts), payload)
  {
    LookupEvolves(script, w, payload.clientOrderId, payload);
    var (w1, reply) := Lookup(script, w, payload.clientOrderId);
    if reply.Found? {
      AwaitTerminalTells(script, cfg, w1, reply.order, payload, contracts, attempts);
    } else {
      PassEvolves(script, w1, 0.0, payload);
    }
    GoodAfter(w, w1, ResolveUnknown(script, cfg, w, payload, contracts, attempts), payload);
  }

  lemma Unsent(w: World, payload: Payload, outcome: Outcome)
    requires SoundWorld(w) && outcome.Done? && outcome.result.brokerOrderId.None?
    ensures Good(w, (w, outcome), payload)
  {
    assert forall i :: 0 <= i < |w.orders| ==> Later(w.orders[i], w.orders[i]);
  }

  /** One transmission adds at most one order, only for its own payload and only if none
      stood under that id; and its result tells the truth about the order it names. */
  lemma {:induction false} TransmitTells(script: Script, cfg: Settings, w: World, payload: Payload, contracts: nat,
                                         attempt: nat)
    requires SoundWorld(w) && 1 <= attempt
    ensures Good(w, TransmitFrom(script, cfg, w, payload, contracts, attempt), payload)
    decreases cfg.maxRetries + 1 - attempt
  {
    var end := TransmitFrom(script, cfg, w, payload, contracts, attempt);
    if attempt > cfg.maxRetries {
      Unsent(w, payload, end.1);
    } else {
      SubmitEvolves(script, w, payload);
      var (w1, reply) := Submit(script, w, payload);
      match reply
      case Acknowledged(o) =>
        AwaitTerminalTells(script, cfg, w1, o, payload, contracts, attempt);
      case PermanentError =>
        Unsent(w1, payload, end.1);
      case TransientError =>
        if attempt == cfg.maxRetries {
          ResolveTells(script, cfg, w1, payload, contracts, attempt);
        } else {
          var wait := Backoff(script, w1, attempt);
          PassEvolves(script, w1, wait, payload);
          TransmitTells(script, cfg, Pass(script, w1, wait), payload, contracts, attempt + 1);
          GoodAfter(w1, Pass(script, w1, wait), end, payload);
        }
      GoodAfter(w, w1, end, payload);
    }
  }

  // ----- what the results mean ------------------------------------------------

  /** What a result says of its order as it was last seen. FILLED and REJECTED are those
      states without a short fill, unless a cancel was confirmed first with nothing filled;
      PARTIAL is exactly a dead order that filled short. */
  ghost predicate SaysOf(r: ExecutionResult, o: BrokerOrder) {
    && r.contractsFilled == o.filledQty
    && (r.status == PARTIAL <==> o.state.IsTerminal() && 0.0 < o.filledQty < o.orderedQty as real)
    && (r.status == TIMED_OUT ==> o.cancelRequested && o.filledQty == 0.0)
    && (r.status != TIMED_OUT && r.status != PARTIAL ==>
          && (r.status == FILLED <==> o.state.Filled?) && (r.status == REJECTED <==> o.state.Rejected?))
    && (r.status == CANCELLED && !o.state.IsTerminal() ==> o.cancelRequested && o.filledQty > 0.0)
    && r.status != FAILED
  }

  /** What is then so of it on the broker's books, for good. FILLED is filled in full exactly
      when the result reports any fill at all. */
  ghost predicate EndsAs(r: ExecutionResult, o: BrokerOrder) {
    && o.clientOrderId == r.clientOrderId && r.contractsFilled <= o.filledQty
    && (r.status == FILLED ==>
          && o.state.Filled? && o.filledQty == r.contractsFilled
          && if r.contractsFilled > 0.0 then o.filledQty == o.orderedQty as real else o.filledQty == 0.0)
    && (r.status == PARTIAL ==> o.state.IsTerminal() && 0.0 < o.filledQty == r.contractsFilled < o.orderedQty as real)
    && (r.status == REJECTED ==> o.state.Rejected? && o.filledQty == r.contractsFilled)
    && (r.status == TIMED_OUT ==> o.cancelRequested && r.contractsFilled == 0.0)
    && (r.status == CANCELLED && !o.state.IsTerminal() ==> o.cancelRequested && r.contractsFilled > 0.0)
  }

  ghost predicate Explained(r: ExecutionResult, w: World) {
    exists o, i :: 0 <= i < |w.orders| && SaysOf(r, o) && Later(o, w.orders[i]) && EndsAs(r, w.orders[i])
  }

  lemma TruthExplains(outcome: Outcome, w: World)
    requires outcome.Done? && outcome.result.brokerOrderId.Some? && Truthful(outcome, w)
    ensures Explained(outcome.result, w)
  {
    var r := outcome.result;
    var o :| Told(r, o) && StandsAs(w, o);
    var i :| 0 <= i < |w.orders| && Later(o, w.orders[i]);
    assert SaysOf(r, o) && EndsAs(r, w.orders[i]);
  }

  /** Whatever the broker does, a result that names an order says what that order was when
      last seen, and what it stays. */
  lemma ResultsMeanWhatTheySay(script: Script, cfg: Settings, w: World, payload: Payload, contracts: nat)
    requires SoundWorld(w)
    ensures var (w', outcome) := TransmitFrom(script, cfg, w, payload, contracts, 1);
      outcome.Done? && outcome.result.brokerOrderId.Some? ==> Explained(outcome.result, w')
  {
    TransmitTells(script, cfg, w, payload, contracts, 1);
    var (w', outcome) := TransmitFrom(script, cfg, w, payload, contracts, 1);
    if outcome.Done? && outcome.result.brokerOrderId.Some? {
      TruthExplains(outcome, w');
    }
  }

  // ----- runs -----------------------------------------------------------------

  datatype Command = Command(p: Proposal, verdict: Option<KernelVerdict>, now: int, targetDebit: Option<real>,
                             step: int)

  datatype Sent = Sent(command: Command, payload: Payload)

  /** The world, the nonces used up, and every order handed to `_transmit` so far. */
  datatype Desk = Desk(world: World, consumed: set<string>, sent: seq<Sent>)

  function CallExecute(host: Host, script: Script, cfg: Settings, secret: string, d: Desk, c: Command): Desk {
    var (w, consumed, _) := Execute(host, script, cfg, secret, d.world, d.consumed, c.p, c.verdict, c.now,
                                    c.targetDebit, c.step);
    var a := AuthorizeWith(host, c.verdict, ProposalHash(host, c.p), secret, c.now, d.consumed).0;
    var prepared := Prepare(host, cfg, a, c.p, c.targetDebit, c.step);
    Desk(w, consumed, if prepared.Ready? then d.sent + [Sent(c, prepared.payload)] else d.sent)
  }

  function Run(host: Host, script: Script, cfg: Settings, secret: string, d: Desk, commands: seq<Command>): Desk {
    if commands == [] then d
    else CallExecute(host, script, cfg, secret, Run(host, script, cfg, secret, d, commands[..|commands| - 1]),
                     commands[|commands| - 1])
  }

  /** Sent under a verdict that was checked and granted, built at the granted size. */
  ghost predicate SentAsGranted(host: Host, secret: string, s: Sent) {
    var c := s.command;
    var check := CheckVerdict(host, c.verdict, ProposalHash(host, c.p), secret, c.now);
    && c.verdict.Some? && check.Granted?
    && BuildOrder(host, c.p, check.contracts, c.targetDebit, c.step) == Ok(s.payload)
  }

  ghost predicate Backed(o: BrokerOrder, sent: seq<Sent>) {
    exists k :: 0 <= k < |sent| && sent[k].payload == o.payload
  }

  ghost predicate DeskSafe(host: Host, secret: string, d: Desk) {
    && SoundWorld(d.world)
    && (forall k :: 0 <= k < |d.sent| ==> SentAsGranted(host, secret, d.sent[k]))
    && (forall k :: 0 <= k < |d.sent| ==> d.sent[k].command.verdict.value.nonce in d.consumed)
    && (forall j, k :: 0 <= j < k < |d.sent| ==>
          d.sent[j].command.verdict.value.nonce != d.sent[k].command.verdict.value.nonce)
    && (forall i :: 0 <= i < |d.world.orders| ==> Backed(d.world.orders[i], d.sent))
  }

  lemma StepBacks(d: Desk, d': Desk, payload: Payload)
    requires forall i :: 0 <= i < |d.world.orders| ==> Backed(d.world.orders[i], d.sent)
    requires Evolves(d.world, d'.world, payload)
    requires |d'.sent| == |d.sent| + 1 && d'.sent[..|d.sent|] == d.sent && d'.sent[|d.sent|].payload == payload
    ensures forall i :: 0 <= i < |d'.world.orders| ==> Backed(d'.world.orders[i], d'.sent)
  {
    forall i | 0 <= i < |d'.world.orders| ensures Backed(d'.world.orders[i], d'.sent) {
      if i < |d.world.orders| {
        assert Later(d.world.orders[i], d'.world.orders[i]);
        var k :| 0 <= k < |d.sent| && d.sent[k].payload == d.world.orders[i].payload;
        assert d'.sent[..|d.sent|][k] == d'.sent[k];
      } else {
        assert d'.sent[|d.sent|].payload == d'.world.orders[i].payload;
      }
    }
  }

  lemma CallKeepsSafe(host: Host, script: Script, cfg: Settings, secret: string, d: Desk, c: Command)
    requires DeskSafe(host, secret, d)
    ensures DeskSafe(host, secret, CallExecute(host, script, cfg, secret, d, c))
  {
    var (a, consumed) := AuthorizeWith(host, c.verdict, ProposalHash(host, c.p), secret, c.now, d.consumed);
    var prepared := Prepare(host, cfg, a, c.p, c.targetDebit, c.step);
    var d' := CallExecute(host, script, cfg, secret, d, c);
    assert d.consumed <= consumed;
    if prepared.Ready? {
      TransmitTells(script, cfg, d.world, prepared.payload, prepared.contracts, 1);
      assert SentAsGranted(host, secret, Sent(c, prepared.payload));
      assert c.verdict.value.nonce !in d.consumed && c.verdict.value.nonce in consumed;
      assert d'.sent[..|d.sent|] == d.sent;
      StepBacks(d, d', prepared.payload);
    } else {
      assert d' == Desk(d.world, consumed, d.sent);
    }
  }

  /** Over every run of `execute` calls, with any verdicts, against any broker: one
      order per client order id at most, every order sent under a granted verdict at the
      granted size, and no nonce sent twice. */
  lemma {:induction false} AtMostOnce(host: Host, script: Script, cfg: Settings, secret: string, d: Desk,
                                      commands: seq<Command>)
    requires DeskSafe(host, secret, d)
    ensures DeskSafe(host, secret, Run(host, script, cfg, secret, d, commands))
  {
    if commands != [] {
      AtMostOnce(host, script, cfg, secret, d, commands[..|commands| - 1]);
      CallKeepsSafe(host, script, cfg, secret, Run(host, script, cfg, secret, d, commands[..|commands| - 1]),
                    commands[|commands| - 1]);
    }
  }

  // ----- no order without an approval ------------------------------------------

  /** One adjudication the Kernel has made. */
  datatype Adjudication = Adjudication(p: Proposal, requested: int, context: KernelContext, nonce: string)

  function VerdictOf(host: Host, secret: string, l: KernelLimits, a: Adjudication): KernelVerdict {
    Evaluate(host, Table(host), a.p, a.requested, a.context, secret, l, a.nonce)
  }

  function Minted(host: Host, secret: string, l: KernelLimits, made: set<Adjudication>): set<KernelVerdict> {
    set a | a in made :: VerdictOf(host, secret, l, a)
  }

  /** The Kernel approved exactly this order: these legs under this client id, with no hard
      failure, and this many contracts, within what it was asked and every constraint permits. */
  ghost predicate ApprovedAs(host: Host, l: KernelLimits, a: Adjudication, o: BrokerOrder) {
    && o.clientOrderId == ClientOrderIdFor(ProposalHash(host, a.p))
    && LegsPayload(a.p.legs, a.p.action) == Ok(o.payload.legs) && TradesAs(a.p.legs, a.p.action, o.payload.legs)
    && NoHardFailure(RuleResults(Table(host), a.p, a.context, l))
    && o.orderedQty == ApprovedSize(Table(host), a.p, a.requested, a.context, l)
    && 1 <= o.orderedQty <= a.requested && o.orderedQty <= Permitted(a.p, a.requested, a.context, l)
  }

  lemma MintedAreSigned(host: Host, secret: string, l: KernelLimits, made: set<Adjudication>)
    ensures forall m :: m in Minted(host, secret, l, made) ==> ProperlySigned(host, secret, m)
  {
    forall m | m in Minted(host, secret, l, made) ensures ProperlySigned(host, secret, m) {
      var a :| a in made && m == VerdictOf(host, secret, l, a);
      ApprovesExactly(host, Table(host), a.p, a.requested, a.context, secret, l, a.nonce);
    }
  }

  lemma SentIsApproved(host: Host, secret: string, l: KernelLimits, made: set<Adjudication>, s: Sent, o: BrokerOrder)
    requires host.Sound() && secret != "" && Reducing(l)
    requires SentAsGranted(host, secret, s) && s.payload == o.payload && Sound(o)
    requires SignatureFrom(s.command.verdict.value, Minted(host, secret, l, made))
    ensures IsApproved(host, l, made, o)
  {
    var c := s.command;
    var hash := ProposalHash(host, c.p);
    MintedAreSigned(host, secret, l, made);
    GrantIsMinted(host, secret, Minted(host, secret, l, made), c.verdict, hash, c.now, {});
    var m :| m in Minted(host, secret, l, made) && m.signature == c.verdict.value.signature
             && SameGrant(c.verdict.value, m);
    var a :| a in made && m == VerdictOf(host, secret, l, a);
    ApprovesExactly(host, Table(host), a.p, a.requested, a.context, secret, l, a.nonce);
    ApprovedWithin(host, Table(host), a.p, a.requested, a.context, secret, l, a.nonce);
    ProposalHashBinds(host, c.p, a.p);
    BuiltAsAuthorised(host, c.p, m.approvedContracts, c.targetDebit, c.step);
    assert ApprovedAs(host, l, a, o);
  }

  ghost predicate IsApproved(host: Host, l: KernelLimits, made: set<Adjudication>, o: BrokerOrder) {
    exists a :: a in made && ApprovedAs(host, l, a, o)
  }

  /** Every order on the books is an approved one, and no two share a client order id. */
  ghost predicate AllApproved(host: Host, l: KernelLimits, made: set<Adjudication>, w: World) {
    && (forall i :: 0 <= i < |w.orders| ==> IsApproved(host, l, made, w.orders[i]))
    && (forall i, j :: 0 <= i < j < |w.orders| ==> w.orders[i].clientOrderId != w.orders[j].clientOrderId)
  }

  /** No order reaches the broker unless the Kernel approved exactly that order at that
      size: over every run against every broker, with verdicts altered at will as long as
      their signatures are ones the Kernel made. And no two orders share a proposal. */
  lemma NoOrderWithoutApproval(host: Host, script: Script, cfg: Settings, secret: string, l: KernelLimits,
                               made: set<Adjudication>, clock: real, commands: seq<Command>)
    requires host.Sound() && secret != "" && Reducing(l)
    requires forall c :: c in commands && c.verdict.Some? ==>
      SignatureFrom(c.verdict.value, Minted(host, secret, l, made))
    ensures AllApproved(host, l, made,
                        Run(host, script, cfg, secret, Desk(World([], clock, 0), {}, []), commands).world)
  {
    var start := Desk(World([], clock, 0), {}, []);
    AtMostOnce(host, script, cfg, secret, start, commands);
    SentCommands(host, script, cfg, secret, start, commands);
    SafeDeskIsApproved(host, secret, l, made, Run(host, script, cfg, secret, start, commands), commands);
  }

  lemma SafeDeskIsApproved(host: Host, secret: string, l: KernelLimits, made: set<Adjudication>, d: Desk,
                           commands: seq<Command>)
    requires host.Sound() && secret != "" && Reducing(l)
    requires DeskSafe(host, secret, d) && SentFrom(d.sent, commands)
    requires forall c :: c in commands && c.verdict.Some? ==>
      SignatureFrom(c.verdict.value, Minted(host, secret, l, made))
    ensures AllApproved(host, l, made, d.world)
  {
    forall i | 0 <= i < |d.world.orders|
      ensures IsApproved(host, l, made, d.world.orders[i])
    {
      OrderIsApproved(host, secret, l, made, d, commands, i);
    }
  }

  lemma OrderIsApproved(host: Host, secret: string, l: KernelLimits, made: set<Adjudication>, d: Desk,
                        commands: seq<Command>, i: nat)
    requires host.Sound() && secret != "" && Reducing(l)
    requires DeskSafe(host, secret, d) && SentFrom(d.sent, commands) && i < |d.world.orders|
    requires forall c :: c in commands && c.verdict.Some? ==>
      SignatureFrom(c.verdict.value, Minted(host, secret, l, made))
    ensures IsApproved(host, l, made, d.world.orders[i])
  {
    assert Backed(d.world.orders[i], d.sent);
    var k :| 0 <= k < |d.sent| && d.sent[k].payload == d.world.orders[i].payload;
    assert SentAsGranted(host, secret, d.sent[k]);
    SentIsApproved(host, secret, l, made, d.sent[k], d.world.orders[i]);
  }

  ghost predicate SentFrom(sent: seq<Sent>, commands: seq<Command>) {
    forall k :: 0 <= k < |sent| ==> sent[k].command in commands
  }

  lemma {:induction false} SentCommands(host: Host, script: Script, cfg: Settings, secret: string, d: Desk,
                                        commands: seq<Command>)
    requires d.sent == []
    ensures SentFrom(Run(host, script, cfg, secret, d, commands).sent, commands)
  {
    if commands != [] {
      var before := commands[..|commands| - 1];
      var c := commands[|commands| - 1];
      SentCommands(host, script, cfg, secret, d, before);
      OneMoreSent(host, script, cfg, secret, Run(host, script, cfg, secret, d, before), c, before, commands);
    }
  }

  lemma OneMoreSent(host: Host, script: Script, cfg: Settings, secret: string, d: Desk, c: Command,
                    before: seq<Command>, commands: seq<Command>)
    requires SentFrom(d.sent, before) && c in commands && forall x :: x in before ==> x in commands
    ensures SentFrom(CallExecute(host, script, cfg, secret, d, c).sent, commands)
  {
  }
}
