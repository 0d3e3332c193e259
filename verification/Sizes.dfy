/** The size on the book and the size at the broker: a policy row says the contracts that
    were approved, and its order row says what the broker filled. */
module Sizes {
  import opened Numerals
  import opened Decimals
  import opened Domain
  import opened Verdicts
  import opened KernelState
  import opened Rules
  import opened Orders
  import opened Book
  import opened Underwriting
  import B = Broker
  import E = Engine
  import X = Execution

  // ----- what a fill can be -----------------------------------------------------

  /** The order ends up filled in full, or still can. */
  predicate FillsInFull(o: B.BrokerOrder) {
    if o.state.IsTerminal() then o.state.Filled? && o.filledQty == o.orderedQty as real else true
  }

  /** An order of another size stands under this id, and fills in full. */
  ghost predicate AnotherSize(w: B.World, id: string, contracts: int) {
    exists i :: 0 <= i < |w.orders| && w.orders[i].clientOrderId == id && w.orders[i].orderedQty != contracts
                && FillsInFull(w.orders[i])
  }

  /** A result reported FILLED, with anything filled at all, is filled at this size. */
  predicate AtSize(outcome: E.Outcome, contracts: int) {
    outcome.Done? && outcome.result.status.FILLED? && outcome.result.contractsFilled > 0.0 ==>
      outcome.result.contractsFilled == contracts as real
  }

  lemma NewOrderSized(w: B.World, w': B.World, payload: Payload, row: OrderRow)
    requires B.Evolves(w, w', payload) && B.SoundWorld(w') && !AnotherSize(w, row.clientOrderId, B.QtyOf(payload))
    requires AtBroker(row, w') && row.status.FILLED? && row.filledQty > 0.0
    ensures row.filledQty == B.QtyOf(payload) as real
  {
    var i :| 0 <= i < |w'.orders| && Underwriting.Matches(row, w'.orders[i]);
    assert B.Sound(w'.orders[i]);
    if i < |w.orders| {
      assert B.Later(w.orders[i], w'.orders[i]);
      assert w.orders[i].clientOrderId == row.clientOrderId;
    }
  }

  /** With no order of another size under the proposal's id, a fill is a fill of exactly the
      contracts that were approved, whatever the broker does. */
  lemma FillsAsApproved(d: Desk, w: B.World, consumed: set<string>, p: Proposal, v: KernelVerdict, now: int)
    requires B.SoundWorld(w) && !AnotherSize(w, ClientOrderIdFor(ProposalHash(d.host, p)), v.approvedContracts)
    ensures AtSize(E.Execute(d.host, d.script, d.cfg, d.secret, w, consumed, p, Some(v), now, None, 0).2,
                   v.approvedContracts)
  {
    var id := ClientOrderIdFor(ProposalHash(d.host, p));
    var payload := ExecuteTells(d, w, consumed, p, Some(v), now, None, 0);
    var (w', _, outcome) := E.Execute(d.host, d.script, d.cfg, d.secret, w, consumed, p, Some(v), now, None, 0);
    if outcome.Done? && outcome.result.status.FILLED? && outcome.result.contractsFilled > 0.0 {
      FilledIsAtBroker(outcome, w', id);
      NewOrderSized(w, w', payload, OrderRow(id, outcome.result.status, outcome.result.contractsFilled));
    }
  }

  // ----- an order from an earlier attempt ---------------------------------------

  /** A broker that loses every submit, fills whatever is still alive, and answers the rest. */
  function LostSubmits(): B.Script {
    t => B.Move(0.0, (o: B.BrokerOrder) => (B.OrderState.Filled, o.orderedQty as real), B.Lost, true, true, [], 0.0)
  }

  function FilledUp(o: B.BrokerOrder): B.BrokerOrder {
    o.(state := B.OrderState.Filled, filledQty := o.orderedQty as real)
  }

  lemma PassFillsUp(w: B.World, seconds: real, o: B.BrokerOrder, payload: Payload)
    requires B.SoundWorld(w) && o in w.orders && FillsInFull(o)
    ensures var w1 := B.Pass(LostSubmits(), w, seconds);
      B.SoundWorld(w1) && FilledUp(o) in w1.orders && FillsInFull(FilledUp(o))
  {
    B.PassEvolves(LostSubmits(), w, seconds, payload);
    var w1 := B.Pass(LostSubmits(), w, seconds);
    var i :| 0 <= i < |w.orders| && w.orders[i] == o;
    assert B.Sound(o) && B.Sound(FilledUp(o));
    assert w1.orders[i] == FilledUp(o);
  }

  lemma FindsIt(orders: seq<B.BrokerOrder>, o: B.BrokerOrder)
    requires o in orders
    requires forall i, j :: 0 <= i < j < |orders| ==> orders[i].clientOrderId != orders[j].clientOrderId
    ensures B.Find(orders, o.clientOrderId) == Some(o)
  {
    var i :| 0 <= i < |orders| && orders[i] == o;
    var found := B.Find(orders, o.clientOrderId).value;
    var j :| 0 <= j < |orders| && orders[j] == found;
  }

  lemma LosesSubmit(w: B.World, o: B.BrokerOrder, payload: Payload)
    requires B.SoundWorld(w) && o in w.orders && FillsInFull(o)
    ensures var (w1, reply) := B.Submit(LostSubmits(), w, payload);
      reply.TransientError? && B.SoundWorld(w1) && FilledUp(o) in w1.orders && FillsInFull(FilledUp(o))
  {
    PassFillsUp(w, 0.0, o, payload);
  }

  /** If every submit is lost, the engine adopts the order that stands under the id, of
      whatever size, and reports it FILLED at that size. */
  lemma {:induction false} AdoptsOldOrder(cfg: E.Settings, w: B.World, o: B.BrokerOrder, payload: Payload,
                                          contracts: nat, attempt: nat)
    requires B.SoundWorld(w) && o in w.orders && FillsInFull(o) && o.clientOrderId == payload.clientOrderId
    requires 1 <= attempt <= cfg.maxRetries
    ensures Adopted(E.TransmitFrom(LostSubmits(), cfg, w, payload, contracts, attempt).1, o)
    decreases cfg.maxRetries - attempt
  {
    var script := LostSubmits();
    LosesSubmit(w, o, payload);
    E.TransmitInDoubt(script, cfg, w, payload, contracts, attempt);
    var w1 := B.Submit(script, w, payload).0;
    if attempt == cfg.maxRetries {
      ResolvedAsFilled(cfg, w1, FilledUp(o), payload, contracts, attempt);
    } else {
      var wait := E.Backoff(script, w1, attempt);
      PassFillsUp(w1, wait, FilledUp(o), payload);
      AdoptsOldOrder(cfg, B.Pass(script, w1, wait), FilledUp(o), payload, contracts, attempt + 1);
    }
  }

  predicate Adopted(outcome: E.Outcome, o: B.BrokerOrder) {
    outcome.Done? && outcome.result.status.FILLED? && outcome.result.contractsFilled == o.orderedQty as real
  }

  lemma ResolvedAsFilled(cfg: E.Settings, w: B.World, o: B.BrokerOrder, payload: Payload, contracts: nat, attempts: nat)
    requires B.SoundWorld(w) && o in w.orders && FilledUp(o) == o && o.clientOrderId == payload.clientOrderId
    ensures Adopted(E.ResolveUnknown(LostSubmits(), cfg, w, payload, contracts, attempts).1, o)
  {
    PassFillsUp(w, 0.0, o, payload);
    var (w1, reply) := B.Lookup(LostSubmits(), w, payload.clientOrderId);
    FindsIt(w1.orders, o);
    assert reply == B.Found(o) && B.Sound(o);
    E.AwaitTerminated(LostSubmits(), cfg, w1, o, w1.clock + cfg.timeoutSec, payload, contracts, attempts);
  }

  // ----- the two sizes ------------------------------------------------------------

  /** The verdict is granted, the order builds and no pre-flight stops it. */
  predicate Transmits(d: Desk, f: Firm, p: Proposal, v: KernelVerdict, now: int) {
    var a := AuthorizeWith(d.host, Some(v), ProposalHash(d.host, p), d.secret, now, f.consumed).0;
    E.Prepare(d.host, d.cfg, a, p, None, 0).Ready?
  }

  /** The last policy on the book is as large as the order row written with it says was
      filled, if anything was. */
  predicate SizesAgree(end: (Firm, CycleOutcome)) {
    end.1 == Finished(E.FILLED) && |end.0.orders| > 0 && |end.0.tables.policies| > 0 ==>
      var row, policy := end.0.orders[|end.0.orders| - 1], end.0.tables.policies[|end.0.tables.policies| - 1];
      row.filledQty > 0.0 ==> row.filledQty == policy.contracts as real
  }

  lemma TradedSize(d: Desk, f: Firm, p: Proposal, v: KernelVerdict, input: CycleInput)
    ensures var end := Traded(d, f, p, v, input);
      var outcome :=
        E.Execute(d.host, d.script, d.cfg, d.secret, f.world, f.consumed, p, Some(v), input.now, None, 0).2;
      var filled := outcome.Done? && outcome.result.status.FILLED? && !Recorded(f.orders, outcome.result.clientOrderId);
      && (end.1 == Finished(E.FILLED) <==> filled)
      && (filled ==> (SizesAgree(end) <==> AtSize(outcome, v.approvedContracts)))
  {
  }

  /** The policy row is as large as the fill on every broker, if and only if no order of
      another size stands under the proposal's id that is filled in full or still can be. */
  lemma SizesAgreeExactly(d: Desk, f: Firm, p: Proposal, v: KernelVerdict, input: CycleInput)
    requires B.SoundWorld(f.world) && d.cfg.maxRetries >= 1 && Transmits(d, f, p, v, input.now)
    requires !Recorded(f.orders, ClientOrderIdFor(ProposalHash(d.host, p)))
    ensures (forall script: B.Script :: SizesAgree(Traded(d.(script := script), f, p, v, input)))
       <==> !AnotherSize(f.world, ClientOrderIdFor(ProposalHash(d.host, p)), v.approvedContracts)
  {
    if AnotherSize(f.world, ClientOrderIdFor(ProposalHash(d.host, p)), v.approvedContracts) {
      TradesAtAnotherSize(d.(script := LostSubmits()), f, p, v, input);
    } else {
      forall script: B.Script ensures SizesAgree(Traded(d.(script := script), f, p, v, input)) {
        TradesAtSize(d.(script := script), f, p, v, input);
      }
    }
  }

  lemma TradesAtSize(d: Desk, f: Firm, p: Proposal, v: KernelVerdict, input: CycleInput)
    requires B.SoundWorld(f.world)
    requires !AnotherSize(f.world, ClientOrderIdFor(ProposalHash(d.host, p)), v.approvedContracts)
    ensures SizesAgree(Traded(d, f, p, v, input))
  {
    TradedSize(d, f, p, v, input);
    FillsAsApproved(d, f.world, f.consumed, p, v, input.now);
  }

  /** What is then written: a live policy of the approved contracts, beside an order row that
      says another number was filled. */
  lemma TradesAtAnotherSize(d: Desk, f: Firm, p: Proposal, v: KernelVerdict, input: CycleInput)
    requires B.SoundWorld(f.world) && d.cfg.maxRetries >= 1 && Transmits(d, f, p, v, input.now)
    requires d.script == LostSubmits() && !Recorded(f.orders, ClientOrderIdFor(ProposalHash(d.host, p)))
    requires AnotherSize(f.world, ClientOrderIdFor(ProposalHash(d.host, p)), v.approvedContracts)
    ensures var end := Traded(d, f, p, v, input);
      && end.1 == Finished(E.FILLED) && !SizesAgree(end)
      && end.0.tables.policies[|end.0.tables.policies| - 1].contracts == v.approvedContracts
  {
    var hash := ProposalHash(d.host, p);
    var a := AuthorizeWith(d.host, Some(v), hash, d.secret, input.now, f.consumed).0;
    PreparedPayload(d, a, p, None, 0);
    GrantedSize(d, Some(v), hash, input.now, f.consumed);
    var ready := E.Prepare(d.host, d.cfg, a, p, None, 0);
    var i :| 0 <= i < |f.world.orders| && f.world.orders[i].clientOrderId == ready.payload.clientOrderId
             && f.world.orders[i].orderedQty != v.approvedContracts && FillsInFull(f.world.orders[i]);
    AdoptsOldOrder(d.cfg, f.world, f.world.orders[i], ready.payload, ready.contracts, 1);
    TransmitAnswers(d.script, d.cfg, f.world, ready.payload, ready.contracts, 1);
    assert B.Sound(f.world.orders[i]);
    TradedSize(d, f, p, v, input);
  }
}
