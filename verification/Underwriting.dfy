/** The underwriting cycle, start to finish: price, choose, adjudicate, execute, record; and
    what whole runs of it keep between the book, the Kernel's bounds and the broker. */
module Underwriting {
  import opened Numerals
  import opened Decimals
  import opened Domain
  import opened Verdicts
  import opened KernelState
  import opened Rules
  import opened Kernel
  import opened Orders
  import opened Market
  import opened Actuary
  import opened ActuaryLaws
  import opened Agent
  import opened Book
  import opened Solvency
  import opened BoundedLoss
  import B = Broker
  import E = Engine
  import X = Execution

  // ----- the firm -------------------------------------------------------------------

  /** What the desk was built with. */
  datatype Desk = Desk(host: Host, script: B.Script, cfg: E.Settings, secret: string)

  /** A row of the orders table; its client order id is unique. */
  datatype OrderRow = OrderRow(clientOrderId: string, status: E.Status, filledQty: real)

  /** The broker's books, the nonces used, and the desk's own tables. */
  datatype Firm = Firm(world: B.World, consumed: set<string>, tables: Tables, orders: seq<OrderRow>)

  /** One cycle's inputs: the snapshot, if one could be built, the model's replies, and what
      is read from the host. */
  datatype CycleInput = CycleInput(
    snapshot: Option<Snapshot>,
    universe: set<string>,
    replies: nat -> ModelReply,
    reading: Reading,
    nonce: string,
    now: int,
    year: nat,
    live: bool)

  datatype CycleOutcome =
    | ModeBlocked | Aborted | NotWritten(choice: Choice) | KernelRejected | DryRunApproved | Errored
    | Finished(status: E.Status)

  predicate Recorded(orders: seq<OrderRow>, id: string) {
    exists i :: 0 <= i < |orders| && orders[i].clientOrderId == id
  }

  /** `_record_execution`: policy and order in one transaction, rolled back as one if the
      order's client id is already there. */
  function Record(f: Firm, p: Proposal, r: E.ExecutionResult, contracts: int, year: nat): (Firm, bool) {
    if !r.status.FILLED? && !r.status.PARTIAL? then (f, true)
    else if Recorded(f.orders, r.clientOrderId) then (f, false)
    else
      (f.(tables := AfterExecution(f.tables, p, r.status, contracts, year),
          orders := f.orders + [OrderRow(r.clientOrderId, r.status, r.contractsFilled)]), true)
  }

  /** The entry, as the whole-run bounds name it. */
  function EntryOf(p: Proposal, requested: int, candidates: set<string>, input: CycleInput, result: E.Status): Entry {
    Entry(p, requested, input.reading, candidates, input.nonce, result, input.year)
  }

  /** The adjudication of one selected proposal. */
  function Adjudicated(d: Desk, f: Firm, p: Proposal, requested: int, candidates: set<string>,
                       input: CycleInput): KernelVerdict {
    Evaluate(d.host, Table(d.host), p, requested, EntryContext(f.tables.policies, input.reading, candidates), d.secret,
             DEFAULT_LIMITS, input.nonce)
  }

  /** Execution and recording of an approved entry. */
  function Traded(d: Desk, f: Firm, p: Proposal, v: KernelVerdict, input: CycleInput): (Firm, CycleOutcome) {
    var (w, consumed, outcome) := E.Execute(d.host, d.script, d.cfg, d.secret, f.world, f.consumed, p, Some(v),
                                            input.now, None, 0);
    var after := f.(world := w, consumed := consumed);
    if !outcome.Done? then (after, Errored)
    else
      var (booked, kept) := Record(after, p, outcome.result, v.approvedContracts, input.year);
      (booked, if kept then Finished(outcome.result.status) else Errored)
  }

  function Underwritten(d: Desk, f: Firm, ps: seq<Proposal>, input: CycleInput): (Firm, CycleOutcome) {
    match Selection(ps, input.replies)
    case Selected(p, requested) =>
      var v := Adjudicated(d, f, p, requested, SuppliedIds(ps), input);
      if !v.decision.Approve? then (f, KernelRejected)
      else if !input.live then (f, DryRunApproved)
      else Traded(d, f, p, v, input)
    case choice => (f, NotWritten(choice))
  }

  /** `run_underwriting_cycle`, with persistence on. */
  function UnderwritingCycle(d: Desk, f: Firm, input: CycleInput): (Firm, CycleOutcome) {
    if !input.reading.mode.Active? then (f, ModeBlocked)
    else if input.snapshot.None? then (f, Aborted)
    else Underwritten(d, f, Price(d.host, input.snapshot.value, DEFAULT_THRESHOLDS, Some(input.universe)).proposals,
                      input)
  }

  // ----- the cycle --------------------------------------------------------------------

  class OrderTable {
    var rows: seq<OrderRow>

    constructor ()
      ensures rows == []
    {
      rows := [];
    }
  }

  ghost function FirmOf(engine: E.ExecutionEngine, book: PolicyBook, orders: OrderTable): Firm
    reads engine.broker, engine.nonces, book, orders
  {
    Firm(engine.broker.world, engine.nonces.consumed, book.State(), orders.rows)
  }

  ghost function DeskOf(engine: E.ExecutionEngine): Desk {
    Desk(engine.host, engine.broker.script, engine.cfg, engine.secret)
  }

  /** Execute what was approved, and write down what filled. */
  method Trade(engine: E.ExecutionEngine, book: PolicyBook, orders: OrderTable, p: Proposal, v: KernelVerdict,
               input: CycleInput)
    returns (outcome: CycleOutcome)
    modifies engine.broker, engine.nonces, book, orders
    ensures (FirmOf(engine, book, orders), outcome)
         == Traded(DeskOf(engine), old(FirmOf(engine, book, orders)), p, v, input)
  {
    var executed := engine.ExecuteOrder(p, Some(v), input.now, None, 0);
    if !executed.Done? {
      return Errored;
    }
    var r := executed.result;
    if r.status.FILLED? || r.status.PARTIAL? {
      if Recorded(orders.rows, r.clientOrderId) {
        return Errored;
      }
      book.RecordExecution(p, r.status, v.approvedContracts, input.year);
      orders.rows := orders.rows + [OrderRow(r.clientOrderId, r.status, r.contractsFilled)];
    }
    outcome := Finished(r.status);
  }

  /** `run_underwriting_cycle` */
  method RunUnderwritingCycle(engine: E.ExecutionEngine, book: PolicyBook, orders: OrderTable, input: CycleInput)
    returns (outcome: CycleOutcome)
    modifies engine.broker, engine.nonces, book, orders
    ensures (FirmOf(engine, book, orders), outcome)
         == UnderwritingCycle(DeskOf(engine), old(FirmOf(engine, book, orders)), input)
    ensures !input.live ==> FirmOf(engine, book, orders) == old(FirmOf(engine, book, orders))
  {
    if !input.reading.mode.Active? {
      return ModeBlocked;
    }
    if input.snapshot.None? {
      return Aborted;
    }
    var priced := PricePutCreditSpreads(engine.host, input.snapshot.value, DEFAULT_THRESHOLDS, Some(input.universe));
    var choice, _ := Agent.Decide(priced.proposals, input.replies);
    match choice
    case Selected(p, requested) =>
      var c := EntryContext(book.policies, input.reading, SuppliedIds(priced.proposals));
      var v := Adjudicate(engine.host, Table(engine.host), p, requested, c, engine.secret, DEFAULT_LIMITS, input.nonce);
      if !v.decision.Approve? {
        return KernelRejected;
      }
      if !input.live {
        return DryRunApproved;
      }
      outcome := Trade(engine, book, orders, p, v, input);
    case _ =>
      outcome := NotWritten(choice);
  }

  lemma UnderwrittenTrades(d: Desk, f: Firm, ps: seq<Proposal>, input: CycleInput)
    returns (trade: Option<(Proposal, KernelVerdict)>)
    ensures Underwritten(d, f, ps, input).0
         == match trade case Some(t) => Traded(d, f, t.0, t.1, input).0 case None => f
  {
    trade := None;
    var choice := Selection(ps, input.replies);
    if choice.Selected? {
      var v := Adjudicated(d, f, choice.proposal, choice.contracts, SuppliedIds(ps), input);
      if v.decision.Approve? && input.live {
        trade := Some((choice.proposal, v));
      }
    }
  }

  /** A cycle leaves the firm as it was, or trades one proposal on a verdict of its own. */
  lemma CycleTrades(d: Desk, f: Firm, input: CycleInput) returns (trade: Option<(Proposal, KernelVerdict)>)
    ensures UnderwritingCycle(d, f, input).0
         == match trade case Some(t) => Traded(d, f, t.0, t.1, input).0 case None => f
  {
    trade := None;
    if input.reading.mode.Active? && input.snapshot.Some? {
      var ps := Price(d.host, input.snapshot.value, DEFAULT_THRESHOLDS, Some(input.universe)).proposals;
      trade := UnderwrittenTrades(d, f, ps, input);
    }
  }

  // ----- runs ---------------------------------------------------------------------------

  /** A run of the firm: entry cycles, exits executed under any verdict, settlements, and
      exits marked as begun. */
  datatype Happening =
    | Underwrite(input: CycleInput)
    | ExecuteExit(command: X.Command)
    | Settlement(id: nat, at: int, debit: real, realized: real, reason: string)
    | BeginExit(id: nat)

  function Next(d: Desk, f: Firm, h: Happening): Firm {
    match h
    case Underwrite(input) => UnderwritingCycle(d, f, input).0
    case ExecuteExit(c) =>
      var (w, consumed, _) := E.Execute(d.host, d.script, d.cfg, d.secret, f.world, f.consumed, c.p, c.verdict, c.now,
                                        c.targetDebit, c.step);
      f.(world := w, consumed := consumed)
    case Settlement(id, at, debit, realized, reason) =>
      f.(tables := AfterSettling(f.tables, id, at, debit, realized, reason))
    case BeginExit(id) => f.(tables := AfterMarking(f.tables, id))
  }

  function Lived(d: Desk, clock: real, happenings: seq<Happening>): Firm {
    if happenings == [] then Firm(B.World([], clock, 0), {}, EMPTY, [])
    else Next(d, Lived(d, clock, happenings[..|happenings| - 1]), happenings[|happenings| - 1])
  }

  // ----- solvency of the firm -----------------------------------------------------------

  /** Snapshots quote each symbol once; equities are in whole cents and at most `nav`. */
  ghost predicate Ordinary(h: Happening, nav: real) {
    h.Underwrite? ==>
      && (h.input.snapshot.Some? ==> DistinctSymbols(h.input.snapshot.value.quotes))
      && Countable(h.input.reading.equity) && h.input.reading.equity <= nav
  }

  lemma TradeIsMove(d: Desk, f: Firm, p: Proposal, requested: int, candidates: set<string>,
                    input: CycleInput)
    returns (m: Move)
    requires Adjudicated(d, f, p, requested, candidates, input).decision.Approve?
    ensures m.Enter? && m.entry.p == p && m.entry.reading == input.reading
    ensures Traded(d, f, p, Adjudicated(d, f, p, requested, candidates, input), input).0.tables
         == Solvency.Advance(d.host, d.secret, DEFAULT_LIMITS, f.tables, m)
  {
    var v := Adjudicated(d, f, p, requested, candidates, input);
    var (w, consumed, outcome) := E.Execute(d.host, d.script, d.cfg, d.secret, f.world, f.consumed, p, Some(v),
                                            input.now, None, 0);
    var after := f.(world := w, consumed := consumed);
    var kept := outcome.Done? && Record(after, p, outcome.result, v.approvedContracts, input.year).1;
    var status := if kept then outcome.result.status else E.REJECTED;
    m := Enter(EntryOf(p, requested, candidates, input, status));
    SameVerdict(d, f, p, requested, candidates, input, status);
    RecordedAs(f, after, p, v, input, outcome, status);
  }

  lemma SameVerdict(d: Desk, f: Firm, p: Proposal, requested: int, candidates: set<string>, input: CycleInput,
                    status: E.Status)
    ensures VerdictOn(d.host, d.secret, DEFAULT_LIMITS, f.tables.policies,
                      EntryOf(p, requested, candidates, input, status))
         == Adjudicated(d, f, p, requested, candidates, input)
  {
  }

  lemma RecordedAs(f: Firm, after: Firm, p: Proposal, v: KernelVerdict, input: CycleInput, outcome: E.Outcome,
                   status: E.Status)
    requires after.tables == f.tables && after.orders == f.orders
    requires var kept := outcome.Done? && Record(after, p, outcome.result, v.approvedContracts, input.year).1;
      status == if kept then outcome.result.status else E.REJECTED
    ensures var end :=
      if outcome.Done? then Record(after, p, outcome.result, v.approvedContracts, input.year).0 else after;
      end.tables
         == AfterExecution(f.tables, p, status, v.approvedContracts, input.year)
  {
  }

  lemma CycleKeepsBounds(d: Desk, f: Firm, input: CycleInput, nav: real)
    requires Bounded(f.tables, nav) && Ordinary(Underwrite(input), nav)
    ensures Bounded(UnderwritingCycle(d, f, input).0.tables, nav)
  {
    if input.reading.mode.Active? && input.snapshot.Some? {
      var ps := Price(d.host, input.snapshot.value, DEFAULT_THRESHOLDS, Some(input.universe)).proposals;
      SelectionIsSupplied(ps, input.replies);
      var choice := Selection(ps, input.replies);
      if choice.Selected? {
        OffersAreAllowed(d.host, input.snapshot.value, Some(input.universe), choice.proposal);
        SelectedKeepsBounds(d, f, choice.proposal, choice.contracts, SuppliedIds(ps), input, nav);
      }
    }
  }

  lemma SelectedKeepsBounds(d: Desk, f: Firm, p: Proposal, requested: int, candidates: set<string>, input: CycleInput,
                            nav: real)
    requires Bounded(f.tables, nav) && p.action.Open? && TenThousandths(p.maxLoss.V())
    requires Countable(input.reading.equity) && input.reading.equity <= nav
    ensures var v := Adjudicated(d, f, p, requested, candidates, input);
      v.decision.Approve? ==> Bounded(Traded(d, f, p, v, input).0.tables, nav)
  {
    if Adjudicated(d, f, p, requested, candidates, input).decision.Approve? {
      var m := TradeIsMove(d, f, p, requested, candidates, input);
      assert LimitsWith(0.5, 1.0) == DEFAULT_LIMITS;
      EnterKeeps(d.host, d.secret, 0.5, 1.0, f.tables, m.entry, nav);
    }
  }

  lemma {:induction false} LivesWithinBounds(d: Desk, clock: real, happenings: seq<Happening>, nav: real)
    requires nav >= 0.0 && forall h :: h in happenings ==> Ordinary(h, nav)
    ensures Bounded(Lived(d, clock, happenings).tables, nav)
  {
    if happenings != [] {
      var before, h := Lived(d, clock, happenings[..|happenings| - 1]), happenings[|happenings| - 1];
      LivesWithinBounds(d, clock, happenings[..|happenings| - 1], nav);
      match h
      case Underwrite(input) => CycleKeepsBounds(d, before, input, nav);
      case ExecuteExit(_) =>
      case Settlement(id, at, debit, realized, reason) =>
        SettleKeeps(before.tables, id, at, debit, realized, reason, nav);
      case BeginExit(id) => ExitKeeps(before.tables, id, nav);
    }
  }

  /** The whole desk together, with nothing assumed of what is proposed: over every run of
      cycles, on any snapshots, any replies of the model, any broker and any exits, every
      capital bound holds of the open book, and nothing but partial fills is held beside it. */
  lemma FirmStaysSolvent(d: Desk, clock: real, happenings: seq<Happening>, nav: real)
    requires nav >= 0.0 && forall h :: h in happenings ==> Ordinary(h, nav)
    ensures var t := Lived(d, clock, happenings).tables;
      && Solvent(t.policies, nav)
      && Sum(t.reserves, Held()) == Sum(t.policies, Reserved()) + Sum(t.policies, UnlistedLoss())
  {
    LivesWithinBounds(d, clock, happenings, nav);
    HeldWithin(Lived(d, clock, happenings).tables, nav);
  }

  // ----- the book and the broker ----------------------------------------------------------

  /** What a recorded order says is what the broker's order is, for good. */
  ghost predicate Matches(row: OrderRow, o: B.BrokerOrder) {
    && o.clientOrderId == row.clientOrderId && o.state.IsTerminal() && o.filledQty == row.filledQty
    && (row.status.FILLED? ==> o.state.Filled? && (o.filledQty > 0.0 ==> o.filledQty == o.orderedQty as real))
    && (row.status.PARTIAL? ==> 0.0 < o.filledQty < o.orderedQty as real)
    && (row.status.FILLED? || row.status.PARTIAL?)
  }

  ghost predicate AtBroker(row: OrderRow, w: B.World) {
    exists i :: 0 <= i < |w.orders| && Matches(row, w.orders[i])
  }

  /** One order for every policy, no client order id twice, and every one of them filled at
      the broker as recorded. */
  ghost predicate Agrees(f: Firm) {
    && B.SoundWorld(f.world) && |f.orders| == |f.tables.policies|
    && (forall i :: 0 <= i < |f.orders| ==> AtBroker(f.orders[i], f.world))
    && (forall i, j :: 0 <= i < j < |f.orders| ==> f.orders[i].clientOrderId != f.orders[j].clientOrderId)
  }

  /** The result is filed under the payload's id, and a fill names its broker order. */
  ghost predicate Answers(outcome: E.Outcome, id: string) {
    outcome.Done? ==>
      && outcome.result.clientOrderId == id
      && (outcome.result.status.FILLED? || outcome.result.status.PARTIAL? ==> outcome.result.brokerOrderId.Some?)
  }

  lemma CancelAnswers(script: B.Script, w: B.World, o: B.BrokerOrder, payload: Payload, contracts: nat, attempts: nat)
    ensures Answers(E.CancelAndConfirm(script, w, o, payload, contracts, attempts).1, o.clientOrderId)
  {
  }

  lemma {:induction false} AwaitAnswers(script: B.Script, cfg: E.Settings, w: B.World, o: B.BrokerOrder, deadline: real,
                                        payload: Payload, contracts: nat, attempts: nat)
    ensures Answers(E.Await(script, cfg, w, o, deadline, payload, contracts, attempts).1, o.clientOrderId)
    decreases E.Polls(deadline - w.clock, cfg.pollInterval)
  {
    if o.state.IsTerminal() {
    } else if w.clock >= deadline {
      CancelAnswers(script, w, o, payload, contracts, attempts);
    } else {
      E.PollStepDecreases(script, cfg, w, o.clientOrderId, deadline);
      E.AwaitPolls(script, cfg, w, o, deadline, payload, contracts, attempts);
      var (w2, reply) := E.PollStep(script, cfg, w, o.clientOrderId);
      if reply.Found? {
        AwaitAnswers(script, cfg, w2, reply.order, deadline, payload, contracts, attempts);
      }
    }
  }

  lemma TerminalAnswers(script: B.Script, cfg: E.Settings, w: B.World, o: B.BrokerOrder, payload: Payload,
                        contracts: nat, attempts: nat)
    ensures Answers(E.AwaitTerminal(script, cfg, w, o, payload, contracts, attempts).1, o.clientOrderId)
  {
    AwaitAnswers(script, cfg, w, o, w.clock + cfg.timeoutSec, payload, contracts, attempts);
  }

  lemma ResolveAnswers(script: B.Script, cfg: E.Settings, w: B.World, payload: Payload, contracts: nat, attempts: nat)
    ensures Answers(E.ResolveUnknown(script, cfg, w, payload, contracts, attempts).1, payload.clientOrderId)
  {
    var (w1, reply) := B.Lookup(script, w, payload.clientOrderId);
    if reply.Found? {
      TerminalAnswers(script, cfg, w1, reply.order, payload, contracts, attempts);
    }
  }

  lemma {:induction false} TransmitAnswers(script: B.Script, cfg: E.Settings, w: B.World, payload: Payload,
                                           contracts: nat, attempt: nat)
    requires B.SoundWorld(w) && 1 <= attempt
    ensures Answers(E.TransmitFrom(script, cfg, w, payload, contracts, attempt).1, payload.clientOrderId)
    decreases cfg.maxRetries + 1 - attempt
  {
    if attempt <= cfg.maxRetries {
      B.SubmitEvolves(script, w, payload);
      var (w1, reply) := B.Submit(script, w, payload);
      if reply.Acknowledged? {
        TerminalAnswers(script, cfg, w1, reply.order, payload, contracts, attempt);
      } else if reply.TransientError? {
        E.TransmitInDoubt(script, cfg, w, payload, contracts, attempt);
        if attempt == cfg.maxRetries {
          ResolveAnswers(script, cfg, w1, payload, contracts, attempt);
        } else {
          var wait := E.Backoff(script, w1, attempt);
          B.PassEvolves(script, w1, wait, payload);
          TransmitAnswers(script, cfg, B.Pass(script, w1, wait), payload, contracts, attempt + 1);
        }
      }
    }
  }

  /** What one `execute` does, in the terms of this module: the broker's books move on by one
      payload at most, the result tells the truth, and it is filed under the proposal's id. */
  ghost predicate Tells(w: B.World, end: (B.World, E.Outcome), payload: Payload, id: string, approved: int) {
    && B.SoundWorld(end.0) && B.Evolves(w, end.0, payload) && X.Truthful(end.1, end.0) && Answers(end.1, id)
    && (end.1.Done? && (end.1.result.status.FILLED? || end.1.result.status.PARTIAL?) ==> B.QtyOf(payload) == approved)
  }

  lemma TransmissionTells(d: Desk, w: B.World, payload: Payload, n: nat)
    requires B.SoundWorld(w) && B.QtyOf(payload) == n
    ensures Tells(w, E.TransmitFrom(d.script, d.cfg, w, payload, n, 1), payload, payload.clientOrderId, n)
  {
    X.TransmitTells(d.script, d.cfg, w, payload, n, 1);
    TransmitAnswers(d.script, d.cfg, w, payload, n, 1);
  }

  lemma StoppingTells(d: Desk, w: B.World, a: Authorization, p: Proposal, debit: Option<real>, step: int,
                      payload: Payload, approved: int)
    requires B.SoundWorld(w) && E.Prepare(d.host, d.cfg, a, p, debit, step).Stopped?
    ensures Tells(w, (w, E.Prepare(d.host, d.cfg, a, p, debit, step).outcome), payload,
                  ClientOrderIdFor(ProposalHash(d.host, p)), approved)
  {
    assert forall i :: 0 <= i < |w.orders| ==> B.Later(w.orders[i], w.orders[i]);
    StoppedAnswers(d, a, p, debit, step);
  }

  lemma PreparedPayload(d: Desk, a: Authorization, p: Proposal, debit: Option<real>, step: int)
    requires E.Prepare(d.host, d.cfg, a, p, debit, step).Ready?
    ensures var r := E.Prepare(d.host, d.cfg, a, p, debit, step);
      && a.Granted? && r.contracts == a.contracts && B.QtyOf(r.payload) == r.contracts
      && r.payload.clientOrderId == ClientOrderIdFor(ProposalHash(d.host, p))
  {
    BuiltAsAuthorised(d.host, p, a.contracts, debit, step);
  }

  lemma GrantedSize(d: Desk, v: Option<KernelVerdict>, hash: string, now: int, consumed: set<string>)
    requires AuthorizeWith(d.host, v, hash, d.secret, now, consumed).0.Granted?
    ensures v.Some? && AuthorizeWith(d.host, v, hash, d.secret, now, consumed).0.contracts == v.value.approvedContracts
  {
  }

  lemma ExecuteTells(d: Desk, w: B.World, consumed: set<string>, p: Proposal, v: Option<KernelVerdict>, now: int,
                     debit: Option<real>, step: int) returns (payload: Payload)
    requires B.SoundWorld(w)
    ensures payload.clientOrderId == ClientOrderIdFor(ProposalHash(d.host, p))
    ensures var (w', _, outcome) := E.Execute(d.host, d.script, d.cfg, d.secret, w, consumed, p, v, now, debit, step);
      Tells(w, (w', outcome), payload, ClientOrderIdFor(ProposalHash(d.host, p)),
            if v.Some? then v.value.approvedContracts else 0)
  {
    var hash := ProposalHash(d.host, p);
    var a := AuthorizeWith(d.host, v, hash, d.secret, now, consumed).0;
    match E.Prepare(d.host, d.cfg, a, p, debit, step)
    case Stopped(_) =>
      payload := Payload("", "", "", "", "", [], ClientOrderIdFor(hash));
      StoppingTells(d, w, a, p, debit, step, payload, if v.Some? then v.value.approvedContracts else 0);
    case Ready(built, n) =>
      payload := built;
      PreparedPayload(d, a, p, debit, step);
      GrantedSize(d, v, hash, now, consumed);
      TransmissionTells(d, w, payload, n);
  }

  lemma StoppedAnswers(d: Desk, a: Authorization, p: Proposal, debit: Option<real>, step: int)
    requires E.Prepare(d.host, d.cfg, a, p, debit, step).Stopped?
    ensures Answers(E.Prepare(d.host, d.cfg, a, p, debit, step).outcome, ClientOrderIdFor(ProposalHash(d.host, p)))
    ensures var o := E.Prepare(d.host, d.cfg, a, p, debit, step).outcome;
      o.Done? ==> o.result.status.REJECTED? && o.result.brokerOrderId.None?
  {
    if a.Granted? {
      BuiltAsAuthorised(d.host, p, a.contracts, debit, step);
    }
  }

  lemma MatchesLater(row: OrderRow, w: B.World, w': B.World, payload: Payload)
    requires AtBroker(row, w) && B.Evolves(w, w', payload)
    ensures AtBroker(row, w')
  {
    var i :| 0 <= i < |w.orders| && Matches(row, w.orders[i]);
    assert B.Later(w.orders[i], w'.orders[i]);
    assert Matches(row, w'.orders[i]);
  }

  lemma WorldMovesOn(f: Firm, w: B.World, consumed: set<string>, payload: Payload)
    requires Agrees(f) && B.SoundWorld(w) && B.Evolves(f.world, w, payload)
    ensures Agrees(f.(world := w, consumed := consumed))
  {
    forall i | 0 <= i < |f.orders| ensures AtBroker(f.orders[i], w) {
      MatchesLater(f.orders[i], f.world, w, payload);
    }
  }

  lemma FilledIsAtBroker(outcome: E.Outcome, w: B.World, id: string)
    requires X.Truthful(outcome, w) && Answers(outcome, id) && outcome.Done?
    requires outcome.result.status.FILLED? || outcome.result.status.PARTIAL?
    ensures AtBroker(OrderRow(id, outcome.result.status, outcome.result.contractsFilled), w)
  {
    var row := OrderRow(id, outcome.result.status, outcome.result.contractsFilled);
    var o :| X.Told(outcome.result, o) && X.StandsAs(w, o);
    var i :| 0 <= i < |w.orders| && B.Later(o, w.orders[i]);
    assert Matches(row, w.orders[i]);
  }

  lemma RecordingAgrees(f: Firm, p: Proposal, outcome: E.Outcome, contracts: int, year: nat, id: string)
    requires Agrees(f) && X.Truthful(outcome, f.world) && Answers(outcome, id) && outcome.Done?
    ensures Agrees(Record(f, p, outcome.result, contracts, year).0)
  {
    var r := outcome.result;
    var (after, kept) := Record(f, p, r, contracts, year);
    if (r.status.FILLED? || r.status.PARTIAL?) && kept {
      FilledIsAtBroker(outcome, f.world, id);
      forall i | 0 <= i < |after.orders| ensures AtBroker(after.orders[i], after.world) {
        if i < |f.orders| {
          assert AtBroker(f.orders[i], f.world);
        }
      }
    }
  }

  lemma TradeAgrees(d: Desk, f: Firm, p: Proposal, v: KernelVerdict, input: CycleInput)
    requires Agrees(f)
    ensures Agrees(Traded(d, f, p, v, input).0)
  {
    var payload := ExecuteTells(d, f.world, f.consumed, p, Some(v), input.now, None, 0);
    var (w, consumed, outcome) := E.Execute(d.host, d.script, d.cfg, d.secret, f.world, f.consumed, p, Some(v),
                                            input.now, None, 0);
    WorldMovesOn(f, w, consumed, payload);
    if outcome.Done? {
      RecordingAgrees(f.(world := w, consumed := consumed), p, outcome, v.approvedContracts, input.year,
                      ClientOrderIdFor(ProposalHash(d.host, p)));
    }
  }

  lemma CycleAgrees(d: Desk, f: Firm, input: CycleInput)
    requires Agrees(f)
    ensures Agrees(UnderwritingCycle(d, f, input).0)
  {
    if input.reading.mode.Active? && input.snapshot.Some? {
      var ps := Price(d.host, input.snapshot.value, DEFAULT_THRESHOLDS, Some(input.universe)).proposals;
      var choice := Selection(ps, input.replies);
      if choice.Selected? {
        var v := Adjudicated(d, f, choice.proposal, choice.contracts, SuppliedIds(ps), input);
        TradeAgrees(d, f, choice.proposal, v, input);
      }
    }
  }

  /** The book never claims what the broker did not do. Over every run against every broker:
      each policy on the book has its own order, no two share one, and each of those orders
      is, at the broker and for good, filled exactly as recorded. */
  lemma {:induction false} BookAgreesWithBroker(d: Desk, clock: real, happenings: seq<Happening>)
    ensures Agrees(Lived(d, clock, happenings))
  {
    if happenings != [] {
      var before, h := Lived(d, clock, happenings[..|happenings| - 1]), happenings[|happenings| - 1];
      BookAgreesWithBroker(d, clock, happenings[..|happenings| - 1]);
      match h
      case Underwrite(input) => CycleAgrees(d, before, input);
      case ExecuteExit(c) => ExitAgrees(d, before, c);
      case Settlement(_, _, _, _, _) =>
      case BeginExit(_) =>
    }
  }

  lemma ExitAgrees(d: Desk, f: Firm, c: X.Command)
    requires Agrees(f)
    ensures Agrees(Next(d, f, ExecuteExit(c)))
  {
    var payload := ExecuteTells(d, f.world, f.consumed, c.p, c.verdict, c.now, c.targetDebit, c.step);
    var (w, consumed, _) := E.Execute(d.host, d.script, d.cfg, d.secret, f.world, f.consumed, c.p, c.verdict, c.now,
                                      c.targetDebit, c.step);
    WorldMovesOn(f, w, consumed, payload);
  }
}
