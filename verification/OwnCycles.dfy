/** Runs of the desk's own jobs: underwriting cycles and management cycles, and nothing else.
    No job of the desk's settles a policy or marks one as closing, so its book only grows. */
module OwnCycles {
  import opened Numerals
  import opened Decimals
  import opened Division
  import opened Domain
  import opened Verdicts
  import opened KernelState
  import opened Actuary
  import opened Agent
  import opened Book
  import opened Solvency
  import opened Claims
  import opened Positions
  import B = Broker
  import E = Engine
  import M = Management
  import U = Underwriting

  /** What a management cycle reads: the account, the prices, the clocks and its nonces. */
  datatype Sitting = Sitting(reading: Reading, today: int, epoch: int, feed: Feed, nonces: nat -> string, live: bool)

  datatype Shift = Underwrite(input: U.CycleInput) | Manage(sitting: Sitting)

  function WiringOf(d: U.Desk): M.Wiring {
    M.Wiring(d.host, d.script, d.cfg, d.secret)
  }

  /** The cycle's inputs, all of them from the book or read beside it. */
  function SettingOf(ps: seq<Policy>, m: Sitting): M.Setting {
    M.Setting(m.today, m.epoch, DEFAULT_CLAIMS_POLICY, ContextOf(ps, m.reading), DEFAULT_LIMITS,
              ProposalsFrom(ps, m.feed, m.reading.now), m.nonces, m.live)
  }

  function Opening(f: U.Firm): M.Progress {
    M.Progress(f.world, f.consumed, [], [], None)
  }

  /** The management job. */
  function Managed(d: U.Desk, f: U.Firm, m: Sitting): M.Progress {
    M.Cycle(WiringOf(d), SettingOf(f.tables.policies, m), Opening(f), PositionsFrom(f.tables.policies, m.feed))
  }

  function Work(d: U.Desk, f: U.Firm, shift: Shift): U.Firm {
    match shift
    case Underwrite(input) => U.UnderwritingCycle(d, f, input).0
    case Manage(m) =>
      var end := Managed(d, f, m);
      f.(world := end.world, consumed := end.consumed)
  }

  function Worked(d: U.Desk, f: U.Firm, shifts: seq<Shift>): U.Firm {
    if shifts == [] then f
    else Work(d, Worked(d, f, shifts[..|shifts| - 1]), shifts[|shifts| - 1])
  }

  function Founded(clock: real): U.Firm {
    U.Firm(B.World([], clock, 0), {}, EMPTY, [])
  }

  /** The management job, as the scheduler runs it. */
  method RunManagement(engine: E.ExecutionEngine, book: PolicyBook, orders: U.OrderTable, m: Sitting)
    returns (attempts: seq<M.Attempt>, raised: Option<E.Outcome>)
    modifies engine.broker, engine.nonces
    ensures var before := old(U.FirmOf(engine, book, orders));
      var end := Managed(U.DeskOf(engine), before, m);
      && attempts == end.attempts && raised == end.raised
      && U.FirmOf(engine, book, orders) == Work(U.DeskOf(engine), before, Manage(m))
  {
    var positions, proposals := OpenPositions(book, m.feed, m.reading.now);
    var s := M.Setting(m.today, m.epoch, DEFAULT_CLAIMS_POLICY, ContextOf(book.policies, m.reading), DEFAULT_LIMITS,
                       proposals, m.nonces, m.live);
    var escalated, held, closed;
    attempts, escalated, held, closed, raised := M.RunManagementCycle(engine, s, positions);
  }

  // ----- the book only grows ------------------------------------------------------------

  ghost predicate Grows(t: Tables, after: Tables) {
    t.policies <= after.policies && t.reserves <= after.reserves
  }

  lemma RecordGrows(f: U.Firm, p: Proposal, r: E.ExecutionResult, contracts: int, year: nat)
    ensures Grows(f.tables, U.Record(f, p, r, contracts, year).0.tables)
  {
  }

  lemma TradeGrows(d: U.Desk, f: U.Firm, p: Proposal, v: KernelVerdict, input: U.CycleInput)
    ensures Grows(f.tables, U.Traded(d, f, p, v, input).0.tables)
  {
    var (w, consumed, outcome) := E.Execute(d.host, d.script, d.cfg, d.secret, f.world, f.consumed, p, Some(v),
                                            input.now, None, 0);
    if outcome.Done? {
      RecordGrows(f.(world := w, consumed := consumed), p, outcome.result, v.approvedContracts, input.year);
    }
  }

  lemma CycleGrows(d: U.Desk, f: U.Firm, input: U.CycleInput)
    ensures Grows(f.tables, U.UnderwritingCycle(d, f, input).0.tables)
  {
    var trade := U.CycleTrades(d, f, input);
    if trade.Some? {
      TradeGrows(d, f, trade.value.0, trade.value.1, input);
    }
  }

  lemma WorkGrows(d: U.Desk, f: U.Firm, shift: Shift)
    ensures Grows(f.tables, Work(d, f, shift).tables)
  {
    if shift.Underwrite? {
      CycleGrows(d, f, shift.input);
    }
  }

  /** Whatever the desk does, every row it has written stays as it was written, for good. */
  lemma {:induction false} BookOnlyGrows(d: U.Desk, f: U.Firm, shifts: seq<Shift>)
    ensures Grows(f.tables, Worked(d, f, shifts).tables)
  {
    if shifts != [] {
      var before := shifts[..|shifts| - 1];
      BookOnlyGrows(d, f, before);
      WorkGrows(d, Worked(d, f, before), shifts[|shifts| - 1]);
    }
  }

  lemma RowStays(d: U.Desk, f: U.Firm, shifts: seq<Shift>, id: nat)
    requires id < |f.tables.policies|
    ensures var after := Worked(d, f, shifts).tables;
      id < |after.policies| && after.policies[id] == f.tables.policies[id]
  {
    BookOnlyGrows(d, f, shifts);
  }
}
