/** That the inputs which strand a force flat are real: the book of two approved entries, one
    day before they expire. */
module FloorInputs {
  import opened Numerals
  import opened Decimals
  import opened Division
  import opened Domain
  import opened Verdicts
  import opened KernelState
  import opened Kernel
  import opened Orders
  import opened Book
  import opened Solvency
  import opened SmallBook
  import opened Claims
  import opened Exits
  import opened Escapes
  import opened Positions
  import opened OwnCycles
  import opened Turns
  import opened ExitRuns
  import opened ExitAttempts
  import B = Broker
  import E = Engine
  import M = Management
  import U = Underwriting

  /** What the database returns for the two policies. */
  function SmallColumns(): Columns {
    Columns(Decimal(false, 30, -2), Decimal(false, 30, 0), LOSS, Decimal(false, 970, -2), NO_AMOUNT)
  }

  lemma SmallColumnsRead(row: Policy, tag: string, ps: seq<Policy>)
    requires row == SmallRow(ps, tag)
    ensures Reads(SmallColumns(), row)
  {
    SmallRowIs(ps, tag);
    SmallAmounts();
    WholeIsExact(70);
    assert 280.0 / 4.0 == 70.0;
  }

  // ----- the book --------------------------------------------------------------------------

  lemma SmallIsClosable(tag: string, ps: seq<Policy>)
    ensures Closable(SmallRow(ps, tag))
  {
    SmallAmounts();
    WrittenIsClosable(ps, SmallSpread(tag), 4, Live, 2025);
  }

  /** The tables after the two entries. */
  ghost function TwoTables(host: Host): Tables {
    Play(host, "key", DEFAULT_LIMITS, TwoEntries())
  }

  lemma TwoTablesKept(host: Host)
    ensures TwoTables(host).policies == TwoRows() && OwnBook(TwoTables(host), EQUITY)
  {
    TwoEntriesPlayed(host, "key");
    EntriesAreAllowed();
    assert LimitsWith(0.5, 1.0) == DEFAULT_LIMITS;
    PlayKeeps(host, "key", 0.5, 1.0, TwoEntries(), EQUITY);
    TwoRowsKept();
  }

  lemma TwoRowsKept()
    ensures AllClosable(TwoRows()) && forall row :: row in TwoRows() ==> Unsettled(row)
  {
    SmallIsClosable("a", []);
    SmallIsClosable("b", [SmallRow([], "a")]);
  }

  // ----- the desk ----------------------------------------------------------------------------

  /** The engine as the desk builds it: two minutes, two seconds, three attempts. */
  function SmallDesk(host: Host, script: B.Script): U.Desk {
    U.Desk(host, script, E.Config(120.0, 2.0, 3, None), "key")
  }

  ghost function SmallFirm(host: Host): U.Firm {
    U.Firm(B.World([], 0.0, 0), {}, TwoTables(host), [])
  }

  /** A sitting on the thirteenth day; the policies expire on the fourteenth. */
  function SmallSitting(): Sitting {
    Sitting(Reading(13 * 86400, 13, EQUITY, None, Active, false), 13, 13 * 86400,
            Feed((id: nat) => SmallColumns(), (id: nat) => None, (id: nat) => None), (i: nat) => Digits(i), true)
  }

  lemma SmallNoncesAreFresh(host: Host)
    ensures FreshNonces(SmallSitting(), SmallFirm(host))
  {
    forall i: nat, j: nat | i < j ensures SmallSitting().nonces(i) != SmallSitting().nonces(j) {
      DigitsApart(i, j);
    }
  }

  lemma SmallPlaces()
    ensures Place(TwoRows(), 0, SmallSitting().feed) == 0 && Place(TwoRows(), 1, SmallSitting().feed) == 1
  {
    assert TwoRows()[..1] == [SmallRow([], "a")] && TwoRows()[..1][..0] == [];
  }

  lemma SmallNoHalt()
    ensures NoHalt(TwoRows(), SmallSitting().reading)
  {
    var a, b := TwoRows()[0], TwoRows()[1];
    assert TwoRows()[1..] == [b] && [b][1..] == [];
    assert Sum(TwoRows(), Realized()) == Realized()(a) + Sum([b], Realized());
    assert Sum([b], Realized()) == Realized()(b) + Sum([], Realized());
    NoDrawdown(ContextOf(TwoRows(), SmallSitting().reading).account);
  }

  lemma SmallFeedReads()
    ensures FeedReads(SmallSitting().feed, TwoRows())
  {
    SmallColumnsRead(TwoRows()[0], "a", []);
    SmallColumnsRead(TwoRows()[1], "b", [SmallRow([], "a")]);
  }

  /** Two policies at the floor, both approved. */
  lemma SmallWaitsAtTheFloor(host: Host, script: B.Script)
    ensures TwoAtTheFloor(SmallDesk(host, script), SmallFirm(host), SmallSitting(), EQUITY, 0, 1)
  {
    TwoTablesKept(host);
    SmallNoncesAreFresh(host);
    SmallFeedReads();
    SmallPlaces();
    SmallNoHalt();
  }

  lemma SmallClock(host: Host)
    ensures WallClockOf(SmallFirm(host), SmallSitting()) == SmallSitting().reading.now
  {}

  /** Nothing is in the way of the first exit. */
  lemma SmallGoesOut(host: Host, script: B.Script)
    ensures FirstGoesOut(SmallDesk(host, script), SmallFirm(host), SmallSitting(), 0)
  {
    TwoTablesKept(host);
    SmallIsClosable("a", []);
    SmallClock(host);
  }

  /** Two policies at the floor, both approved, with nothing in the way of the first. */
  lemma SmallIsAtTheFloor(host: Host, script: B.Script)
    ensures TwoAtTheFloor(SmallDesk(host, script), SmallFirm(host), SmallSitting(), EQUITY, 0, 1)
    ensures FirstGoesOut(SmallDesk(host, script), SmallFirm(host), SmallSitting(), 0)
  {
    SmallWaitsAtTheFloor(host, script);
    SmallGoesOut(host, script);
  }

  /** The two stranded cycles in figures, under any host: an account of ten thousand dollars, two
      approved spreads one day before expiry, the engine's own timeout and retries. A first exit
      that takes 46 seconds, or a broker that says nothing after it, and the second policy gets
      no turn. */
  lemma StrandedInFigures(host: Host)
    ensures var slow := OwnCycles.Managed(SmallDesk(host, SlowAnswer(0, 46.0)), SmallFirm(host), SmallSitting());
      slow.raised == Some(LATE) && SentFor(slow, 0) && !Attempted(slow, 1)
    ensures var silent := OwnCycles.Managed(SmallDesk(host, Silence()), SmallFirm(host), SmallSitting());
      silent.raised == Some(E.Faulted) && !Attempted(silent, 0) && !Attempted(silent, 1)
  {
    SlowInFigures(host);
    SmallIsAtTheFloor(host, Silence());
    SilenceStrandsForceFlat(SmallDesk(host, Silence()), SmallFirm(host), SmallSitting(), EQUITY, 0, 1);
  }

  lemma SlowInFigures(host: Host)
    ensures var slow := OwnCycles.Managed(SmallDesk(host, SlowAnswer(0, 46.0)), SmallFirm(host), SmallSitting());
      slow.raised == Some(LATE) && SentFor(slow, 0) && !Attempted(slow, 1)
  {
    SmallIsAtTheFloor(host, SlowAnswer(0, 46.0));
    SlowFillStrandsForceFlat(SmallDesk(host, SlowAnswer(0, 46.0)), SmallFirm(host), SmallSitting(), EQUITY, 0, 1, 46);
  }
}
