/** The daily loss halt: what it reads, what its documents have it read, and exactly when the
    two agree. */
module LossHalt {
  import opened Decimals
  import opened Domain
  import opened Verdicts
  import opened KernelState
  import opened Rules
  import opened Kernel
  import opened Closes
  import opened Book
  import opened Solvency
  import opened SmallBook
  import Engine

  /** The UTC day of a moment. */
  function DayOf(moment: int): int { moment / 86400 }

  predicate SettledOn(row: Policy, day: int) {
    row.status.Settled? && row.settlement.Some? && DayOf(row.settlement.value.closedAt) == day
  }

  /** What was realized on one day, and on every other. */
  function RealizedOn(day: int): Policy -> real {
    (row: Policy) => if SettledOn(row, day) then row.settlement.value.realized else 0.0
  }

  function RealizedOff(day: int): Policy -> real {
    (row: Policy) => if SettledOn(row, day) then 0.0 else Realized()(row)
  }

  lemma {:induction false} RealizedSplits(ps: seq<Policy>, day: int)
    ensures Sum(ps, Realized()) == Sum(ps, RealizedOn(day)) + Sum(ps, RealizedOff(day))
  {
    if ps != [] {
      RealizedSplits(ps[1..], day);
    }
  }

  /** The loss at which to halt. */
  function LossFloor(r: Reading): real { 0.0 - r.equity * 0.03 }

  /** The halt as the Kernel is given it: every policy ever settled. */
  predicate Halts(ps: seq<Policy>, r: Reading) {
    Sum(ps, Realized()) < LossFloor(r)
  }

  /** The halt of the session: what was settled today. */
  predicate HaltsToday(ps: seq<Policy>, r: Reading) {
    Sum(ps, RealizedOn(DayOf(r.now))) < LossFloor(r)
  }

  /** SK-010 on a context rebuilt from the book; when it fails, nothing is approved, and no close
      is either. */
  lemma HaltIsOfTheWholeBook(host: Host, ps: seq<Policy>, r: Reading, p: Proposal, requested: int, secret: string,
                             nonce: string)
    ensures Sk010(p, ContextOf(ps, r), DEFAULT_LIMITS).passed <==> !Halts(ps, r)
    ensures Halts(ps, r) ==>
      Evaluate(host, Table(host), p, requested, ContextOf(ps, r), secret, DEFAULT_LIMITS, nonce).decision.Reject?
  {
    ApprovesExactly(host, Table(host), p, requested, ContextOf(ps, r), secret, DEFAULT_LIMITS, nonce);
    TableMeaning(host, p, ContextOf(ps, r), DEFAULT_LIMITS);
  }

  /** On one book the two halts agree exactly when the results of other days lie on the same side
      of what today leaves to the limit as nothing does. */
  lemma HaltsAgree(ps: seq<Policy>, r: Reading)
    ensures var left := LossFloor(r) - Sum(ps, RealizedOn(DayOf(r.now)));
      (Halts(ps, r) <==> HaltsToday(ps, r)) <==> (Sum(ps, RealizedOff(DayOf(r.now))) < left <==> 0.0 < left)
  {
    RealizedSplits(ps, DayOf(r.now));
  }

  /** One more policy, settled today at this result. */
  function SettledToday(r: Reading, result: real): Policy {
    SettledRow(SmallRow([], "a"), r.now, 0.0, result, "")
  }

  lemma OneMoreSettled(ps: seq<Policy>, r: Reading, row: Policy)
    requires SettledOn(row, DayOf(r.now))
    ensures var x := row.settlement.value.realized;
      && Sum(ps + [row], Realized()) == Sum(ps, Realized()) + x
      && Sum(ps + [row], RealizedOn(DayOf(r.now))) == Sum(ps, RealizedOn(DayOf(r.now))) + x
  {
    SumAppend(ps, row, Realized());
    SumAppend(ps, row, RealizedOn(DayOf(r.now)));
  }

  /** The two halts agree on the book whatever else is settled today. */
  ghost predicate AgreeAllDay(ps: seq<Policy>, r: Reading) {
    forall row :: SettledOn(row, DayOf(r.now)) ==> (Halts(ps + [row], r) <==> HaltsToday(ps + [row], r))
  }

  /** And they agree for the rest of the day exactly when the results of all other days come to
      nothing: an earlier loss halts a day it was not made on, and an earlier profit lets a day
      run past its limit. */
  lemma HaltsAgreeExactly(ps: seq<Policy>, r: Reading)
    ensures AgreeAllDay(ps, r) <==> Sum(ps, RealizedOff(DayOf(r.now))) == 0.0
  {
    var day := DayOf(r.now);
    var other, today := Sum(ps, RealizedOff(day)), Sum(ps, RealizedOn(day));
    RealizedSplits(ps, day);
    if other == 0.0 {
      forall row | SettledOn(row, day) ensures Halts(ps + [row], r) <==> HaltsToday(ps + [row], r) {
        OneMoreSettled(ps, r, row);
      }
    } else {
      var x := LossFloor(r) - today - (if other < 0.0 then 0.0 else other);
      var row := SettledToday(r, x);
      OneMoreSettled(ps, r, row);
      assert SettledOn(row, day) && Halts(ps + [row], r) != HaltsToday(ps + [row], r);
    }
  }

  // ----- an earlier day's loss ------------------------------------------------------------

  /** Two policies of the small spread, both lost whole on the first day. */
  function TwoLosses(): seq<Move> {
    TwoEntries() + [SettleOne(0, 0, 1.0, 0.0 - 280.0, "STOP_LOSS")] + [SettleOne(1, 0, 1.0, 0.0 - 280.0, "STOP_LOSS")]
  }

  function LostRow(row: Policy): Policy {
    SettledRow(row, 0, 1.0, 0.0 - 280.0, "STOP_LOSS")
  }

  lemma LossSettles(host: Host, secret: string, t: Tables, id: nat)
    requires id < |t.policies|
    ensures Advance(host, secret, DEFAULT_LIMITS, t, SettleOne(id, 0, 1.0, 0.0 - 280.0, "STOP_LOSS")).policies
         == t.policies[id := LostRow(t.policies[id])]
  {
  }

  lemma TwoLossesPlayed(host: Host, secret: string)
    requires secret != ""
    ensures Play(host, secret, DEFAULT_LIMITS, TwoLosses()).policies == [LostRow(TwoRows()[0]), LostRow(TwoRows()[1])]
  {
    var s0, s1 := SettleOne(0, 0, 1.0, 0.0 - 280.0, "STOP_LOSS"), SettleOne(1, 0, 1.0, 0.0 - 280.0, "STOP_LOSS");
    var l := DEFAULT_LIMITS;
    TwoEntriesPlayed(host, secret);
    PlayNext(host, secret, l, TwoEntries(), s0);
    LossSettles(host, secret, Play(host, secret, l, TwoEntries()), 0);
    PlayNext(host, secret, l, TwoEntries() + [s0], s1);
    LossSettles(host, secret, Play(host, secret, l, TwoEntries() + [s0]), 1);
  }

  lemma SumOfTwo(a: Policy, b: Policy, value: Policy -> real)
    ensures Sum([a, b], value) == value(a) + value(b)
  {
    assert [a, b][1..] == [b] && [b][1..] == [];
    assert Sum([a, b], value) == value(a) + Sum([b], value);
    assert Sum([b], value) == value(b) + Sum([], value);
  }

  lemma LostSums(r: Reading)
    requires 0.0 < r.equity <= EQUITY && DayOf(r.now) >= 1
    ensures var ps := [LostRow(TwoRows()[0]), LostRow(TwoRows()[1])];
      && Sum(ps, RealizedOn(DayOf(r.now))) == 0.0 && Sum(ps, Realized()) == 0.0 - 560.0
      && !HaltsToday(ps, r) && Halts(ps, r)
  {
    SumOfTwo(LostRow(TwoRows()[0]), LostRow(TwoRows()[1]), Realized());
    SumOfTwo(LostRow(TwoRows()[0]), LostRow(TwoRows()[1]), RealizedOn(DayOf(r.now)));
  }

  /** The input: a run of the desk's own moves in which two policies are lost on one day. On every
      later day, at every equity the run can have left, nothing has been lost that day and yet
      every verdict is a refusal: entries, and exits with them. */
  lemma LossOutlivesItsDay(host: Host, secret: string, r: Reading, p: Proposal, requested: int, nonce: string)
    requires secret != "" && 0.0 < r.equity <= EQUITY && DayOf(r.now) >= 1
    ensures (forall m :: m in TwoLosses() ==> Allowed(m, EQUITY))
    ensures var ps := Play(host, secret, DEFAULT_LIMITS, TwoLosses()).policies;
      && Sum(ps, RealizedOn(DayOf(r.now))) == 0.0 && !HaltsToday(ps, r) && Halts(ps, r)
      && Evaluate(host, Table(host), p, requested, ContextOf(ps, r), secret, DEFAULT_LIMITS, nonce).decision.Reject?
  {
    TwoLossesPlayed(host, secret);
    EntriesAreAllowed();
    LostSums(r);
    HaltIsOfTheWholeBook(host, Play(host, secret, DEFAULT_LIMITS, TwoLosses()).policies, r, p, requested, secret,
                         nonce);
  }
}
