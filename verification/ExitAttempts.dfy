/** Policy by policy: exactly which one gets a turn in a management cycle, exactly which force
    flat is sent, and the inputs on which one is not. */
module ExitAttempts {
  import opened Numerals
  import opened Decimals
  import opened Domain
  import opened Verdicts
  import opened KernelState
  import opened Rules
  import opened Book
  import opened Solvency
  import opened Claims
  import opened Exits
  import opened Escapes
  import opened Positions
  import opened OwnCycles
  import opened Turns
  import opened ExitRuns
  import B = Broker
  import E = Engine
  import M = Management
  import U = Underwriting

  ghost predicate Attempted(end: M.Progress, id: nat) {
    exists k :: 0 <= k < |end.attempts| && end.attempts[k].policyId == Digits(id)
  }

  /** The attempt came to an execution that returned. */
  ghost predicate SentFor(end: M.Progress, id: nat) {
    exists k :: 0 <= k < |end.attempts| && end.attempts[k].policyId == Digits(id) && end.attempts[k].handling.Sent?
  }

  /** Nothing disturbs the cycle up to and including this policy's turn. */
  predicate UndisturbedUpTo(d: U.Desk, f: U.Firm, m: Sitting, id: nat)
    requires id < |f.tables.policies|
  {
    var ps := f.tables.policies;
    var positions, k := PositionsFrom(ps, m.feed), Place(ps, id, m.feed);
    k < |positions| && Undisturbed(WiringOf(d), SettingOf(ps, m), Opening(f), positions[..k + 1])
  }

  lemma OnePlace(ps: seq<Policy>, feed: Feed, k: nat, id: nat)
    requires k < |PositionsFrom(ps, feed)| && PositionsFrom(ps, feed)[k].policyId == Digits(id) && id < |ps|
    ensures ps[id].Exposed() && k == Place(ps, id, feed)
  {
    var j := ListedIsOpen(ps, k, feed);
    DigitsApart(id, j);
  }

  lemma AttemptPlace(d: U.Desk, f: U.Firm, m: Sitting, k: nat, id: nat)
    requires id < |f.tables.policies| && k < |OwnCycles.Managed(d, f, m).attempts|
    requires OwnCycles.Managed(d, f, m).attempts[k].policyId == Digits(id)
    ensures f.tables.policies[id].Exposed() && k == Place(f.tables.policies, id, m.feed)
    ensures k < |PositionsFrom(f.tables.policies, m.feed)|
  {
    var ps := f.tables.policies;
    M.CyclesAreFaithful(WiringOf(d), SettingOf(ps, m), Opening(f), PositionsFrom(ps, m.feed));
    OnePlace(ps, m.feed, k, id);
  }

  lemma PlaceAttempt(d: U.Desk, f: U.Firm, m: Sitting, id: nat)
    requires id < |f.tables.policies| && f.tables.policies[id].Exposed()
    requires Place(f.tables.policies, id, m.feed) < |OwnCycles.Managed(d, f, m).attempts|
    ensures Attempted(OwnCycles.Managed(d, f, m), id)
  {
    var ps := f.tables.policies;
    M.CyclesAreFaithful(WiringOf(d), SettingOf(ps, m), Opening(f), PositionsFrom(ps, m.feed));
    OpenIsListed(ps, id, m.feed);
    var k := Place(ps, id, m.feed);
    assert OwnCycles.Managed(d, f, m).attempts[k].policyId == Digits(id);
  }

  lemma AttemptedHere(d: M.Wiring, s: M.Setting, g: M.Progress, positions: seq<ManagedPosition>, end: M.Progress,
                      k: nat)
    requires InOrder(s, g) && g.raised.None? && g.attempts == [] && k < |positions|
    requires end == M.Cycle(d, s, g, positions)
    ensures k < |end.attempts| <==> Undisturbed(d, s, g, positions[..k + 1])
  {
    AttemptedExactly(d, s, g, positions, k);
  }

  lemma AttemptedOnBook(d: U.Desk, f: U.Firm, m: Sitting, nav: real, k: nat)
    requires OwnBook(f.tables, nav) && FreshNonces(m, f) && k < |PositionsFrom(f.tables.policies, m.feed)|
    ensures k < |OwnCycles.Managed(d, f, m).attempts|
       <==> Undisturbed(WiringOf(d), SettingOf(f.tables.policies, m), Opening(f),
                        PositionsFrom(f.tables.policies, m.feed)[..k + 1])
  {
    SittingIsInOrder(f, m, nav);
    AttemptedHere(WiringOf(d), SettingOf(f.tables.policies, m), Opening(f), PositionsFrom(f.tables.policies, m.feed),
                  OwnCycles.Managed(d, f, m), k);
  }

  lemma UpToIs(d: U.Desk, f: U.Firm, m: Sitting, id: nat, k: nat)
    requires id < |f.tables.policies| && k == Place(f.tables.policies, id, m.feed)
    requires k < |PositionsFrom(f.tables.policies, m.feed)|
    ensures UndisturbedUpTo(d, f, m, id)
       <==> Undisturbed(WiringOf(d), SettingOf(f.tables.policies, m), Opening(f),
                        PositionsFrom(f.tables.policies, m.feed)[..k + 1])
  {
  }

  lemma OpenIsAttemptedExactly(d: U.Desk, f: U.Firm, m: Sitting, nav: real, id: nat, k: nat)
    requires OwnBook(f.tables, nav) && FreshNonces(m, f) && id < |f.tables.policies|
    requires k == Place(f.tables.policies, id, m.feed) && k < |PositionsFrom(f.tables.policies, m.feed)|
    ensures k < |OwnCycles.Managed(d, f, m).attempts| <==> UndisturbedUpTo(d, f, m, id)
  {
    AttemptedOnBook(d, f, m, nav, k);
    UpToIs(d, f, m, id, k);
  }

  lemma AttemptedIsPlaced(d: U.Desk, f: U.Firm, m: Sitting, id: nat)
    requires id < |f.tables.policies| && Attempted(OwnCycles.Managed(d, f, m), id)
    ensures f.tables.policies[id].Exposed()
    ensures Place(f.tables.policies, id, m.feed) < |OwnCycles.Managed(d, f, m).attempts|
  {
    var end := OwnCycles.Managed(d, f, m);
    var k :| 0 <= k < |end.attempts| && end.attempts[k].policyId == Digits(id);
    AttemptPlace(d, f, m, k, id);
  }

  /** One policy is attempted, whatever it is to be closed for, if and only if it is open or
      closing and nothing disturbs the cycle up to its turn. */
  lemma PolicyAttemptedExactly(d: U.Desk, f: U.Firm, m: Sitting, nav: real, id: nat)
    requires OwnBook(f.tables, nav) && FreshNonces(m, f) && id < |f.tables.policies|
    ensures Attempted(OwnCycles.Managed(d, f, m), id)
       <==> f.tables.policies[id].Exposed() && UndisturbedUpTo(d, f, m, id)
  {
    var ps := f.tables.policies;
    if ps[id].Exposed() {
      OpenIsListed(ps, id, m.feed);
      OpenIsAttemptedExactly(d, f, m, nav, id, Place(ps, id, m.feed));
      if UndisturbedUpTo(d, f, m, id) {
        PlaceAttempt(d, f, m, id);
      }
    }
    if Attempted(OwnCycles.Managed(d, f, m), id) {
      AttemptedIsPlaced(d, f, m, id);
    }
  }

  // ----- what a turn files ------------------------------------------------------------

  lemma TurnFiles(d: M.Wiring, s: M.Setting, g: M.Progress, p: ManagedPosition, i: nat)
    requires g.raised.None? && M.Turn(d, s, g, p, i).raised.None?
    ensures var next := M.Turn(d, s, g, p, i);
      && |next.attempts| == |g.attempts| + 1
      && (next.attempts[|g.attempts|].handling.Sent? <==> Begins(d, s, g, p, i))
  {
  }

  lemma FiledAt(d: M.Wiring, s: M.Setting, g: M.Progress, positions: seq<ManagedPosition>, k: nat)
    requires g.raised.None? && g.attempts == [] && k < |M.Cycle(d, s, g, positions).attempts| && k < |positions|
    ensures M.Cycle(d, s, g, positions).attempts[k].handling.Sent?
       <==> Judge(positions[k], s.today, s.rules).ShouldClose()
            && M.Prepared(d, s, positions[k], s.nonces(k)).Transmit?
  {
    var upTo := positions[..k + 1];
    assert upTo[..k] == positions[..k] && upTo[k] == positions[k];
    var before, after := M.Cycle(d, s, g, positions[..k]), M.Cycle(d, s, g, upTo);
    M.CyclesAreFaithful(d, s, g, positions[..k]);
    M.CyclesAreFaithful(d, s, g, upTo);
    AttemptsGrow(d, s, g, positions, k + 1);
    AttemptsGrow(d, s, g, positions, k);
    assert before.raised.None? && after.raised.None?;
    TurnFiles(d, s, before, positions[k], k);
    assert M.Cycle(d, s, g, positions).attempts[..|after.attempts|][k] == after.attempts[k];
  }

  // ----- force flat ---------------------------------------------------------------------

  lemma AtTheFloor(id: nat, row: Policy, feed: Feed, today: int)
    requires row.expiry - today <= DEFAULT_CLAIMS_POLICY.forceFlatDte
    ensures Judge(PositionOf(id, row, feed), today, DEFAULT_CLAIMS_POLICY).reason == Some(ForceFlat)
  {
  }

  /** The promise that every policy at the floor is closed unconditionally, and exactly how far
      it goes. On any book of the desk's own: the force flat of a policy is executed if and only
      if the policy's entry filled in full, there is a key to sign with, no halt stands, the desk
      is live, and nothing disturbs the cycle up to its turn. */
  lemma ForceFlatIsSentExactly(d: U.Desk, f: U.Firm, m: Sitting, nav: real, id: nat)
    requires OwnBook(f.tables, nav) && FreshNonces(m, f) && id < |f.tables.policies|
    requires Reads(m.feed.columns(id), f.tables.policies[id])
    requires f.tables.policies[id].expiry - m.today <= DEFAULT_CLAIMS_POLICY.forceFlatDte
    ensures SentFor(OwnCycles.Managed(d, f, m), id) <==>
      && f.tables.policies[id].status.Live? && d.secret != "" && NoHalt(f.tables.policies, m.reading) && m.live
      && UndisturbedUpTo(d, f, m, id)
  {
    var ps, row := f.tables.policies, f.tables.policies[id];
    var end := OwnCycles.Managed(d, f, m);
    assert row in ps && Unsettled(row);
    PolicyAttemptedExactly(d, f, m, nav, id);
    if Attempted(end, id) {
      var k := AttemptedAt(d, f, m, id);
      OpenIsListed(ps, id, m.feed);
      FiledAt(WiringOf(d), SettingOf(ps, m), Opening(f), PositionsFrom(ps, m.feed), k);
      AtTheFloor(id, row, m.feed, m.today);
      BookedExitGetsThrough(d, f.tables, nav, m, id, m.nonces(k));
    }
    SentIsAttempted(end, id);
  }

  lemma AttemptedAt(d: U.Desk, f: U.Firm, m: Sitting, id: nat) returns (k: nat)
    requires id < |f.tables.policies| && Attempted(OwnCycles.Managed(d, f, m), id)
    ensures k == Place(f.tables.policies, id, m.feed) && k < |OwnCycles.Managed(d, f, m).attempts|
    ensures k < |PositionsFrom(f.tables.policies, m.feed)| && f.tables.policies[id].Exposed()
    ensures SentFor(OwnCycles.Managed(d, f, m), id) <==> OwnCycles.Managed(d, f, m).attempts[k].handling.Sent?
    ensures OwnCycles.Managed(d, f, m).attempts[k].policyId == Digits(id)
  {
    var end := OwnCycles.Managed(d, f, m);
    var j :| 0 <= j < |end.attempts| && end.attempts[j].policyId == Digits(id);
    k := j;
    AttemptPlace(d, f, m, k, id);
    if SentFor(end, id) {
      var i :| 0 <= i < |end.attempts| && end.attempts[i].policyId == Digits(id) && end.attempts[i].handling.Sent?;
      AttemptPlace(d, f, m, i, id);
    }
  }

  lemma SentIsAttempted(end: M.Progress, id: nat)
    ensures SentFor(end, id) ==> Attempted(end, id)
  {
  }

  // ----- short fills -----------------------------------------------------------------------

  /** A policy whose entry filled short is in no management cycle of any later run, at any
      distance from its expiry; its row never changes, and its reserve is held for good. */
  lemma ShortFillIsNeverManaged(d: U.Desk, f: U.Firm, shifts: seq<Shift>, nav: real, m: Sitting, id: nat)
    requires OwnBook(f.tables, nav) && forall x :: x in shifts ==> OrdinaryShift(x, nav)
    requires id < |f.tables.policies| && f.tables.policies[id].status.LegRisk?
    ensures var later := Worked(d, f, shifts);
      && id < |later.tables.policies| && later.tables.policies[id] == f.tables.policies[id]
      && id < |later.tables.reserves|
      && later.tables.reserves[id] == ReserveRow(id, f.tables.policies[id].maxLoss, true)
      && !Attempted(OwnCycles.Managed(d, later, m), id)
  {
    RowStays(d, f, shifts, id);
    WorkedKeepsBook(d, f, shifts, nav);
    var later := Worked(d, f, shifts);
    if Attempted(OwnCycles.Managed(d, later, m), id) {
      var k := AttemptedAt(d, later, m, id);
      assert false;
    }
  }

  // ----- the inputs -------------------------------------------------------------------------

  /** Two open policies at the floor, the first two on the book, with no halt standing. */
  ghost predicate TwoAtTheFloor(d: U.Desk, f: U.Firm, m: Sitting, nav: real, a: nat, b: nat) {
    var ps := f.tables.policies;
    && OwnBook(f.tables, nav) && FreshNonces(m, f) && FeedReads(m.feed, ps) && a < |ps| && b < |ps|
    && ps[a].status.Live? && ps[b].status.Live? && Place(ps, a, m.feed) == 0 && Place(ps, b, m.feed) == 1
    && ps[a].expiry - m.today <= DEFAULT_CLAIMS_POLICY.forceFlatDte
    && ps[b].expiry - m.today <= DEFAULT_CLAIMS_POLICY.forceFlatDte
    && d.secret != "" && NoHalt(ps, m.reading) && m.live
  }

  /** The exit of a policy as it is sent. */
  ghost function ExitIdOf(d: U.Desk, ps: seq<Policy>, m: Sitting, id: nat): string
    requires id < |ps| && Closable(ps[id])
  {
    ClientOrderIdFor(ProposalHash(d.host, RebuildProposal(id, ps[id], m.feed.columns(id), m.reading.now).value))
  }

  /** The first exit is in time, nobody has placed it, and no pre-flight stops it. */
  ghost predicate FirstGoesOut(d: U.Desk, f: U.Firm, m: Sitting, a: nat) {
    var ps := f.tables.policies;
    && d.cfg.maxRetries >= 1 && Admits(d.cfg) && a < |ps| && Closable(ps[a])
    && m.reading.now <= WallClockOf(f, m) <= m.reading.now + DEFAULT_LIMITS.verdictTtlSec
    && !B.HasOrder(f.world, ExitIdOf(d, ps, m, a))
  }

  function WallClockOf(f: U.Firm, m: Sitting): int {
    M.WallClock(SettingOf(f.tables.policies, m), f.world)
  }

  lemma FloorIsPrepared(d: U.Desk, t: Tables, m: Sitting, nav: real, id: nat, nonce: string)
    requires OwnBook(t, nav) && id < |t.policies| && t.policies[id].status.Live?
    requires Reads(m.feed.columns(id), t.policies[id])
    requires t.policies[id].expiry - m.today <= DEFAULT_CLAIMS_POLICY.forceFlatDte
    requires d.secret != "" && NoHalt(t.policies, m.reading) && m.live
    ensures var p, s := PositionOf(id, t.policies[id], m.feed), SettingOf(t.policies, m);
      && Judge(p, s.today, s.rules).ShouldClose() && M.Prepared(WiringOf(d), s, p, nonce).Transmit?
      && Closable(t.policies[id]) && p.policyId in s.proposals
      && ExitOrderId(WiringOf(d), s, p) == ExitIdOf(d, t.policies, m, id)
  {
    AtTheFloor(id, t.policies[id], m.feed, m.today);
    BookedExitGetsThrough(d, t, nav, m, id, nonce);
    assert t.policies[id] in t.policies;
    ProposedExactly(t.policies, id, m.feed, m.reading.now);
    var closing := RebuildProposal(id, t.policies[id], m.feed.columns(id), m.reading.now).value;
    assert closing.(action := Close) == closing;
  }

  lemma FirstTwo(ps: seq<Policy>, feed: Feed, a: nat, b: nat) returns (rest: seq<ManagedPosition>)
    requires a < |ps| && b < |ps| && ps[a].Exposed() && ps[b].Exposed()
    requires Place(ps, a, feed) == 0 && Place(ps, b, feed) == 1
    ensures PositionsFrom(ps, feed) == [PositionOf(a, ps[a], feed), PositionOf(b, ps[b], feed)] + rest
  {
    OpenIsListed(ps, a, feed);
    OpenIsListed(ps, b, feed);
    rest := PositionsFrom(ps, feed)[2..];
  }

  /** The cycle's positions, its first exit set to go out, and its second to follow. */
  ghost predicate Lined(d: U.Desk, f: U.Firm, m: Sitting, a: nat, b: nat, p: ManagedPosition, q: ManagedPosition,
                        rest: seq<ManagedPosition>) {
    var ps := f.tables.policies;
    var s := SettingOf(ps, m);
    && PositionsFrom(ps, m.feed) == [p, q] + rest && p.policyId == Digits(a) && q.policyId == Digits(b)
    && Sets(WiringOf(d), d.script, s, Opening(f), p) && Follows(WiringOf(d), s, q)
  }

  lemma FirstLeads(d: U.Desk, f: U.Firm, m: Sitting, nav: real, a: nat, b: nat, p: ManagedPosition)
    requires TwoAtTheFloor(d, f, m, nav, a, b) && FirstGoesOut(d, f, m, a)
    requires p == PositionOf(a, f.tables.policies[a], m.feed)
    ensures Leads(WiringOf(d), SettingOf(f.tables.policies, m), Opening(f), p)
    ensures p.policyId in SettingOf(f.tables.policies, m).proposals
    ensures ExitOrderId(WiringOf(d), SettingOf(f.tables.policies, m), p) == ExitIdOf(d, f.tables.policies, m, a)
  {
    FloorIsPrepared(d, f.tables, m, nav, a, m.nonces(0));
  }

  lemma FirstSets(d: U.Desk, f: U.Firm, m: Sitting, nav: real, a: nat, b: nat, p: ManagedPosition)
    requires TwoAtTheFloor(d, f, m, nav, a, b) && FirstGoesOut(d, f, m, a)
    requires p == PositionOf(a, f.tables.policies[a], m.feed)
    ensures Sets(WiringOf(d), d.script, SettingOf(f.tables.policies, m), Opening(f), p)
    ensures p.policyId in SettingOf(f.tables.policies, m).proposals
    ensures ExitOrderId(WiringOf(d), SettingOf(f.tables.policies, m), p) == ExitIdOf(d, f.tables.policies, m, a)
  {
    FirstLeads(d, f, m, nav, a, b, p);
    SittingIsInOrder(f, m, nav);
  }

  lemma SecondFollows(d: U.Desk, f: U.Firm, m: Sitting, nav: real, a: nat, b: nat, q: ManagedPosition)
    requires TwoAtTheFloor(d, f, m, nav, a, b) && q == PositionOf(b, f.tables.policies[b], m.feed)
    ensures Follows(WiringOf(d), SettingOf(f.tables.policies, m), q)
  {
    FloorIsPrepared(d, f.tables, m, nav, b, m.nonces(1));
  }

  lemma TwoLineUp(d: U.Desk, f: U.Firm, m: Sitting, nav: real, a: nat, b: nat)
    returns (p: ManagedPosition, q: ManagedPosition, rest: seq<ManagedPosition>)
    requires TwoAtTheFloor(d, f, m, nav, a, b) && FirstGoesOut(d, f, m, a)
    ensures Lined(d, f, m, a, b, p, q, rest)
    ensures p.policyId in SettingOf(f.tables.policies, m).proposals
    ensures ExitOrderId(WiringOf(d), SettingOf(f.tables.policies, m), p) == ExitIdOf(d, f.tables.policies, m, a)
  {
    var ps := f.tables.policies;
    p, q := PositionOf(a, ps[a], m.feed), PositionOf(b, ps[b], m.feed);
    FirstSets(d, f, m, nav, a, b, p);
    SecondFollows(d, f, m, nav, a, b, q);
    rest := FirstTwo(ps, m.feed, a, b);
  }

  lemma NoneAttempted(end: M.Progress, id: nat)
    requires end.attempts == []
    ensures !Attempted(end, id)
  {
  }

  /** On any book of the desk's own: a broker that acknowledges the first force flat and then
      says nothing leaves the second one without a turn. */
  lemma SilenceStrandsForceFlat(d: U.Desk, f: U.Firm, m: Sitting, nav: real, a: nat, b: nat)
    requires TwoAtTheFloor(d, f, m, nav, a, b) && FirstGoesOut(d, f, m, a) && d.script == Silence()
    ensures var end := OwnCycles.Managed(d, f, m);
      end.raised == Some(E.Faulted) && !Attempted(end, a) && !Attempted(end, b)
      && B.HasOrder(end.world, ExitIdOf(d, f.tables.policies, m, a))
  {
    var p, q, rest := TwoLineUp(d, f, m, nav, a, b);
    var s := SettingOf(f.tables.policies, m);
    SilentCycle(WiringOf(d), s, Opening(f), p, q, rest);
    NoneAttempted(OwnCycles.Managed(d, f, m), a);
    NoneAttempted(OwnCycles.Managed(d, f, m), b);
  }

  lemma SilentCycle(d: M.Wiring, s: M.Setting, g: M.Progress, p: ManagedPosition, q: ManagedPosition,
                    rest: seq<ManagedPosition>)
    requires Sets(d, Silence(), s, g, p)
    ensures var end := M.Cycle(d, s, g, [p, q] + rest);
      end.raised == Some(E.Faulted) && end.attempts == [] && B.HasOrder(end.world, ExitOrderId(d, s, p))
  {
    assert [p, q] + rest == [p] + ([q] + rest);
    SilenceStrandsTheRest(d, s, g, p, [q] + rest);
  }

  /** And so does a broker that answers everything and fills the first force flat in full, but
      takes a minute over it. */
  lemma SlowFillStrandsForceFlat(d: U.Desk, f: U.Firm, m: Sitting, nav: real, a: nat, b: nat, seconds: nat)
    requires TwoAtTheFloor(d, f, m, nav, a, b) && FirstGoesOut(d, f, m, a)
    requires d.script == SlowAnswer(f.world.tick, seconds as real) && seconds > DEFAULT_LIMITS.verdictTtlSec
    ensures var end := OwnCycles.Managed(d, f, m);
      end.raised == Some(LATE) && SentFor(end, a) && !Attempted(end, b) && forall t :: Heard(d.script, t)
  {
    var p, q, rest := TwoLineUp(d, f, m, nav, a, b);
    SlowFillStrandsTheRest(WiringOf(d), SettingOf(f.tables.policies, m), Opening(f), p, q, rest, seconds);
    FirstIsNotSecond(f.tables.policies, m.feed, a, b);
    OneAttempted(OwnCycles.Managed(d, f, m), a, b);
  }

  lemma OneAttempted(end: M.Progress, a: nat, b: nat)
    requires |end.attempts| == 1 && end.attempts[0].policyId == Digits(a) && end.attempts[0].handling.Sent?
    requires Digits(a) != Digits(b)
    ensures SentFor(end, a) && !Attempted(end, b)
  {
  }

  lemma FirstIsNotSecond(ps: seq<Policy>, feed: Feed, a: nat, b: nat)
    requires a < |ps| && b < |ps| && Place(ps, a, feed) != Place(ps, b, feed)
    ensures Digits(a) != Digits(b)
  {
    DigitsApart(a, b);
  }
}
