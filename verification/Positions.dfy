/** What a management cycle is given to manage: the open policies, each with the proposal of
    its exit. */
module Positions {
  import opened Numerals
  import opened Decimals
  import opened Domain
  import opened Verdicts
  import opened KernelState
  import opened Orders
  import opened Book
  import opened Solvency
  import opened Claims
  import opened Exits

  /** What is read beside the book: each policy's decimals, its cost to close, if it can be
      priced, and the price of its underlying. */
  datatype Feed = Feed(columns: nat -> Columns, cost: nat -> Option<real>, price: nat -> Option<real>)

  function StrikeOf(leg: Option<PolicyLeg>): real {
    match leg case Some(l) => l.strike.V() case None => 0.0
  }

  function PositionOf(id: nat, row: Policy, feed: Feed): ManagedPosition {
    var short, long := FirstOn(row.legs, Sell), FirstOn(row.legs, Buy);
    var priced := short.Some? && long.Some?;
    ManagedPosition(Digits(id), row.contracts, row.openingCredit, StrikeOf(short), StrikeOf(long), row.expiry,
                    if priced then feed.cost(id) else None, if priced then feed.price(id) else None)
  }

  function PositionsFrom(ps: seq<Policy>, feed: Feed): seq<ManagedPosition> {
    if ps == [] then []
    else
      var n := |ps| - 1;
      PositionsFrom(ps[..n], feed) + (if ps[n].Exposed() then [PositionOf(n, ps[n], feed)] else [])
  }

  function ProposalsFrom(ps: seq<Policy>, feed: Feed, now: int): map<string, Proposal> {
    if ps == [] then map[]
    else
      var n := |ps| - 1;
      var before, rebuilt := ProposalsFrom(ps[..n], feed, now), RebuildProposal(n, ps[n], feed.columns(n), now);
      if ps[n].Exposed() && rebuilt.Some? then before[Digits(n) := rebuilt.value] else before
  }

  /** `open_positions` */
  method OpenPositions(book: PolicyBook, feed: Feed, now: int)
    returns (positions: seq<ManagedPosition>, proposals: map<string, Proposal>)
    ensures positions == PositionsFrom(book.policies, feed) && proposals == ProposalsFrom(book.policies, feed, now)
  {
    positions, proposals := [], map[];
    for i := 0 to |book.policies|
      invariant positions == PositionsFrom(book.policies[..i], feed)
      invariant proposals == ProposalsFrom(book.policies[..i], feed, now)
    {
      assert book.policies[..i + 1][..i] == book.policies[..i];
      var row := book.policies[i];
      if row.Exposed() {
        var rebuilt := RebuildProposal(i, row, feed.columns(i), now);
        if rebuilt.Some? {
          proposals := proposals[Digits(i) := rebuilt.value];
        }
        positions := positions + [PositionOf(i, row, feed)];
      }
    }
    assert book.policies[..|book.policies|] == book.policies;
  }

  // ----- exactly the open policies ---------------------------------------------------

  /** The place of a policy among the positions. */
  function Place(ps: seq<Policy>, id: nat, feed: Feed): nat
    requires id <= |ps|
  {
    |PositionsFrom(ps[..id], feed)|
  }

  lemma DigitsApart(a: nat, b: nat)
    ensures Digits(a) == Digits(b) <==> a == b
  {
    ValueOfDigits(a);
    ValueOfDigits(b);
  }

  lemma {:induction false} OpenIsListed(ps: seq<Policy>, id: nat, feed: Feed)
    requires id < |ps| && ps[id].Exposed()
    ensures var k := Place(ps, id, feed);
      k < |PositionsFrom(ps, feed)| && PositionsFrom(ps, feed)[k] == PositionOf(id, ps[id], feed)
  {
    var n := |ps| - 1;
    if id < n {
      OpenIsListed(ps[..n], id, feed);
      assert ps[..n][..id] == ps[..id];
    }
  }

  lemma {:induction false} ListedIsOpen(ps: seq<Policy>, k: nat, feed: Feed) returns (id: nat)
    requires k < |PositionsFrom(ps, feed)|
    ensures id < |ps| && ps[id].Exposed() && Place(ps, id, feed) == k
    ensures PositionsFrom(ps, feed)[k] == PositionOf(id, ps[id], feed)
  {
    var n := |ps| - 1;
    if k < |PositionsFrom(ps[..n], feed)| {
      id := ListedIsOpen(ps[..n], k, feed);
      assert ps[..n][..id] == ps[..id];
    } else {
      id := n;
    }
  }

  ghost predicate Managed(positions: seq<ManagedPosition>, id: nat) {
    exists k :: 0 <= k < |positions| && positions[k].policyId == Digits(id)
  }

  /** A policy is managed exactly while it is open or closing: pending, settled and short-filled
      policies never are. */
  lemma ManagedExactly(ps: seq<Policy>, id: nat, feed: Feed)
    requires id < |ps|
    ensures Managed(PositionsFrom(ps, feed), id) <==> ps[id].Exposed()
  {
    if ps[id].Exposed() {
      OpenIsListed(ps, id, feed);
    } else if Managed(PositionsFrom(ps, feed), id) {
      var k :| 0 <= k < |PositionsFrom(ps, feed)| && PositionsFrom(ps, feed)[k].policyId == Digits(id);
      var j := ListedIsOpen(ps, k, feed);
      DigitsApart(id, j);
      assert false;
    }
  }

  /** Its exit is at hand exactly then, if its legs can be read back. */
  lemma {:induction false} ProposedExactly(ps: seq<Policy>, id: nat, feed: Feed, now: int)
    ensures var proposals := ProposalsFrom(ps, feed, now);
      && (Digits(id) in proposals <==>
            id < |ps| && ps[id].Exposed() && RebuildProposal(id, ps[id], feed.columns(id), now).Some?)
      && (Digits(id) in proposals ==>
            proposals[Digits(id)] == RebuildProposal(id, ps[id], feed.columns(id), now).value)
  {
    if ps != [] {
      var n := |ps| - 1;
      ProposedExactly(ps[..n], id, feed, now);
      DigitsApart(id, n);
    }
  }

  lemma {:induction false} ProposalsAreRebuilt(ps: seq<Policy>, feed: Feed, now: int, key: string) returns (id: nat)
    requires key in ProposalsFrom(ps, feed, now)
    ensures id < |ps| && ps[id].Exposed() && key == Digits(id)
    ensures Some(ProposalsFrom(ps, feed, now)[key]) == RebuildProposal(id, ps[id], feed.columns(id), now)
  {
    var n := |ps| - 1;
    if key == Digits(n) && ps[n].Exposed() && RebuildProposal(n, ps[n], feed.columns(n), now).Some? {
      id := n;
    } else {
      id := ProposalsAreRebuilt(ps[..n], feed, now, key);
    }
  }

  // ----- a close on request -------------------------------------------------------------

  datatype CloseAnswer = NoSuchPolicy | NotClosable | NotReady | Adjudicated(verdict: KernelVerdict)

  /** `CLOSABLE` */
  predicate Requestable(row: Policy) {
    row.Exposed() || row.status.LegRisk?
  }

  /** `request_close`, up to the verdict: an operator asks, and nothing is executed. */
  ghost function RequestClose(host: Host, ps: seq<Policy>, feed: Feed, r: Reading, id: nat, secret: string,
                              nonce: string): CloseAnswer {
    if id >= |ps| then NoSuchPolicy
    else if !Requestable(ps[id]) then NotClosable
    else if Digits(id) !in ProposalsFrom(ps, feed, r.now) || !Managed(PositionsFrom(ps, feed), id) then NotReady
    else
      var closing := ProposalsFrom(ps, feed, r.now)[Digits(id)];
      Adjudicated(ExitVerdictOn(host, ps, r, closing, ps[id].contracts, secret, nonce))
  }

  /** A short-filled policy is on the list of what may be asked for, and yet no such request is
      ever put to the Kernel. */
  lemma ShortFillIsNeverAdjudicated(host: Host, ps: seq<Policy>, feed: Feed, r: Reading, id: nat, secret: string,
                                    nonce: string)
    requires id < |ps|
    ensures RequestClose(host, ps, feed, r, id, secret, nonce).Adjudicated?
       <==> ps[id].Exposed() && RebuildProposal(id, ps[id], feed.columns(id), r.now).Some?
    ensures ps[id].status.LegRisk? ==> RequestClose(host, ps, feed, r, id, secret, nonce) == NotReady
  {
    ManagedExactly(ps, id, feed);
    ProposedExactly(ps, id, feed, r.now);
  }

  /** A request that does reach the Kernel is approved for every contract of the policy, unless
      there is no key, a halt stands or the row is no spread of limited loss. */
  lemma RequestApprovedExactly(host: Host, ps: seq<Policy>, feed: Feed, r: Reading, id: nat, secret: string,
                               nonce: string)
    requires RequestClose(host, ps, feed, r, id, secret, nonce).Adjudicated? && Reads(feed.columns(id), ps[id])
    ensures var v := RequestClose(host, ps, feed, r, id, secret, nonce).verdict;
      && (v.decision.Approve? <==> secret != "" && Unhalted(ps, r) && Spread(ps[id]) && ps[id].contracts >= 1)
      && (v.decision.Approve? ==> v.approvedContracts == ps[id].contracts)
  {
    ProposedExactly(ps, id, feed, r.now);
    ExitApprovedExactly(host, ps, r, id, ps[id], feed.columns(id), r.now, ps[id].contracts, secret, nonce);
  }
}
