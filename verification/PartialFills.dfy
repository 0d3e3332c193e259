/** Where the whole-run bounds end: a policy that filled short is filed where the Kernel does
    not look, so nothing bounds what is held for such policies. */
module PartialFills {
  import opened Decimals
  import opened Division
  import opened Domain
  import opened Verdicts
  import opened KernelState
  import opened Rules
  import opened Kernel
  import opened Closes
  import opened Book
  import opened Solvency
  import opened SmallBook
  import Engine

  lemma {:induction false} ShownAppend(ps: seq<Policy>, row: Policy, id: nat, today: int)
    requires !row.Exposed()
    ensures ShownFrom(ps + [row], id, today) == ShownFrom(ps, id, today)
  {
    if ps == [] {
      assert ([row])[1..] == [];
      assert ps + [row] == [row];
    } else {
      assert (ps + [row])[1..] == ps[1..] + [row];
      ShownAppend(ps[1..], row, id + 1, today);
    }
  }

  /** Nothing the Kernel is shown has changed, yet `extra` more is held. */
  ghost predicate Unseen(t: Tables, after: Tables, extra: real, r: Reading) {
    && ContextOf(after.policies, r) == ContextOf(t.policies, r)
    && Sum(after.reserves, Held()) == Sum(t.reserves, Held()) + extra
    && |after.policies| == |t.policies| + 1
  }

  lemma AddingUnseen(t: Tables, row: Policy, r: Reading)
    requires row.status.LegRisk?
    ensures Unseen(t, Added(t, row), row.maxLoss, r)
  {
    ShownAppend(t.policies, row, 0, r.today);
    SumAppend(t.policies, row, Realized());
    SumAppend(t.reserves, ReserveRow(|t.policies|, row.maxLoss, true), Held());
  }

  /** One entry cycle after another on the same proposal. */
  function Repeated(e: Entry, k: nat): seq<Move> {
    seq(k, i => Enter(e))
  }

  /** What so many contracts hold. */
  function Worth(p: Proposal, n: int): real {
    p.maxLoss.V() * n as real
  }

  /** The entry fills short, and this verdict on it is an approval for this stake. */
  predicate FillsShort(e: Entry, v: KernelVerdict, stake: real) {
    e.result.PARTIAL? && v.decision.Approve? && Worth(e.p, v.approvedContracts) == stake
  }

  /** `k` short fills later: the Kernel is still shown `c` and still says `v`, and `k` times the
      stake is held. */
  ghost predicate StillSays(host: Host, secret: string, l: KernelLimits, e: Entry, c: KernelContext, v: KernelVerdict,
                            stake: real, t: Tables, k: nat) {
    && |t.policies| == k && ContextOf(t.policies, e.reading) == c
    && VerdictOn(host, secret, l, t.policies, e) == v
    && Sum(t.reserves, Held()) == Cost(stake, k)
  }

  lemma SameShown(host: Host, secret: string, l: KernelLimits, ps: seq<Policy>, qs: seq<Policy>, e: Entry)
    requires ContextOf(ps, e.reading) == ContextOf(qs, e.reading)
    ensures VerdictOn(host, secret, l, ps, e) == VerdictOn(host, secret, l, qs, e)
  {
    assert EntryContext(ps, e.reading, e.candidates) == EntryContext(qs, e.reading, e.candidates);
  }

  lemma ShortFillAdds(host: Host, secret: string, l: KernelLimits, t: Tables, e: Entry, v: KernelVerdict, stake: real)
    requires v == VerdictOn(host, secret, l, t.policies, e) && FillsShort(e, v, stake)
    ensures Unseen(t, Advance(host, secret, l, t, Enter(e)), stake, e.reading)
  {
    var row := PolicyRow(t.policies, e.p, v.approvedContracts, LegRisk, e.year);
    AddingUnseen(t, row, e.reading);
    assert Advance(host, secret, l, t, Enter(e)) == Added(t, row);
  }

  lemma NextShortFill(host: Host, secret: string, l: KernelLimits, e: Entry, c: KernelContext, v: KernelVerdict,
                      stake: real, t: Tables, after: Tables, k: nat)
    requires FillsShort(e, v, stake) && after == Advance(host, secret, l, t, Enter(e))
    requires StillSays(host, secret, l, e, c, v, stake, t, k)
    ensures StillSays(host, secret, l, e, c, v, stake, after, k + 1)
  {
    ShortFillAdds(host, secret, l, t, e, v, stake);
    SameShown(host, secret, l, after.policies, t.policies, e);
  }

  /** Over a run of the desk's own moves: an entry that is approved on an empty book and fills
      short is approved again at the same size however often it has filled short before, and
      each time its whole stake is held on top. */
  lemma {:induction false} ShortFillsRepeat(host: Host, secret: string, l: KernelLimits, e: Entry, c: KernelContext,
                                            v: KernelVerdict, stake: real, t: Tables, k: nat)
    requires c == ContextOf([], e.reading) && v == VerdictOn(host, secret, l, [], e) && FillsShort(e, v, stake)
    requires t == Play(host, secret, l, Repeated(e, k))
    ensures StillSays(host, secret, l, e, c, v, stake, t, k)
    decreases k
  {
    if k == 0 {
      NoneYet(host, secret, l, e, c, v, stake);
    } else {
      var before := PlayedAgain(host, secret, l, e, t, k);
      ShortFillsRepeat(host, secret, l, e, c, v, stake, before, k - 1);
      NextShortFill(host, secret, l, e, c, v, stake, before, t, k - 1);
    }
  }

  lemma NoneYet(host: Host, secret: string, l: KernelLimits, e: Entry, c: KernelContext, v: KernelVerdict, stake: real)
    requires c == ContextOf([], e.reading) && v == VerdictOn(host, secret, l, [], e)
    ensures StillSays(host, secret, l, e, c, v, stake, Play(host, secret, l, Repeated(e, 0)), 0)
  {
    assert Repeated(e, 0) == [] && Play(host, secret, l, []) == EMPTY;
  }

  lemma PlayedAgain(host: Host, secret: string, l: KernelLimits, e: Entry, t: Tables, k: nat) returns (before: Tables)
    requires k > 0 && t == Play(host, secret, l, Repeated(e, k))
    ensures before == Play(host, secret, l, Repeated(e, k - 1)) && t == Advance(host, secret, l, before, Enter(e))
  {
    assert Repeated(e, k)[..k - 1] == Repeated(e, k - 1) && Repeated(e, k)[k - 1] == Enter(e);
    before := Play(host, secret, l, Repeated(e, k - 1));
  }

  lemma EnoughOf(each: real, bound: real) returns (k: nat)
    requires each > 0.0
    ensures Cost(each, k) > bound
  {
    if bound < 0.0 {
      k := 0;
    } else {
      var q := bound / each;
      assert q * each == bound;
      if q < 0.0 {
        RealLt(q, 0.0, each);
      }
      k := q.Floor + 1;
      RealLt(q, k as real, each);
      CostIsProduct(each, k);
    }
  }

  /** So nothing bounds what is held in all. For any bound there is a run of the very moves the
      whole-run bounds speak of, on an account of ten thousand dollars, that holds more. */
  lemma HeldPassesAnyBound(host: Host, secret: string, bound: real) returns (moves: seq<Move>)
    requires secret != ""
    ensures forall m :: m in moves ==> Allowed(m, EQUITY)
    ensures Sum(Play(host, secret, DEFAULT_LIMITS, moves).reserves, Held()) > bound
  {
    var e := SmallEntry("a", Engine.PARTIAL);
    EmptyBookShows();
    SmallIsApproved(host, secret, [], "a", Engine.PARTIAL, 0);
    SmallIsAllowed("a", Engine.PARTIAL);
    SmallAmounts();
    var v := VerdictOn(host, secret, DEFAULT_LIMITS, [], e);
    var k := EnoughOf(Worth(e.p, 4), bound);
    moves := Repeated(e, k);
    ShortFillsRepeat(host, secret, DEFAULT_LIMITS, e, ContextOf([], e.reading), v, Worth(e.p, 4),
                     Play(host, secret, DEFAULT_LIMITS, moves), k);
  }
}
