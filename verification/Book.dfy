/** The book: policies, the reserves held against them, and the invariant between them. */
module Book {
  import opened Numerals
  import opened Decimals
  import opened Division
  import opened Domain
  import opened KernelState
  import opened Orders
  import Engine

  datatype PolicyStatus = Pending | Live | Closing | Settled | LegRisk

  datatype Policy = Policy(
    number: string,
    underlying: string,
    contracts: int,
    openingCredit: real,
    maxProfit: real,
    maxLoss: real,
    capitalReserve: real,
    expiry: int,
    status: PolicyStatus,
    legs: seq<PolicyLeg>,
    settlement: Option<Settlement>)
  {
    /** `OPEN_STATUSES` */
    predicate Exposed() { status.Live? || status.Closing? }
  }

  datatype Settlement = Settlement(closedAt: int, closingDebit: real, realized: real, reason: string, win: bool)

  datatype ReserveRow = ReserveRow(policyId: nat, amount: real, held: bool)

  /** Both tables; a policy's id is its place in the first. */
  datatype Tables = Tables(policies: seq<Policy>, reserves: seq<ReserveRow>)

  const EMPTY := Tables([], [])

  // ----- policy numbers -------------------------------------------------------

  /** `:04d` */
  function Padded(n: nat): string {
    var ds := Digits(n);
    if |ds| >= 4 then ds else Zeros(4 - |ds|) + ds
  }

  function Prefix(year: nat): string {
    "UW-" + (Digits(year) + "-")
  }

  predicate Matches(number: string, year: nat) {
    Prefix(year) <= number
  }

  function CountOf(ps: seq<Policy>, year: nat): nat {
    if ps == [] then 0
    else CountOf(ps[..|ps| - 1], year) + (if Matches(ps[|ps| - 1].number, year) then 1 else 0)
  }

  /** `next_policy_number` */
  function NextPolicyNumber(ps: seq<Policy>, year: nat): string {
    Prefix(year) + Padded(CountOf(ps, year) + 1)
  }

  // ----- writing and settling -------------------------------------------------

  /** The row `CycleRecorder.policy` writes. */
  function PolicyRow(ps: seq<Policy>, p: Proposal, contracts: int, status: PolicyStatus, year: nat): Policy {
    var maxLoss := p.maxLoss.V() * contracts as real;
    Policy(NextPolicyNumber(ps, year), p.underlying, contracts, p.netCredit.V(),
           p.maxProfit.V() * contracts as real, maxLoss, maxLoss, p.expiry, status, StoreLegs(p.legs), None)
  }

  /** A row and the reserve it is held at. */
  function Added(t: Tables, row: Policy): Tables {
    Tables(t.policies + [row], t.reserves + [ReserveRow(|t.policies|, row.maxLoss, true)])
  }

  function Written(t: Tables, p: Proposal, contracts: int, status: PolicyStatus, year: nat): Tables {
    Added(t, PolicyRow(t.policies, p, contracts, status, year))
  }

  function ReleasedFor(r: ReserveRow, id: nat): ReserveRow {
    if r.policyId == id && r.held then r.(held := false) else r
  }

  function Released(rs: seq<ReserveRow>, id: nat): (out: seq<ReserveRow>)
    ensures |out| == |rs|
    ensures forall i :: 0 <= i < |rs| ==> out[i] == ReleasedFor(rs[i], id)
  {
    seq(|rs|, i requires 0 <= i < |rs| => ReleasedFor(rs[i], id))
  }

  function SettledRow(row: Policy, at: int, debit: real, realized: real, reason: string): Policy {
    row.(status := Settled, settlement := Some(Settlement(at, debit, realized, reason, realized > 0.0)))
  }

  /** `CycleRecorder.settle`; an unknown id changes nothing. */
  function AfterSettling(t: Tables, id: nat, at: int, debit: real, realized: real, reason: string): Tables {
    if id >= |t.policies| then t
    else Tables(t.policies[id := SettledRow(t.policies[id], at, debit, realized, reason)], Released(t.reserves, id))
  }

  /** A live policy whose exit is under way. */
  function AfterMarking(t: Tables, id: nat): Tables {
    if id < |t.policies| && t.policies[id].status.Live? then
      t.(policies := t.policies[id := t.policies[id].(status := Closing)])
    else t
  }

  /** `_record_execution`: a policy only for what filled, and how it is filed. */
  function AfterExecution(t: Tables, p: Proposal, status: Engine.Status, contracts: int, year: nat): Tables {
    if status.FILLED? then Written(t, p, contracts, Live, year)
    else if status.PARTIAL? then Written(t, p, contracts, LegRisk, year)
    else t
  }

  // ----- sums -----------------------------------------------------------------

  function Sum<T>(xs: seq<T>, value: T -> real): real {
    if xs == [] then 0.0 else value(xs[0]) + Sum(xs[1..], value)
  }

  lemma {:induction false} SumAppend<T>(xs: seq<T>, x: T, value: T -> real)
    ensures Sum(xs + [x], value) == Sum(xs, value) + value(x)
  {
    if xs == [] {
      assert [x][1..] == [];
    } else {
      assert (xs + [x])[1..] == xs[1..] + [x];
      SumAppend(xs[1..], x, value);
    }
  }

  lemma {:induction false} SumUpdate<T>(xs: seq<T>, i: nat, x: T, value: T -> real)
    requires i < |xs|
    ensures Sum(xs[i := x], value) == Sum(xs, value) - value(xs[i]) + value(x)
  {
    if i == 0 {
      assert xs[0 := x][1..] == xs[1..];
    } else {
      assert xs[i := x][1..] == xs[1..][i - 1 := x];
      SumUpdate(xs[1..], i - 1, x, value);
    }
  }

  lemma {:induction false} SumAtLeastZero<T>(xs: seq<T>, value: T -> real)
    requires forall x :: x in xs ==> value(x) >= 0.0
    ensures Sum(xs, value) >= 0.0
    ensures Sum(xs, value) == 0.0 <==> forall x :: x in xs ==> value(x) == 0.0
  {
    if xs != [] {
      SumAtLeastZero(xs[1..], value);
      assert forall x :: x in xs <==> x == xs[0] || x in xs[1..];
    }
  }

  function Held(): ReserveRow -> real {
    (r: ReserveRow) => if r.held then r.amount else 0.0
  }

  function ExposedLoss(): Policy -> real {
    (row: Policy) => if row.Exposed() then row.maxLoss else 0.0
  }

  /** Held, yet in no status the invariant looks at. */
  function UnlistedLoss(): Policy -> real {
    (row: Policy) => if row.Exposed() || row.status.Settled? then 0.0 else row.maxLoss
  }

  // ----- the class ------------------------------------------------------------

  datatype ReserveInvariant = ReserveInvariant(holds: bool, heldReserves: real, exposedMaxLoss: real, difference: real)

  class PolicyBook {
    var policies: seq<Policy>
    var reserves: seq<ReserveRow>

    constructor ()
      ensures State() == EMPTY
    {
      policies, reserves := [], [];
    }

    function State(): Tables
      reads this
    {
      Tables(policies, reserves)
    }

    /** `CycleRecorder.policy`: the policy, its legs and its reserve. */
    method WritePolicy(p: Proposal, contracts: int, status: PolicyStatus, year: nat) returns (id: nat)
      modifies this
      ensures State() == Written(old(State()), p, contracts, status, year)
      ensures id == |old(policies)|
    {
      id := |policies|;
      var row := PolicyRow(policies, p, contracts, status, year);
      policies := policies + [row];
      reserves := reserves + [ReserveRow(id, row.maxLoss, true)];
    }

    /** `settle`: the row first, then every reserve still held against it. */
    method Settle(id: nat, at: int, debit: real, realized: real, reason: string)
      modifies this
      ensures State() == AfterSettling(old(State()), id, at, debit, realized, reason)
    {
      if id >= |policies| {
        return;
      }
      policies := policies[id := SettledRow(policies[id], at, debit, realized, reason)];
      for i := 0 to |reserves|
        invariant policies == old(policies)[id := SettledRow(old(policies)[id], at, debit, realized, reason)]
        invariant |reserves| == |old(reserves)|
        invariant forall k :: 0 <= k < i ==> reserves[k] == ReleasedFor(old(reserves)[k], id)
        invariant forall k :: i <= k < |reserves| ==> reserves[k] == old(reserves)[k]
      {
        if reserves[i].policyId == id && reserves[i].held {
          reserves := reserves[i := reserves[i].(held := false)];
        }
      }
      assert reserves == Released(old(reserves), id);
    }

    /** `_record_execution` */
    method RecordExecution(p: Proposal, status: Engine.Status, contracts: int, year: nat)
      modifies this
      ensures State() == AfterExecution(old(State()), p, status, contracts, year)
    {
      if !status.FILLED? && !status.PARTIAL? {
        return;
      }
      var id := WritePolicy(p, contracts, if status.PARTIAL? then LegRisk else Live, year);
    }

    /** `check_reserve_invariant` */
    method CheckReserveInvariant() returns (r: ReserveInvariant)
      ensures r.heldReserves == Sum(reserves, Held()) && r.exposedMaxLoss == Sum(policies, ExposedLoss())
      ensures r.difference == r.heldReserves - r.exposedMaxLoss && (r.holds <==> r.difference == 0.0)
    {
      var held, exposed := 0.0, 0.0;
      for i := 0 to |reserves|
        invariant held == Sum(reserves[..i], Held())
      {
        assert reserves[..i + 1] == reserves[..i] + [reserves[i]];
        SumAppend(reserves[..i], reserves[i], Held());
        if reserves[i].held {
          held := held + reserves[i].amount;
        }
      }
      for i := 0 to |policies|
        invariant exposed == Sum(policies[..i], ExposedLoss())
      {
        assert policies[..i + 1] == policies[..i] + [policies[i]];
        SumAppend(policies[..i], policies[i], ExposedLoss());
        if policies[i].Exposed() {
          exposed := exposed + policies[i].maxLoss;
        }
      }
      assert reserves[..|reserves|] == reserves && policies[..|policies|] == policies;
      r := ReserveInvariant(held == exposed, held, exposed, held - exposed);
    }
  }

  // ----- what every run keeps -------------------------------------------------

  /** What happens to a book: an order executed, a policy settled, an exit begun. A policy
      written with no status given is left pending. */
  datatype Event =
    | Executed(p: Proposal, result: Engine.Status, contracts: int, year: nat)
    | Drafted(p: Proposal, contracts: int, year: nat)
    | SettleIt(id: nat, at: int, debit: real, realized: real, reason: string)
    | BeginExit(id: nat)

  function Step(t: Tables, e: Event): Tables {
    match e
    case Executed(p, result, contracts, year) => AfterExecution(t, p, result, contracts, year)
    case Drafted(p, contracts, year) => Written(t, p, contracts, Pending, year)
    case SettleIt(id, at, debit, realized, reason) => AfterSettling(t, id, at, debit, realized, reason)
    case BeginExit(id) => AfterMarking(t, id)
  }

  function Run(t: Tables, events: seq<Event>): Tables {
    if events == [] then t else Step(Run(t, events[..|events| - 1]), events[|events| - 1])
  }

  /** Every policy has one reserve, of its max loss, held until the policy settles. */
  ghost predicate Paired(t: Tables) {
    && |t.policies| == |t.reserves|
    && forall i :: 0 <= i < |t.policies| ==>
      t.reserves[i] == ReserveRow(i, t.policies[i].maxLoss, !t.policies[i].status.Settled?)
  }

  lemma StepKeepsPaired(t: Tables, e: Event)
    requires Paired(t)
    ensures Paired(Step(t, e))
  {
  }

  lemma {:induction false} RunsStayPaired(t: Tables, events: seq<Event>)
    requires Paired(t)
    ensures Paired(Run(t, events))
  {
    if events != [] {
      RunsStayPaired(t, events[..|events| - 1]);
      StepKeepsPaired(Run(t, events[..|events| - 1]), events[|events| - 1]);
    }
  }

  lemma {:induction false} HeldSplits(rs: seq<ReserveRow>, ps: seq<Policy>)
    requires |rs| == |ps|
    requires forall i :: 0 <= i < |ps| ==> rs[i].amount == ps[i].maxLoss && rs[i].held == !ps[i].status.Settled?
    ensures Sum(rs, Held()) == Sum(ps, ExposedLoss()) + Sum(ps, UnlistedLoss())
  {
    if rs != [] {
      HeldSplits(rs[1..], ps[1..]);
    }
  }

  /** Conservation: over every run, what is held beyond what is exposed is exactly the max
      loss of policies the invariant does not list. */
  lemma ReserveConservation(events: seq<Event>)
    ensures var t := Run(EMPTY, events);
      Sum(t.reserves, Held()) - Sum(t.policies, ExposedLoss()) == Sum(t.policies, UnlistedLoss())
  {
    RunsStayPaired(EMPTY, events);
    var t := Run(EMPTY, events);
    HeldSplits(t.reserves, t.policies);
  }

  predicate Unlisted(row: Policy) {
    !row.Exposed() && !row.status.Settled?
  }

  /** A proposal that can lose money, in at least one contract. */
  ghost predicate AtRisk(e: Event) {
    match e
    case Executed(p, _, contracts, _) => p.maxLoss.V() > 0.0 && contracts >= 1
    case Drafted(p, contracts, _) => p.maxLoss.V() > 0.0 && contracts >= 1
    case _ => true
  }

  ghost predicate LossesPositive(t: Tables) {
    forall row :: row in t.policies ==> row.maxLoss > 0.0
  }

  lemma StepKeepsPositive(t: Tables, e: Event)
    requires LossesPositive(t) && AtRisk(e)
    ensures LossesPositive(Step(t, e))
  {
    match e
    case Executed(p, _, contracts, _) => RealLt(0.0, p.maxLoss.V(), contracts as real);
    case Drafted(p, contracts, _) => RealLt(0.0, p.maxLoss.V(), contracts as real);
    case SettleIt(id, _, _, _, _) =>
      if id < |t.policies| { assert t.policies[id] in t.policies; }
    case BeginExit(id) =>
      if id < |t.policies| { assert t.policies[id] in t.policies; }
  }

  lemma {:induction false} RunsStayPositive(events: seq<Event>)
    requires forall e :: e in events ==> AtRisk(e)
    ensures LossesPositive(Run(EMPTY, events))
  {
    if events != [] {
      RunsStayPositive(events[..|events| - 1]);
      StepKeepsPositive(Run(EMPTY, events[..|events| - 1]), events[|events| - 1]);
    }
  }

  /** DB-INV-1 holds after a run exactly when no policy is pending or carries leg risk. */
  lemma InvariantHoldsExactly(events: seq<Event>)
    requires forall e :: e in events ==> AtRisk(e)
    ensures var t := Run(EMPTY, events);
      Sum(t.reserves, Held()) == Sum(t.policies, ExposedLoss()) <==>
      forall row :: row in t.policies ==> !Unlisted(row)
  {
    var t := Run(EMPTY, events);
    ReserveConservation(events);
    RunsStayPositive(events);
    SumAtLeastZero(t.policies, UnlistedLoss());
    assert forall row :: row in t.policies ==> (UnlistedLoss()(row) == 0.0 <==> !Unlisted(row));
  }

  /** Settling again rewrites the settlement and releases nothing more; no other policy
      and no other policy's reserve is touched the first time. */
  lemma SettlingTwice(t: Tables, id: nat, at1: int, d1: real, r1: real, why1: string, at2: int, d2: real, r2: real,
                      why2: string)
    ensures var once := AfterSettling(t, id, at1, d1, r1, why1);
      var twice := AfterSettling(once, id, at2, d2, r2, why2);
      && twice.reserves == once.reserves
      && twice.policies == AfterSettling(t, id, at2, d2, r2, why2).policies
      && |once.policies| == |t.policies| && |once.reserves| == |t.reserves|
      && (forall i :: 0 <= i < |t.policies| && i != id ==> once.policies[i] == t.policies[i])
      && (forall i :: 0 <= i < |t.reserves| && t.reserves[i].policyId != id ==> once.reserves[i] == t.reserves[i])
  {
  }

  // ----- policy numbers are unique ----------------------------------------------

  ghost predicate Numbered(number: string, year: nat, n: nat) {
    number == Prefix(year) + Padded(n)
  }

  lemma PaddedValue(n: nat)
    ensures AllDigits(Padded(n)) && Value(Padded(n)) == n
  {
    ValueOfDigits(n);
    if |Digits(n)| < 4 {
      ValueOfPadded(4 - |Digits(n)|, Digits(n));
    }
  }

  lemma PrefixSplits(year: nat, rest: string)
    ensures var t := Prefix(year) + rest;
      |t| >= 3 && Span(t[3..]) == |Digits(year)| && t[3..][..Span(t[3..])] == Digits(year)
      && t[|Prefix(year)|..] == rest
  {
    var t := Prefix(year) + rest;
    assert t[3..] == Digits(year) + ("-" + rest);
    SpanOfDigits(Digits(year), "-" + rest);
  }

  /** A number is counted towards exactly the year it was issued in. */
  lemma MatchesOwnYear(number: string, year: nat, n: nat, other: nat)
    requires Numbered(number, year, n)
    ensures Matches(number, other) <==> year == other
  {
    PrefixSplits(year, Padded(n));
    if Matches(number, other) {
      var rest := number[|Prefix(other)|..];
      assert number == Prefix(other) + rest;
      PrefixSplits(other, rest);
      ValueOfDigits(year);
      ValueOfDigits(other);
    }
  }

  lemma NumberedTwice(number: string, y1: nat, n1: nat, y2: nat, n2: nat)
    requires Numbered(number, y1, n1) && Numbered(number, y2, n2)
    ensures y1 == y2 && n1 == n2
  {
    MatchesOwnYear(number, y1, n1, y2);
    PrefixSplits(y1, Padded(n1));
    PrefixSplits(y2, Padded(n2));
    PaddedValue(n1);
    PaddedValue(n2);
  }

  /** Every policy is numbered by how many of its year came before it. */
  ghost predicate InSequence(ps: seq<Policy>, years: seq<nat>) {
    |years| == |ps| && forall i: nat :: i < |ps| ==> NumberedAt(ps, years[i], i)
  }

  ghost predicate NumberedAt(ps: seq<Policy>, year: nat, i: nat) {
    i < |ps| && Numbered(ps[i].number, year, CountOf(ps[..i], year) + 1)
  }

  lemma {:induction false} CountGrows(ps: seq<Policy>, i: nat, j: nat, year: nat)
    requires i <= j <= |ps|
    ensures CountOf(ps[..i], year) <= CountOf(ps[..j], year)
    ensures i < j && Matches(ps[i].number, year) ==> CountOf(ps[..i], year) < CountOf(ps[..j], year)
    decreases j
  {
    if i < j {
      assert ps[..j][..j - 1] == ps[..j - 1];
      CountGrows(ps, i, j - 1, year);
    }
  }

  /** No two policies ever share a number, whatever years the clock shows. */
  lemma NumbersAreUnique(ps: seq<Policy>, years: seq<nat>)
    requires InSequence(ps, years)
    ensures forall i, j :: 0 <= i < j < |ps| ==> ps[i].number != ps[j].number
  {
    forall i, j | 0 <= i < j < |ps| ensures ps[i].number != ps[j].number {
      assert NumberedAt(ps, years[i], i) && NumberedAt(ps, years[j], j);
      if ps[i].number == ps[j].number {
        NumberedTwice(ps[i].number, years[i], CountOf(ps[..i], years[i]) + 1, years[j], CountOf(ps[..j], years[j]) + 1);
        MatchesOwnYear(ps[i].number, years[i], CountOf(ps[..i], years[i]) + 1, years[i]);
        CountGrows(ps, i, j, years[i]);
      }
    }
  }

  ghost predicate NumbersOf(a: seq<Policy>, b: seq<Policy>) {
    |a| == |b| && forall i :: 0 <= i < |a| ==> a[i].number == b[i].number
  }

  lemma {:induction false} CountReadsNumbers(a: seq<Policy>, b: seq<Policy>, year: nat)
    requires NumbersOf(a, b)
    ensures CountOf(a, year) == CountOf(b, year)
  {
    if a != [] {
      CountReadsNumbers(a[..|a| - 1], b[..|b| - 1], year);
    }
  }

  lemma SequenceReadsNumbers(a: seq<Policy>, b: seq<Policy>, years: seq<nat>)
    requires NumbersOf(a, b) && InSequence(a, years)
    ensures InSequence(b, years)
  {
    forall i: nat | i < |b| ensures NumberedAt(b, years[i], i) {
      assert NumberedAt(a, years[i], i);
      CountReadsNumbers(a[..i], b[..i], years[i]);
    }
  }

  lemma PrefixKeepsNumber(ps: seq<Policy>, row: Policy, year: nat, i: nat)
    requires NumberedAt(ps, year, i)
    ensures NumberedAt(ps + [row], year, i)
  {
    assert (ps + [row])[..i] == ps[..i];
  }

  lemma LastIsNumbered(ps: seq<Policy>, row: Policy, year: nat)
    requires row.number == NextPolicyNumber(ps, year)
    ensures NumberedAt(ps + [row], year, |ps|)
  {
    assert (ps + [row])[..|ps|] == ps;
  }

  lemma AppendKeepsSequence(ps: seq<Policy>, row: Policy, year: nat, years: seq<nat>)
    requires InSequence(ps, years) && row.number == NextPolicyNumber(ps, year)
    ensures InSequence(ps + [row], years + [year])
  {
    forall i: nat | i < |ps| + 1 ensures NumberedAt(ps + [row], (years + [year])[i], i) {
      if i < |ps| {
        PrefixKeepsNumber(ps, row, years[i], i);
      } else {
        LastIsNumbered(ps, row, year);
      }
    }
  }

  lemma WritingKeepsSequence(t: Tables, p: Proposal, contracts: int, status: PolicyStatus, year: nat, years: seq<nat>)
    requires InSequence(t.policies, years)
    ensures InSequence(Written(t, p, contracts, status, year).policies, years + [year])
  {
    AppendKeepsSequence(t.policies, PolicyRow(t.policies, p, contracts, status, year), year, years);
  }

  lemma StepKeepsSequence(t: Tables, e: Event, years: seq<nat>) returns (next: seq<nat>)
    requires InSequence(t.policies, years)
    ensures InSequence(Step(t, e).policies, next)
  {
    next := years;
    match e
    case Executed(p, result, contracts, year) =>
      if result.FILLED? || result.PARTIAL? {
        WritingKeepsSequence(t, p, contracts, if result.PARTIAL? then LegRisk else Live, year, years);
        next := years + [year];
      }
    case Drafted(p, contracts, year) =>
      WritingKeepsSequence(t, p, contracts, Pending, year, years);
      next := years + [year];
    case SettleIt(_, _, _, _, _) => SequenceReadsNumbers(t.policies, Step(t, e).policies, years);
    case BeginExit(_) => SequenceReadsNumbers(t.policies, Step(t, e).policies, years);
  }

  lemma {:induction false} RunKeepsSequence(events: seq<Event>) returns (years: seq<nat>)
    ensures InSequence(Run(EMPTY, events).policies, years)
  {
    if events == [] {
      years := [];
    } else {
      var before := RunKeepsSequence(events[..|events| - 1]);
      years := StepKeepsSequence(Run(EMPTY, events[..|events| - 1]), events[|events| - 1], before);
    }
  }

  /** Over every run, policy numbers are unique: the count they are taken from only grows,
      because settling keeps the row. */
  lemma PolicyNumbersUnique(events: seq<Event>)
    ensures var ps := Run(EMPTY, events).policies;
      forall i, j :: 0 <= i < j < |ps| ==> ps[i].number != ps[j].number
  {
    var years := RunKeepsSequence(events);
    NumbersAreUnique(Run(EMPTY, events).policies, years);
  }

  /** What a person reads on a policy: the year, and at least four digits that say how many of that
      year's policies it makes. */
  lemma NumberReads(ps: seq<Policy>, year: nat)
    ensures var number, start := NextPolicyNumber(ps, year), "UW-" + (Digits(year) + "-");
      && start <= number && |number| >= |start| + 4
      && AllDigits(number[|start|..]) && Value(number[|start|..]) == CountOf(ps, year) + 1
  {
    PaddedValue(CountOf(ps, year) + 1);
    var number := NextPolicyNumber(ps, year);
    assert number[|Prefix(year)|..] == Padded(CountOf(ps, year) + 1);
  }

  /** A settlement is kept as it was made, and whether it was a win is whether it made money. */
  lemma SettlementIsKept(t: Tables, id: nat, at: int, debit: real, realized: real, reason: string)
    requires id < |t.policies|
    ensures var after := AfterSettling(t, id, at, debit, realized, reason);
      var row := after.policies[id];
      && row.status.Settled? && row.settlement == Some(Settlement(at, debit, realized, reason, realized > 0.0))
      && row.(status := t.policies[id].status, settlement := t.policies[id].settlement) == t.policies[id]
      && forall i :: 0 <= i < |t.reserves| && t.reserves[i].policyId == id ==>
           after.reserves[i] == ReserveRow(id, t.reserves[i].amount, false)
  {
  }
}
