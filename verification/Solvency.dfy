/** Whole-run solvency: the context rebuilt from the book before every entry, the verdict,
    the fill, and the bounds that hold over every run. */
module Solvency {
  import opened Numerals
  import opened Decimals
  import opened Division
  import opened Domain
  import opened Verdicts
  import opened KernelState
  import opened Rules
  import opened Kernel
  import opened Closes
  import opened Book
  import Engine

  // ----- the context, rebuilt from the book -------------------------------------

  /** What `build_kernel_context` reads besides the policies. */
  datatype Reading = Reading(
    now: int,
    today: int,
    equity: real,
    peakEquity: Option<real>,
    mode: SystemMode,
    killSwitch: bool)

  /** A live policy as the Kernel is shown it: no strikes, and today for an expiry. */
  function Shown(row: Policy, id: nat, today: int): OpenPolicy {
    OpenPolicy(Digits(id), row.underlying, PutCreditSpread, 0.0, 0.0, today, row.contracts, row.maxLoss,
               row.capitalReserve)
  }

  function ShownFrom(ps: seq<Policy>, id: nat, today: int): seq<OpenPolicy> {
    if ps == [] then []
    else (if ps[0].Exposed() then [Shown(ps[0], id, today)] else []) + ShownFrom(ps[1..], id + 1, today)
  }

  function Realized(): Policy -> real {
    (row: Policy) =>
      if row.status.Settled? && row.settlement.Some? then row.settlement.value.realized else 0.0
  }

  /** `build_kernel_context` */
  function ContextOf(ps: seq<Policy>, r: Reading): KernelContext {
    var peak := match r.peakEquity case Some(x) => (if x != 0.0 then x else r.equity) case None => r.equity;
    KernelContext(
      r.now,
      AccountState(r.equity, r.equity, r.equity * 2.0, peak, Sum(ps, Realized()), r.equity > 0.0),
      r.now, r.mode, r.killSwitch, true, 60, 60,
      ShownFrom(ps, 0, r.today), 0.0, 0.0, {}, {}, {})
  }

  /** Not down from a known peak by more than a tenth of it. */
  predicate NotFarDown(r: Reading) {
    r.peakEquity.Some? && r.peakEquity.value > 0.0 ==>
      Div(r.peakEquity.value - r.equity, r.peakEquity.value) <= 0.10
  }

  /** The drawdown the Kernel halts on is measured from the peak on record; with none there is none. */
  lemma DrawdownOnTheBook(ps: seq<Policy>, r: Reading)
    ensures ContextOf(ps, r).account.DrawdownPct() <= 0.10 <==> NotFarDown(r)
  {
    if r.peakEquity.None? || r.peakEquity.value <= 0.0 {
      assert ContextOf(ps, r).account.DrawdownPct() <= 0.0;
    }
  }

  // ----- sums over the book are the Kernel's sums ---------------------------------

  function ReservedFor(underlying: string): Policy -> real {
    (row: Policy) => if row.Exposed() && row.underlying == underlying then row.capitalReserve else 0.0
  }

  function Reserved(): Policy -> real {
    (row: Policy) => if row.Exposed() then row.capitalReserve else 0.0
  }

  function One(): Policy -> real {
    (row: Policy) => if row.Exposed() then 1.0 else 0.0
  }

  lemma {:induction false} ShownSums(ps: seq<Policy>, id: nat, today: int, underlying: string)
    ensures var shown := ShownFrom(ps, id, today);
      && SumReserve(shown) == Sum(ps, Reserved()) && SumMaxLoss(shown) == Sum(ps, ExposedLoss())
      && SumReserveFor(shown, underlying) == Sum(ps, ReservedFor(underlying))
      && |shown| as real == Sum(ps, One())
  {
    if ps != [] {
      ShownSums(ps[1..], id + 1, today, underlying);
      var shown, rest := ShownFrom(ps, id, today), ShownFrom(ps[1..], id + 1, today);
      if ps[0].Exposed() {
        assert shown[0] == Shown(ps[0], id, today) && shown[1..] == rest;
      } else {
        assert shown == rest;
      }
    }
  }

  lemma {:induction false} ShownWithoutStrikes(ps: seq<Policy>, id: nat, today: int)
    ensures forall o :: o in ShownFrom(ps, id, today) ==> o.shortStrike == 0.0 && o.expiry == today
    ensures SumAssignment(ShownFrom(ps, id, today)) == 0.0
  {
    if ps != [] {
      ShownWithoutStrikes(ps[1..], id + 1, today);
      var shown, rest := ShownFrom(ps, id, today), ShownFrom(ps[1..], id + 1, today);
      if ps[0].Exposed() {
        assert shown[0] == Shown(ps[0], id, today) && shown[1..] == rest;
        assert 0.0 * 100.0 * ps[0].contracts as real == 0.0;
      } else {
        assert shown == rest;
      }
    }
  }

  /** The strikes left out: on any book, no proposal with a real short strike is ever seen
      as a duplicate of an open policy, so SK-021 stops neither a second identical entry nor
      the close of what is open; and no open policy ever counts towards assignment. */
  lemma StrikesAreNotSeen(host: Host, ps: seq<Policy>, r: Reading, p: Proposal, l: KernelLimits)
    requires p.shortStrike.V() != 0.0
    ensures Sk021(host, p, ContextOf(ps, r), l).passed
    ensures ContextOf(ps, r).TotalAssignmentCost() == 0.0
  {
    ShownWithoutStrikes(ps, 0, r.today);
    var c := ContextOf(ps, r);
    forall i | 0 <= i < |c.openPolicies| ensures !Identical(c.openPolicies[i], p) {
      assert c.openPolicies[i] in c.openPolicies;
    }
  }

  // ----- whole amounts ------------------------------------------------------------

  lemma WholeIs(x: real, k: int)
    requires x == k as real
    ensures IsWhole(x) && x.Floor == k
  {
  }

  lemma WholeSum(x: real, y: real)
    requires IsWhole(x) && IsWhole(y)
    ensures IsWhole(x + y) && IsWhole(x - y)
  {
    var a, b := x.Floor, y.Floor;
    assert x + y == (a + b) as real && x - y == (a - b) as real;
    WholeIs(x + y, a + b);
    WholeIs(x - y, a - b);
  }

  lemma GridMultiple(x: real, y: real, n: int, product: real)
    requires IsWhole(y) && product == y * n as real && 10000.0 * x == product
    ensures TenThousandths(x)
  {
    RealProduct(y.Floor, n);
    WholeIs(product, y.Floor * n);
  }

  const MOST_CENTS: real := 1_000_000_000_000_000_000_000_000.0

  /** An equity in whole cents, below a fixed bound of 10^22 dollars. */
  predicate Countable(equity: real) {
    Hundredths(equity) && 100.0 * equity < MOST_CENTS
  }

  lemma QuotientTimes(n: int, d: int, k: nat)
    requires d > 0 && 1 <= k <= (if n <= 0 then 0 else n / d)
    ensures k * d <= n
  {
    QuotientBounds(n, d);
    MulLe(k, n / d, d);
  }

  lemma GridProduct(k: nat, d: int, cost: real)
    requires cost == d as real * 0.0001
    ensures k as real * cost == (k * d) as real * 0.0001
  {
    RealProduct(k, d);
    assert k as real * (d as real * 0.0001) == (k as real * d as real) * 0.0001;
  }

  /** As many contracts as the division permits never cost more than the room. */
  lemma FitsRoom(room: real, cost: real, k: nat)
    requires TenThousandths(room) && TenThousandths(cost) && cost > 0.0 && 10000.0 * room < 2.0 * TEN27 as real
    requires 1 <= k <= FloorDiv(room, cost)
    ensures k as real * cost <= room
  {
    var n, d := (10000.0 * room).Floor, (10000.0 * cost).Floor;
    assert room == n as real * 0.0001 && cost == d as real * 0.0001;
    FloorDivOnGrid(room, cost, n, d, 0.0001);
    QuotientTimes(n, d, k);
    GridProduct(k, d, cost);
  }

  // ----- the bounds ---------------------------------------------------------------

  /** The desk's promises at a net asset value. */
  ghost predicate Solvent(ps: seq<Policy>, nav: real) {
    && Sum(ps, Reserved()) <= 0.60 * nav
    && Sum(ps, ExposedLoss()) <= 0.15 * nav
    && (forall u :: Sum(ps, ReservedFor(u)) <= 0.15 * nav)
    && (forall row :: row in ps && row.Exposed() ==> row.maxLoss <= 0.03 * nav)
    && Sum(ps, One()) <= 8.0
  }

  /** What is on the book was written for whole contracts of a loss in whole cents. */
  ghost predicate WellKept(ps: seq<Policy>) {
    forall row :: row in ps ==> row.maxLoss >= 0.0 && row.capitalReserve == row.maxLoss && TenThousandths(row.maxLoss)
  }

  lemma {:induction false} SumsOnGrid(ps: seq<Policy>, value: Policy -> real)
    requires forall row :: row in ps ==> TenThousandths(value(row))
    ensures TenThousandths(Sum(ps, value))
  {
    if ps == [] {
      assert Sum(ps, value) == 0.0;
    } else {
      SumsOnGrid(ps[1..], value);
      WholeSum(10000.0 * value(ps[0]), 10000.0 * Sum(ps[1..], value));
      assert 10000.0 * Sum(ps, value) == 10000.0 * value(ps[0]) + 10000.0 * Sum(ps[1..], value);
    }
  }

  lemma {:induction false} SumsNonNegative(ps: seq<Policy>, value: Policy -> real)
    requires forall row :: row in ps ==> value(row) >= 0.0
    ensures Sum(ps, value) >= 0.0
  {
    if ps != [] {
      SumsNonNegative(ps[1..], value);
    }
  }

  // ----- one entry ------------------------------------------------------------------

  /** The default limits, with any reductions that only reduce. */
  function LimitsWith(soft: real, calibration: real): KernelLimits {
    DEFAULT_LIMITS.(softFactor := soft, calibrationMultiplier := calibration)
  }

  /** The context an entry is judged in: the book's, and this cycle's candidates. */
  function EntryContext(ps: seq<Policy>, r: Reading, candidates: set<string>): KernelContext {
    ContextOf(ps, r).(suppliedCandidateIds := candidates)
  }

  /** What the verdict on an entry was made from. */
  datatype Entry = Entry(p: Proposal, requested: int, reading: Reading, candidates: set<string>, nonce: string,
                         result: Engine.Status, year: nat)

  function VerdictOn(host: Host, secret: string, l: KernelLimits, ps: seq<Policy>, e: Entry): KernelVerdict {
    Evaluate(host, Table(host), e.p, e.requested, EntryContext(ps, e.reading, e.candidates), secret, l, e.nonce)
  }

  /** An approval leaves room for every contract, in each of the four capital measures. */
  ghost predicate Fits(ps: seq<Policy>, u: string, total: real, nav: real) {
    && total > 0.0
    && total <= 0.03 * nav
    && Sum(ps, ExposedLoss()) + total <= 0.15 * nav
    && Sum(ps, ReservedFor(u)) + total <= 0.15 * nav
    && Sum(ps, Reserved()) + total <= 0.60 * nav
    && Sum(ps, One()) + 1.0 <= 8.0
  }

  lemma Shared(nav: real, pct: real, share: int, product: real)
    requires 100.0 * pct == share as real && product == (100.0 * nav) * share as real
    ensures 10000.0 * (nav * pct) == product
  {
    assert (100.0 * nav) * (100.0 * pct) == 10000.0 * (nav * pct);
  }

  lemma BelowBound(x: real, share: int)
    requires x < MOST_CENTS && 0 <= share <= 60
    ensures x * share as real < 2.0 * TEN27 as real
  {
    RealLe(x, MOST_CENTS, share as real);
  }

  lemma ShareOfCents(nav: real, pct: real, share: int)
    requires Countable(nav) && 100.0 * pct == share as real && 0 <= share <= 60
    ensures TenThousandths(nav * pct) && 10000.0 * (nav * pct) < 2.0 * TEN27 as real
  {
    BelowBound(100.0 * nav, share);
    Shared(nav, pct, share, (100.0 * nav) * share as real);
    GridMultiple(nav * pct, 100.0 * nav, share, (100.0 * nav) * share as real);
  }

  lemma UsedOnGrid(ps: seq<Policy>, u: string)
    requires WellKept(ps)
    ensures TenThousandths(Sum(ps, ExposedLoss())) && Sum(ps, ExposedLoss()) >= 0.0
    ensures TenThousandths(Sum(ps, Reserved())) && Sum(ps, Reserved()) >= 0.0
    ensures TenThousandths(Sum(ps, ReservedFor(u))) && Sum(ps, ReservedFor(u)) >= 0.0
  {
    SumsOnGrid(ps, ExposedLoss());
    SumsOnGrid(ps, Reserved());
    SumsOnGrid(ps, ReservedFor(u));
    SumsNonNegative(ps, ExposedLoss());
    SumsNonNegative(ps, Reserved());
    SumsNonNegative(ps, ReservedFor(u));
  }

  /** The four capital rooms of the sizing, on a context rebuilt from the book. */
  ghost predicate WithinRooms(ps: seq<Policy>, nav: real, u: string, cost: real, n: nat) {
    && n <= FloorDiv(nav * 0.03, cost)
    && n <= FloorDiv(nav * 0.15 - Sum(ps, ExposedLoss()), cost)
    && n <= FloorDiv(nav * 0.15 - Sum(ps, ReservedFor(u)), cost)
    && n <= FloorDiv(nav * 0.60 - Sum(ps, Reserved()), cost)
  }

  lemma ConcentrationShare(nav: real)
    ensures (nav * 0.60) * 0.25 == nav * 0.15
  {
  }

  lemma SizingRooms(ps: seq<Policy>, r: Reading, candidates: set<string>, p: Proposal, soft: real, calibration: real,
                    n: nat)
    requires n <= ComputeSizing(p, EntryContext(ps, r, candidates), LimitsWith(soft, calibration)).Permitted()
    ensures WithinRooms(ps, r.equity, p.underlying, p.maxLoss.V(), n)
  {
    ShownSums(ps, 0, r.today, p.underlying);
    ConcentrationShare(r.equity);
  }

  /** What is left of a share of the equity, as an amount that can be divided exactly. */
  ghost predicate Divisible(room: real) {
    TenThousandths(room) && 10000.0 * room < 2.0 * TEN27 as real
  }

  lemma ShareLeft(nav: real, pct: real, share: int, used: real)
    requires Countable(nav) && 100.0 * pct == share as real && 0 <= share <= 60
    requires TenThousandths(used) && used >= 0.0
    ensures Divisible(nav * pct - used)
  {
    ShareOfCents(nav, pct, share);
    WholeSum(10000.0 * (nav * pct), 10000.0 * used);
    assert 10000.0 * (nav * pct - used) == 10000.0 * (nav * pct) - 10000.0 * used;
  }

  lemma RoomsDivide(ps: seq<Policy>, nav: real, u: string)
    requires WellKept(ps) && Countable(nav)
    ensures Divisible(nav * 0.03) && Divisible(nav * 0.15 - Sum(ps, ExposedLoss()))
    ensures Divisible(nav * 0.15 - Sum(ps, ReservedFor(u))) && Divisible(nav * 0.60 - Sum(ps, Reserved()))
  {
    UsedOnGrid(ps, u);
    ShareOfCents(nav, 0.03, 3);
    ShareLeft(nav, 0.15, 15, Sum(ps, ExposedLoss()));
    ShareLeft(nav, 0.15, 15, Sum(ps, ReservedFor(u)));
    ShareLeft(nav, 0.60, 60, Sum(ps, Reserved()));
  }

  /** The cost of so many contracts. */
  function Cost(each: real, n: nat): real {
    if n == 0 then 0.0 else each + Cost(each, n - 1)
  }

  lemma {:induction false} CostIsProduct(each: real, n: nat)
    ensures Cost(each, n) == n as real * each == each * n as real
  {
    if n > 0 {
      CostIsProduct(each, n - 1);
      assert n as real == (n - 1) as real + 1.0;
    }
  }

  lemma RoomFits(room: real, cost: real, n: nat)
    requires Divisible(room) && TenThousandths(cost) && cost > 0.0 && 1 <= n <= FloorDiv(room, cost)
    ensures Cost(cost, n) <= room
  {
    FitsRoom(room, cost, n);
    CostIsProduct(cost, n);
  }

  /** What an approval says, before any product is taken. */
  ghost predicate Roomy(ps: seq<Policy>, e: Entry, n: int) {
    && n >= 1 && e.p.maxLoss.V() > 0.0
    && WithinRooms(ps, e.reading.equity, e.p.underlying, e.p.maxLoss.V(), n)
    && |ShownFrom(ps, 0, e.reading.today)| + 1 <= 8
  }

  lemma OpenPermitted(p: Proposal, requested: int, c: KernelContext, l: KernelLimits)
    requires p.action.Open?
    ensures Permitted(p, requested, c, l) == ComputeSizing(p, c, l).Permitted()
  {
  }

  lemma ApprovalIsRoomy(host: Host, secret: string, soft: real, calibration: real, ps: seq<Policy>, e: Entry)
    requires 0.0 <= soft <= 1.0 && 0.0 <= calibration <= 1.0 && e.p.action.Open?
    ensures var v := VerdictOn(host, secret, LimitsWith(soft, calibration), ps, e);
      v.decision.Approve? ==> Roomy(ps, e, v.approvedContracts)
  {
    var l := LimitsWith(soft, calibration);
    var c := EntryContext(ps, e.reading, e.candidates);
    ApprovedWithin(host, Table(host), e.p, e.requested, c, secret, l, e.nonce);
    ApprovesExactly(host, Table(host), e.p, e.requested, c, secret, l, e.nonce);
    TableMeaning(host, e.p, c, l);
    OpenPermitted(e.p, e.requested, c, l);
    var v := VerdictOn(host, secret, l, ps, e);
    if v.decision.Approve? {
      SizingRooms(ps, e.reading, e.candidates, e.p, soft, calibration, v.approvedContracts);
    }
  }

  lemma RoomsAndCountFit(ps: seq<Policy>, nav: real, u: string, cost: real, n: nat, today: int)
    requires WellKept(ps) && Countable(nav) && TenThousandths(cost) && cost > 0.0 && n >= 1
    requires WithinRooms(ps, nav, u, cost, n) && |ShownFrom(ps, 0, today)| + 1 <= 8
    ensures Fits(ps, u, Cost(cost, n), nav)
  {
    RoomsDivide(ps, nav, u);
    RoomFits(nav * 0.03, cost, n);
    RoomFits(nav * 0.15 - Sum(ps, ExposedLoss()), cost, n);
    RoomFits(nav * 0.15 - Sum(ps, ReservedFor(u)), cost, n);
    RoomFits(nav * 0.60 - Sum(ps, Reserved()), cost, n);
    CountFits(ps, today);
    CostIsPositive(cost, n);
  }

  lemma CostIsPositive(cost: real, n: nat)
    requires cost > 0.0 && n >= 1
    ensures Cost(cost, n) > 0.0
  {
    CostIsProduct(cost, n);
    RealLt(0.0, n as real, cost);
  }

  /** Each rule tests one contract; the size that is approved keeps every bound. */
  lemma ApprovalFits(host: Host, secret: string, soft: real, calibration: real, ps: seq<Policy>, e: Entry,
                     v: KernelVerdict)
    requires 0.0 <= soft <= 1.0 && 0.0 <= calibration <= 1.0
    requires WellKept(ps) && Countable(e.reading.equity)
    requires e.p.action.Open? && TenThousandths(e.p.maxLoss.V())
    requires v == VerdictOn(host, secret, LimitsWith(soft, calibration), ps, e) && v.decision.Approve?
    ensures v.approvedContracts >= 1
    ensures Fits(ps, e.p.underlying, Cost(e.p.maxLoss.V(), v.approvedContracts), e.reading.equity)
  {
    ApprovalIsRoomy(host, secret, soft, calibration, ps, e);
    RoomyFits(ps, e, v.approvedContracts);
  }

  lemma RoomyFits(ps: seq<Policy>, e: Entry, n: int)
    requires Roomy(ps, e, n) && WellKept(ps) && Countable(e.reading.equity) && TenThousandths(e.p.maxLoss.V())
    ensures Fits(ps, e.p.underlying, Cost(e.p.maxLoss.V(), n), e.reading.equity)
  {
    RoomsAndCountFit(ps, e.reading.equity, e.p.underlying, e.p.maxLoss.V(), n, e.reading.today);
  }

  lemma CountFits(ps: seq<Policy>, today: int)
    requires |ShownFrom(ps, 0, today)| + 1 <= 8
    ensures Sum(ps, One()) + 1.0 <= 8.0
  {
    ShownSums(ps, 0, today, "");
  }

  // ----- runs -------------------------------------------------------------------------

  /** A run: entry cycles, whatever their orders come to, settlements, and exits begun. */
  datatype Move =
    | Enter(entry: Entry)
    | SettleOne(id: nat, at: int, debit: real, realized: real, reason: string)
    | Exit(id: nat)

  function EventOf(host: Host, secret: string, l: KernelLimits, t: Tables, m: Move): Option<Book.Event> {
    match m
    case Enter(e) =>
      var v := VerdictOn(host, secret, l, t.policies, e);
      if v.decision.Approve? then Some(Executed(e.p, e.result, v.approvedContracts, e.year)) else None
    case SettleOne(id, at, debit, realized, reason) => Some(SettleIt(id, at, debit, realized, reason))
    case Exit(id) => Some(BeginExit(id))
  }

  function Advance(host: Host, secret: string, l: KernelLimits, t: Tables, m: Move): Tables {
    match EventOf(host, secret, l, t, m) case Some(e) => Step(t, e) case None => t
  }

  function Play(host: Host, secret: string, l: KernelLimits, moves: seq<Move>): Tables {
    if moves == [] then EMPTY
    else Advance(host, secret, l, Play(host, secret, l, moves[..|moves| - 1]), moves[|moves| - 1])
  }

  /** Entries of open proposals priced in cents, judged at an equity in cents that never
      exceeds `nav`. */
  ghost predicate Allowed(m: Move, nav: real) {
    m.Enter? ==>
      && m.entry.p.action.Open? && TenThousandths(m.entry.p.maxLoss.V())
      && Countable(m.entry.reading.equity) && m.entry.reading.equity <= nav
  }

  ghost predicate Bounded(t: Tables, nav: real) {
    Solvent(t.policies, nav) && WellKept(t.policies) && Paired(t)
  }

  lemma OnGridTimes(cost: real, n: int)
    requires TenThousandths(cost)
    ensures TenThousandths(cost * n as real)
  {
    ScaledProduct(cost, n as real);
    GridMultiple(cost * n as real, 10000.0 * cost, n, (10000.0 * cost) * n as real);
  }

  lemma ScaledProduct(a: real, b: real)
    ensures (10000.0 * a) * b == 10000.0 * (a * b)
  {
  }

  /** The row an approved entry adds, in every measure. */
  lemma AddingStaysSolvent(ps: seq<Policy>, row: Policy, equity: real, nav: real)
    requires Solvent(ps, nav) && equity <= nav
    requires row.Exposed() ==> Fits(ps, row.underlying, row.maxLoss, equity) && row.capitalReserve == row.maxLoss
    ensures Solvent(ps + [row], nav)
  {
    SumAppend(ps, row, Reserved());
    SumAppend(ps, row, ExposedLoss());
    SumAppend(ps, row, One());
    forall u ensures Sum(ps + [row], ReservedFor(u)) <= 0.15 * nav {
      SumAppend(ps, row, ReservedFor(u));
    }
  }

  lemma EnterKeeps(host: Host, secret: string, soft: real, calibration: real, t: Tables, e: Entry, nav: real)
    requires 0.0 <= soft <= 1.0 && 0.0 <= calibration <= 1.0
    requires Bounded(t, nav) && Allowed(Enter(e), nav)
    ensures Bounded(Advance(host, secret, LimitsWith(soft, calibration), t, Enter(e)), nav)
  {
    var v := VerdictOn(host, secret, LimitsWith(soft, calibration), t.policies, e);
    if v.decision.Approve? {
      ApprovalFits(host, secret, soft, calibration, t.policies, e, v);
      ExecutedKeeps(t, e, v.approvedContracts, nav);
    }
  }

  lemma ExecutedKeeps(t: Tables, e: Entry, n: int, nav: real)
    requires Bounded(t, nav) && Allowed(Enter(e), nav) && n >= 1
    requires Fits(t.policies, e.p.underlying, Cost(e.p.maxLoss.V(), n), e.reading.equity)
    ensures Bounded(Step(t, Executed(e.p, e.result, n, e.year)), nav)
  {
    if e.result.FILLED? {
      FilledKeeps(t, PolicyRow(t.policies, e.p, n, Live, e.year), e.p.maxLoss.V(), n, e.reading.equity, nav);
    } else if e.result.PARTIAL? {
      FilledKeeps(t, PolicyRow(t.policies, e.p, n, LegRisk, e.year), e.p.maxLoss.V(), n, e.reading.equity, nav);
    }
  }

  lemma AddingKeeps(t: Tables, row: Policy, equity: real, nav: real)
    requires Bounded(t, nav) && Fits(t.policies, row.underlying, row.maxLoss, equity) && equity <= nav
    requires row.capitalReserve == row.maxLoss && TenThousandths(row.maxLoss) && !row.status.Settled?
    ensures Bounded(Added(t, row), nav)
  {
    AddingStaysSolvent(t.policies, row, equity, nav);
    RowKept(t.policies, row);
    assert Paired(Added(t, row));
  }

  lemma FilledKeeps(t: Tables, row: Policy, each: real, n: int, equity: real, nav: real)
    requires Bounded(t, nav) && TenThousandths(each) && equity <= nav && n >= 1
    requires row.maxLoss == each * n as real == row.capitalReserve && !row.status.Settled?
    requires Fits(t.policies, row.underlying, Cost(each, n), equity)
    ensures Bounded(Added(t, row), nav)
  {
    CostIsProduct(each, n);
    OnGridTimes(each, n);
    AddingKeeps(t, row, equity, nav);
  }

  lemma RowKept(ps: seq<Policy>, row: Policy)
    requires WellKept(ps) && row.maxLoss >= 0.0 && row.capitalReserve == row.maxLoss && TenThousandths(row.maxLoss)
    ensures WellKept(ps + [row])
  {
  }

  /** Changing one row so that it exposes no more keeps every bound. */
  lemma ReplacingStaysSolvent(ps: seq<Policy>, i: nat, row: Policy, nav: real)
    requires Solvent(ps, nav) && WellKept(ps) && i < |ps|
    requires row.maxLoss == ps[i].maxLoss && row.capitalReserve == ps[i].capitalReserve
    requires row.underlying == ps[i].underlying && (row.Exposed() ==> ps[i].Exposed())
    ensures Solvent(ps[i := row], nav) && WellKept(ps[i := row])
  {
    assert ps[i] in ps;
    SumUpdate(ps, i, row, Reserved());
    SumUpdate(ps, i, row, ExposedLoss());
    SumUpdate(ps, i, row, One());
    forall u ensures Sum(ps[i := row], ReservedFor(u)) <= 0.15 * nav {
      SumUpdate(ps, i, row, ReservedFor(u));
    }
    forall x | x in ps[i := row] ensures x == row || x in ps {
    }
  }

  lemma SettleKeeps(t: Tables, id: nat, at: int, debit: real, realized: real, reason: string, nav: real)
    requires Bounded(t, nav)
    ensures Bounded(AfterSettling(t, id, at, debit, realized, reason), nav)
  {
    if id < |t.policies| {
      ReplacingStaysSolvent(t.policies, id, SettledRow(t.policies[id], at, debit, realized, reason), nav);
      StepKeepsPaired(t, SettleIt(id, at, debit, realized, reason));
      assert AfterSettling(t, id, at, debit, realized, reason) == Step(t, SettleIt(id, at, debit, realized, reason));
    }
  }

  lemma ExitKeeps(t: Tables, id: nat, nav: real)
    requires Bounded(t, nav)
    ensures Bounded(AfterMarking(t, id), nav)
  {
    if id < |t.policies| && t.policies[id].status.Live? {
      ReplacingStaysSolvent(t.policies, id, t.policies[id].(status := Closing), nav);
      StepKeepsPaired(t, BeginExit(id));
      assert AfterMarking(t, id) == Step(t, BeginExit(id));
    }
  }

  lemma {:induction false} PlayKeeps(host: Host, secret: string, soft: real, calibration: real, moves: seq<Move>,
                                     nav: real)
    requires 0.0 <= soft <= 1.0 && 0.0 <= calibration <= 1.0 && nav >= 0.0
    requires forall m :: m in moves ==> Allowed(m, nav)
    ensures Bounded(Play(host, secret, LimitsWith(soft, calibration), moves), nav)
  {
    if moves != [] {
      var before, m := moves[..|moves| - 1], moves[|moves| - 1];
      PlayKeeps(host, secret, soft, calibration, before, nav);
      var t := Play(host, secret, LimitsWith(soft, calibration), before);
      match m
      case Enter(e) => EnterKeeps(host, secret, soft, calibration, t, e, nav);
      case SettleOne(id, at, debit, realized, reason) => SettleKeeps(t, id, at, debit, realized, reason, nav);
      case Exit(id) => ExitKeeps(t, id, nav);
    }
  }

  /** The firm's loss is bounded in advance. Over every run of entry cycles and settlements,
      with the context rebuilt from the book each time, whatever is proposed and however the
      reductions fall: the reserves of open policies stay within 60% of net asset value, their
      summed max loss within 15%, each underlying within 15%, each policy within 3%, and at
      most eight are open. `nav` is the highest equity any entry was judged at, or simply the
      equity, if it is fixed. All that is held is what is open and what is unlisted, so as long
      as no order ended partly filled, all that is held stays within 60% too. */
  lemma WholeRunSolvency(host: Host, secret: string, soft: real, calibration: real, moves: seq<Move>, nav: real)
    requires 0.0 <= soft <= 1.0 && 0.0 <= calibration <= 1.0 && nav >= 0.0
    requires forall m :: m in moves ==> Allowed(m, nav)
    ensures var t := Play(host, secret, LimitsWith(soft, calibration), moves);
      && Solvent(t.policies, nav)
      && Sum(t.reserves, Held()) == Sum(t.policies, Reserved()) + Sum(t.policies, UnlistedLoss())
      && ((forall row :: row in t.policies ==> !Unlisted(row)) ==> Sum(t.reserves, Held()) <= 0.60 * nav)
  {
    PlayKeeps(host, secret, soft, calibration, moves, nav);
    HeldWithin(Play(host, secret, LimitsWith(soft, calibration), moves), nav);
  }

  lemma HeldWithin(t: Tables, nav: real)
    requires Bounded(t, nav)
    ensures Sum(t.reserves, Held()) == Sum(t.policies, Reserved()) + Sum(t.policies, UnlistedLoss())
    ensures (forall row :: row in t.policies ==> !Unlisted(row)) ==> Sum(t.reserves, Held()) <= 0.60 * nav
  {
    HeldSplits(t.reserves, t.policies);
    SameLosses(t.policies);
    if forall row :: row in t.policies ==> !Unlisted(row) {
      SumAtLeastZero(t.policies, UnlistedLoss());
    }
  }

  lemma {:induction false} SameLosses(ps: seq<Policy>)
    requires WellKept(ps)
    ensures Sum(ps, ExposedLoss()) == Sum(ps, Reserved())
  {
    if ps != [] {
      SameLosses(ps[1..]);
    }
  }
}
