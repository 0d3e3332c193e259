/** The `mleg` payload: ratios in simplest form, opening and closing sides, limit
    prices, and our own check of the values before anything is sent. */
module Orders {
  import opened Numerals
  import opened Decimals
  import opened Division
  import opened Domain
  import opened Rules

  datatype OrderError = BadRatios | BadStep | CreditGone | NoContracts | Uncovered | WrongAction | NoTargetDebit
  datatype Built<+T> = Ok(value: T) | Fails(error: OrderError)

  // ----- ratios -------------------------------------------------------------

  function Gcd(a: nat, b: nat): (g: nat)
    decreases b
  {
    if b == 0 then a else Gcd(b, a % b)
  }

  /** The running divisor of `simplify_ratios`, from zero. */
  function GcdAll(ratios: seq<nat>): nat {
    if ratios == [] then 0 else Gcd(GcdAll(ratios[..|ratios| - 1]), ratios[|ratios| - 1])
  }

  predicate PositiveRatios(ratios: seq<int>) {
    ratios != [] && forall i :: 0 <= i < |ratios| ==> ratios[i] >= 1
  }

  ghost predicate Divides(d: int, a: int) {
    exists k: int :: Times(d, k) == a
  }

  function Times(a: int, b: int): int { a * b }

  lemma DividesSum(d: int, a: int, b: int, q: int)
    requires Divides(d, a) && Divides(d, b)
    ensures Divides(d, a + q * b)
  {
    var k :| Times(d, k) == a;
    var m :| Times(d, m) == b;
    assert Times(d, k + q * m) == a + q * b by {
      assert d * (k + q * m) == d * k + q * (d * m);
    }
  }

  lemma {:induction false} GcdDivides(a: nat, b: nat)
    ensures Divides(Gcd(a, b), a) && Divides(Gcd(a, b), b)
    decreases b
  {
    if b == 0 {
      assert Times(a, 1) == a && Times(a, 0) == 0;
    } else {
      GcdDivides(b, a % b);
      DividesSum(Gcd(b, a % b), a % b, b, a / b);
      assert a % b + (a / b) * b == a;
    }
  }

  lemma {:induction false} GcdGreatest(d: nat, a: nat, b: nat)
    requires Divides(d, a) && Divides(d, b)
    ensures Divides(d, Gcd(a, b))
    decreases b
  {
    if b > 0 {
      DividesSum(d, a, b, -(a / b));
      assert a + -(a / b) * b == a % b;
      GcdGreatest(d, b, a % b);
    }
  }

  lemma DividesTransitive(d: int, e: int, a: int)
    requires Divides(d, e) && Divides(e, a)
    ensures Divides(d, a)
  {
    var k :| Times(d, k) == e;
    var m :| Times(e, m) == a;
    assert Times(d, k * m) == a by { assert d * (k * m) == (d * k) * m; }
  }

  lemma {:induction false} GcdAllDivides(ratios: seq<nat>, i: nat)
    requires i < |ratios|
    ensures Divides(GcdAll(ratios), ratios[i])
  {
    var before := ratios[..|ratios| - 1];
    GcdDivides(GcdAll(before), ratios[|ratios| - 1]);
    if i < |ratios| - 1 {
      GcdAllDivides(before, i);
      DividesTransitive(GcdAll(ratios), GcdAll(before), ratios[i]);
    }
  }

  lemma {:induction false} GcdAllGreatest(d: nat, ratios: seq<nat>)
    requires forall i :: 0 <= i < |ratios| ==> Divides(d, ratios[i])
    ensures Divides(d, GcdAll(ratios))
  {
    if ratios == [] {
      assert Times(d, 0) == 0;
    } else {
      var before := ratios[..|ratios| - 1];
      forall i | 0 <= i < |before| ensures Divides(d, before[i]) { assert before[i] == ratios[i]; }
      GcdAllGreatest(d, before);
      GcdGreatest(d, GcdAll(before), ratios[|ratios| - 1]);
    }
  }

  lemma DivisorPositive(d: nat, a: nat)
    requires Divides(d, a) && a > 0
    ensures d > 0
  {
    var k :| Times(d, k) == a;
    if d == 0 {
      assert false;
    }
  }

  lemma GcdAllPositive(ratios: seq<nat>)
    requires PositiveRatios(ratios)
    ensures GcdAll(ratios) > 0
  {
    GcdAllDivides(ratios, 0);
    DivisorPositive(GcdAll(ratios), ratios[0]);
  }

  /** `simplify_ratios` */
  function SimplifyRatios(ratios: seq<int>): (r: Built<seq<nat>>)
    ensures r.Ok? <==> PositiveRatios(ratios)
    ensures r.Ok? ==> |r.value| == |ratios|
  {
    if !PositiveRatios(ratios) then Fails(BadRatios)
    else
      GcdAllPositive(ratios);
      Ok(seq(|ratios|, i requires 0 <= i < |ratios| => ratios[i] / GcdAll(ratios)))
  }

  method SimplifyRatiosLoop(ratios: seq<int>) returns (r: Built<seq<nat>>)
    ensures r == SimplifyRatios(ratios)
  {
    if !PositiveRatios(ratios) {
      return Fails(BadRatios);
    }
    var divisor: nat := 0;
    for i := 0 to |ratios|
      invariant divisor == GcdAll(ratios[..i])
    {
      assert ratios[..i + 1][..i] == ratios[..i];
      divisor := Gcd(divisor, ratios[i]);
    }
    assert ratios[..|ratios|] == ratios;
    GcdAllPositive(ratios);
    r := Ok(seq(|ratios|, i requires 0 <= i < |ratios| => ratios[i] / divisor));
  }

  lemma ExactQuotient(d: nat, a: nat)
    requires d > 0 && Divides(d, a)
    ensures (a / d) * d == a
  {
    var k :| Times(d, k) == a;
    assert a == d * k;
    QuotientOfProduct(d, k);
  }

  lemma QuotientOfProduct(d: nat, k: int)
    requires d > 0
    ensures (d * k) / d == k
  {
    UniqueQuotient(d, (d * k) / d, (d * k) % d, k);
  }

  lemma UniqueQuotient(d: nat, q: int, r: int, k: int)
    requires 0 <= r < d && d * q + r == d * k
    ensures q == k
  {
    assert (k - q) * d == r;
    if k > q {
      MulLe(1, k - q, d);
      assert false;
    }
    if k < q {
      MulLe(k - q, -1, d);
      assert false;
    }
  }

  /** The simplified ratios multiply back to the originals by one common factor. */
  lemma SimplifiedIsProportional(ratios: seq<int>)
    requires PositiveRatios(ratios)
    ensures var s := SimplifyRatios(ratios).value;
      GcdAll(ratios) > 0 && PositiveRatios(s)
      && forall i :: 0 <= i < |ratios| ==> s[i] * GcdAll(ratios) == ratios[i]
  {
    GcdAllPositive(ratios);
    var s := SimplifyRatios(ratios).value;
    forall i | 0 <= i < |ratios| ensures s[i] * GcdAll(ratios) == ratios[i] && s[i] >= 1 {
      GcdAllDivides(ratios, i);
      ExactQuotient(GcdAll(ratios), ratios[i]);
    }
  }

  lemma UnitProduct(a: int, g: int)
    requires g > 0 && a * g == g
    ensures a == 1
  {
    if a <= 0 {
      MulLe(a, 0, g);
      assert false;
    }
    if a >= 2 {
      MulLe(2, a, g);
      assert false;
    }
  }

  lemma UnitFactor(h: nat, g: nat, k: int)
    requires g > 0 && Times(h * g, k) == g
    ensures h == 1
  {
    assert (h * g) * k == (h * k) * g;
    UnitProduct(h * k, g);
    if h >= 2 {
      if k >= 1 { MulLe(2, h, k); } else { MulLe(k, 0, h); }
      assert false;
    }
  }

  lemma FactorDivides(h: nat, g: nat, part: int, whole: int)
    requires Divides(h, part) && part * g == whole
    ensures Divides(h * g, whole)
  {
    var k :| Times(h, k) == part;
    assert (h * g) * k == (h * k) * g;
    assert Times(h * g, k) == whole;
  }

  /** No factor is left: the simplified ratios have greatest common divisor one. */
  lemma SimplifiedIsCoprime(ratios: seq<int>)
    requires PositiveRatios(ratios)
    ensures GcdAll(SimplifyRatios(ratios).value) == 1
  {
    SimplifiedIsProportional(ratios);
    CoprimeParts(SimplifyRatios(ratios).value, ratios, GcdAll(ratios));
  }

  lemma CoprimeParts(s: seq<nat>, ratios: seq<nat>, g: nat)
    requires |s| == |ratios| && g == GcdAll(ratios) && g > 0
    requires forall i :: 0 <= i < |s| ==> s[i] * g == ratios[i]
    ensures GcdAll(s) == 1
  {
    var h := GcdAll(s);
    forall i | 0 <= i < |ratios| ensures Divides(h * g, ratios[i]) {
      GcdAllDivides(s, i);
      FactorDivides(h, g, s[i], ratios[i]);
    }
    GcdAllGreatest(h * g, ratios);
    var k :| Times(h * g, k) == g;
    UnitFactor(h, g, k);
  }

  /** Simplifying twice changes nothing more. */
  lemma SimplifyIdempotent(ratios: seq<int>)
    requires PositiveRatios(ratios)
    ensures SimplifyRatios(SimplifyRatios(ratios).value) == SimplifyRatios(ratios)
  {
    SimplifiedIsProportional(ratios);
    SimplifiedIsCoprime(ratios);
    var s := SimplifyRatios(ratios).value;
    assert SimplifyRatios(s).value == s;
  }

  // ----- limit prices -------------------------------------------------------

  const MAX_PRICE_STEPS := 3

  /** `entry_limit_price`: the modelled credit, walked down a cent a step. */
  function EntryLimitPrice(netCredit: real, step: int): Built<Decimal> {
    if step < 0 || step > MAX_PRICE_STEPS then Fails(BadStep)
    else
      var price := netCredit - 0.01 * step as real;
      if price <= 0.0 then Fails(CreditGone) else Ok(Quantise(price, Cents, Down))
  }

  /** `exit_limit_price`: the target debit, walked up a cent a step. */
  function ExitLimitPrice(targetDebit: real, step: int): Built<Decimal> {
    if step < 0 || step > MAX_PRICE_STEPS then Fails(BadStep)
    else Ok(Quantise(targetDebit + 0.01 * step as real, Cents, Up))
  }

  // ----- the payload --------------------------------------------------------

  datatype LegPayload = LegPayload(symbol: string, side: string, ratioQty: string, positionIntent: string)

  datatype Payload = Payload(
    orderClass: string,
    qty: string,
    kind: string,
    timeInForce: string,
    limitPrice: string,
    legs: seq<LegPayload>,
    clientOrderId: string)

  function ClosingSide(side: Side): Side {
    if side.Sell? then Buy else Sell
  }

  function LowerSide(side: Side): string { if side.Buy? then "buy" else "sell" }

  function Intent(action: Action, side: Side): string {
    match (action, side)
    case (Open, Sell) => "sell_to_open"
    case (Open, Buy) => "buy_to_open"
    case (Close, Sell) => "sell_to_close"
    case (Close, Buy) => "buy_to_close"
  }

  function SideFor(action: Action, side: Side): Side {
    if action.Close? then ClosingSide(side) else side
  }

  function Ratios(legs: seq<Leg>): (r: seq<int>)
    ensures |r| == |legs|
  {
    seq(|legs|, i requires 0 <= i < |legs| => legs[i].ratioQty)
  }

  function OneLeg(leg: Leg, ratio: nat, action: Action): LegPayload {
    var side := SideFor(action, leg.side);
    LegPayload(leg.symbol, LowerSide(side), Digits(ratio), Intent(action, side))
  }

  /** `_legs_payload` */
  function LegsPayload(legs: seq<Leg>, action: Action): (r: Built<seq<LegPayload>>)
    ensures r.Ok? ==> |r.value| == |legs|
  {
    match SimplifyRatios(Ratios(legs))
    case Fails(e) => Fails(e)
    case Ok(ratios) => Ok(seq(|legs|, i requires 0 <= i < |legs| => OneLeg(legs[i], ratios[i], action)))
  }

  method LegsPayloadLoop(legs: seq<Leg>, action: Action) returns (r: Built<seq<LegPayload>>)
    ensures r == LegsPayload(legs, action)
    ensures r.Ok? ==> TradesAs(legs, action, r.value)
  {
    var ratios := SimplifyRatiosLoop(Ratios(legs));
    if ratios.Fails? {
      return Fails(ratios.error);
    }
    var out: seq<LegPayload> := [];
    for i := 0 to |legs|
      invariant |out| == i
      invariant forall k :: 0 <= k < i ==> out[k] == OneLeg(legs[k], ratios.value[k], action)
    {
      out := out + [OneLeg(legs[i], ratios.value[i], action)];
    }
    assert out == LegsPayload(legs, action).value;
    PayloadTrades(legs, action);
    r := Ok(out);
  }

  /** `_build` */
  function Build(host: Host, p: Proposal, action: Action, contracts: int, limitPrice: Decimal): Built<Payload> {
    if contracts < 1 then Fails(NoContracts)
    else
      match LegsPayload(p.legs, action)
      case Fails(e) => Fails(e)
      case Ok(legs) =>
        if |legs| < 2 then Fails(Uncovered)
        else Ok(Payload("mleg", Digits(contracts), "limit", "day", Text(limitPrice), legs,
                        ClientOrderIdFor(ProposalHash(host, p))))
  }

  /** `build_entry_order` */
  function BuildEntryOrder(host: Host, p: Proposal, contracts: int, step: int): Built<Payload> {
    if !p.action.Open? then Fails(WrongAction)
    else
      match EntryLimitPrice(p.netCredit.V(), step)
      case Fails(e) => Fails(e)
      case Ok(price) => Build(host, p, Open, contracts, price)
  }

  /** `build_exit_order` */
  function BuildExitOrder(host: Host, p: Proposal, contracts: int, targetDebit: real, step: int): Built<Payload> {
    match ExitLimitPrice(targetDebit, step)
    case Fails(e) => Fails(e)
    case Ok(price) => Build(host, p, Close, contracts, price)
  }

  /** The order `execute` builds from a proposal: its entry, or its exit at a target debit. */
  function BuildOrder(host: Host, p: Proposal, contracts: int, targetDebit: Option<real>, step: int): Built<Payload> {
    if p.action.Close? then
      (match targetDebit
       case None => Fails(NoTargetDebit)
       case Some(t) => BuildExitOrder(host, p, contracts, t, step))
    else BuildEntryOrder(host, p, contracts, step)
  }

  /** Every order built is sized by the contracts it was given, named after its proposal, and
      trades each leg the way its action says. */
  lemma BuiltAsAuthorised(host: Host, p: Proposal, contracts: int, targetDebit: Option<real>, step: int)
    ensures var b := BuildOrder(host, p, contracts, targetDebit, step);
      b.Ok? ==>
        && contracts >= 1 && Value(b.value.qty) == contracts
        && b.value.clientOrderId == ClientOrderIdFor(ProposalHash(host, p))
        && LegsPayload(p.legs, p.action) == Ok(b.value.legs) && TradesAs(p.legs, p.action, b.value.legs)
  {
    if contracts >= 1 {
      ValueOfDigits(contracts);
    }
    if PositiveRatios(Ratios(p.legs)) {
      PayloadTrades(p.legs, p.action);
    }
  }

  /** The limit an entry is sent at: the credit walked down, cut to whole cents and never up. */
  lemma EntryLimitIs(netCredit: real, step: int)
    ensures var price := EntryLimitPrice(netCredit, step);
      var walked := netCredit - 0.01 * step as real;
      && (price.Ok? <==> 0 <= step <= 3 && walked > 0.0)
      && (price.Ok? ==> Hundredths(price.value.V()) && price.value.V() <= walked < price.value.V() + 0.01)
  {
    QuantiseValue(netCredit - 0.01 * step as real, Cents, Down);
  }

  /** The limit an exit is sent at: the debit walked up, raised to whole cents and never down. */
  lemma ExitLimitIs(targetDebit: real, step: int)
    requires targetDebit >= 0.0
    ensures var price := ExitLimitPrice(targetDebit, step);
      var walked := targetDebit + 0.01 * step as real;
      && (price.Ok? <==> 0 <= step <= 3)
      && (price.Ok? ==> Hundredths(price.value.V()) && price.value.V() - 0.01 < walked <= price.value.V())
  {
    QuantiseValue(targetDebit + 0.01 * step as real, Cents, Up);
  }

  /** What stands in the way of an order, read off its inputs: the entry has to have credit left
      and the exit a debit to pay, and either needs two legs, positive ratios and a contract. */
  predicate CanBeBuilt(p: Proposal, contracts: int, targetDebit: Option<real>, step: int) {
    && contracts >= 1 && |p.legs| >= 2 && (forall i :: 0 <= i < |p.legs| ==> p.legs[i].ratioQty >= 1)
    && 0 <= step <= 3
    && if p.action.Open? then p.netCredit.V() > 0.01 * step as real else targetDebit.Some?
  }

  lemma RatiosArePositive(legs: seq<Leg>)
    ensures PositiveRatios(Ratios(legs)) <==> legs != [] && forall i :: 0 <= i < |legs| ==> legs[i].ratioQty >= 1
  {
    assert forall i :: 0 <= i < |legs| ==> Ratios(legs)[i] == legs[i].ratioQty;
  }

  lemma BuildExactly(host: Host, p: Proposal, action: Action, contracts: int, price: Decimal)
    ensures var b := Build(host, p, action, contracts, price);
      && (b.Ok? <==> contracts >= 1 && |p.legs| >= 2 && forall i :: 0 <= i < |p.legs| ==> p.legs[i].ratioQty >= 1)
      && (b.Ok? ==>
            && b.value.orderClass == "mleg" && b.value.kind == "limit" && b.value.timeInForce == "day"
            && Parse(b.value.limitPrice) == Some(price))
  {
    RatiosArePositive(p.legs);
    ParseOfText(price);
  }

  /** The limit price of the order, before it is built. */
  function LimitOf(p: Proposal, targetDebit: Option<real>, step: int): Built<Decimal> {
    if p.action.Open? then EntryLimitPrice(p.netCredit.V(), step)
    else if targetDebit.Some? then ExitLimitPrice(targetDebit.value, step) else Fails(NoTargetDebit)
  }

  lemma BuildsAtLimit(host: Host, p: Proposal, contracts: int, targetDebit: Option<real>, step: int)
    ensures var limit := LimitOf(p, targetDebit, step);
      BuildOrder(host, p, contracts, targetDebit, step)
      == (if limit.Ok? then Build(host, p, p.action, contracts, limit.value) else Fails(limit.error))
  {
  }

  /** An order is built exactly when nothing stands in its way, and it is then a day order at a
      limit, whose text reads back as the price of its side. */
  lemma BuiltExactly(host: Host, p: Proposal, contracts: int, targetDebit: Option<real>, step: int)
    ensures var b, limit := BuildOrder(host, p, contracts, targetDebit, step), LimitOf(p, targetDebit, step);
      && (b.Ok? <==> CanBeBuilt(p, contracts, targetDebit, step))
      && (b.Ok? ==>
            && b.value.orderClass == "mleg" && b.value.kind == "limit" && b.value.timeInForce == "day"
            && limit.Ok? && Parse(b.value.limitPrice) == Some(limit.value))
  {
    EntryLimitIs(p.netCredit.V(), step);
    BuildsAtLimit(host, p, contracts, targetDebit, step);
    var limit := LimitOf(p, targetDebit, step);
    if limit.Ok? {
      BuildExactly(host, p, p.action, contracts, limit.value);
    }
  }

  // ----- entry and exit cancel ----------------------------------------------

  function SignOf(side: string): int { if side == "buy" then 1 else -1 }

  /** Contracts of one symbol that a filled order adds to the position. */
  function Net(legs: seq<LegPayload>, qty: nat, symbol: string): int
    requires forall i :: 0 <= i < |legs| ==> AllDigits(legs[i].ratioQty)
  {
    if legs == [] then 0
    else
      Net(legs[..|legs| - 1], qty, symbol) +
      (var last := legs[|legs| - 1];
       if last.symbol == symbol then SignOf(last.side) * (Value(last.ratioQty) * qty) else 0)
  }

  ghost predicate Mirror(a: seq<LegPayload>, b: seq<LegPayload>) {
    && |a| == |b|
    && forall i :: 0 <= i < |a| ==>
      a[i].symbol == b[i].symbol && a[i].ratioQty == b[i].ratioQty && AllDigits(a[i].ratioQty)
      && SignOf(a[i].side) == -SignOf(b[i].side)
  }

  lemma {:induction false} MirrorCancels(a: seq<LegPayload>, b: seq<LegPayload>, qty: nat, symbol: string)
    requires Mirror(a, b)
    ensures Net(a, qty, symbol) + Net(b, qty, symbol) == 0
  {
    if a != [] {
      MirrorCancels(a[..|a| - 1], b[..|b| - 1], qty, symbol);
      assert a[|a| - 1].symbol == b[|b| - 1].symbol;
    }
  }

  lemma ClosingMirrorsOpening(legs: seq<Leg>)
    requires PositiveRatios(Ratios(legs))
    ensures Mirror(LegsPayload(legs, Open).value, LegsPayload(legs, Close).value)
  {
  }

  /** An entry and an exit of the same legs and size leave every symbol flat. */
  lemma EntryAndExitCancel(legs: seq<Leg>, qty: nat, symbol: string)
    requires PositiveRatios(Ratios(legs))
    ensures var open, close := LegsPayload(legs, Open).value, LegsPayload(legs, Close).value;
      && Mirror(open, close) && Net(open, qty, symbol) + Net(close, qty, symbol) == 0
  {
    ClosingMirrorsOpening(legs);
    MirrorCancels(LegsPayload(legs, Open).value, LegsPayload(legs, Close).value, qty, symbol);
  }

  // ----- which way an order trades --------------------------------------------

  /** A leg in the broker's words: an opening order sells the sold leg and buys the bought one,
      a closing order does the opposite, and the intent repeats the side. */
  predicate TradesLeg(leg: Leg, action: Action, sent: LegPayload) {
    && sent.symbol == leg.symbol
    && (leg.side.Sell? == action.Open? ==> sent.side == "sell")
    && (leg.side.Sell? != action.Open? ==> sent.side == "buy")
    && sent.positionIntent == sent.side + (if action.Open? then "_to_open" else "_to_close")
    && AllDigits(sent.ratioQty) && Value(sent.ratioQty) >= 1
  }

  /** Every leg, in order and in the proportions of the proposal. */
  predicate TradesAs(legs: seq<Leg>, action: Action, sent: seq<LegPayload>) {
    && |sent| == |legs| && (forall i :: 0 <= i < |legs| ==> TradesLeg(legs[i], action, sent[i]))
    && forall i, j :: 0 <= i < |legs| && 0 <= j < |legs| ==>
      Value(sent[i].ratioQty) * legs[j].ratioQty == Value(sent[j].ratioQty) * legs[i].ratioQty
  }

  lemma CrossMultiplied(a: int, b: int, g: int, x: int, y: int)
    requires a * g == x && b * g == y
    ensures a * y == b * x
  {
    assert a * (b * g) == b * (a * g);
  }

  lemma OneLegTrades(leg: Leg, ratio: nat, action: Action)
    requires ratio >= 1
    ensures TradesLeg(leg, action, OneLeg(leg, ratio, action)) && Value(OneLeg(leg, ratio, action).ratioQty) == ratio
  {
    ValueOfDigits(ratio);
  }

  lemma PayloadLegs(legs: seq<Leg>, action: Action)
    requires PositiveRatios(Ratios(legs))
    ensures var sent, ratios := LegsPayload(legs, action).value, SimplifyRatios(Ratios(legs)).value;
      |sent| == |ratios| == |legs| && forall i :: 0 <= i < |legs| ==> sent[i] == OneLeg(legs[i], ratios[i], action)
  {
  }

  lemma InProportion(ratios: seq<int>, i: nat, j: nat)
    requires PositiveRatios(ratios) && i < |ratios| && j < |ratios|
    ensures var s := SimplifyRatios(ratios).value;
      s[i] >= 1 && s[i] * ratios[j] == s[j] * ratios[i]
  {
    SimplifiedIsProportional(ratios);
    var s := SimplifyRatios(ratios).value;
    CrossMultiplied(s[i], s[j], GcdAll(ratios), ratios[i], ratios[j]);
  }

  /** Every payload trades every leg the way its action says. */
  lemma PayloadTrades(legs: seq<Leg>, action: Action)
    requires PositiveRatios(Ratios(legs))
    ensures TradesAs(legs, action, LegsPayload(legs, action).value)
  {
    PayloadLegs(legs, action);
    var sent, ratios := LegsPayload(legs, action).value, SimplifyRatios(Ratios(legs)).value;
    forall i | 0 <= i < |legs|
      ensures TradesLeg(legs[i], action, sent[i]) && Value(sent[i].ratioQty) == ratios[i]
    {
      InProportion(Ratios(legs), i, i);
      OneLegTrades(legs[i], ratios[i], action);
    }
    forall i, j | 0 <= i < |legs| && 0 <= j < |legs|
      ensures Value(sent[i].ratioQty) * legs[j].ratioQty == Value(sent[j].ratioQty) * legs[i].ratioQty
    {
      InProportion(Ratios(legs), i, j);
    }
  }

  /** No symbol twice. */
  predicate SymbolsApart(legs: seq<LegPayload>) {
    forall i, j :: 0 <= i < j < |legs| ==> legs[i].symbol != legs[j].symbol
  }

  lemma {:induction false} NetElsewhere(legs: seq<LegPayload>, qty: nat, symbol: string)
    requires forall i :: 0 <= i < |legs| ==> AllDigits(legs[i].ratioQty) && legs[i].symbol != symbol
    ensures Net(legs, qty, symbol) == 0
  {
    if legs != [] {
      NetElsewhere(legs[..|legs| - 1], qty, symbol);
    }
  }

  lemma {:induction false} NetOfLeg(legs: seq<LegPayload>, qty: nat, i: nat)
    requires i < |legs| && SymbolsApart(legs) && forall k :: 0 <= k < |legs| ==> AllDigits(legs[k].ratioQty)
    ensures Net(legs, qty, legs[i].symbol) == SignOf(legs[i].side) * (Value(legs[i].ratioQty) * qty)
  {
    var n := |legs| - 1;
    if i < n {
      NetOfLeg(legs[..n], qty, i);
    } else {
      NetElsewhere(legs[..n], qty, legs[i].symbol);
    }
  }

  lemma SignedProduct(ratio: nat, qty: nat)
    requires ratio >= 1 && qty >= 1
    ensures ratio * qty >= 1
  {
    MulLe(1, ratio, qty);
  }

  /** What a filled order leaves on the account: so many contracts at the simplified ratio,
      short where an opening order sold and long where it bought, and the opposite for a
      closing order. */
  lemma OrderMovesPosition(legs: seq<Leg>, action: Action, qty: nat, i: nat)
    requires PositiveRatios(Ratios(legs)) && i < |legs| && qty >= 1
    requires forall j, k :: 0 <= j < k < |legs| ==> legs[j].symbol != legs[k].symbol
    ensures var sent := LegsPayload(legs, action).value;
      var moved := Net(sent, qty, legs[i].symbol);
      && (moved < 0 <==> (legs[i].side.Sell? == action.Open?))
      && moved == (if (legs[i].side.Sell? == action.Open?) then -1 else 1) * (Value(sent[i].ratioQty) * qty) != 0
  {
    PayloadTrades(legs, action);
    var sent := LegsPayload(legs, action).value;
    assert forall k :: 0 <= k < |legs| ==> TradesLeg(legs[k], action, sent[k]);
    NetOfLeg(sent, qty, i);
    SignedProduct(Value(sent[i].ratioQty), qty);
  }

  // ----- legs through the book ----------------------------------------------

  datatype PolicyLeg = PolicyLeg(optionSymbol: string, side: Side, ratioQty: int, strike: Decimal)

  /** What `CycleRecorder.policy` stores of each leg. */
  function StoreLegs(legs: seq<Leg>): (r: seq<PolicyLeg>)
    ensures |r| == |legs|
  {
    seq(|legs|, i requires 0 <= i < |legs| =>
      PolicyLeg(legs[i].symbol, legs[i].side, legs[i].ratioQty, legs[i].strike))
  }

  function FirstOn(legs: seq<PolicyLeg>, side: Side): Option<PolicyLeg> {
    if legs == [] then None else if legs[0].side == side then Some(legs[0]) else FirstOn(legs[1..], side)
  }

  function RebuiltLeg(leg: PolicyLeg, expiry: int): Leg {
    Leg(leg.optionSymbol, Put, leg.side, leg.strike, expiry, if leg.ratioQty == 0 then 1 else leg.ratioQty)
  }

  /** `rebuild_proposal`: the first short leg and the first long leg, in that order. */
  function RebuildLegs(legs: seq<PolicyLeg>, expiry: int): Option<seq<Leg>> {
    match (FirstOn(legs, Sell), FirstOn(legs, Buy))
    case (Some(short), Some(long)) => Some([RebuiltLeg(short, expiry), RebuiltLeg(long, expiry)])
    case _ => None
  }

  // ----- pre-flight values --------------------------------------------------

  datatype Problem = BadClass | BadType | BadTif | BadQty | TooFewLegs
                   | BadIntent(leg: nat) | BadSide(leg: nat) | NoSymbol(leg: nat)

  predicate IsSpace(c: char) {
    c == ' ' || c == '\t' || c == '\n' || c == '\r' || c as int == 11 || c as int == 12
  }

  /** `not s.strip()` */
  predicate Blank(s: string) {
    forall i :: 0 <= i < |s| ==> IsSpace(s[i])
  }

  predicate LegalIntent(s: string) {
    s == "buy_to_open" || s == "sell_to_open" || s == "buy_to_close" || s == "sell_to_close"
  }

  function LegProblems(leg: LegPayload, i: nat): seq<Problem> {
    (if LegalIntent(leg.positionIntent) then [] else [BadIntent(i)])
    + (if leg.side == "buy" || leg.side == "sell" then [] else [BadSide(i)])
    + (if Blank(leg.symbol) then [NoSymbol(i)] else [])
  }

  function AllLegProblems(legs: seq<LegPayload>): seq<Problem> {
    if legs == [] then []
    else AllLegProblems(legs[..|legs| - 1]) + LegProblems(legs[|legs| - 1], |legs| - 1)
  }

  function HeaderProblems(payload: Payload): seq<Problem> {
    (if payload.orderClass == "mleg" then [] else [BadClass])
    + (if payload.kind == "limit" then [] else [BadType])
    + (if payload.timeInForce == "day" || payload.timeInForce == "gtc" then [] else [BadTif])
    + (if payload.qty != [] && AllDigits(payload.qty) && Value(payload.qty) >= 1 then [] else [BadQty])
    + (if |payload.legs| >= 2 then [] else [TooFewLegs])
  }

  /** `check_values` */
  method CheckValues(payload: Payload) returns (problems: seq<Problem>)
    ensures problems == HeaderProblems(payload) + AllLegProblems(payload.legs)
  {
    problems := HeaderProblems(payload);
    for i := 0 to |payload.legs|
      invariant problems == HeaderProblems(payload) + AllLegProblems(payload.legs[..i])
    {
      assert payload.legs[..i + 1][..i] == payload.legs[..i];
      problems := problems + LegProblems(payload.legs[i], i);
    }
    assert payload.legs[..|payload.legs|] == payload.legs;
  }

  lemma {:induction false} NoLegProblems(legs: seq<LegPayload>)
    ensures AllLegProblems(legs) == [] <==>
      forall i :: 0 <= i < |legs| ==> LegProblems(legs[i], i) == []
  {
    if legs != [] {
      var before := legs[..|legs| - 1];
      NoLegProblems(before);
      assert forall i :: 0 <= i < |before| ==> before[i] == legs[i];
    }
  }

  /** Every order the builders produce passes our value check exactly when no leg's
      symbol is blank. */
  lemma BuiltOrdersAreLegal(host: Host, p: Proposal, contracts: int, targetDebit: Option<real>, step: int)
    ensures var b := BuildOrder(host, p, contracts, targetDebit, step);
      b.Ok? ==>
        (HeaderProblems(b.value) + AllLegProblems(b.value.legs) == [] <==>
         forall i :: 0 <= i < |p.legs| ==> !Blank(p.legs[i].symbol))
  {
    var b := BuildOrder(host, p, contracts, targetDebit, step);
    if b.Ok? {
      BuiltAsAuthorised(host, p, contracts, targetDebit, step);
      assert HeaderProblems(b.value) == [];
      NoLegProblems(b.value.legs);
      forall i | 0 <= i < |p.legs|
        ensures LegProblems(b.value.legs[i], i) == [] <==> !Blank(p.legs[i].symbol)
      {
        assert LegalIntent(b.value.legs[i].positionIntent);
      }
    }
  }

  lemma HeaderIsLegal(payload: Payload)
    ensures HeaderProblems(payload) == [] <==>
      && payload.orderClass == "mleg" && payload.kind == "limit"
      && (payload.timeInForce == "day" || payload.timeInForce == "gtc")
      && payload.qty != [] && AllDigits(payload.qty) && Value(payload.qty) >= 1 && |payload.legs| >= 2
  {
  }

  /** A leg the broker can read: bought or sold, to open or to close, in a symbol with something in it. */
  predicate Legible(leg: LegPayload) {
    && leg.side in {"buy", "sell"}
    && leg.positionIntent in {"buy_to_open", "sell_to_open", "buy_to_close", "sell_to_close"}
    && exists i :: 0 <= i < |leg.symbol| && leg.symbol[i] !in {' ', '\t', '\n', '\r', 11 as char, 12 as char}
  }

  lemma LegIsLegible(leg: LegPayload, i: nat)
    ensures LegProblems(leg, i) == [] <==> Legible(leg)
  {
    forall k | 0 <= k < |leg.symbol|
      ensures IsSpace(leg.symbol[k]) <==> leg.symbol[k] in {' ', '\t', '\n', '\r', 11 as char, 12 as char}
    {
      assert leg.symbol[k] == (leg.symbol[k] as int) as char;
    }
  }

  /** Our own check of a payload, exactly: it finds nothing wrong if and only if it is a limit order
      for the day or until cancelled, of one contract or more, in two legs or more, each legible. */
  lemma CheckedExactly(payload: Payload)
    ensures HeaderProblems(payload) + AllLegProblems(payload.legs) == [] <==>
      && payload.orderClass == "mleg" && payload.kind == "limit"
      && (payload.timeInForce == "day" || payload.timeInForce == "gtc")
      && payload.qty != [] && AllDigits(payload.qty) && Value(payload.qty) >= 1 && |payload.legs| >= 2
      && forall i :: 0 <= i < |payload.legs| ==> Legible(payload.legs[i])
  {
    HeaderIsLegal(payload);
    NoLegProblems(payload.legs);
    forall i | 0 <= i < |payload.legs| ensures LegProblems(payload.legs[i], i) == [] <==> Legible(payload.legs[i]) {
      LegIsLegible(payload.legs[i], i);
    }
  }
}
