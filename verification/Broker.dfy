/** The broker the engine talks to, as an adversary. Any request may be lost or its
    reply may be; it may be refused; orders fill and die whenever the adversary says.
    What the broker does keep: it accepts one order per client order id, at the quantity
    of its payload; an order's identity never changes; a fill lies between nothing and
    that quantity and never shrinks; and a terminal order stays as it is. Two more things
    are taken on trust, which the port itself does not promise: a lookup that is answered
    is truthful and current, so that it finds nothing only if no order stands under the
    id; and a submit lands when it is made or never. A state says nothing of the fill: an
    order may be reported filled with nothing filled, or filled in full and still alive. */
module Broker {
  import opened Numerals
  import opened Decimals
  import opened Orders

  datatype OrderState = New | Accepted | PartiallyFilled | Filled | Canceled | Expired | Rejected | PendingCancel {
    predicate IsTerminal() { Filled? || Canceled? || Expired? || Rejected? }
  }

  datatype BrokerOrder = BrokerOrder(
    brokerOrderId: nat,
    clientOrderId: string,
    state: OrderState,
    filledQty: real,
    orderedQty: nat,
    payload: Payload,
    cancelRequested: bool)
  {
    predicate IsPartial() {
      state.IsTerminal() && filledQty > 0.0 && filledQty < orderedQty as real
    }
  }

  datatype Position = Position(symbol: string, qty: real)

  /** The broker's books, the monotone clock, and how often the adversary has moved. */
  datatype World = World(orders: seq<BrokerOrder>, clock: real, tick: nat)

  datatype SubmitFate = Lost | Refused | Processed(replyLost: bool)

  /** One move of the adversary: the time that passes, what every order's status
      becomes, and what happens to the request at hand. */
  datatype Move = Move(
    delay: real,
    status: BrokerOrder -> (OrderState, real),
    submit: SubmitFate,
    cancelArrives: bool,
    answers: bool,
    positions: seq<Position>,
    jitter: real)

  type Script = nat -> Move

  // ----- what the broker keeps ----------------------------------------------

  /** What is known of any order of the broker's, and no more. */
  predicate Sound(o: BrokerOrder) {
    && o.orderedQty >= 1 && 0.0 <= o.filledQty <= o.orderedQty as real
    && o.clientOrderId == o.payload.clientOrderId
    && o.orderedQty == QtyOf(o.payload)
  }

  /** `int(payload["qty"])`; zero when it is not a whole number. */
  function QtyOf(payload: Payload): nat {
    if AllDigits(payload.qty) then Value(payload.qty) else 0
  }

  /** The adversary's proposal, if a sound broker could report it. */
  function Advance(o: BrokerOrder, next: (OrderState, real)): (r: BrokerOrder)
    ensures Sound(o) ==> Sound(r)
    ensures Later(o, r)
  {
    var r := o.(state := next.0, filledQty := next.1);
    if o.state.IsTerminal() || next.1 < o.filledQty || !Sound(r) then o else r
  }

  /** The same order, at some later time. */
  predicate Later(o: BrokerOrder, r: BrokerOrder) {
    && r.brokerOrderId == o.brokerOrderId && r.clientOrderId == o.clientOrderId
    && r.orderedQty == o.orderedQty && r.payload == o.payload
    && r.filledQty >= o.filledQty
    && (o.state.IsTerminal() ==> r.state == o.state && r.filledQty == o.filledQty)
    && (o.cancelRequested ==> r.cancelRequested)
  }

  function AdvanceAll(orders: seq<BrokerOrder>, m: Move): (r: seq<BrokerOrder>)
    ensures |r| == |orders|
    ensures forall i :: 0 <= i < |orders| ==> r[i] == Advance(orders[i], m.status(orders[i]))
  {
    seq(|orders|, i requires 0 <= i < |orders| => Advance(orders[i], m.status(orders[i])))
  }

  function AtLeastZero(x: real): (r: real)
    ensures r >= 0.0 && r >= x
  {
    if x < 0.0 then 0.0 else x
  }

  /** Time passes: at least `seconds`, and the market with it. */
  function Pass(script: Script, w: World, seconds: real): World {
    var m := script(w.tick);
    World(AdvanceAll(w.orders, m), w.clock + AtLeastZero(seconds) + AtLeastZero(m.delay), w.tick + 1)
  }

  predicate HasOrder(w: World, clientOrderId: string) {
    exists i :: 0 <= i < |w.orders| && w.orders[i].clientOrderId == clientOrderId
  }

  function Find(orders: seq<BrokerOrder>, clientOrderId: string): (r: Option<BrokerOrder>)
    ensures r.Some? ==> r.value in orders && r.value.clientOrderId == clientOrderId
    ensures r.Some? <==> exists i :: 0 <= i < |orders| && orders[i].clientOrderId == clientOrderId
  {
    if orders == [] then None
    else if orders[0].clientOrderId == clientOrderId then Some(orders[0])
    else
      assert forall i :: 1 <= i < |orders| ==> orders[i] == orders[1..][i - 1];
      Find(orders[1..], clientOrderId)
  }

  // ----- the port -----------------------------------------------------------

  datatype SubmitReply = Acknowledged(order: BrokerOrder) | PermanentError | TransientError
  datatype LookupReply = Found(order: BrokerOrder) | Absent | LookupFault

  function FreshOrder(payload: Payload, id: nat): BrokerOrder {
    BrokerOrder(id, payload.clientOrderId, New, 0.0, QtyOf(payload), payload, false)
  }

  /** `submit_order`. A second order under the same client id is refused. */
  function Submit(script: Script, w: World, payload: Payload): (World, SubmitReply) {
    var m := script(w.tick);
    var w1 := Pass(script, w, 0.0);
    match m.submit
    case Lost => (w1, TransientError)
    case Refused => (w1, PermanentError)
    case Processed(replyLost) =>
      if QtyOf(payload) == 0 || HasOrder(w1, payload.clientOrderId) then
        (w1, if replyLost then TransientError else PermanentError)
      else
        var placed := FreshOrder(payload, |w1.orders|);
        var o := Advance(placed, m.status(placed));
        (w1.(orders := w1.orders + [o]), if replyLost then TransientError else Acknowledged(o))
  }

  /** `get_order_by_client_id` */
  function Lookup(script: Script, w: World, clientOrderId: string): (World, LookupReply) {
    var w1 := Pass(script, w, 0.0);
    if !script(w.tick).answers then (w1, LookupFault)
    else
      match Find(w1.orders, clientOrderId)
      case None => (w1, Absent)
      case Some(o) => (w1, Found(o))
  }

  function MarkCancel(orders: seq<BrokerOrder>, id: nat): (r: seq<BrokerOrder>)
    ensures |r| == |orders|
  {
    seq(|orders|, i requires 0 <= i < |orders| =>
      if orders[i].brokerOrderId == id then orders[i].(cancelRequested := true) else orders[i])
  }

  /** `cancel_order`: a request, not an outcome. False when the call raises. */
  function Cancel(script: Script, w: World, id: nat): (World, bool) {
    var m := script(w.tick);
    var w1 := Pass(script, w, 0.0);
    (if m.cancelArrives then w1.(orders := MarkCancel(w1.orders, id)) else w1, m.cancelArrives && m.answers)
  }

  /** `list_positions`; `None` when the call raises. */
  function ListPositions(script: Script, w: World): (World, Option<seq<Position>>) {
    var m := script(w.tick);
    (Pass(script, w, 0.0), if m.answers then Some(m.positions) else None)
  }

  /** The port as the engine holds it. */
  class BrokerLink {
    const script: Script
    var world: World

    constructor (script: Script, world: World)
      ensures this.script == script && this.world == world
    {
      this.script := script;
      this.world := world;
    }

    method SubmitOrder(payload: Payload) returns (reply: SubmitReply)
      modifies this
      ensures (world, reply) == Submit(script, old(world), payload)
    {
      var r := Submit(script, world, payload);
      world := r.0;
      reply := r.1;
    }

    method GetOrderByClientId(clientOrderId: string) returns (reply: LookupReply)
      modifies this
      ensures (world, reply) == Lookup(script, old(world), clientOrderId)
    {
      var r := Lookup(script, world, clientOrderId);
      world := r.0;
      reply := r.1;
    }

    method CancelOrder(id: nat) returns (ok: bool)
      modifies this
      ensures (world, ok) == Cancel(script, old(world), id)
    {
      var r := Cancel(script, world, id);
      world := r.0;
      ok := r.1;
    }

    method Positions() returns (positions: Option<seq<Position>>)
      modifies this
      ensures (world, positions) == ListPositions(script, old(world))
    {
      var r := ListPositions(script, world);
      world := r.0;
      positions := r.1;
    }

    method Sleep(seconds: real)
      modifies this
      ensures world == Pass(script, old(world), seconds)
    {
      world := Pass(script, world, seconds);
    }
  }

  // ----- how the books can change -------------------------------------------

  predicate SoundWorld(w: World) {
    && (forall i :: 0 <= i < |w.orders| ==> Sound(w.orders[i]))
    && (forall i, j :: 0 <= i < j < |w.orders| ==> w.orders[i].clientOrderId != w.orders[j].clientOrderId)
  }

  /** Every earlier order is still there, only later; at most one order was added, for
      this payload, and only if none stood under its id before. */
  ghost predicate Evolves(w: World, w': World, payload: Payload) {
    && w.clock <= w'.clock
    && |w.orders| <= |w'.orders| <= |w.orders| + 1
    && (forall i :: 0 <= i < |w.orders| ==> Later(w.orders[i], w'.orders[i]))
    && (|w'.orders| == |w.orders| + 1 ==>
          w'.orders[|w.orders|].payload == payload && !HasOrder(w, payload.clientOrderId))
  }

  lemma EvolvesTransitive(a: World, b: World, c: World, payload: Payload)
    requires SoundWorld(a) && SoundWorld(b) && SoundWorld(c)
    requires Evolves(a, b, payload) && Evolves(b, c, payload)
    ensures Evolves(a, c, payload)
  {
    if |b.orders| > |a.orders| {
      assert b.orders[|a.orders|].clientOrderId == payload.clientOrderId;
    }
    if HasOrder(a, payload.clientOrderId) {
      HasOrderKept(a, b, payload, payload.clientOrderId);
    }
  }

  lemma HasOrderKept(w: World, w': World, payload: Payload, id: string)
    requires Evolves(w, w', payload) && HasOrder(w, id)
    ensures HasOrder(w', id)
  {
    var i :| 0 <= i < |w.orders| && w.orders[i].clientOrderId == id;
    assert w'.orders[i].clientOrderId == id;
  }

  lemma PassEvolves(script: Script, w: World, seconds: real, payload: Payload)
    requires SoundWorld(w)
    ensures SoundWorld(Pass(script, w, seconds)) && Evolves(w, Pass(script, w, seconds), payload)
    ensures Pass(script, w, seconds).clock >= w.clock + seconds
    ensures |Pass(script, w, seconds).orders| == |w.orders|
  {
    var w1 := Pass(script, w, seconds);
    forall i | 0 <= i < |w.orders| ensures Later(w.orders[i], w1.orders[i]) && Sound(w1.orders[i]) {
    }
    forall i, j | 0 <= i < j < |w.orders| ensures w1.orders[i].clientOrderId != w1.orders[j].clientOrderId {
    }
  }

  lemma SubmitEvolves(script: Script, w: World, payload: Payload)
    requires SoundWorld(w)
    ensures var (w', reply) := Submit(script, w, payload);
      && SoundWorld(w') && Evolves(w, w', payload)
      && (reply.Acknowledged? ==> reply.order in w'.orders && reply.order.clientOrderId == payload.clientOrderId
                                  && reply.order.payload == payload && !HasOrder(w, payload.clientOrderId))
  {
    PassEvolves(script, w, 0.0, payload);
    var w1 := Pass(script, w, 0.0);
    if HasOrder(w, payload.clientOrderId) {
      HasOrderKept(w, w1, payload, payload.clientOrderId);
    }
    var (w', reply) := Submit(script, w, payload);
    if |w'.orders| > |w1.orders| {
      var o := w'.orders[|w1.orders|];
      assert Sound(FreshOrder(payload, |w1.orders|));
      assert forall i :: 0 <= i < |w1.orders| ==> w'.orders[i] == w1.orders[i];
    }
  }

  lemma LookupEvolves(script: Script, w: World, id: string, payload: Payload)
    requires SoundWorld(w)
    ensures var (w', reply) := Lookup(script, w, id);
      && SoundWorld(w') && Evolves(w, w', payload) && |w'.orders| == |w.orders|
      && (reply.Found? ==> reply.order in w'.orders && reply.order.clientOrderId == id)
      && (reply.Absent? ==> !HasOrder(w', id))
  {
    PassEvolves(script, w, 0.0, payload);
  }

  lemma CancelEvolves(script: Script, w: World, id: nat, payload: Payload)
    requires SoundWorld(w)
    ensures var (w', ok) := Cancel(script, w, id);
      && SoundWorld(w') && Evolves(w, w', payload) && |w'.orders| == |w.orders|
      && (ok ==> forall i :: 0 <= i < |w'.orders| && w'.orders[i].brokerOrderId == id ==> w'.orders[i].cancelRequested)
  {
    PassEvolves(script, w, 0.0, payload);
    var w1 := Pass(script, w, 0.0);
    var (w', ok) := Cancel(script, w, id);
    forall i | 0 <= i < |w.orders| ensures Later(w.orders[i], w'.orders[i]) && Sound(w'.orders[i])
      && w'.orders[i].clientOrderId == w1.orders[i].clientOrderId
    {
      assert Later(w.orders[i], w1.orders[i]);
    }
  }
}
