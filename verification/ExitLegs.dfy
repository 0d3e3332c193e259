/** The legs of an exit: stored with the policy, read back when it is closed, and mirrored.
    The exit undoes the entry only if nothing was lost on the way. */
module ExitLegs {
  import opened Numerals
  import opened Decimals
  import opened Division
  import opened Domain
  import opened Orders

  predicate DistinctLegs(legs: seq<Leg>) {
    forall i, j :: 0 <= i < j < |legs| ==> legs[i].symbol != legs[j].symbol
  }

  /** The policy's exit can be built, and leaves every symbol of its entry flat. */
  ghost predicate CancelsThroughBook(legs: seq<Leg>, expiry: int, qty: nat)
    requires PositiveRatios(Ratios(legs))
  {
    var rebuilt := RebuildLegs(StoreLegs(legs), expiry);
    && rebuilt.Some? && PositiveRatios(Ratios(rebuilt.value))
    && forall symbol ::
      Net(LegsPayload(legs, Open).value, qty, symbol) + Net(LegsPayload(rebuilt.value, Close).value, qty, symbol) == 0
  }

  // ----- what one leg adds ------------------------------------------------------

  function Signed(leg: LegPayload, qty: nat): int
    requires AllDigits(leg.ratioQty)
  {
    SignOf(leg.side) * (Value(leg.ratioQty) * qty)
  }

  lemma {:induction false} NetAbsent(legs: seq<LegPayload>, qty: nat, symbol: string)
    requires forall i :: 0 <= i < |legs| ==> AllDigits(legs[i].ratioQty) && legs[i].symbol != symbol
    ensures Net(legs, qty, symbol) == 0
  {
    if legs != [] {
      NetAbsent(legs[..|legs| - 1], qty, symbol);
      assert legs[|legs| - 1].symbol != symbol;
    }
  }

  lemma {:induction false} NetAlone(legs: seq<LegPayload>, qty: nat, k: nat)
    requires k < |legs| && forall i :: 0 <= i < |legs| ==> AllDigits(legs[i].ratioQty)
    requires forall i, j :: 0 <= i < j < |legs| ==> legs[i].symbol != legs[j].symbol
    ensures Net(legs, qty, legs[k].symbol) == Signed(legs[k], qty)
  {
    var before := legs[..|legs| - 1];
    if k < |before| {
      NetAlone(before, qty, k);
    } else {
      NetAbsent(before, qty, legs[k].symbol);
    }
  }

  lemma PositiveProduct(a: nat, b: nat)
    requires a >= 1 && b >= 1
    ensures a * b >= 1
  {
    MulLe(1, a, b);
  }

  lemma PayloadOf(legs: seq<Leg>, action: Action)
    requires PositiveRatios(Ratios(legs))
    ensures var r, s := LegsPayload(legs, action), SimplifyRatios(Ratios(legs)).value;
      && r.Ok? && |r.value| == |legs| && PositiveRatios(s)
      && forall i :: 0 <= i < |legs| ==>
        && r.value[i] == OneLeg(legs[i], s[i], action)
        && AllDigits(r.value[i].ratioQty) && Value(r.value[i].ratioQty) == s[i]
  {
    SimplifiedIsProportional(Ratios(legs));
    var s := SimplifyRatios(Ratios(legs)).value;
    forall i | 0 <= i < |legs| ensures Value(Digits(s[i])) == s[i] {
      ValueOfDigits(s[i]);
    }
  }

  // ----- the legs that come back --------------------------------------------------

  lemma {:induction false} FirstIsThere(legs: seq<PolicyLeg>, side: Side) returns (i: nat)
    requires FirstOn(legs, side).Some?
    ensures i < |legs| && legs[i] == FirstOn(legs, side).value && legs[i].side == side
  {
    if legs[0].side == side {
      i := 0;
    } else {
      var k := FirstIsThere(legs[1..], side);
      i := k + 1;
    }
  }

  lemma {:induction false} FirstIsFound(legs: seq<PolicyLeg>, side: Side, k: nat)
    requires k < |legs| && legs[k].side == side
    ensures FirstOn(legs, side).Some?
  {
    if legs[0].side != side {
      FirstIsFound(legs[1..], side, k - 1);
    }
  }

  /** A leg that is not read back stays on, whole. */
  lemma DroppedLegStaysOpen(legs: seq<Leg>, expiry: int, qty: nat, k: nat)
    requires PositiveRatios(Ratios(legs)) && DistinctLegs(legs) && qty >= 1 && k < |legs|
    requires var rebuilt := RebuildLegs(StoreLegs(legs), expiry);
      && rebuilt.Some? && PositiveRatios(Ratios(rebuilt.value))
      && forall i :: 0 <= i < |rebuilt.value| ==> rebuilt.value[i].symbol != legs[k].symbol
    ensures var open := LegsPayload(legs, Open).value;
      var close := LegsPayload(RebuildLegs(StoreLegs(legs), expiry).value, Close).value;
      var left := Net(open, qty, legs[k].symbol) + Net(close, qty, legs[k].symbol);
      left == Signed(open[k], qty) && left != 0
  {
    var rebuilt := RebuildLegs(StoreLegs(legs), expiry).value;
    PayloadOf(legs, Open);
    PayloadOf(rebuilt, Close);
    var open, close := LegsPayload(legs, Open).value, LegsPayload(rebuilt, Close).value;
    NetAlone(open, qty, k);
    NetAbsent(close, qty, legs[k].symbol);
    PositiveProduct(Value(open[k].ratioQty), qty);
  }

  lemma RebuiltRatios(legs: seq<Leg>, expiry: int) returns (i: nat, j: nat)
    requires PositiveRatios(Ratios(legs)) && RebuildLegs(StoreLegs(legs), expiry).Some?
    ensures i < |legs| && j < |legs| && legs[i].side.Sell? && legs[j].side.Buy?
    ensures var rebuilt := RebuildLegs(StoreLegs(legs), expiry).value;
      && rebuilt[0].symbol == legs[i].symbol && rebuilt[1].symbol == legs[j].symbol
      && Ratios(rebuilt) == [legs[i].ratioQty, legs[j].ratioQty] && PositiveRatios(Ratios(rebuilt))
      && rebuilt[0].side.Sell? && rebuilt[1].side.Buy?
  {
    var stored := StoreLegs(legs);
    i := FirstIsThere(stored, Sell);
    j := FirstIsThere(stored, Buy);
    assert Ratios(legs)[i] >= 1 && Ratios(legs)[j] >= 1;
    assert Ratios(RebuildLegs(stored, expiry).value) == [legs[i].ratioQty, legs[j].ratioQty];
  }

  // ----- the order of two legs does not matter --------------------------------------

  lemma DividesBack(a: nat, b: nat)
    requires a > 0 && b > 0 && Divides(a, b) && Divides(b, a)
    ensures a == b
  {
    DividesBelow(a, b);
    DividesBelow(b, a);
  }

  lemma DividesBelow(a: nat, b: nat)
    requires a > 0 && b > 0 && Divides(a, b)
    ensures a <= b
  {
    var k :| Times(a, k) == b;
    if k <= 0 {
      MulLe(k, 0, a);
      assert false;
    }
    MulLe(1, k, a);
  }

  lemma PairGcd(a: nat, b: nat)
    requires a >= 1 && b >= 1
    ensures GcdAll([a, b]) == GcdAll([b, a])
  {
    var s, t := [a, b], [b, a];
    GcdAllPositive(s);
    GcdAllPositive(t);
    PairDivides(a, b);
    PairDivides(b, a);
    DividesBack(GcdAll(s), GcdAll(t));
  }

  lemma PairDivides(a: nat, b: nat)
    ensures Divides(GcdAll([a, b]), GcdAll([b, a]))
  {
    GcdAllDivides([a, b], 0);
    GcdAllDivides([a, b], 1);
    GcdAllGreatest(GcdAll([a, b]), [b, a]);
  }

  function Part(leg: LegPayload, qty: nat, symbol: string): int
    requires AllDigits(leg.ratioQty)
  {
    if leg.symbol == symbol then Signed(leg, qty) else 0
  }

  lemma NetAppend(legs: seq<LegPayload>, x: LegPayload, qty: nat, symbol: string)
    requires AllDigits(x.ratioQty) && forall i :: 0 <= i < |legs| ==> AllDigits(legs[i].ratioQty)
    ensures Net(legs + [x], qty, symbol) == Net(legs, qty, symbol) + Part(x, qty, symbol)
  {
    assert (legs + [x])[..|legs|] == legs;
  }

  lemma NetOfOne(a: LegPayload, qty: nat, symbol: string)
    requires AllDigits(a.ratioQty)
    ensures Net([a], qty, symbol) == Part(a, qty, symbol)
  {
    assert [a][..0] == [];
  }

  lemma NetOfPair(legs: seq<LegPayload>, qty: nat, symbol: string)
    requires |legs| == 2 && AllDigits(legs[0].ratioQty) && AllDigits(legs[1].ratioQty)
    ensures Net(legs, qty, symbol) == Part(legs[0], qty, symbol) + Part(legs[1], qty, symbol)
  {
    var before := [legs[0]];
    assert before + [legs[1]] == legs;
    NetAppend(before, legs[1], qty, symbol);
    NetOfOne(legs[0], qty, symbol);
  }

  predicate Undoes(a: LegPayload, b: LegPayload) {
    a.symbol == b.symbol && a.ratioQty == b.ratioQty && SignOf(a.side) == 0 - SignOf(b.side)
  }

  lemma UndoneParts(a: LegPayload, b: LegPayload, qty: nat, symbol: string)
    requires Undoes(a, b) && AllDigits(a.ratioQty)
    ensures Part(a, qty, symbol) + Part(b, qty, symbol) == 0
  {
  }

  lemma PairsCancel(open: seq<LegPayload>, close: seq<LegPayload>, qty: nat, symbol: string)
    requires |open| == |close| == 2
    requires forall k :: 0 <= k < 2 ==> AllDigits(open[k].ratioQty) && AllDigits(close[k].ratioQty)
    requires (Undoes(open[0], close[0]) && Undoes(open[1], close[1]))
          || (Undoes(open[0], close[1]) && Undoes(open[1], close[0]))
    ensures Net(open, qty, symbol) + Net(close, qty, symbol) == 0
  {
    NetOfPair(open, qty, symbol);
    NetOfPair(close, qty, symbol);
    if Undoes(open[0], close[0]) && Undoes(open[1], close[1]) {
      UndoneParts(open[0], close[0], qty, symbol);
      UndoneParts(open[1], close[1], qty, symbol);
    } else {
      UndoneParts(open[0], close[1], qty, symbol);
      UndoneParts(open[1], close[0], qty, symbol);
    }
  }

  /** Both legs come back, the sold one first, and the payloads of the exit undo the entry's. */
  lemma SpreadComesBack(legs: seq<Leg>, expiry: int) returns (i: nat, j: nat)
    requires PositiveRatios(Ratios(legs)) && |legs| == 2 && legs[0].side != legs[1].side
    ensures RebuildLegs(StoreLegs(legs), expiry).Some? && i < 2 && j < 2 && i != j
    ensures var rebuilt := RebuildLegs(StoreLegs(legs), expiry).value;
      && rebuilt[0].symbol == legs[i].symbol && rebuilt[0].side == legs[i].side
      && rebuilt[1].symbol == legs[j].symbol && rebuilt[1].side == legs[j].side
      && Ratios(rebuilt) == [legs[i].ratioQty, legs[j].ratioQty] && PositiveRatios(Ratios(rebuilt))
  {
    FirstIsFound(StoreLegs(legs), legs[0].side, 0);
    FirstIsFound(StoreLegs(legs), legs[1].side, 1);
    i, j := RebuiltRatios(legs, expiry);
  }

  /** The simplified ratios of two legs, in either order. */
  lemma PairRatios(legs: seq<Leg>, back: seq<Leg>, i: nat, j: nat)
    requires PositiveRatios(Ratios(legs)) && |legs| == 2 && i < 2 && j < 2 && i != j
    requires Ratios(back) == [legs[i].ratioQty, legs[j].ratioQty] && PositiveRatios(Ratios(back))
    ensures var s, t := SimplifyRatios(Ratios(legs)).value, SimplifyRatios(Ratios(back)).value;
      |s| == |t| == 2 && t[0] == s[i] && t[1] == s[j]
  {
    assert Ratios(legs)[0] >= 1 && Ratios(legs)[1] >= 1;
    assert Ratios(legs) == [legs[0].ratioQty, legs[1].ratioQty];
    PairGcd(legs[0].ratioQty, legs[1].ratioQty);
  }

  lemma SpreadUndone(legs: seq<Leg>, back: seq<Leg>, i: nat, j: nat, qty: nat, symbol: string)
    requires PositiveRatios(Ratios(legs)) && |legs| == 2 && |back| == 2 && i < 2 && j < 2 && i != j
    requires Ratios(back) == [legs[i].ratioQty, legs[j].ratioQty] && PositiveRatios(Ratios(back))
    requires back[0].symbol == legs[i].symbol && back[0].side == legs[i].side
    requires back[1].symbol == legs[j].symbol && back[1].side == legs[j].side
    ensures Net(LegsPayload(legs, Open).value, qty, symbol) + Net(LegsPayload(back, Close).value, qty, symbol) == 0
  {
    PairRatios(legs, back, i, j);
    PayloadOf(legs, Open);
    PayloadOf(back, Close);
    PairsCancel(LegsPayload(legs, Open).value, LegsPayload(back, Close).value, qty, symbol);
  }

  /** Two legs, one sold and one bought, in either order and even of one symbol. */
  lemma SpreadCancels(legs: seq<Leg>, expiry: int, qty: nat)
    requires PositiveRatios(Ratios(legs)) && |legs| == 2 && legs[0].side != legs[1].side
    ensures CancelsThroughBook(legs, expiry, qty)
  {
    var i, j := SpreadComesBack(legs, expiry);
    var back := RebuildLegs(StoreLegs(legs), expiry).value;
    forall symbol
      ensures Net(LegsPayload(legs, Open).value, qty, symbol) + Net(LegsPayload(back, Close).value, qty, symbol) == 0
    {
      SpreadUndone(legs, back, i, j, qty, symbol);
    }
  }

  // ----- exactly spreads survive ------------------------------------------------------

  /** Of positions in distinct symbols, at any size: the exit through the book undoes the entry
      exactly when there are two legs, one sold and one bought. Those are the positions whose
      every leg is read back. */
  lemma ExitCancelsExactly(legs: seq<Leg>, expiry: int, qty: nat)
    requires PositiveRatios(Ratios(legs)) && DistinctLegs(legs) && qty >= 1
    ensures CancelsThroughBook(legs, expiry, qty) <==> |legs| == 2 && legs[0].side != legs[1].side
  {
    if |legs| == 2 && legs[0].side != legs[1].side {
      SpreadCancels(legs, expiry, qty);
    } else if CancelsThroughBook(legs, expiry, qty) {
      var i, j := RebuiltRatios(legs, expiry);
      var k := Another(|legs|, i, j);
      DroppedLegStaysOpen(legs, expiry, qty, k);
      assert false;
    }
  }

  lemma Another(n: nat, i: nat, j: nat) returns (k: nat)
    requires n > 2 && i < n && j < n
    ensures k < n && k != i && k != j
  {
    k := if i != 0 && j != 0 then 0 else if i != 1 && j != 1 then 1 else 2;
  }

  /** With a symbol twice it can come out flat although legs were lost: two legs of one symbol
      undo each other at the entry, and neither is read back. */
  lemma LostPairCancels(a: Leg, b: Leg, c: Leg, d: Leg, expiry: int, qty: nat)
    requires a.side.Sell? && b.side.Buy? && c.side.Sell? && d.side.Buy? && c.symbol == d.symbol
    requires a.ratioQty == b.ratioQty == c.ratioQty == d.ratioQty == 1
    ensures RebuildLegs(StoreLegs([a, b, c, d]), expiry)
         == Some([a.(right := Put, expiry := expiry), b.(right := Put, expiry := expiry)])
    ensures PositiveRatios(Ratios([a, b, c, d])) && CancelsThroughBook([a, b, c, d], expiry, qty)
  {
    var legs := [a, b, c, d];
    var stored := StoreLegs(legs);
    assert stored[1..][0] == stored[1];
    var rebuilt := [a.(right := Put, expiry := expiry), b.(right := Put, expiry := expiry)];
    assert FirstOn(stored, Sell) == Some(stored[0]) && FirstOn(stored, Buy) == Some(stored[1]);
    assert RebuildLegs(stored, expiry).value == rebuilt;
    UnitRatios(legs, Open);
    UnitRatios(rebuilt, Close);
    var open, close := LegsPayload(legs, Open).value, LegsPayload(rebuilt, Close).value;
    forall symbol ensures Net(open, qty, symbol) + Net(close, qty, symbol) == 0 {
      FourCancel(open, close, qty, symbol);
    }
  }

  lemma FourCancel(open: seq<LegPayload>, close: seq<LegPayload>, qty: nat, symbol: string)
    requires |open| == 4 && |close| == 2
    requires forall k :: 0 <= k < 4 ==> AllDigits(open[k].ratioQty)
    requires Undoes(open[0], close[0]) && Undoes(open[1], close[1]) && Undoes(open[2], open[3])
    ensures Net(open, qty, symbol) + Net(close, qty, symbol) == 0
  {
    NetAppend(open[..2], open[2], qty, symbol);
    NetAppend(open[..3], open[3], qty, symbol);
    assert open[..2] + [open[2]] == open[..3] && open[..3] + [open[3]] == open;
    UndoneParts(open[2], open[3], qty, symbol);
    PairsCancel(open[..2], close, qty, symbol);
  }

  lemma UnitRatios(legs: seq<Leg>, action: Action)
    requires legs != [] && forall i :: 0 <= i < |legs| ==> legs[i].ratioQty == 1
    ensures PositiveRatios(Ratios(legs)) && |LegsPayload(legs, action).value| == |legs|
    ensures forall i :: 0 <= i < |legs| ==> LegsPayload(legs, action).value[i] == OneLeg(legs[i], 1, action)
  {
    var ratios := Ratios(legs);
    GcdAllPositive(ratios);
    GcdAllDivides(ratios, 0);
    DividesBelow(GcdAll(ratios), 1);
  }
}
