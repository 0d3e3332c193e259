/** Quotes, the snapshot of them that one cycle works from, and the hash it is known by. */
module Market {
  import opened Strings
  import opened Decimals
  import opened Sorting
  import opened JsonText
  import opened Json
  import opened Canonical
  import opened Domain

  /** One option contract as quoted. */
  datatype ContractQuote = ContractQuote(
    symbol: string,
    underlying: string,
    right: OptionRight,
    strike: Decimal,
    expiry: int,
    bid: Decimal,
    ask: Decimal,
    bidSize: int,
    askSize: int,
    fetchedAt: int,
    tradable: bool,
    openInterest: Option<int>,
    impliedVolatility: Option<Decimal>,
    delta: Option<Decimal>,
    vega: Option<Decimal>,
    source: string)
  {
    /** `mid`; `None` is the `MoneyError`. */
    function Mid(): Option<real> {
      var total := bid.V() + ask.V();
      if total <= 0.0 then None else Some(Div(total, 2.0))
    }

    /** `spread_pct`: bid/ask spread as a fraction of mid. */
    function SpreadPct(): Option<real> {
      match Mid()
      case None => None
      case Some(mid) => if mid == 0.0 then None else Some(Div(ask.V() - bid.V(), mid))
    }

    function Dte(today: int): int { expiry - today }
  }

  /** The underlying prices are a dictionary, in insertion order. */
  datatype Snapshot = Snapshot(asOf: int, prices: seq<(string, Decimal)>, quotes: seq<ContractQuote>)

  predicate DistinctSymbols(quotes: seq<ContractQuote>) {
    forall i, j :: 0 <= i < j < |quotes| ==> quotes[i].symbol != quotes[j].symbol
  }

  // ----- snapshot_hash --------------------------------------------------------

  const QUOTE_KEYS := [
    "symbol", "bid", "ask", "bid_size", "ask_size", "open_interest", "implied_volatility",
    "delta", "vega", "tradable", "source", "fetched_at"]

  function NullableInt(n: Option<int>): Value {
    match n case None => VNone case Some(v) => VInt(v)
  }

  function NullableDecimal(d: Option<Decimal>): Value {
    match d case None => VNone case Some(v) => VDecimal(v)
  }

  function QuoteValues(host: Host, q: ContractQuote): (r: seq<Value>)
    ensures |r| == |QUOTE_KEYS|
  {
    [ TextValue(q.symbol), VDecimal(q.bid), VDecimal(q.ask), VInt(q.bidSize), VInt(q.askSize),
      NullableInt(q.openInterest), NullableDecimal(q.impliedVolatility), NullableDecimal(q.delta),
      NullableDecimal(q.vega), VBool(q.tradable), TextValue(q.source), VIso(U(host.isoTime(q.fetchedAt))) ]
  }

  function QuotesValue(host: Host, quotes: seq<ContractQuote>): (r: seq<Value>)
    ensures |r| == |quotes|
    ensures forall i :: 0 <= i < |quotes| ==> r[i] == Record(QUOTE_KEYS, QuoteValues(host, quotes[i]))
  {
    seq(|quotes|, i requires 0 <= i < |quotes| => Record(QUOTE_KEYS, QuoteValues(host, quotes[i])))
  }

  function PricesValue(prices: seq<(string, Decimal)>): Value {
    VMap(seq(|prices|, i requires 0 <= i < |prices| => Entry(U(prices[i].0), VDecimal(prices[i].1))))
  }

  const SNAPSHOT_KEYS := ["as_of", "underlying_prices", "quotes"]

  function SnapshotValues(host: Host, s: Snapshot): (r: seq<Value>)
    ensures |r| == |SNAPSHOT_KEYS|
  {
    [ VIso(U(host.isoTime(s.asOf))), PricesValue(s.prices), VSeq(QuotesValue(host, s.quotes)) ]
  }

  /** `snapshot_hash` */
  function SnapshotHash(host: Host, s: Snapshot): string {
    Sha256Of(host, Record(SNAPSHOT_KEYS, SnapshotValues(host, s)))
  }

  // ----- what the snapshot hash binds ---------------------------------------------

  /** The quoted fields the hash covers. */
  predicate SameQuoted(a: ContractQuote, b: ContractQuote) {
    && a.symbol == b.symbol && a.bid == b.bid && a.ask == b.ask && a.bidSize == b.bidSize
    && a.askSize == b.askSize && a.openInterest == b.openInterest
    && a.impliedVolatility == b.impliedVolatility && a.delta == b.delta && a.vega == b.vega
    && a.tradable == b.tradable && a.source == b.source && a.fetchedAt == b.fetchedAt
  }

  ghost predicate SameSnapshot(a: Snapshot, b: Snapshot) {
    && a.asOf == b.asOf && Meaning(PricesValue(a.prices)) == Meaning(PricesValue(b.prices))
    && |a.quotes| == |b.quotes|
    && forall i :: 0 <= i < |a.quotes| ==> SameQuoted(a.quotes[i], b.quotes[i])
  }

  lemma NullableDecimalAt(a: seq<Value>, b: seq<Value>, i: nat, d: Option<Decimal>, d': Option<Decimal>)
    requires AgreeAt(a, b, i) && a[i] == NullableDecimal(d) && b[i] == NullableDecimal(d')
    ensures d == d'
  {
    if d.Some? && d'.Some? {
      DecimalAgrees(d.value, d'.value);
    }
  }

  lemma NullableIntAt(a: seq<Value>, b: seq<Value>, i: nat, n: Option<int>, n': Option<int>)
    requires AgreeAt(a, b, i) && a[i] == NullableInt(n) && b[i] == NullableInt(n')
    ensures n == n'
  {
  }

  lemma BoolAt(a: seq<Value>, b: seq<Value>, i: nat, x: bool, y: bool)
    requires AgreeAt(a, b, i) && a[i] == VBool(x) && b[i] == VBool(y)
    ensures x == y
  {
  }

  lemma QuoteHashable(host: Host, q: ContractQuote)
    ensures Hashable(Record(QUOTE_KEYS, QuoteValues(host, q)))
  {
    RecordHashable(QUOTE_KEYS, QuoteValues(host, q));
  }

  lemma QuotedPricesAgree(host: Host, a: ContractQuote, b: ContractQuote, x: seq<Value>, y: seq<Value>)
    requires x == QuoteValues(host, a) && y == QuoteValues(host, b)
    requires AgreeAt(x, y, 1) && AgreeAt(x, y, 2)
    ensures a.bid == b.bid && a.ask == b.ask
  {
    DecimalAt(x, y, 1, a.bid, b.bid);
    DecimalAt(x, y, 2, a.ask, b.ask);
  }

  lemma QuotedSizesAgree(host: Host, a: ContractQuote, b: ContractQuote, x: seq<Value>, y: seq<Value>)
    requires x == QuoteValues(host, a) && y == QuoteValues(host, b)
    requires AgreeAt(x, y, 3) && AgreeAt(x, y, 4)
    ensures a.bidSize == b.bidSize && a.askSize == b.askSize
  {
    IntAt(x, y, 3, a.bidSize, b.bidSize);
    IntAt(x, y, 4, a.askSize, b.askSize);
  }

  lemma QuotedGreeksAgree(host: Host, a: ContractQuote, b: ContractQuote, x: seq<Value>, y: seq<Value>)
    requires x == QuoteValues(host, a) && y == QuoteValues(host, b)
    requires AgreeAt(x, y, 6) && AgreeAt(x, y, 7) && AgreeAt(x, y, 8)
    ensures a.impliedVolatility == b.impliedVolatility && a.delta == b.delta && a.vega == b.vega
  {
    NullableDecimalAt(x, y, 6, a.impliedVolatility, b.impliedVolatility);
    NullableDecimalAt(x, y, 7, a.delta, b.delta);
    NullableDecimalAt(x, y, 8, a.vega, b.vega);
  }

  lemma QuotedMarksAgree(host: Host, a: ContractQuote, b: ContractQuote, x: seq<Value>, y: seq<Value>)
    requires host.Sound() && x == QuoteValues(host, a) && y == QuoteValues(host, b)
    requires forall i: nat :: i < 12 ==> AgreeAt(x, y, i)
    ensures a.symbol == b.symbol && a.openInterest == b.openInterest && a.tradable == b.tradable
    ensures a.source == b.source && a.fetchedAt == b.fetchedAt
  {
    TextAt(x, y, 0, a.symbol, b.symbol);
    NullableIntAt(x, y, 5, a.openInterest, b.openInterest);
    BoolAt(x, y, 9, a.tradable, b.tradable);
    TextAt(x, y, 10, a.source, b.source);
    IsoAt(x, y, 11, host.isoTime(a.fetchedAt), host.isoTime(b.fetchedAt));
  }

  lemma QuoteAgrees(host: Host, a: ContractQuote, b: ContractQuote)
    requires host.Sound()
    requires Meaning(Record(QUOTE_KEYS, QuoteValues(host, a))) == Meaning(Record(QUOTE_KEYS, QuoteValues(host, b)))
    ensures SameQuoted(a, b)
  {
    QuoteHashable(host, a);
    var x, y := QuoteValues(host, a), QuoteValues(host, b);
    ValuesAgreeAt(QUOTE_KEYS, x, y);
    QuotedPricesAgree(host, a, b, x, y);
    QuotedSizesAgree(host, a, b, x, y);
    QuotedGreeksAgree(host, a, b, x, y);
    QuotedMarksAgree(host, a, b, x, y);
  }

  lemma QuotesHashable(host: Host, quotes: seq<ContractQuote>)
    ensures Hashable(VSeq(QuotesValue(host, quotes)))
  {
    forall i | 0 <= i < |quotes| ensures Hashable(QuotesValue(host, quotes)[i]) {
      QuoteHashable(host, quotes[i]);
    }
    ItemsHashable(QuotesValue(host, quotes));
  }

  lemma QuotesAgree(host: Host, a: seq<ContractQuote>, b: seq<ContractQuote>)
    requires host.Sound()
    requires Meaning(VSeq(QuotesValue(host, a))) == Meaning(VSeq(QuotesValue(host, b)))
    ensures |a| == |b| && forall i :: 0 <= i < |a| ==> SameQuoted(a[i], b[i])
  {
    QuotesHashable(host, a);
    QuotesHashable(host, b);
    var ja, jb := CanonicalItems(QuotesValue(host, a)).value, CanonicalItems(QuotesValue(host, b)).value;
    assert JoinItems(ja) == JoinItems(jb);
    forall i | 0 <= i < |a| ensures SameQuoted(a[i], b[i]) {
      assert JoinJson(ja[i]) == JoinItems(ja)[i] == JoinItems(jb)[i] == JoinJson(jb[i]);
      QuoteAgrees(host, a[i], b[i]);
    }
  }

  lemma PricesHashable(prices: seq<(string, Decimal)>)
    ensures Hashable(PricesValue(prices))
  {
    EntriesHashable(PricesValue(prices).entries);
    CanonicalMap(PricesValue(prices).entries, CanonicalEntries(PricesValue(prices).entries).value);
  }

  /** Price dictionaries that mean the same have as many entries. */
  lemma PricesCounted(a: seq<(string, Decimal)>, b: seq<(string, Decimal)>)
    requires Meaning(PricesValue(a)) == Meaning(PricesValue(b))
    ensures |a| == |b|
  {
    PricesHashable(a);
    PricesHashable(b);
    var x, y := PricesValue(a).entries, PricesValue(b).entries;
    CanonicalMap(x, CanonicalEntries(x).value);
    CanonicalMap(y, CanonicalEntries(y).value);
  }

  lemma SnapshotHashable(host: Host, s: Snapshot)
    ensures Hashable(Record(SNAPSHOT_KEYS, SnapshotValues(host, s)))
  {
    PricesHashable(s.prices);
    QuotesHashable(host, s.quotes);
    RecordHashable(SNAPSHOT_KEYS, SnapshotValues(host, s));
  }

  lemma SameMeaning(host: Host, a: Snapshot, b: Snapshot)
    requires SameSnapshot(a, b)
    ensures Meaning(Record(SNAPSHOT_KEYS, SnapshotValues(host, a)))
         == Meaning(Record(SNAPSHOT_KEYS, SnapshotValues(host, b)))
  {
    var x, y := SnapshotValues(host, a), SnapshotValues(host, b);
    assert QuotesValue(host, a.quotes) == QuotesValue(host, b.quotes) by {
      forall i | 0 <= i < |a.quotes| ensures QuoteValues(host, a.quotes[i]) == QuoteValues(host, b.quotes[i]) {
        assert SameQuoted(a.quotes[i], b.quotes[i]);
      }
    }
    SnapshotHashable(host, a);
    SnapshotHashable(host, b);
    forall i: nat | i < 3 ensures AgreeAt(x, y, i) {
    }
    RecordsAlike(SNAPSHOT_KEYS, x, y);
  }

  lemma FieldsAlike(x: seq<Entry>, y: seq<Entry>)
    requires |x| == |y| && CanonicalEntries(x).Some? && CanonicalEntries(y).Some?
    requires forall i :: 0 <= i < |x| ==> x[i].key == y[i].key && Meaning(x[i].value) == Meaning(y[i].value)
    ensures var f, g := CanonicalEntries(x).value, CanonicalEntries(y).value;
      SameKeys(f, g) && forall i :: 0 <= i < |f| ==> JoinField(f[i]) == JoinField(g[i])
  {
  }

  lemma {:induction false} JoinedTwins(s: seq<Twin>)
    requires forall t :: t in s ==> JoinField(Left(t)) == JoinField(Right(t))
    ensures JoinFields(Map(Left, s)) == JoinFields(Map(Right, s))
  {
    if s != [] {
      JoinedTwins(s[1..]);
      assert Map(Left, s)[1..] == Map(Left, s[1..]) && Map(Right, s)[1..] == Map(Right, s[1..]);
    }
  }

  /** Records with the same keys whose values mean the same, mean the same. */
  lemma RecordsAlike(keys: seq<string>, a: seq<Value>, b: seq<Value>)
    requires |keys| == |a| == |b| && Hashable(Record(keys, a)) && Hashable(Record(keys, b))
    requires forall i: nat :: i < |keys| ==> AgreeAt(a, b, i)
    ensures Meaning(Record(keys, a)) == Meaning(Record(keys, b))
  {
    var x, y := Record(keys, a).entries, Record(keys, b).entries;
    var f, g := CanonicalEntries(x).value, CanonicalEntries(y).value;
    CanonicalMap(x, f);
    CanonicalMap(y, g);
    forall i | 0 <= i < |x| ensures x[i].key == y[i].key && Meaning(x[i].value) == Meaning(y[i].value) {
      assert AgreeAt(a, b, i);
    }
    FieldsAlike(x, y);
    SortTwins(f, g);
    var s := Sort(Twins(f, g), TwinLe);
    forall t | t in s ensures JoinField(Left(t)) == JoinField(Right(t)) {
      SortMembers(Twins(f, g), TwinLe, t);
    }
    JoinedTwins(s);
  }

  /** Two snapshots share a hash exactly when they agree on the time, on the price
      dictionary and on every covered field of every quote, in order. */
  lemma SnapshotHashBinds(host: Host, a: Snapshot, b: Snapshot)
    requires host.Sound()
    ensures SnapshotHash(host, a) == SnapshotHash(host, b) <==> SameSnapshot(a, b)
  {
    SnapshotHashable(host, a);
    SnapshotHashable(host, b);
    var x, y := SnapshotValues(host, a), SnapshotValues(host, b);
    if SnapshotHash(host, a) == SnapshotHash(host, b) {
      Sha256Binds(host, Record(SNAPSHOT_KEYS, x), Record(SNAPSHOT_KEYS, y));
      ValuesAgreeAt(SNAPSHOT_KEYS, x, y);
      assert AgreeAt(x, y, 1) && AgreeAt(x, y, 2);
      IsoAt(x, y, 0, host.isoTime(a.asOf), host.isoTime(b.asOf));
      QuotesAgree(host, a.quotes, b.quotes);
    }
    if SameSnapshot(a, b) {
      SameMeaning(host, a, b);
      SameHashOf(host, Record(SNAPSHOT_KEYS, x), Record(SNAPSHOT_KEYS, y));
    }
  }

  lemma SameHashOf(host: Host, v: Value, w: Value)
    requires Hashable(v) && Hashable(w) && Meaning(v) == Meaning(w)
    ensures Sha256Of(host, v) == Sha256Of(host, w)
  {
    CanonicalJsonInjective(v, w);
  }

  /** What the hash leaves out: a quote's contract terms may all change under it. */
  lemma TermsAreNotHashed(host: Host, s: Snapshot, i: nat, underlying: string, right: OptionRight, strike: Decimal,
                          expiry: int)
    requires i < |s.quotes|
    ensures var changed := s.quotes[i].(underlying := underlying, right := right, strike := strike, expiry := expiry);
      SnapshotHash(host, s.(quotes := s.quotes[i := changed])) == SnapshotHash(host, s)
  {
    var changed := s.quotes[i].(underlying := underlying, right := right, strike := strike, expiry := expiry);
    assert QuoteValues(host, changed) == QuoteValues(host, s.quotes[i]);
    assert QuotesValue(host, s.quotes[i := changed]) == QuotesValue(host, s.quotes);
  }

  // ----- the snapshot's order -------------------------------------------------------

  /** `(underlying, expiry, strike, symbol)` */
  predicate QuoteLe(a: ContractQuote, b: ContractQuote) {
    if a.underlying != b.underlying then StrLe(U(a.underlying), U(b.underlying))
    else if a.expiry != b.expiry then a.expiry < b.expiry
    else if a.strike.V() != b.strike.V() then a.strike.V() < b.strike.V()
    else StrLe(U(a.symbol), U(b.symbol))
  }

  lemma TextOrder(s: string, t: string, u: string)
    ensures StrLe(U(s), U(t)) || StrLe(U(t), U(s))
    ensures StrLe(U(s), U(t)) && StrLe(U(t), U(u)) ==> StrLe(U(s), U(u))
    ensures StrLe(U(s), U(t)) && StrLe(U(t), U(s)) ==> s == t
  {
    StrLeTotal(U(s), U(t));
    if StrLe(U(s), U(t)) && StrLe(U(t), U(u)) {
      StrLeTransitive(U(s), U(t), U(u));
    }
    if StrLe(U(s), U(t)) && StrLe(U(t), U(s)) {
      StrLeAntisymmetric(U(s), U(t));
      UInjective(s, t);
    }
  }

  lemma QuoteLeIsTotalPreorder()
    ensures TotalPreorder(QuoteLe)
  {
    forall a: ContractQuote, b: ContractQuote ensures QuoteLe(a, b) || QuoteLe(b, a) {
      TextOrder(a.underlying, b.underlying, "");
      TextOrder(a.symbol, b.symbol, "");
    }
    forall a: ContractQuote, b: ContractQuote, c: ContractQuote | QuoteLe(a, b) && QuoteLe(b, c) ensures QuoteLe(a, c) {
      TextOrder(a.underlying, b.underlying, c.underlying);
      TextOrder(b.underlying, c.underlying, a.underlying);
      TextOrder(a.symbol, b.symbol, c.symbol);
    }
  }

  lemma SymbolsTellApart(quotes: seq<ContractQuote>, a: ContractQuote, b: ContractQuote)
    requires DistinctSymbols(quotes) && a in quotes && b in quotes && a.symbol == b.symbol
    ensures a == b
  {
  }

  lemma QuotesKeyedApart(quotes: seq<ContractQuote>)
    requires DistinctSymbols(quotes)
    ensures KeyedApart(quotes, QuoteLe)
  {
    forall a, b | a in quotes && b in quotes && QuoteLe(a, b) && QuoteLe(b, a) ensures a == b {
      TextOrder(a.underlying, b.underlying, "");
      TextOrder(a.symbol, b.symbol, "");
      SymbolsTellApart(quotes, a, b);
    }
  }

  /** The snapshot `build_snapshot` makes of the quotes it was given. */
  function Assemble(asOf: int, prices: seq<(string, Decimal)>, quotes: seq<ContractQuote>): Snapshot {
    Snapshot(asOf, prices, Sort(quotes, QuoteLe))
  }

  /** The order the exchange returned the chain in never reaches the snapshot or its hash. */
  lemma AssemblyForgetsOrder(host: Host, asOf: int, prices: seq<(string, Decimal)>, a: seq<ContractQuote>,
                             b: seq<ContractQuote>)
    requires DistinctSymbols(a) && multiset(a) == multiset(b)
    ensures Assemble(asOf, prices, a) == Assemble(asOf, prices, b)
    ensures SnapshotHash(host, Assemble(asOf, prices, a)) == SnapshotHash(host, Assemble(asOf, prices, b))
  {
    QuoteLeIsTotalPreorder();
    QuotesKeyedApart(a);
    SortForgetsOrder(a, b, QuoteLe);
  }

  /** And it is this order: by underlying, then expiry, then strike, then symbol. */
  lemma AssembledInOrder(asOf: int, prices: seq<(string, Decimal)>, quotes: seq<ContractQuote>, i: nat, j: nat)
    requires i < j < |Assemble(asOf, prices, quotes).quotes|
    ensures multiset(Assemble(asOf, prices, quotes).quotes) == multiset(quotes)
    ensures var a, b := Assemble(asOf, prices, quotes).quotes[i], Assemble(asOf, prices, quotes).quotes[j];
      && StrLe(U(a.underlying), U(b.underlying))
      && (a.underlying == b.underlying ==> a.expiry <= b.expiry)
      && (a.underlying == b.underlying && a.expiry == b.expiry ==> a.strike.V() <= b.strike.V())
      && (a.underlying == b.underlying && a.expiry == b.expiry && a.strike.V() == b.strike.V() ==>
            StrLe(U(a.symbol), U(b.symbol)))
  {
    QuoteLeIsTotalPreorder();
    SortIsSorted(quotes, QuoteLe);
    SortKeeps(quotes, QuoteLe);
    var a, b := Assemble(asOf, prices, quotes).quotes[i], Assemble(asOf, prices, quotes).quotes[j];
    TextOrder(a.underlying, b.underlying, "");
  }
}
