/** Replay: a snapshot stored as text, rebuilt, priced again, and compared with the record. */
module Replay {
  import opened Decimals
  import opened Domain
  import opened Sorting
  import opened Canonical
  import opened Market
  import opened Formulas
  import opened Actuary
  import opened ActuaryLaws

  /** `date.fromisoformat` and `datetime.fromisoformat` */
  datatype IsoReader = IsoReader(day: string -> int, moment: string -> int) {
    ghost predicate Reads(host: Host) {
      (forall d :: day(host.isoDate(d)) == d) && (forall t :: moment(host.isoTime(t)) == t)
    }
  }

  // ----- the stored row ----------------------------------------------------------

  datatype StoredQuote = StoredQuote(
    symbol: string,
    underlying: string,
    strike: string,
    expiry: string,
    bid: string,
    ask: string,
    bidSize: int,
    askSize: int,
    delta: Option<string>,
    vega: Option<string>,
    iv: Option<string>,
    openInterest: Option<int>,
    fetchedAt: string)

  datatype SnapshotRow = SnapshotRow(
    underlying: string,
    underlyingPrice: Option<Decimal>,
    quotes: seq<StoredQuote>,
    snapshotHash: string,
    source: string,
    fetchedAt: int)

  /** `_str` */
  function TextOrNone(d: Option<Decimal>): Option<string> {
    match d case None => None case Some(v) => Some(Text(v))
  }

  function StoreQuote(host: Host, q: ContractQuote): StoredQuote {
    StoredQuote(q.symbol, q.underlying, Text(q.strike), host.isoDate(q.expiry), Text(q.bid), Text(q.ask), q.bidSize,
                q.askSize, TextOrNone(q.delta), TextOrNone(q.vega), TextOrNone(q.impliedVolatility), q.openInterest,
                host.isoTime(q.fetchedAt))
  }

  /** `[f(x) for x in s]` */
  function Each<A, B>(f: A -> B, s: seq<A>): (r: seq<B>)
    ensures |r| == |s| && forall i :: 0 <= i < |s| ==> r[i] == f(s[i])
  {
    if s == [] then [] else Each(f, s[..|s| - 1]) + [f(s[|s| - 1])]
  }

  function Storer(host: Host): ContractQuote -> StoredQuote {
    (q: ContractQuote) => StoreQuote(host, q)
  }

  function StoreQuotes(host: Host, quotes: seq<ContractQuote>): seq<StoredQuote> {
    Each(Storer(host), quotes)
  }

  /** The row `CycleRecorder.snapshot` writes: the first underlying's price and no other. */
  function StoreSnapshot(host: Host, s: Snapshot): SnapshotRow {
    SnapshotRow(if s.prices == [] then "" else s.prices[0].0,
                if s.prices == [] then None else Some(s.prices[0].1),
                StoreQuotes(host, s.quotes), SnapshotHash(host, s), "rest", s.asOf)
  }

  function IndexOf(rows: seq<SnapshotRow>, hash: string): (k: nat)
    ensures k <= |rows| && (k < |rows| ==> rows[k].snapshotHash == hash)
    ensures forall i :: 0 <= i < k ==> rows[i].snapshotHash != hash
  {
    if rows == [] || rows[0].snapshotHash == hash then 0
    else
      assert forall i :: 1 <= i < |rows| ==> rows[i] == rows[1..][i - 1];
      1 + IndexOf(rows[1..], hash)
  }

  class SnapshotTable {
    const host: Host
    var rows: seq<SnapshotRow>

    constructor (host: Host)
      ensures this.host == host && rows == []
    {
      this.host := host;
      rows := [];
    }

    /** `CycleRecorder.snapshot`: a hash already recorded is not written again, so no two
        rows ever share one. */
    method Record(s: Snapshot) returns (id: nat)
      requires forall i, j :: 0 <= i < j < |rows| ==> rows[i].snapshotHash != rows[j].snapshotHash
      modifies this
      ensures forall i, j :: 0 <= i < j < |rows| ==> rows[i].snapshotHash != rows[j].snapshotHash
      ensures id < |rows| && rows[id].snapshotHash == SnapshotHash(host, s)
      ensures if id < |old(rows)| then rows == old(rows) else rows == old(rows) + [StoreSnapshot(host, s)]
    {
      var hash := SnapshotHash(host, s);
      id := IndexOf(rows, hash);
      if id == |rows| {
        rows := rows + [StoreSnapshot(host, s)];
      }
    }
  }

  // ----- rebuilding ---------------------------------------------------------------

  /** An optional number: absent, read, or unreadable. */
  function ReadOptional(t: Option<string>): Option<Option<Decimal>> {
    match t
    case None => Some(None)
    case Some(s) => if s == "" then Some(None) else match Parse(s) case None => None case Some(d) => Some(Some(d))
  }

  /** One quote of `rebuild_snapshot`; `None` is the error on an unreadable number. */
  function RebuildQuote(reader: IsoReader, q: StoredQuote, source: string): Option<ContractQuote> {
    match (Parse(q.strike), Parse(q.bid), Parse(q.ask), ReadOptional(q.iv), ReadOptional(q.delta), ReadOptional(q.vega))
    case (Some(strike), Some(bid), Some(ask), Some(iv), Some(delta), Some(vega)) =>
      Some(ContractQuote(q.symbol, q.underlying, Put, strike, reader.day(q.expiry), bid, ask, q.bidSize, q.askSize,
                         reader.moment(q.fetchedAt), true, q.openInterest, iv, delta, vega, source))
    case _ => None
  }

  function Rebuilder(reader: IsoReader, source: string): StoredQuote -> Option<ContractQuote> {
    (q: StoredQuote) => RebuildQuote(reader, q, source)
  }

  /** Everything read, or nothing. */
  function ReadAll<A, B>(s: seq<A>, read: A -> Option<B>): Option<seq<B>> {
    if s == [] then Some([])
    else
      match (ReadAll(s[..|s| - 1], read), read(s[|s| - 1]))
      case (Some(before), Some(b)) => Some(before + [b])
      case _ => None
  }

  function RebuildQuotes(reader: IsoReader, quotes: seq<StoredQuote>, source: string): Option<seq<ContractQuote>> {
    ReadAll(quotes, Rebuilder(reader, source))
  }

  /** `rebuild_snapshot` */
  function RebuildSnapshot(reader: IsoReader, row: SnapshotRow): Option<Snapshot> {
    match RebuildQuotes(reader, row.quotes, row.source)
    case None => None
    case Some(quotes) => Some(SnapshotFrom(row, quotes))
  }

  lemma {:induction false} ReadFails<A, B>(s: seq<A>, read: A -> Option<B>, i: nat)
    requires i <= |s| && ReadAll(s[..i], read).None?
    ensures ReadAll(s, read).None?
  {
    if i < |s| {
      assert s[..|s| - 1][..i] == s[..i];
      ReadFails(s[..|s| - 1], read, i);
    } else {
      assert s[..i] == s;
    }
  }

  /** The loop of `rebuild_snapshot`: it stops at the first element that cannot be read. */
  method ReadEach<A, B>(s: seq<A>, read: A -> Option<B>) returns (r: Option<seq<B>>)
    ensures r == ReadAll(s, read)
  {
    var done: seq<B> := [];
    for i := 0 to |s|
      invariant ReadAll(s[..i], read) == Some(done)
    {
      assert s[..i + 1][..i] == s[..i];
      var b := read(s[i]);
      if b.None? {
        ReadFails(s, read, i + 1);
        return None;
      }
      done := done + [b.value];
    }
    assert s[..|s|] == s;
    r := Some(done);
  }

  function SnapshotFrom(row: SnapshotRow, quotes: seq<ContractQuote>): Snapshot {
    Snapshot(row.fetchedAt, match row.underlyingPrice case Some(x) => [(row.underlying, x)] case None => [], quotes)
  }

  method RebuildSnapshotLoop(reader: IsoReader, row: SnapshotRow) returns (r: Option<Snapshot>)
    ensures r == RebuildSnapshot(reader, row)
  {
    var quotes := ReadEach(row.quotes, Rebuilder(reader, row.source));
    r := match quotes case None => None case Some(qs) => Some(SnapshotFrom(row, qs));
  }

  // ----- what can be read -------------------------------------------------------------

  lemma {:induction false} ReadAllExactly<A, B>(s: seq<A>, read: A -> Option<B>)
    ensures ReadAll(s, read).Some? <==> forall a :: a in s ==> read(a).Some?
    ensures ReadAll(s, read).Some? ==>
      |ReadAll(s, read).value| == |s|
      && forall i :: 0 <= i < |s| ==> read(s[i]) == Some(ReadAll(s, read).value[i])
  {
    if s != [] {
      ReadAllExactly(s[..|s| - 1], read);
      assert s == s[..|s| - 1] + [s[|s| - 1]];
    }
  }

  predicate Missing(t: Option<string>) {
    t.None? || t.value == ""
  }

  /** Every number of the quote is there and reads as one; the optional ones may be missing. */
  predicate Legible(q: StoredQuote) {
    && Parse(q.strike).Some? && Parse(q.bid).Some? && Parse(q.ask).Some?
    && forall t :: t in [q.iv, q.delta, q.vega] ==> Missing(t) || Parse(t.value).Some?
  }

  lemma LegibleExactly(reader: IsoReader, q: StoredQuote, source: string)
    ensures var back := RebuildQuote(reader, q, source);
      && (back.Some? <==> Legible(q))
      && (back.Some? ==>
            && (back.value.impliedVolatility.None? <==> Missing(q.iv))
            && (back.value.delta.None? <==> Missing(q.delta)) && (back.value.vega.None? <==> Missing(q.vega)))
  {
    var optional := [q.iv, q.delta, q.vega];
    assert optional[0] == q.iv && optional[1] == q.delta && optional[2] == q.vega;
  }

  /** A row can be rebuilt exactly if every number in it can be read, and a quote comes back
      without a volatility or a Greek exactly where the row holds none or a blank. */
  lemma RebuiltIfLegible(reader: IsoReader, row: SnapshotRow)
    ensures var back := RebuildSnapshot(reader, row);
      && (back.Some? <==> forall q :: q in row.quotes ==> Legible(q))
      && (back.Some? ==>
            && |back.value.quotes| == |row.quotes|
            && forall i :: 0 <= i < |row.quotes| ==>
                 var q, b := row.quotes[i], back.value.quotes[i];
                 (b.impliedVolatility.None? <==> Missing(q.iv))
                 && (b.delta.None? <==> Missing(q.delta)) && (b.vega.None? <==> Missing(q.vega)))
  {
    ReadAllExactly(row.quotes, Rebuilder(reader, row.source));
    forall q ensures Rebuilder(reader, row.source)(q).Some? <==> Legible(q) {
      LegibleExactly(reader, q, row.source);
    }
    var back := RebuildSnapshot(reader, row);
    if back.Some? {
      forall i | 0 <= i < |row.quotes| ensures
        var q, b := row.quotes[i], back.value.quotes[i];
        (b.impliedVolatility.None? <==> Missing(q.iv))
        && (b.delta.None? <==> Missing(q.delta)) && (b.vega.None? <==> Missing(q.vega))
      {
        LegibleExactly(reader, row.quotes[i], row.source);
      }
    }
  }

  // ----- the round trip ---------------------------------------------------------------

  /** What a quote comes back as. */
  function AsStored(q: ContractQuote): ContractQuote {
    q.(right := Put, tradable := true, source := "rest")
  }

  function AllAsStored(quotes: seq<ContractQuote>): seq<ContractQuote> {
    Each(AsStored, quotes)
  }

  function FirstPrice(prices: seq<(string, Decimal)>): seq<(string, Decimal)> {
    if prices == [] then [] else [prices[0]]
  }

  lemma OptionalRoundTrip(d: Option<Decimal>)
    ensures ReadOptional(TextOrNone(d)) == Some(d)
  {
    if d.Some? {
      ParseOfText(d.value);
    }
  }

  lemma QuoteRoundTrip(host: Host, reader: IsoReader, q: ContractQuote)
    requires reader.Reads(host)
    ensures RebuildQuote(reader, StoreQuote(host, q), "rest") == Some(AsStored(q))
  {
    ParseOfText(q.strike);
    ParseOfText(q.bid);
    ParseOfText(q.ask);
    OptionalRoundTrip(q.impliedVolatility);
    OptionalRoundTrip(q.delta);
    OptionalRoundTrip(q.vega);
  }

  lemma RebuildLast(reader: IsoReader, stored: seq<StoredQuote>, source: string, before: seq<ContractQuote>,
                    q: ContractQuote)
    requires stored != [] && RebuildQuotes(reader, stored[..|stored| - 1], source) == Some(before)
    requires RebuildQuote(reader, stored[|stored| - 1], source) == Some(q)
    ensures RebuildQuotes(reader, stored, source) == Some(before + [q])
  {
  }

  lemma {:induction false} QuotesRoundTrip(host: Host, reader: IsoReader, quotes: seq<ContractQuote>)
    requires reader.Reads(host)
    ensures RebuildQuotes(reader, StoreQuotes(host, quotes), "rest") == Some(AllAsStored(quotes))
  {
    if quotes != [] {
      var n := |quotes| - 1;
      QuotesRoundTrip(host, reader, quotes[..n]);
      QuoteRoundTrip(host, reader, quotes[n]);
      RebuildLast(reader, StoreQuotes(host, quotes), "rest", AllAsStored(quotes[..n]), AsStored(quotes[n]));
    }
  }

  /** What a snapshot comes back as. */
  function Back(s: Snapshot): Snapshot {
    Snapshot(s.asOf, FirstPrice(s.prices), AllAsStored(s.quotes))
  }

  /** Every number and every time comes back exactly as it was. */
  lemma SnapshotRoundTrip(host: Host, reader: IsoReader, s: Snapshot)
    requires reader.Reads(host)
    ensures RebuildSnapshot(reader, StoreSnapshot(host, s)) == Some(Back(s))
  {
    QuotesRoundTrip(host, reader, s.quotes);
  }

  /** One underlying at most, every quote tradable, every quote from the REST path. */
  predicate Storable(s: Snapshot) {
    |s.prices| <= 1 && forall q :: q in s.quotes ==> FromRest(q)
  }

  predicate FromRest(q: ContractQuote) {
    q.tradable && q.source == "rest"
  }

  lemma QuotesComeBack(quotes: seq<ContractQuote>)
    ensures AllAsStored(quotes) == quotes <==> forall q :: q in quotes ==> FromRest(q) && q.right.Put?
  {
    if AllAsStored(quotes) == quotes {
      forall q | q in quotes ensures FromRest(q) && q.right.Put? {
        var i :| 0 <= i < |quotes| && quotes[i] == q;
        assert AllAsStored(quotes)[i] == q;
      }
    }
  }

  /** The stored row loses nothing exactly for a storable snapshot of puts. */
  lemma RebuildsExactly(host: Host, reader: IsoReader, s: Snapshot)
    requires reader.Reads(host)
    ensures RebuildSnapshot(reader, StoreSnapshot(host, s)) == Some(s) <==>
      Storable(s) && forall q :: q in s.quotes ==> q.right.Put?
  {
    SnapshotRoundTrip(host, reader, s);
    ComesBackExactly(s);
  }

  lemma ComesBackExactly(s: Snapshot)
    ensures Back(s) == s <==> Storable(s) && forall q :: q in s.quotes ==> q.right.Put?
  {
    QuotesComeBack(s.quotes);
    assert FirstPrice(s.prices) == s.prices <==> |s.prices| <= 1;
  }

  lemma QuotedAlike(quotes: seq<ContractQuote>)
    ensures (forall i :: 0 <= i < |quotes| ==> SameQuoted(AllAsStored(quotes)[i], quotes[i]))
       <==> (forall q :: q in quotes ==> FromRest(q))
  {
    if forall i :: 0 <= i < |quotes| ==> SameQuoted(AllAsStored(quotes)[i], quotes[i]) {
      forall q | q in quotes ensures FromRest(q) {
        var i :| 0 <= i < |quotes| && quotes[i] == q;
        assert SameQuoted(AllAsStored(quotes)[i], quotes[i]);
      }
    }
    if forall q :: q in quotes ==> FromRest(q) {
      forall i | 0 <= i < |quotes| ensures SameQuoted(AllAsStored(quotes)[i], quotes[i]) {
        assert FromRest(quotes[i]);
      }
    }
  }

  lemma PricesAlike(prices: seq<(string, Decimal)>)
    ensures Meaning(PricesValue(FirstPrice(prices))) == Meaning(PricesValue(prices)) <==> |prices| <= 1
  {
    if |prices| <= 1 {
      assert FirstPrice(prices) == prices;
    } else if Meaning(PricesValue(FirstPrice(prices))) == Meaning(PricesValue(prices)) {
      PricesCounted(FirstPrice(prices), prices);
    }
  }

  /** The rebuilt snapshot hashes to what was recorded exactly when the snapshot is
      storable; the right of a contract is not part of the question. */
  lemma HashSurvivesExactly(host: Host, s: Snapshot)
    requires host.Sound()
    ensures SnapshotHash(host, Back(s)) == SnapshotHash(host, s) <==> Storable(s)
  {
    SnapshotHashBinds(host, Back(s), s);
    PricesAlike(s.prices);
    QuotedAlike(s.quotes);
  }

  // ----- replay_decision -----------------------------------------------------------------

  /** The columns of a recorded candidate that a replay compares. */
  datatype CandidateRow = CandidateRow(
    proposalHash: string,
    netCredit: Decimal,
    maxProfit: Decimal,
    maxLoss: Decimal,
    capitalReserve: Decimal,
    breakeven: Decimal,
    expectedValue: Decimal,
    edgeRatio: Decimal,
    liquidityScore: Decimal,
    shortDelta: Decimal)

  function RecordCandidate(host: Host, p: Proposal): CandidateRow {
    CandidateRow(ProposalHash(host, p), p.netCredit, p.maxProfit, p.maxLoss, p.capitalReserve, p.breakeven,
                 p.expectedValue, p.edgeRatio, p.liquidityScore, p.shortDelta)
  }

  /** `_compare` */
  function Compare(name: string, recorded: Decimal, replayed: Decimal): seq<string> {
    if recorded.V() == replayed.V() then [] else [name]
  }

  function Differences(c: CandidateRow, p: Proposal): seq<string> {
    Compare("net_credit", c.netCredit, p.netCredit) + Compare("max_profit", c.maxProfit, p.maxProfit)
    + Compare("max_loss", c.maxLoss, p.maxLoss) + Compare("capital_reserve", c.capitalReserve, p.capitalReserve)
    + Compare("breakeven", c.breakeven, p.breakeven) + Compare("expected_value", c.expectedValue, p.expectedValue)
    + Compare("edge_ratio", c.edgeRatio, p.edgeRatio) + Compare("liquidity_score", c.liquidityScore, p.liquidityScore)
    + Compare("short_delta", c.shortDelta, p.shortDelta)
  }

  function FirstWith(host: Host, ps: seq<Proposal>, hash: string): Option<Proposal> {
    if ps == [] then None else if ProposalHash(host, ps[0]) == hash then Some(ps[0]) else FirstWith(host, ps[1..], hash)
  }

  datatype ReplayResult =
    | Unreadable
    | SnapshotDrift
    | NotReproduced
    | Compared(diff: seq<string>)
  {
    predicate Deterministic() { Compared? && diff == [] }
  }

  /** `replay_decision`, from the rows it reads. */
  function ReplayDecision(host: Host, reader: IsoReader, row: SnapshotRow, c: CandidateRow): ReplayResult {
    match RebuildSnapshot(reader, row)
    case None => Unreadable
    case Some(s) =>
      if SnapshotHash(host, s) != row.snapshotHash then SnapshotDrift
      else
        match FirstWith(host, Price(host, s, DEFAULT_THRESHOLDS, None).proposals, c.proposalHash)
        case None => NotReproduced
        case Some(p) => Compared(Differences(c, p))
  }

  // ----- replay finds what was recorded ------------------------------------------------------

  lemma TwoLegs(short: ContractQuote, long: ContractQuote, m: map<string, ContractQuote>, n: map<string, ContractQuote>)
    requires short.symbol in m && short.symbol in n && m[short.symbol] == n[short.symbol]
    requires long.symbol in m && long.symbol in n && m[long.symbol] == n[long.symbol]
    ensures PositionGreeks(LegsOf(short, long), m) == PositionGreeks(LegsOf(short, long), n)
  {
    var legs := LegsOf(short, long);
    assert legs[..1] == [legs[0]] && legs[..1][..0] == [];
    assert Exposure(legs[..1][..0], m) == Exposure(legs[..1][..0], n);
    assert Exposure(legs[..1], m) == Exposure(legs[..1], n);
  }

  lemma SamePrice(pass: Pass, other: Pass, short: ContractQuote, long: ContractQuote)
    requires pass.host == other.host && pass.hash == other.hash && pass.asOf == other.asOf && pass.th == other.th
    requires PositionGreeks(LegsOf(short, long), pass.bySymbol) == PositionGreeks(LegsOf(short, long), other.bySymbol)
    ensures PriceOne(pass, short, long) == PriceOne(other, short, long)
  {
  }

  lemma SameSymbols(quotes: seq<ContractQuote>)
    requires DistinctSymbols(quotes)
    ensures DistinctSymbols(AllAsStored(quotes))
  {
  }

  lemma StoredMember(quotes: seq<ContractQuote>, q: ContractQuote)
    requires q in quotes && AsStored(q) == q
    ensures q in AllAsStored(quotes)
  {
    var i :| 0 <= i < |quotes| && quotes[i] == q;
    assert AllAsStored(quotes)[i] == q;
  }

  lemma UsableBothWays(quotes: seq<ContractQuote>, asOf: int, universe: Option<set<string>>, q: ContractQuote)
    requires DistinctSymbols(quotes) && q in quotes && AsStored(q) == q
    requires IsUsable(q, asOf, DEFAULT_THRESHOLDS, universe)
    ensures var a, b := UsableOf(quotes, asOf, DEFAULT_THRESHOLDS, universe),
                        UsableOf(AllAsStored(quotes), asOf, DEFAULT_THRESHOLDS, None);
      q in a && q in b && DistinctSymbols(a) && DistinctSymbols(b)
  {
    StoredMember(quotes, q);
    SameSymbols(quotes);
    UsableMembers(quotes, asOf / 86400, DEFAULT_THRESHOLDS, universe, q);
    UsableMembers(AllAsStored(quotes), asOf / 86400, DEFAULT_THRESHOLDS, None, q);
    UsableDistinct(quotes, asOf / 86400, DEFAULT_THRESHOLDS, universe);
    UsableDistinct(AllAsStored(quotes), asOf / 86400, DEFAULT_THRESHOLDS, None);
  }

  lemma LookedUpAlike(a: seq<ContractQuote>, b: seq<ContractQuote>, q: ContractQuote)
    requires DistinctSymbols(a) && DistinctSymbols(b) && q in a && q in b
    ensures q.symbol in BySymbol(a) && q.symbol in BySymbol(b)
    ensures BySymbol(a)[q.symbol] == BySymbol(b)[q.symbol] == q
  {
    BySymbolIndexes(a);
    BySymbolIndexes(b);
  }

  /** A pair the first pass priced is a pair of the replayed pass, at the same price. */
  lemma PairSurvives(host: Host, quotes: seq<ContractQuote>, asOf: int, hash: string, universe: Option<set<string>>,
                     x: Pair)
    requires DistinctSymbols(quotes) && x in EligiblePairs(quotes, asOf, DEFAULT_THRESHOLDS, universe)
    requires AsStored(x.0) == x.0 && AsStored(x.1) == x.1
    ensures x in EligiblePairs(AllAsStored(quotes), asOf, DEFAULT_THRESHOLDS, None)
    ensures PriceOne(PassOf(host, quotes, asOf, hash, DEFAULT_THRESHOLDS, universe), x.0, x.1)
         == PriceOne(PassOf(host, AllAsStored(quotes), asOf, hash, DEFAULT_THRESHOLDS, None), x.0, x.1)
  {
    UsableBothWays(quotes, asOf, universe, x.0);
    UsableBothWays(quotes, asOf, universe, x.1);
    StoredMember(quotes, x.0);
    StoredMember(quotes, x.1);
    var a, b := UsableOf(quotes, asOf, DEFAULT_THRESHOLDS, universe),
                UsableOf(AllAsStored(quotes), asOf, DEFAULT_THRESHOLDS, None);
    LookedUpAlike(a, b, x.0);
    LookedUpAlike(a, b, x.1);
    TwoLegs(x.0, x.1, BySymbol(a), BySymbol(b));
    SamePrice(PassOf(host, quotes, asOf, hash, DEFAULT_THRESHOLDS, universe),
              PassOf(host, AllAsStored(quotes), asOf, hash, DEFAULT_THRESHOLDS, None), x.0, x.1);
  }

  lemma PutsOnly(quotes: seq<ContractQuote>, asOf: int, universe: Option<set<string>>, x: Pair)
    requires forall q :: q in quotes ==> FromRest(q)
    requires x in EligiblePairs(quotes, asOf, DEFAULT_THRESHOLDS, universe)
    ensures AsStored(x.0) == x.0 && AsStored(x.1) == x.1
  {
  }

  /** Everything the first pass offered, the replayed pass offers too. */
  lemma OfferSurvives(host: Host, s: Snapshot, universe: Option<set<string>>, p: Proposal)
    requires DistinctSymbols(s.quotes) && Storable(s)
    requires p in Price(host, s, DEFAULT_THRESHOLDS, universe).proposals
    ensures p in PriceAll(host, AllAsStored(s.quotes), s.asOf, SnapshotHash(host, s), DEFAULT_THRESHOLDS,
                          None).proposals
  {
    var hash := SnapshotHash(host, s);
    CompleteAndConserved(host, s.quotes, s.asOf, hash, DEFAULT_THRESHOLDS, universe);
    SameSymbols(s.quotes);
    CompleteAndConserved(host, AllAsStored(s.quotes), s.asOf, hash, DEFAULT_THRESHOLDS, None);
    var pass := PassOf(host, s.quotes, s.asOf, hash, DEFAULT_THRESHOLDS, universe);
    var again := PassOf(host, AllAsStored(s.quotes), s.asOf, hash, DEFAULT_THRESHOLDS, None);
    var x :| x in EligiblePairs(s.quotes, s.asOf, DEFAULT_THRESHOLDS, universe)
             && PriceOne(pass, x.0, x.1) == Offered(p);
    PutsOnly(s.quotes, s.asOf, universe, x);
    PairSurvives(host, s.quotes, s.asOf, hash, universe, x);
    assert OfferedBy(again, EligiblePairs(AllAsStored(s.quotes), s.asOf, DEFAULT_THRESHOLDS, None), p);
  }

  lemma OfferedLegs(pass: Pass, short: ContractQuote, long: ContractQuote)
    requires PriceOne(pass, short, long).Offered?
    ensures PriceOne(pass, short, long).proposal.legs == LegsOf(short, long)
  {
  }

  /** Within one pass, two offers with one hash are one offer. */
  lemma HashFindsOne(host: Host, quotes: seq<ContractQuote>, asOf: int, hash: string, p: Proposal, q: Proposal)
    requires host.Sound() && DistinctSymbols(quotes) && ProposalHash(host, p) == ProposalHash(host, q)
    requires p in PriceAll(host, quotes, asOf, hash, DEFAULT_THRESHOLDS, None).proposals
    requires q in PriceAll(host, quotes, asOf, hash, DEFAULT_THRESHOLDS, None).proposals
    ensures p == q
  {
    CompleteAndConserved(host, quotes, asOf, hash, DEFAULT_THRESHOLDS, None);
    ProposalHashBinds(host, p, q);
    var pass := PassOf(host, quotes, asOf, hash, DEFAULT_THRESHOLDS, None);
    var pairs := EligiblePairs(quotes, asOf, DEFAULT_THRESHOLDS, None);
    var x :| x in pairs && PriceOne(pass, x.0, x.1) == Offered(p);
    var y :| y in pairs && PriceOne(pass, y.0, y.1) == Offered(q);
    OfferedLegs(pass, x.0, x.1);
    OfferedLegs(pass, y.0, y.1);
    SamePair(quotes, x, y, p.legs);
  }

  lemma SamePair(quotes: seq<ContractQuote>, x: Pair, y: Pair, legs: seq<Leg>)
    requires DistinctSymbols(quotes) && x.0 in quotes && x.1 in quotes && y.0 in quotes && y.1 in quotes
    requires LegsOf(x.0, x.1) == legs == LegsOf(y.0, y.1)
    ensures x == y
  {
    assert legs[0].symbol == x.0.symbol == y.0.symbol && legs[1].symbol == x.1.symbol == y.1.symbol;
    SymbolsTellApart(quotes, x.0, y.0);
    SymbolsTellApart(quotes, x.1, y.1);
  }

  lemma {:induction false} FirstFound(host: Host, ps: seq<Proposal>, p: Proposal)
    requires p in ps && forall q :: q in ps && ProposalHash(host, q) == ProposalHash(host, p) ==> q == p
    ensures FirstWith(host, ps, ProposalHash(host, p)) == Some(p)
  {
    if ps[0] != p {
      assert ps[0] in ps && p in ps[1..];
      FirstFound(host, ps[1..], p);
    }
  }

  lemma ReplayFinds(host: Host, s: Snapshot, universe: Option<set<string>>, p: Proposal)
    requires host.Sound() && DistinctSymbols(s.quotes) && Storable(s)
    requires p in Price(host, s, DEFAULT_THRESHOLDS, universe).proposals
    ensures FirstWith(host, Price(host, Back(s), DEFAULT_THRESHOLDS, None).proposals, ProposalHash(host, p)) == Some(p)
  {
    HashSurvivesExactly(host, s);
    OfferSurvives(host, s, universe, p);
    var hash := SnapshotHash(host, s);
    var again := PriceAll(host, AllAsStored(s.quotes), s.asOf, hash, DEFAULT_THRESHOLDS, None).proposals;
    SameSymbols(s.quotes);
    forall q | q in again && ProposalHash(host, q) == ProposalHash(host, p) ensures q == p {
      HashFindsOne(host, AllAsStored(s.quotes), s.asOf, hash, p, q);
    }
    FirstFound(host, again, p);
  }

  /** The replay promise, exactly. For everything a pass over any snapshot offered, in any
      universe: the replay finds it and reports no difference if and only if the snapshot
      held one underlying price at most and only tradable quotes from the REST path. A chain
      with calls in it replays too, though its calls come back as puts. */
  lemma ReplayIsDeterministicExactly(host: Host, reader: IsoReader, s: Snapshot, universe: Option<set<string>>,
                                     p: Proposal)
    requires host.Sound() && reader.Reads(host) && DistinctSymbols(s.quotes)
    requires p in Price(host, s, DEFAULT_THRESHOLDS, universe).proposals
    ensures var replayed := ReplayDecision(host, reader, StoreSnapshot(host, s), RecordCandidate(host, p));
      replayed.Deterministic() <==> Storable(s)
  {
    SnapshotRoundTrip(host, reader, s);
    HashSurvivesExactly(host, s);
    if Storable(s) {
      ReplayFinds(host, s, universe, p);
      NoDifferences(host, p);
    }
  }

  lemma NoDifferences(host: Host, p: Proposal)
    ensures Differences(RecordCandidate(host, p), p) == []
  {
  }

  // ----- what the diff says -----------------------------------------------------------------

  const COLUMNS := ["net_credit", "max_profit", "max_loss", "capital_reserve", "breakeven", "expected_value",
                    "edge_ratio", "liquidity_score", "short_delta"]

  /** A candidate's nine amounts as recorded, and a proposal's as replayed. */
  function RecordedAmounts(c: CandidateRow): (r: seq<real>)
    ensures |r| == |COLUMNS|
  {
    [ c.netCredit.V(), c.maxProfit.V(), c.maxLoss.V(), c.capitalReserve.V(), c.breakeven.V(), c.expectedValue.V(),
      c.edgeRatio.V(), c.liquidityScore.V(), c.shortDelta.V() ]
  }

  function ReplayedAmounts(p: Proposal): (r: seq<real>)
    ensures |r| == |COLUMNS|
  {
    [ p.netCredit.V(), p.maxProfit.V(), p.maxLoss.V(), p.capitalReserve.V(), p.breakeven.V(), p.expectedValue.V(),
      p.edgeRatio.V(), p.liquidityScore.V(), p.shortDelta.V() ]
  }

  /** The diff is the columns whose amounts differ in value, each once and in the table's order. */
  ghost predicate ReportsExactly(diff: seq<string>, recorded: seq<real>, replayed: seq<real>)
    requires |recorded| == |replayed| == |COLUMNS|
  {
    exists at: seq<nat> :: ReportsAt(diff, at, recorded, replayed)
  }

  ghost predicate ReportsAt(diff: seq<string>, at: seq<nat>, recorded: seq<real>, replayed: seq<real>)
    requires |recorded| == |replayed| == |COLUMNS|
  {
    && |at| == |diff| && (forall k :: 0 <= k < |at| ==> at[k] < |COLUMNS| && diff[k] == COLUMNS[at[k]])
    && (forall j, k :: 0 <= j < k < |at| ==> at[j] < at[k])
    && forall i: nat :: i < |COLUMNS| ==> (i in at <==> recorded[i] != replayed[i])
  }

  /** The columns before this one that differ. */
  ghost function Differing(recorded: seq<real>, replayed: seq<real>, n: nat): (at: seq<nat>)
    requires |recorded| == |replayed| && n <= |recorded|
    ensures forall k :: 0 <= k < |at| ==> at[k] < n
    ensures forall j, k :: 0 <= j < k < |at| ==> at[j] < at[k]
    ensures forall i: nat :: i < n ==> (i in at <==> recorded[i] != replayed[i])
  {
    if n == 0 then []
    else
      var before := Differing(recorded, replayed, n - 1);
      if recorded[n - 1] != replayed[n - 1] then before + [n - 1] else before
  }

  function NamesAt(at: seq<nat>): seq<string>
    requires forall k :: 0 <= k < |at| ==> at[k] < |COLUMNS|
  {
    seq(|at|, k requires 0 <= k < |at| => COLUMNS[at[k]])
  }

  ghost function NamesTo(c: CandidateRow, p: Proposal, n: nat): seq<string>
    requires n <= |COLUMNS|
  {
    NamesAt(Differing(RecordedAmounts(c), ReplayedAmounts(p), n))
  }

  lemma NameNext(c: CandidateRow, p: Proposal, n: nat)
    requires n < |COLUMNS|
    ensures NamesTo(c, p, n + 1)
         == NamesTo(c, p, n) + (if RecordedAmounts(c)[n] == ReplayedAmounts(p)[n] then [] else [COLUMNS[n]])
  {
  }

  lemma OneName(c: CandidateRow, p: Proposal)
    ensures NamesTo(c, p, 1) == Compare("net_credit", c.netCredit, p.netCredit)
  {
    assert NamesTo(c, p, 0) == [];
    NameNext(c, p, 0);
  }

  lemma ThreeNames(c: CandidateRow, p: Proposal)
    ensures NamesTo(c, p, 3)
         == Compare("net_credit", c.netCredit, p.netCredit) + Compare("max_profit", c.maxProfit, p.maxProfit)
            + Compare("max_loss", c.maxLoss, p.maxLoss)
  {
    OneName(c, p);
    NameNext(c, p, 1);
    NameNext(c, p, 2);
  }

  lemma SixNames(c: CandidateRow, p: Proposal)
    ensures NamesTo(c, p, 6)
         == NamesTo(c, p, 3) + Compare("capital_reserve", c.capitalReserve, p.capitalReserve)
            + Compare("breakeven", c.breakeven, p.breakeven)
            + Compare("expected_value", c.expectedValue, p.expectedValue)
  {
    NameNext(c, p, 3);
    NameNext(c, p, 4);
    NameNext(c, p, 5);
  }

  lemma NineNames(c: CandidateRow, p: Proposal)
    ensures NamesTo(c, p, 9)
         == NamesTo(c, p, 6) + Compare("edge_ratio", c.edgeRatio, p.edgeRatio)
            + Compare("liquidity_score", c.liquidityScore, p.liquidityScore)
            + Compare("short_delta", c.shortDelta, p.shortDelta)
  {
    NameNext(c, p, 6);
    NameNext(c, p, 7);
    NameNext(c, p, 8);
  }

  lemma DiffNames(c: CandidateRow, p: Proposal)
    ensures Differences(c, p) == NamesTo(c, p, 9)
  {
    ThreeNames(c, p);
    SixNames(c, p);
    NineNames(c, p);
  }

  lemma DiffIsExact(c: CandidateRow, p: Proposal)
    ensures ReportsExactly(Differences(c, p), RecordedAmounts(c), ReplayedAmounts(p))
    ensures Differences(c, p) == [] <==> RecordedAmounts(c) == ReplayedAmounts(p)
  {
    DiffNames(c, p);
    var at := Differing(RecordedAmounts(c), ReplayedAmounts(p), |COLUMNS|);
    assert ReportsAt(Differences(c, p), at, RecordedAmounts(c), ReplayedAmounts(p));
    if RecordedAmounts(c) != ReplayedAmounts(p) {
      var i :| 0 <= i < |COLUMNS| && RecordedAmounts(c)[i] != ReplayedAmounts(p)[i];
      assert i in at;
    }
  }

  /** What a replay reports, whatever the candidate's row has come to hold. For everything a pass
      offered, and any row that carries its hash: a snapshot that is not storable is reported as
      drift; from any other the replay names exactly the columns whose amount differs from the
      proposal's, in order, and calls the decision deterministic exactly when none does. */
  lemma ReplayReportsExactly(host: Host, reader: IsoReader, s: Snapshot, universe: Option<set<string>>, p: Proposal,
                             c: CandidateRow)
    requires host.Sound() && reader.Reads(host) && DistinctSymbols(s.quotes)
    requires p in Price(host, s, DEFAULT_THRESHOLDS, universe).proposals && c.proposalHash == ProposalHash(host, p)
    ensures var replayed := ReplayDecision(host, reader, StoreSnapshot(host, s), c);
      && (!Storable(s) ==> replayed == SnapshotDrift)
      && (Storable(s) ==>
            replayed.Compared? && ReportsExactly(replayed.diff, RecordedAmounts(c), ReplayedAmounts(p)))
      && (replayed.Deterministic() <==> Storable(s) && RecordedAmounts(c) == ReplayedAmounts(p))
  {
    SnapshotRoundTrip(host, reader, s);
    HashSurvivesExactly(host, s);
    if Storable(s) {
      ReplayFinds(host, s, universe, p);
      DiffIsExact(c, p);
    }
  }

  lemma {:induction false} FirstWithExactly(host: Host, ps: seq<Proposal>, hash: string)
    ensures FirstWith(host, ps, hash).None? <==> forall p :: p in ps ==> ProposalHash(host, p) != hash
  {
    if ps != [] && ProposalHash(host, ps[0]) != hash {
      FirstWithExactly(host, ps[1..], hash);
      assert forall p :: p in ps <==> p == ps[0] || p in ps[1..];
    }
  }

  /** A candidate is reported as not reproduced exactly when nothing the rebuilt snapshot offers
      carries its hash. */
  lemma NotReproducedExactly(host: Host, reader: IsoReader, s: Snapshot, c: CandidateRow)
    requires host.Sound() && reader.Reads(host) && Storable(s)
    ensures ReplayDecision(host, reader, StoreSnapshot(host, s), c) == NotReproduced <==>
      forall p :: p in Price(host, Back(s), DEFAULT_THRESHOLDS, None).proposals ==>
        ProposalHash(host, p) != c.proposalHash
  {
    SnapshotRoundTrip(host, reader, s);
    HashSurvivesExactly(host, s);
    FirstWithExactly(host, Price(host, Back(s), DEFAULT_THRESHOLDS, None).proposals, c.proposalHash);
  }

  /** Two snapshots that differ in a strike share a hash, so the second is never stored:
      its candidates are tied to the first one's row. */
  lemma StrikeSharesRow(host: Host, s: Snapshot, i: nat, strike: Decimal)
    requires i < |s.quotes|
    ensures var other := s.(quotes := s.quotes[i := s.quotes[i].(strike := strike)]);
      IndexOf([StoreSnapshot(host, s)], SnapshotHash(host, other)) == 0
      && (strike != s.quotes[i].strike ==> StoreSnapshot(host, other) != StoreSnapshot(host, s))
  {
    var q := s.quotes[i];
    TermsAreNotHashed(host, s, i, q.underlying, q.right, strike, q.expiry);
    var other := s.(quotes := s.quotes[i := q.(strike := strike)]);
    assert other == s.(quotes := s.quotes[i := q.(underlying := q.underlying, right := q.right, strike := strike,
                                                  expiry := q.expiry)]);
    if StoreSnapshot(host, other) == StoreSnapshot(host, s) {
      assert StoreQuotes(host, other.quotes)[i] == StoreQuotes(host, s.quotes)[i];
      TextInjective(strike, q.strike);
    }
  }
}
