/** How often a pricing pass reports each thing: once for every pair or quote it comes from. */
module ActuaryCounts {
  import opened Decimals
  import opened Sorting
  import opened Domain
  import opened Market
  import opened Actuary
  import opened ActuaryLaws

  ghost function Sources<A, B>(s: set<A>, f: A -> Option<B>, y: B): set<A> {
    set x | x in s && f(x) == Some(y)
  }

  ghost function Members<A>(s: seq<A>): set<A> {
    set x | x in s
  }

  lemma SourcesNext<A, B>(before: seq<A>, x: A, f: A -> Option<B>, y: B)
    requires x !in before
    ensures |Sources(Members(before + [x]), f, y)|
         == |Sources(Members(before), f, y)| + (if f(x) == Some(y) then 1 else 0)
  {
    var was := Sources(Members(before), f, y);
    if f(x) == Some(y) {
      assert Sources(Members(before + [x]), f, y) == was + {x};
    } else {
      assert Sources(Members(before + [x]), f, y) == was;
    }
  }

  /** Picking from elements that are there once keeps every picked value as often as it has
      sources. */
  lemma {:induction false} PickMultiplicity<A, B>(s: seq<A>, f: A -> Option<B>, y: B)
    requires NoDup(s)
    ensures multiset(Pick(s, f))[y] == |Sources(Members(s), f, y)|
  {
    if s == [] {
      assert Sources(Members(s), f, y) == {};
    } else {
      LastIsNew(s);
      PickMultiplicity(s[..|s| - 1], f, y);
      SourcesNext(s[..|s| - 1], s[|s| - 1], f, y);
    }
  }

  /** The pairs offered at a proposal, the pairs dropped with a discard, and the quotes thrown
      out with it. */
  ghost function OfferingPairs(pass: Pass, pairs: set<Pair>, p: Proposal): set<Pair> {
    set x | x in pairs && PriceOne(pass, x.0, x.1) == Offered(p)
  }

  ghost function DroppingPairs(pass: Pass, pairs: set<Pair>, d: Discard): set<Pair> {
    set x | x in pairs && PriceOne(pass, x.0, x.1) == Dropped(d)
  }

  ghost function ThrownQuotes(unusable: set<ContractQuote>, today: int, th: Thresholds,
                              d: Discard): set<ContractQuote> {
    set q | q in unusable && Screen(q, today, th) == Some(d.reason) && q.symbol == d.candidateId
  }

  lemma SourcesOfOffer(pass: Pass, pairs: set<Pair>, p: Proposal)
    ensures Sources(pairs, Offer(pass), p) == OfferingPairs(pass, pairs, p)
  {
    forall x: Pair ensures Offer(pass)(x) == Some(p) <==> PriceOne(pass, x.0, x.1) == Offered(p) {
    }
  }

  lemma SourcesOfDrop(pass: Pass, pairs: set<Pair>, d: Discard)
    ensures Sources(pairs, Drop(pass), d) == DroppingPairs(pass, pairs, d)
  {
    forall x: Pair ensures Drop(pass)(x) == Some(d) <==> PriceOne(pass, x.0, x.1) == Dropped(d) {
    }
  }

  lemma SourcesOfThrown(quotes: seq<ContractQuote>, asOf: int, th: Thresholds, universe: Option<set<string>>,
                        d: Discard)
    ensures Sources(Members(quotes), Thrown(asOf / 86400, th, universe), d)
         == ThrownQuotes(Unusable(quotes, asOf, th, universe), asOf / 86400, th, d)
  {
    var f := Thrown(asOf / 86400, th, universe);
    forall q: ContractQuote
      ensures f(q) == Some(d) <==>
        InScope(q, universe) && Screen(q, asOf / 86400, th) == Some(d.reason) && q.symbol == d.candidateId
    {
    }
  }

  lemma DistinctQuotes(quotes: seq<ContractQuote>)
    requires DistinctSymbols(quotes)
    ensures NoDup(quotes)
  {
  }

  /** The pass as multisets: every proposal is there as often as eligible pairs are offered at
      it, and every discard as often as pairs are dropped and quotes thrown out with it. */
  lemma EachAsOften(host: Host, quotes: seq<ContractQuote>, asOf: int, hash: string, th: Thresholds,
                    universe: Option<set<string>>, p: Proposal, d: Discard)
    requires DistinctSymbols(quotes)
    ensures var r := PriceAll(host, quotes, asOf, hash, th, universe);
      var pass := PassOf(host, quotes, asOf, hash, th, universe);
      var pairs := EligiblePairs(quotes, asOf, th, universe);
      var thrown := ThrownQuotes(Unusable(quotes, asOf, th, universe), asOf / 86400, th, d);
      && multiset(r.proposals)[p] == |OfferingPairs(pass, pairs, p)|
      && multiset(r.discards)[d] == |DroppingPairs(pass, pairs, d)| + |thrown|
  {
    var pass := PassOf(host, quotes, asOf, hash, th, universe);
    var ordered := Sort(UsableOf(quotes, asOf, th, universe), QuoteLe);
    var pairs := PairsOf(ordered, ordered, th);
    OrderedPairs(quotes, asOf, th, universe);
    PickMultiplicity(pairs, Offer(pass), p);
    PickMultiplicity(pairs, Drop(pass), d);
    DistinctQuotes(quotes);
    PickMultiplicity(quotes, Thrown(asOf / 86400, th, universe), d);
    SourcesOfOffer(pass, Members(pairs), p);
    SourcesOfDrop(pass, Members(pairs), d);
    SourcesOfThrown(quotes, asOf, th, universe, d);
    SortKeeps(Pick(pairs, Offer(pass)), ProposalLe);
  }
}
