/** What a pricing pass guarantees: nothing lost, nothing invented, no dependence on the
    order of the chain, and nothing offered that the Kernel's quality rules would refuse. */
module ActuaryLaws {
  import opened Strings
  import opened Decimals
  import opened Sorting
  import opened Canonical
  import opened Domain
  import opened KernelState
  import opened Rules
  import opened Market
  import opened Formulas
  import opened Actuary

  // ----- picking ------------------------------------------------------------------

  ghost predicate PickedFrom<A, B>(s: seq<A>, f: A -> Option<B>, y: B) {
    exists x :: x in s && f(x) == Some(y)
  }

  lemma {:induction false} PickMembers<A, B>(s: seq<A>, f: A -> Option<B>, y: B)
    ensures y in Pick(s, f) <==> PickedFrom(s, f, y)
  {
    if s != [] {
      var before, last := s[..|s| - 1], s[|s| - 1];
      PickMembers(before, f, y);
      assert s == before + [last];
    }
  }

  lemma Split<T>(s: seq<T>, i: nat)
    requires i < |s|
    ensures s == s[..i] + ([s[i]] + s[i + 1..])
    ensures multiset(s) == multiset(s[..i] + s[i + 1..]) + multiset{s[i]}
  {
    assert s == s[..i] + ([s[i]] + s[i + 1..]);
  }

  lemma PickWithout<A, B>(s: seq<A>, i: nat, f: A -> Option<B>)
    requires i < |s|
    ensures multiset(Pick(s, f))
         == multiset(Pick(s[..i] + s[i + 1..], f)) + (match f(s[i]) case Some(b) => multiset{b} case None => multiset{})
  {
    Split(s, i);
    PickConcat(s[..i], [s[i]] + s[i + 1..], f);
    PickConcat([s[i]], s[i + 1..], f);
    PickConcat(s[..i], s[i + 1..], f);
    assert [s[i]][..0] == [];
    assert Pick([s[i]], f) == match f(s[i]) case Some(b) => [b] case None => [];
  }

  lemma SameRest<T>(a: multiset<T>, b: multiset<T>, x: T)
    requires a + multiset{x} == b + multiset{x}
    ensures a == b
  {
    assert a == (a + multiset{x}) - multiset{x};
    assert b == (b + multiset{x}) - multiset{x};
  }

  /** Picking keeps no order but the one it is given. */
  lemma {:induction false} PickPermuted<A, B>(a: seq<A>, b: seq<A>, f: A -> Option<B>)
    requires multiset(a) == multiset(b)
    ensures multiset(Pick(a, f)) == multiset(Pick(b, f))
    decreases |a|
  {
    assert |multiset(a)| == |a| && |multiset(b)| == |b|;
    if a != [] {
      var n := |a| - 1;
      SameMultisetSameMembers(a, b, a[n]);
      var i :| 0 <= i < |b| && b[i] == a[n];
      Split(a, n);
      Split(b, i);
      assert a[..n] + a[n + 1..] == a[..n];
      SameRest(multiset(a[..n]), multiset(b[..i] + b[i + 1..]), a[n]);
      PickPermuted(a[..n], b[..i] + b[i + 1..], f);
      PickWithout(a, n, f);
      PickWithout(b, i, f);
    }
  }

  lemma {:induction false} PickSplits<A, B, C>(s: seq<A>, f: A -> Option<B>, g: A -> Option<C>, h: A -> Option<A>)
    requires forall x :: x in s ==> (f(x).Some? <==> h(x).Some? && !g(x).Some?) && (g(x).Some? ==> h(x).Some?)
    ensures |Pick(s, f)| + |Pick(s, g)| == |Pick(s, h)|
  {
    if s != [] {
      assert s[|s| - 1] in s;
      PickSplits(s[..|s| - 1], f, g, h);
    }
  }

  // ----- distinct symbols -------------------------------------------------------------

  ghost predicate NoDup<T>(s: seq<T>) {
    forall i, j :: 0 <= i < j < |s| ==> s[i] != s[j]
  }

  lemma LastIsNew<T>(s: seq<T>)
    requires NoDup(s) && s != []
    ensures NoDup(s[..|s| - 1]) && s[|s| - 1] !in s[..|s| - 1]
    ensures s == s[..|s| - 1] + [s[|s| - 1]]
  {
  }

  lemma LastSymbolIsNew(quotes: seq<ContractQuote>)
    requires DistinctSymbols(quotes) && quotes != []
    ensures DistinctSymbols(quotes[..|quotes| - 1])
    ensures forall q :: q in quotes[..|quotes| - 1] ==> q.symbol != quotes[|quotes| - 1].symbol
    ensures quotes == quotes[..|quotes| - 1] + [quotes[|quotes| - 1]]
  {
  }

  lemma {:induction false} CountsOnce<T>(s: seq<T>, x: T)
    requires NoDup(s)
    ensures multiset(s)[x] == if x in s then 1 else 0
  {
    if s != [] {
      var n := |s| - 1;
      CountsOnce(s[..n], x);
      assert s == s[..n] + [s[n]];
    }
  }

  lemma CountsTwice<T>(s: seq<T>, i: nat, j: nat)
    requires i < j < |s| && s[i] == s[j]
    ensures multiset(s)[s[i]] >= 2
  {
    assert s == s[..j] + ([s[j]] + s[j + 1..]);
    assert s[..j][i] in s[..j];
  }

  lemma {:induction false} SetSize<T>(s: seq<T>)
    requires NoDup(s)
    ensures |set x | x in s| == |s|
  {
    if s == [] {
      assert (set x | x in s) == {};
    } else {
      var n := |s| - 1;
      SetSize(s[..n]);
      assert (set x | x in s) == (set x | x in s[..n]) + {s[n]};
    }
  }

  lemma DistinctPermuted(a: seq<ContractQuote>, b: seq<ContractQuote>)
    requires DistinctSymbols(a) && multiset(a) == multiset(b)
    ensures DistinctSymbols(b)
  {
    forall i, j | 0 <= i < j < |b| ensures b[i].symbol != b[j].symbol {
      if b[i].symbol == b[j].symbol {
        SameMultisetSameMembers(a, b, b[i]);
        SameMultisetSameMembers(a, b, b[j]);
        SymbolsTellApart(a, b[i], b[j]);
        CountsTwice(b, i, j);
        CountsOnce(a, b[i]);
        assert false;
      }
    }
  }

  lemma UsableMembers(quotes: seq<ContractQuote>, today: int, th: Thresholds, universe: Option<set<string>>,
                      q: ContractQuote)
    ensures q in Pick(quotes, Usable(today, th, universe)) <==>
      q in quotes && InScope(q, universe) && Screen(q, today, th).None?
  {
    var f := Usable(today, th, universe);
    PickMembers(quotes, f, q);
    if q in quotes && InScope(q, universe) && Screen(q, today, th).None? {
      assert f(q) == Some(q);
    }
  }

  lemma {:induction false} UsableDistinct(quotes: seq<ContractQuote>, today: int, th: Thresholds,
                                          universe: Option<set<string>>)
    requires DistinctSymbols(quotes)
    ensures DistinctSymbols(Pick(quotes, Usable(today, th, universe)))
  {
    if quotes != [] {
      var before, last := quotes[..|quotes| - 1], quotes[|quotes| - 1];
      UsableDistinct(before, today, th, universe);
      var kept := Pick(before, Usable(today, th, universe));
      LastSymbolIsNew(quotes);
      forall i | 0 <= i < |kept| ensures kept[i].symbol != last.symbol {
        UsableMembers(before, today, th, universe, kept[i]);
      }
    }
  }

  ghost predicate Indexes(m: map<string, ContractQuote>, quotes: seq<ContractQuote>) {
    && (forall q :: q in quotes ==> q.symbol in m && m[q.symbol] == q)
    && (forall k :: k in m ==> m[k] in quotes && m[k].symbol == k)
  }

  lemma IndexesNext(m: map<string, ContractQuote>, before: seq<ContractQuote>, q: ContractQuote)
    requires Indexes(m, before) && forall x :: x in before ==> x.symbol != q.symbol
    ensures Indexes(m[q.symbol := q], before + [q])
  {
  }

  lemma {:induction false} BySymbolIndexes(quotes: seq<ContractQuote>)
    requires DistinctSymbols(quotes)
    ensures Indexes(BySymbol(quotes), quotes)
  {
    if quotes != [] {
      LastSymbolIsNew(quotes);
      BySymbolIndexes(quotes[..|quotes| - 1]);
      IndexesNext(BySymbol(quotes[..|quotes| - 1]), quotes[..|quotes| - 1], quotes[|quotes| - 1]);
    }
  }

  lemma BySymbolForgetsOrder(a: seq<ContractQuote>, b: seq<ContractQuote>)
    requires DistinctSymbols(a) && multiset(a) == multiset(b)
    ensures BySymbol(a) == BySymbol(b)
  {
    DistinctPermuted(a, b);
    BySymbolIndexes(a);
    BySymbolIndexes(b);
    var m, n := BySymbol(a), BySymbol(b);
    forall k | k in m ensures k in n && n[k] == m[k] {
      SameMultisetSameMembers(a, b, m[k]);
    }
    forall k | k in n ensures k in m {
      SameMultisetSameMembers(a, b, n[k]);
    }
  }

  // ----- order independence ----------------------------------------------------------------

  /** Whatever order the chain comes in: the same proposals in the same order, and the
      same discards, each as often. */
  lemma OrderIndependence(host: Host, a: seq<ContractQuote>, b: seq<ContractQuote>, asOf: int, hash: string,
                          th: Thresholds, universe: Option<set<string>>)
    requires DistinctSymbols(a) && multiset(a) == multiset(b)
    ensures PriceAll(host, a, asOf, hash, th, universe).proposals
         == PriceAll(host, b, asOf, hash, th, universe).proposals
    ensures multiset(PriceAll(host, a, asOf, hash, th, universe).discards)
         == multiset(PriceAll(host, b, asOf, hash, th, universe).discards)
  {
    var x, y := UsableOf(a, asOf, th, universe), UsableOf(b, asOf, th, universe);
    PickPermuted(a, b, Usable(asOf / 86400, th, universe));
    PickPermuted(a, b, Thrown(asOf / 86400, th, universe));
    UsableDistinct(a, asOf / 86400, th, universe);
    BySymbolForgetsOrder(x, y);
    QuoteLeIsTotalPreorder();
    QuotesKeyedApart(x);
    SortForgetsOrder(x, y, QuoteLe);
  }

  lemma ProposalLeIsTotalPreorder()
    ensures TotalPreorder(ProposalLe)
  {
    forall a: Proposal, b: Proposal ensures ProposalLe(a, b) || ProposalLe(b, a) {
      TextOrder(a.candidateId, b.candidateId, "");
    }
    forall a: Proposal, b: Proposal, c: Proposal | ProposalLe(a, b) && ProposalLe(b, c) ensures ProposalLe(a, c) {
      TextOrder(a.candidateId, b.candidateId, c.candidateId);
    }
  }

  // ----- completeness and conservation ------------------------------------------------------

  lemma {:induction false} PartnerMembers(short: ContractQuote, longs: seq<ContractQuote>, th: Thresholds, x: Pair)
    ensures x in PartnersOf(short, longs, th) <==> x.0 == short && x.1 in longs && Pairs(short, x.1, th)
  {
    if longs != [] {
      var before, last := longs[..|longs| - 1], longs[|longs| - 1];
      PartnerMembers(short, before, th, x);
      assert longs == before + [last];
    }
  }

  lemma {:induction false} PairMembers(shorts: seq<ContractQuote>, longs: seq<ContractQuote>, th: Thresholds, x: Pair)
    ensures x in PairsOf(shorts, longs, th) <==> x.0 in shorts && x.1 in longs && Eligible(x.0, x.1, th)
  {
    if shorts != [] {
      var before, last := shorts[..|shorts| - 1], shorts[|shorts| - 1];
      PairMembers(before, longs, th, x);
      PartnerMembers(last, longs, th, x);
      assert shorts == before + [last];
    }
  }

  lemma {:induction false} PartnersOnce(short: ContractQuote, longs: seq<ContractQuote>, th: Thresholds)
    requires NoDup(longs)
    ensures NoDup(PartnersOf(short, longs, th))
  {
    if longs != [] {
      var before, last := longs[..|longs| - 1], longs[|longs| - 1];
      LastIsNew(longs);
      PartnersOnce(short, before, th);
      PartnerMembers(short, before, th, (short, last));
    }
  }

  lemma NoDupConcat<T>(a: seq<T>, b: seq<T>)
    requires NoDup(a) && NoDup(b) && forall x :: x in a ==> x !in b
    ensures NoDup(a + b)
  {
    forall i, j | 0 <= i < j < |a + b| ensures (a + b)[i] != (a + b)[j] {
      if i < |a| <= j {
        assert a[i] in a && b[j - |a|] in b;
      }
    }
  }

  lemma {:induction false} PairsOnce(shorts: seq<ContractQuote>, longs: seq<ContractQuote>, th: Thresholds)
    requires NoDup(shorts) && NoDup(longs)
    ensures NoDup(PairsOf(shorts, longs, th))
  {
    if shorts != [] {
      var before, last := shorts[..|shorts| - 1], shorts[|shorts| - 1];
      LastIsNew(shorts);
      PairsOnce(before, longs, th);
      PartnersOnce(last, longs, th);
      var a, b := PairsOf(before, longs, th), PartnersOf(last, longs, th);
      forall x | x in a ensures x !in b {
        PairMembers(before, longs, th, x);
        PartnerMembers(last, longs, th, x);
      }
      NoDupConcat(a, b);
    }
  }

  function PassOf(host: Host, quotes: seq<ContractQuote>, asOf: int, hash: string, th: Thresholds,
                  universe: Option<set<string>>): Pass {
    Pass(host, hash, asOf, th, BySymbol(UsableOf(quotes, asOf, th, universe)))
  }

  /** A put of the universe that passes every check on a single quote. */
  predicate IsUsable(q: ContractQuote, asOf: int, th: Thresholds, universe: Option<set<string>>) {
    InScope(q, universe) && Screen(q, asOf / 86400, th).None?
  }

  /** Every ordered pair of usable quotes that makes a spread. */
  function EligiblePairs(quotes: seq<ContractQuote>, asOf: int, th: Thresholds,
                         universe: Option<set<string>>): set<Pair> {
    set short, long | short in quotes && long in quotes && IsUsable(short, asOf, th, universe)
                      && IsUsable(long, asOf, th, universe) && Eligible(short, long, th) :: (short, long)
  }

  /** Every put of the universe that is not usable. */
  function Unusable(quotes: seq<ContractQuote>, asOf: int, th: Thresholds,
                    universe: Option<set<string>>): set<ContractQuote> {
    set q | q in quotes && InScope(q, universe) && Screen(q, asOf / 86400, th).Some?
  }

  lemma OrderedPairs(quotes: seq<ContractQuote>, asOf: int, th: Thresholds, universe: Option<set<string>>)
    requires DistinctSymbols(quotes)
    ensures var ordered := Sort(UsableOf(quotes, asOf, th, universe), QuoteLe);
      var pairs := PairsOf(ordered, ordered, th);
      NoDup(pairs) && (set x | x in pairs) == EligiblePairs(quotes, asOf, th, universe)
  {
    var usable := UsableOf(quotes, asOf, th, universe);
    var ordered := Sort(usable, QuoteLe);
    UsableDistinct(quotes, asOf / 86400, th, universe);
    SortKeeps(usable, QuoteLe);
    DistinctPermuted(usable, ordered);
    PairsOnce(ordered, ordered, th);
    forall x: Pair ensures x in PairsOf(ordered, ordered, th) <==> x in EligiblePairs(quotes, asOf, th, universe) {
      PairMembers(ordered, ordered, th, x);
      SortMembers(usable, QuoteLe, x.0);
      SortMembers(usable, QuoteLe, x.1);
      UsableMembers(quotes, asOf / 86400, th, universe, x.0);
      UsableMembers(quotes, asOf / 86400, th, universe, x.1);
    }
  }

  /** Where a proposal comes from. */
  ghost predicate OfferedBy(pass: Pass, pairs: set<Pair>, p: Proposal) {
    exists x :: x in pairs && PriceOne(pass, x.0, x.1) == Offered(p)
  }

  /** Where a discard comes from: a pair that was priced, or a quote that was screened. */
  ghost predicate DroppedBy(pass: Pass, pairs: set<Pair>, d: Discard) {
    exists x :: x in pairs && PriceOne(pass, x.0, x.1) == Dropped(d)
  }

  ghost predicate ThrownBy(quotes: set<ContractQuote>, today: int, th: Thresholds, d: Discard) {
    exists q :: q in quotes && Screen(q, today, th).Some? && d == Discard(q.symbol, Screen(q, today, th).value)
  }

  lemma OfferMembers(pass: Pass, pairs: seq<Pair>, p: Proposal)
    ensures p in Pick(pairs, Offer(pass)) <==> OfferedBy(pass, (set x | x in pairs), p)
  {
    PickMembers(pairs, Offer(pass), p);
    if p in Pick(pairs, Offer(pass)) {
      var x :| x in pairs && Offer(pass)(x) == Some(p);
      assert x in set y | y in pairs;
    }
    if OfferedBy(pass, (set x | x in pairs), p) {
      var x :| x in pairs && PriceOne(pass, x.0, x.1) == Offered(p);
      assert Offer(pass)(x) == Some(p);
    }
  }

  lemma DropMembers(pass: Pass, pairs: seq<Pair>, d: Discard)
    ensures d in Pick(pairs, Drop(pass)) <==> DroppedBy(pass, (set x | x in pairs), d)
  {
    PickMembers(pairs, Drop(pass), d);
    if d in Pick(pairs, Drop(pass)) {
      var x :| x in pairs && Drop(pass)(x) == Some(d);
      assert x in set y | y in pairs;
    }
    if DroppedBy(pass, (set x | x in pairs), d) {
      var x :| x in pairs && PriceOne(pass, x.0, x.1) == Dropped(d);
      assert Drop(pass)(x) == Some(d);
    }
  }

  lemma ThrownMembers(quotes: seq<ContractQuote>, asOf: int, th: Thresholds, universe: Option<set<string>>, d: Discard)
    ensures d in Pick(quotes, Thrown(asOf / 86400, th, universe)) <==>
      ThrownBy(Unusable(quotes, asOf, th, universe), asOf / 86400, th, d)
  {
    var f := Thrown(asOf / 86400, th, universe);
    PickMembers(quotes, f, d);
    if d in Pick(quotes, f) {
      var q :| q in quotes && f(q) == Some(d);
      assert q in Unusable(quotes, asOf, th, universe);
    }
    if ThrownBy(Unusable(quotes, asOf, th, universe), asOf / 86400, th, d) {
      var q :| q in Unusable(quotes, asOf, th, universe) && Screen(q, asOf / 86400, th).Some?
               && d == Discard(q.symbol, Screen(q, asOf / 86400, th).value);
      assert f(q) == Some(d);
    }
  }

  function Itself<T>(): T -> Option<T> {
    (x: T) => Some(x)
  }

  lemma {:induction false} PickItself<T>(s: seq<T>)
    ensures Pick(s, Itself()) == s
  {
    if s != [] {
      PickItself(s[..|s| - 1]);
      assert s == s[..|s| - 1] + [s[|s| - 1]];
    }
  }

  lemma OfferOrDrop(pass: Pass, pairs: seq<Pair>)
    ensures |Pick(pairs, Offer(pass))| + |Pick(pairs, Drop(pass))| == |pairs|
  {
    PickSplits(pairs, Offer(pass), Drop(pass), Itself());
    PickItself(pairs);
  }

  lemma UnusableNext(before: seq<ContractQuote>, q: ContractQuote, asOf: int, th: Thresholds,
                     universe: Option<set<string>>)
    requires q !in before
    ensures |Unusable(before + [q], asOf, th, universe)|
         == |Unusable(before, asOf, th, universe)|
            + (if InScope(q, universe) && Screen(q, asOf / 86400, th).Some? then 1 else 0)
  {
    var was := Unusable(before, asOf, th, universe);
    if InScope(q, universe) && Screen(q, asOf / 86400, th).Some? {
      assert Unusable(before + [q], asOf, th, universe) == was + {q};
    } else {
      assert Unusable(before + [q], asOf, th, universe) == was;
    }
  }

  lemma ThrownNext(quotes: seq<ContractQuote>, today: int, th: Thresholds, universe: Option<set<string>>)
    requires quotes != []
    ensures var q := quotes[|quotes| - 1];
      |Pick(quotes, Thrown(today, th, universe))|
      == |Pick(quotes[..|quotes| - 1], Thrown(today, th, universe))|
         + (if InScope(q, universe) && Screen(q, today, th).Some? then 1 else 0)
  {
  }

  lemma {:induction false} ThrownOnce(quotes: seq<ContractQuote>, asOf: int, th: Thresholds,
                                      universe: Option<set<string>>)
    requires DistinctSymbols(quotes)
    ensures |Pick(quotes, Thrown(asOf / 86400, th, universe))| == |Unusable(quotes, asOf, th, universe)|
  {
    if quotes == [] {
      assert Unusable(quotes, asOf, th, universe) == {};
    } else {
      LastSymbolIsNew(quotes);
      ThrownOnce(quotes[..|quotes| - 1], asOf, th, universe);
      UnusableNext(quotes[..|quotes| - 1], quotes[|quotes| - 1], asOf, th, universe);
      ThrownNext(quotes, asOf / 86400, th, universe);
    }
  }

  /** A pass loses nothing and invents nothing. Its proposals are exactly what eligible pairs
      of usable puts were offered at; its discards are exactly the failing pairs and the
      unusable puts of the universe; and the two counts add up, so each of those is there
      once. Proposals end sorted, best edge first and then by id. */
  lemma CompleteAndConserved(host: Host, quotes: seq<ContractQuote>, asOf: int, hash: string, th: Thresholds,
                             universe: Option<set<string>>)
    requires DistinctSymbols(quotes)
    ensures var r := PriceAll(host, quotes, asOf, hash, th, universe);
      var pass := PassOf(host, quotes, asOf, hash, th, universe);
      var pairs := EligiblePairs(quotes, asOf, th, universe);
      var unusable := Unusable(quotes, asOf, th, universe);
      && (forall p :: p in r.proposals <==> OfferedBy(pass, pairs, p))
      && (forall d :: d in r.discards <==> DroppedBy(pass, pairs, d) || ThrownBy(unusable, asOf / 86400, th, d))
      && |r.proposals| + |r.discards| == |pairs| + |unusable|
      && SortedBy(r.proposals, ProposalLe)
  {
    var r := PriceAll(host, quotes, asOf, hash, th, universe);
    var pass := PassOf(host, quotes, asOf, hash, th, universe);
    var ordered := Sort(UsableOf(quotes, asOf, th, universe), QuoteLe);
    var pairs := PairsOf(ordered, ordered, th);
    var offers, drops := Pick(pairs, Offer(pass)), Pick(pairs, Drop(pass));
    OrderedPairs(quotes, asOf, th, universe);
    SetSize(pairs);
    forall p ensures p in r.proposals <==> OfferedBy(pass, EligiblePairs(quotes, asOf, th, universe), p) {
      SortMembers(offers, ProposalLe, p);
      OfferMembers(pass, pairs, p);
    }
    var eligible, unusable := EligiblePairs(quotes, asOf, th, universe), Unusable(quotes, asOf, th, universe);
    forall d ensures d in r.discards <==> DroppedBy(pass, eligible, d) || ThrownBy(unusable, asOf / 86400, th, d) {
      DropMembers(pass, pairs, d);
      ThrownMembers(quotes, asOf, th, universe, d);
    }
    OfferOrDrop(pass, pairs);
    ThrownOnce(quotes, asOf, th, universe);
    ProposalLeIsTotalPreorder();
    SortIsSorted(offers, ProposalLe);
  }

  // ----- the figures of an offer ----------------------------------------------------------

  lemma ComplementOfRatio(p: Decimal, x: real)
    requires p == Quantise(x, Ratio, HalfUp)
    ensures Quantise(1.0 - p.V(), Ratio, HalfUp).V() == 1.0 - p.V()
  {
    QuantiseValue(x, Ratio, HalfUp);
    QuantiseValue(1.0 - p.V(), Ratio, HalfUp);
    var n := RoundTo(Ratio.Times(x), HalfUp);
    WholeRounds(Ratio.Times(1.0 - p.V()), 1000000 - n);
  }

  lemma WholeRounds(x: real, n: int)
    requires x == n as real
    ensures RoundTo(x, HalfUp) == n
  {
  }

  // ----- what the Kernel makes of it -----------------------------------------------------------

  /** The Kernel's rules on a proposal itself, whatever the context. */
  ghost predicate MeetsQualityRules(p: Proposal, l: KernelLimits) {
    forall c: KernelContext ::
      && Sk002(p, c, l).passed && Sk004(p, c, l).passed && Sk011(p, c, l).passed && Sk014(p, c, l).passed
      && Sk015(p, c, l).passed && Sk016(p, c, l).passed && Sk019(p, c, l).passed
  }

  lemma FiguresMean(shortStrike: real, longStrike: real, bid: real, ask: real, delta: real)
    ensures var o := FiguresOf(shortStrike, longStrike, bid, ask, delta);
      o.Some? ==>
        && Hundredths(o.value.credit.V()) && TenThousandths(o.value.width.V())
        && 0.0 <= o.value.credit.V() < o.value.width.V()
        && MaxLoss(o.value.width.V(), o.value.credit.V()) == Some(o.value.loss)
        && o.value.profit == MaxProfit(o.value.credit.V())
        && o.value.ev == ExpectedValue(o.value.pLoss.V(), o.value.profit.V(), o.value.loss.V())
        && EdgeRatio(o.value.ev.V(), o.value.loss.V()) == Some(o.value.edge)
  {
    CreditInCents(bid, ask);
    WidthInTenThousandths(shortStrike, longStrike);
  }

  /** What an accepted pair's figures come to. */
  ghost predicate SoundFigures(f: Figures) {
    && f.loss.V() > 0.0 && Hundredths(f.loss.V())
    && f.profit.V() + f.loss.V() == 100.0 * f.width.V()
    && f.width.V() > 0.0 && f.pLoss.V() < f.credit.V() / f.width.V()
    && PricedAt(f.width.V(), f.credit.V(), f.profit, f.loss)
  }

  /** Profit and loss as the formulas make them from a width and a credit. */
  ghost predicate PricedAt(width: real, credit: real, profit: Decimal, loss: Decimal) {
    && Hundredths(credit) && TenThousandths(width) && 0.0 <= credit < width
    && MaxLoss(width, credit) == Some(loss) && profit == MaxProfit(credit)
  }

  lemma LossInCents(width: real, credit: real, loss: real)
    requires Hundredths(credit) && TenThousandths(width) && loss == 100.0 * (width - credit)
    ensures Hundredths(loss)
  {
    var n := (10000.0 * width).Floor - 100 * (100.0 * credit).Floor;
    assert 100.0 * loss == n as real;
  }

  lemma AcceptedFigures(f: Figures, width: real, credit: real, p: real)
    requires width == f.width.V() && credit == f.credit.V() && p == f.pLoss.V()
    requires Hundredths(credit) && TenThousandths(width) && 0.0 <= credit < width
    requires MaxLoss(width, credit) == Some(f.loss) && f.profit == MaxProfit(credit)
    requires f.ev == ExpectedValue(p, f.profit.V(), f.loss.V())
    requires EdgeRatio(f.ev.V(), f.loss.V()) == Some(f.edge) && f.edge.V() > 0.0
    ensures SoundFigures(f)
  {
    ProfitPlusLoss(width, credit);
    LossInCents(width, credit, f.loss.V());
    EdgeMeansOdds(p, width, credit);
  }

  lemma OfferedFigures(pass: Pass, short: ContractQuote, long: ContractQuote)
    requires PriceOne(pass, short, long).Offered? && pass.th.minEdgeRatio > 0.0
    ensures short.delta.Some?
    ensures var f := FiguresOf(short.strike.V(), long.strike.V(), short.bid.V(), long.ask.V(), short.delta.value.V());
      f.Some? && SoundFigures(f.value)
  {
    FiguresMean(short.strike.V(), long.strike.V(), short.bid.V(), long.ask.V(), short.delta.value.V());
    var f := FiguresOf(short.strike.V(), long.strike.V(), short.bid.V(), long.ask.V(), short.delta.value.V()).value;
    AcceptedFigures(f, f.width.V(), f.credit.V(), f.pLoss.V());
  }

  lemma SpreadIsDefinedRisk(short: ContractQuote, long: ContractQuote)
    requires long.strike.V() < short.strike.V() && long.expiry == short.expiry
    ensures DefinedRisk(LegsOf(short, long))
  {
    var legs := LegsOf(short, long);
    assert Covers(legs[1], legs[0]);
    assert legs[0].side.Sell?;
  }

  lemma ScreenedSpread(q: ContractQuote, today: int, th: Thresholds)
    requires Screen(q, today, th).None?
    ensures q.SpreadPct().Some? && q.SpreadPct().value <= th.maxBidAskPct
    ensures th.dteMin <= q.Dte(today) <= th.dteMax
  {
  }

  lemma OfferedQuality(pass: Pass, short: ContractQuote, long: ContractQuote)
    requires Screen(short, pass.asOf / 86400, pass.th).None? && Screen(long, pass.asOf / 86400, pass.th).None?
    requires PriceOne(pass, short, long).Offered?
    ensures var p := PriceOne(pass, short, long).proposal;
      && p.maxLegSpreadPct <= pass.th.maxBidAskPct && p.dte >= pass.th.dteMin
      && p.liquidityScore.V() >= pass.th.minLiquidityScore && p.edgeRatio.V() >= pass.th.minEdgeRatio
      && p.greeksComplete && p.capitalReserve == p.maxLoss && p.action.Open? && p.legs == LegsOf(short, long)
  {
    ScreenedSpread(short, pass.asOf / 86400, pass.th);
    ScreenedSpread(long, pass.asOf / 86400, pass.th);
  }

  lemma OfferedFrom(pass: Pass, short: ContractQuote, long: ContractQuote)
    requires PriceOne(pass, short, long).Offered?
    ensures var p := PriceOne(pass, short, long).proposal;
      short.delta.Some? &&
      var f := FiguresOf(short.strike.V(), long.strike.V(), short.bid.V(), long.ask.V(), short.delta.value.V());
      f.Some? && p.maxLoss == f.value.loss && p.maxProfit == f.value.profit && p.netCredit == f.value.credit
      && p.pLossProxy == f.value.pLoss
  {
  }

  /** The odds a proposal is offered at: its modelled loss probability is below its credit
      over its width, its profit probability is the rest, and its profit and its loss add up
      to that width, a hundred times. */
  ghost predicate FairlyPriced(p: Proposal, shortStrike: Decimal, longStrike: Decimal) {
    SpreadWidth(shortStrike.V(), longStrike.V()).Some? &&
    var width := SpreadWidth(shortStrike.V(), longStrike.V()).value.V();
    && width > 0.0 && p.pLossProxy.V() < p.netCredit.V() / width
    && p.maxProfit.V() + p.maxLoss.V() == 100.0 * width
    && p.maxLoss.V() > 0.0 && Hundredths(p.maxLoss.V())
    && PricedAt(width, p.netCredit.V(), p.maxProfit, p.maxLoss)
    && p.pProfitProxy.V() == 1.0 - p.pLossProxy.V() && p.breakeven == Breakeven(shortStrike.V(), p.netCredit.V())
  }

  lemma OfferedOdds(pass: Pass, short: ContractQuote, long: ContractQuote)
    requires PriceOne(pass, short, long).Offered?
    ensures var p := PriceOne(pass, short, long).proposal;
      p.pProfitProxy.V() == 1.0 - p.pLossProxy.V() && p.breakeven == Breakeven(short.strike.V(), p.netCredit.V())
  {
    OfferedFrom(pass, short, long);
    ProxyOf(pass, short, long);
    ComplementOfRatio(PriceOne(pass, short, long).proposal.pLossProxy, Size(short.delta.value.V()));
  }

  lemma ProxyOf(pass: Pass, short: ContractQuote, long: ContractQuote)
    requires PriceOne(pass, short, long).Offered? && short.delta.Some?
    ensures var p := PriceOne(pass, short, long).proposal;
      && p.pLossProxy == Quantise(Size(short.delta.value.V()), Ratio, HalfUp)
      && p.pProfitProxy == Quantise(1.0 - p.pLossProxy.V(), Ratio, HalfUp)
      && p.breakeven == Breakeven(short.strike.V(), p.netCredit.V())
  {
  }

  lemma FiguresWidth(shortStrike: real, longStrike: real, bid: real, ask: real, delta: real)
    ensures var o := FiguresOf(shortStrike, longStrike, bid, ask, delta);
      o.Some? ==> SpreadWidth(shortStrike, longStrike) == Some(o.value.width)
  {
  }

  lemma OfferedIsFair(pass: Pass, short: ContractQuote, long: ContractQuote)
    requires PriceOne(pass, short, long).Offered? && pass.th.minEdgeRatio > 0.0
    ensures FairlyPriced(PriceOne(pass, short, long).proposal, short.strike, long.strike)
  {
    OfferedFigures(pass, short, long);
    OfferedFrom(pass, short, long);
    OfferedOdds(pass, short, long);
    FiguresMean(short.strike.V(), long.strike.V(), short.bid.V(), long.ask.V(), short.delta.value.V());
    FiguresWidth(short.strike.V(), long.strike.V(), short.bid.V(), long.ask.V(), short.delta.value.V());
  }

  lemma OfferedMeetsRules(pass: Pass, short: ContractQuote, long: ContractQuote)
    requires pass.th == DEFAULT_THRESHOLDS && Eligible(short, long, pass.th)
    requires Screen(short, pass.asOf / 86400, pass.th).None? && Screen(long, pass.asOf / 86400, pass.th).None?
    requires PriceOne(pass, short, long).Offered?
    ensures MeetsQualityRules(PriceOne(pass, short, long).proposal, DEFAULT_LIMITS)
  {
    OfferedQuality(pass, short, long);
    OfferedIsFair(pass, short, long);
    SpreadIsDefinedRisk(short, long);
  }

  /** Everything the Actuary offers under its default thresholds passes the Kernel's rules
      on reserve, defined risk, days to expiry, liquidity, leg spread, edge and Greeks, in
      every context; and it is offered at odds below its own credit over width. */
  lemma OffersMeetTheKernel(host: Host, s: Snapshot, universe: Option<set<string>>, p: Proposal)
    requires DistinctSymbols(s.quotes) && p in Price(host, s, DEFAULT_THRESHOLDS, universe).proposals
    ensures MeetsQualityRules(p, DEFAULT_LIMITS)
    ensures FairlyPriced(p, p.shortStrike, p.longStrike) && p.action.Open?
  {
    var hash := SnapshotHash(host, s);
    CompleteAndConserved(host, s.quotes, s.asOf, hash, DEFAULT_THRESHOLDS, universe);
    var pass := PassOf(host, s.quotes, s.asOf, hash, DEFAULT_THRESHOLDS, universe);
    var x :| x in EligiblePairs(s.quotes, s.asOf, DEFAULT_THRESHOLDS, universe)
             && PriceOne(pass, x.0, x.1) == Offered(p);
    OfferedMeetsRules(pass, x.0, x.1);
    OfferedIsFair(pass, x.0, x.1);
    OfferedStrikes(pass, x.0, x.1);
  }

  lemma OfferedStrikes(pass: Pass, short: ContractQuote, long: ContractQuote)
    requires PriceOne(pass, short, long).Offered?
    ensures PriceOne(pass, short, long).proposal.action.Open?
    ensures PriceOne(pass, short, long).proposal.shortStrike == short.strike
    ensures PriceOne(pass, short, long).proposal.longStrike == long.strike
  {
  }

  // ----- candidate ids -----------------------------------------------------------------------

  /** The text a candidate's id is cut from. */
  function IdDigest(host: Host, short: ContractQuote, long: ContractQuote, hash: string): string {
    Sha256Of(host, Record(CANDIDATE_KEYS, IdValues(host, short, long, hash)))
  }

  function IdValues(host: Host, short: ContractQuote, long: ContractQuote, hash: string): (r: seq<Value>)
    ensures |r| == |CANDIDATE_KEYS|
  {
    [ TextValue(short.underlying), TextValue(StructureText(PutCreditSpread)), TextValue(host.isoDate(short.expiry)),
      VDecimal(short.strike), VDecimal(long.strike), TextValue(hash) ]
  }

  lemma IdsHashable(host: Host, short: ContractQuote, long: ContractQuote, hash: string)
    ensures Hashable(Record(CANDIDATE_KEYS, IdValues(host, short, long, hash)))
  {
    RecordHashable(CANDIDATE_KEYS, IdValues(host, short, long, hash));
  }

  /** What a candidate id stands for: unless two digests agree in their first sixteen characters and
      differ later, two ids are equal exactly for the same underlying, expiry and strikes out of
      the same snapshot; so one priced off a later snapshot is another candidate. */
  lemma CandidateIdBinds(host: Host, a: Pair, b: Pair, hashA: string, hashB: string)
    requires host.Sound()
    requires var x, y := IdDigest(host, a.0, a.1, hashA), IdDigest(host, b.0, b.1, hashB);
      |x| >= 16 && |y| >= 16 && (x[..16] == y[..16] ==> x == y)
    ensures CandidateIdFor(host, a.0, a.1, hashA) == CandidateIdFor(host, b.0, b.1, hashB) <==>
      && a.0.underlying == b.0.underlying && a.0.expiry == b.0.expiry
      && a.0.strike == b.0.strike && a.1.strike == b.1.strike && hashA == hashB
  {
    var x, y := IdValues(host, a.0, a.1, hashA), IdValues(host, b.0, b.1, hashB);
    IdIsCut(host, a.0, a.1, hashA);
    IdIsCut(host, b.0, b.1, hashB);
    if CandidateIdFor(host, a.0, a.1, hashA) == CandidateIdFor(host, b.0, b.1, hashB) {
      IdsHashable(host, a.0, a.1, hashA);
      IdsHashable(host, b.0, b.1, hashB);
      Sha256Binds(host, Record(CANDIDATE_KEYS, x), Record(CANDIDATE_KEYS, y));
      ValuesAgreeAt(CANDIDATE_KEYS, x, y);
      IdFieldsAgree(host, a, b, hashA, hashB, x, y);
    }
  }

  lemma IdIsCut(host: Host, short: ContractQuote, long: ContractQuote, hash: string)
    requires |IdDigest(host, short, long, hash)| >= 16
    ensures var id := CandidateIdFor(host, short, long, hash);
      |id| == 21 && id[..5] == "cand_" && id[5..] == IdDigest(host, short, long, hash)[..16]
  {
  }

  lemma IdFieldsAgree(host: Host, a: Pair, b: Pair, hashA: string, hashB: string, x: seq<Value>, y: seq<Value>)
    requires host.Sound() && x == IdValues(host, a.0, a.1, hashA) && y == IdValues(host, b.0, b.1, hashB)
    requires forall i: nat :: i < 6 ==> AgreeAt(x, y, i)
    ensures a.0.underlying == b.0.underlying && a.0.expiry == b.0.expiry
    ensures a.0.strike == b.0.strike && a.1.strike == b.1.strike && hashA == hashB
  {
    TextAt(x, y, 0, a.0.underlying, b.0.underlying);
    TextAt(x, y, 2, host.isoDate(a.0.expiry), host.isoDate(b.0.expiry));
    DecimalAt(x, y, 3, a.0.strike, b.0.strike);
    DecimalAt(x, y, 4, a.1.strike, b.1.strike);
    TextAt(x, y, 5, hashA, hashB);
  }
}
