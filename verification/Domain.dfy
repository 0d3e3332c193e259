/** The values the desk passes around, and the hashes that bind them. */
module Domain {
  import opened Strings
  import opened Decimals
  import opened Sorting
  import opened JsonText
  import opened Json
  import opened Canonical

  /** What the host supplies: SHA-256, HMAC-SHA256 (secret, payload), and the ISO
      texts of a calendar day and of a UTC instant in seconds. */
  datatype Host = Host(
    sha: string -> string,
    hmac: (string, string) -> string,
    isoDate: int -> string,
    isoTime: int -> string)
  {
    /** No collisions: the standing hypothesis under which a hash binds. */
    ghost predicate Sound() {
      && CollisionFree(sha)
      && (forall s, a, b :: hmac(s, a) == hmac(s, b) ==> a == b)
      && (forall a, b :: isoDate(a) == isoDate(b) ==> a == b)
      && (forall a, b :: isoTime(a) == isoTime(b) ==> a == b)
    }
  }

  datatype OptionRight = Put | Call
  datatype Side = Buy | Sell
  datatype Action = Open | Close
  datatype Structure = PutCreditSpread

  datatype Leg = Leg(symbol: string, right: OptionRight, side: Side, strike: Decimal, expiry: int, ratioQty: int)

  datatype Proposal = Proposal(
    candidateId: string,
    underlying: string,
    structure: Structure,
    action: Action,
    legs: seq<Leg>,
    shortStrike: Decimal,
    longStrike: Decimal,
    expiry: int,
    dte: int,
    netCredit: Decimal,
    maxProfit: Decimal,
    maxLoss: Decimal,
    capitalReserve: Decimal,
    breakeven: Decimal,
    creditToWidth: Decimal,
    pLossProxy: Decimal,
    pProfitProxy: Decimal,
    expectedValue: Decimal,
    edgeRatio: Decimal,
    liquidityScore: Decimal,
    maxLegSpreadPct: real,
    shortDelta: Decimal,
    netDelta: Decimal,
    netVega: Decimal,
    greeksComplete: bool,
    snapshotHash: string,
    snapshotAsOf: int)

  // ----- enum texts ---------------------------------------------------------

  function RightText(r: OptionRight): string { if r.Put? then "PUT" else "CALL" }
  function SideText(s: Side): string { if s.Buy? then "BUY" else "SELL" }
  function ActionText(a: Action): string { if a.Open? then "OPEN" else "CLOSE" }
  function StructureText(s: Structure): string { "PUT_CREDIT_SPREAD" }

  // ----- hashed records -----------------------------------------------------

  function TextValue(text: string): Value { VStr(U(text)) }

  /** A dictionary with literal keys. */
  function Record(keys: seq<string>, values: seq<Value>): (r: Value)
    requires |keys| == |values|
  {
    VMap(seq(|keys|, i requires 0 <= i < |keys| => Entry(U(keys[i]), values[i])))
  }

  ghost predicate Hashable(v: Value) {
    Canonicalize(v).Some?
  }

  ghost predicate AllHashable(values: seq<Value>) {
    forall i :: 0 <= i < |values| ==> Hashable(values[i])
  }

  lemma {:induction false} EntriesHashable(entries: seq<Entry>)
    requires forall i :: 0 <= i < |entries| ==> Hashable(entries[i].value)
    ensures CanonicalEntries(entries).Some?
  {
    if entries != [] {
      EntriesHashable(entries[1..]);
    }
  }

  lemma {:induction false} ItemsHashable(items: seq<Value>)
    requires AllHashable(items)
    ensures CanonicalItems(items).Some?
  {
    if items != [] {
      ItemsHashable(items[1..]);
    }
  }

  lemma RecordHashable(keys: seq<string>, values: seq<Value>)
    requires |keys| == |values| && AllHashable(values)
    ensures Hashable(Record(keys, values))
  {
    var entries := Record(keys, values).entries;
    EntriesHashable(entries);
    CanonicalMap(entries, CanonicalEntries(entries).value);
  }

  /** The joined canonical form: what the printed text determines. */
  ghost function Meaning(v: Value): Option<Json> {
    match Canonicalize(v) case Some(j) => Some(JoinJson(j)) case None => None
  }

  /** Records with the same keys and the same meaning agree on every value. */
  lemma ValuesAgree(keys: seq<string>, a: seq<Value>, b: seq<Value>, i: nat)
    requires |keys| == |a| == |b| && i < |keys|
    requires Hashable(Record(keys, a)) && Meaning(Record(keys, a)) == Meaning(Record(keys, b))
    ensures Meaning(a[i]) == Meaning(b[i])
  {
    var x, y := Record(keys, a).entries, Record(keys, b).entries;
    var f, g := CanonicalEntries(x).value, CanonicalEntries(y).value;
    CanonicalMap(x, f);
    CanonicalMap(y, g);
    RecordAgrees(f, g, i);
  }

  /** `sha256_of`; "" stands for the refusal of an unhashable value. */
  function Sha256Of(host: Host, v: Value): string {
    match HashOf(host.sha, v) case Some(h) => h case None => ""
  }

  lemma Sha256Binds(host: Host, v: Value, w: Value)
    requires host.Sound() && Hashable(v) && Hashable(w)
    requires Sha256Of(host, v) == Sha256Of(host, w)
    ensures Meaning(v) == Meaning(w)
  {
    HashBinds(host.sha, v, w);
  }

  // ----- proposal_hash ------------------------------------------------------

  const LEG_KEYS := ["symbol", "right", "side", "strike", "expiry", "ratio_qty"]

  function LegValues(host: Host, leg: Leg): (r: seq<Value>)
    ensures |r| == |LEG_KEYS|
  {
    [ TextValue(leg.symbol), TextValue(RightText(leg.right)), TextValue(SideText(leg.side)),
      VDecimal(leg.strike), VIso(U(host.isoDate(leg.expiry))), VInt(leg.ratioQty) ]
  }

  function LegsValue(host: Host, legs: seq<Leg>): (r: seq<Value>)
    ensures |r| == |legs|
    ensures forall i :: 0 <= i < |legs| ==> r[i] == Record(LEG_KEYS, LegValues(host, legs[i]))
  {
    seq(|legs|, i requires 0 <= i < |legs| => Record(LEG_KEYS, LegValues(host, legs[i])))
  }

  const PROPOSAL_KEYS := [
    "candidate_id", "underlying", "structure", "action", "legs", "short_strike",
    "long_strike", "expiry", "net_credit", "max_loss", "snapshot_hash"]

  /** The eleven fields the proposal's hash covers. */
  function ProposalValues(host: Host, p: Proposal): (r: seq<Value>)
    ensures |r| == |PROPOSAL_KEYS|
  {
    [ TextValue(p.candidateId), TextValue(p.underlying), TextValue(StructureText(p.structure)),
      TextValue(ActionText(p.action)), VSeq(LegsValue(host, p.legs)), VDecimal(p.shortStrike),
      VDecimal(p.longStrike), VIso(U(host.isoDate(p.expiry))), VDecimal(p.netCredit),
      VDecimal(p.maxLoss), TextValue(p.snapshotHash) ]
  }

  function ProposalHash(host: Host, p: Proposal): string {
    Sha256Of(host, Record(PROPOSAL_KEYS, ProposalValues(host, p)))
  }

  // ----- what the proposal hash binds -----------------------------------------

  lemma TextAgrees(s: string, t: string)
    requires Meaning(TextValue(s)) == Meaning(TextValue(t))
    ensures s == t
  {
    JoinedLiteral(s, t);
  }

  lemma IsoAgrees(s: string, t: string)
    requires Meaning(VIso(U(s))) == Meaning(VIso(U(t)))
    ensures s == t
  {
    JoinedLiteral(s, t);
  }

  lemma DecimalAgrees(d: Decimal, d': Decimal)
    requires Meaning(VDecimal(d)) == Meaning(VDecimal(d'))
    ensures d == d'
  {
    JoinedDecimal(d, d');
  }

  lemma LegHashable(host: Host, leg: Leg)
    ensures Hashable(Record(LEG_KEYS, LegValues(host, leg)))
  {
    RecordHashable(LEG_KEYS, LegValues(host, leg));
  }

  /** The field at one position of two records with the same meaning. */
  ghost predicate AgreeAt(a: seq<Value>, b: seq<Value>, i: nat) {
    i < |a| && i < |b| && Meaning(a[i]) == Meaning(b[i])
  }

  lemma ValuesAgreeAt(keys: seq<string>, a: seq<Value>, b: seq<Value>)
    requires |keys| == |a| == |b|
    requires Hashable(Record(keys, a)) && Meaning(Record(keys, a)) == Meaning(Record(keys, b))
    ensures forall i: nat :: i < |keys| ==> AgreeAt(a, b, i)
  {
    forall i: nat | i < |keys| ensures AgreeAt(a, b, i) {
      ValuesAgree(keys, a, b, i);
    }
  }

  lemma TextAt(a: seq<Value>, b: seq<Value>, i: nat, s: string, t: string)
    requires AgreeAt(a, b, i) && a[i] == TextValue(s) && b[i] == TextValue(t)
    ensures s == t
  {
    TextAgrees(s, t);
  }

  lemma IsoAt(a: seq<Value>, b: seq<Value>, i: nat, s: string, t: string)
    requires AgreeAt(a, b, i) && a[i] == VIso(U(s)) && b[i] == VIso(U(t))
    ensures s == t
  {
    IsoAgrees(s, t);
  }

  lemma DecimalAt(a: seq<Value>, b: seq<Value>, i: nat, d: Decimal, d': Decimal)
    requires AgreeAt(a, b, i) && a[i] == VDecimal(d) && b[i] == VDecimal(d')
    ensures d == d'
  {
    DecimalAgrees(d, d');
  }

  lemma IntAt(a: seq<Value>, b: seq<Value>, i: nat, n: int, n': int)
    requires AgreeAt(a, b, i) && a[i] == VInt(n) && b[i] == VInt(n')
    ensures n == n'
  {
  }

  lemma LegAgrees(host: Host, a: Leg, b: Leg)
    requires host.Sound()
    requires Meaning(Record(LEG_KEYS, LegValues(host, a))) == Meaning(Record(LEG_KEYS, LegValues(host, b)))
    ensures a == b
  {
    LegHashable(host, a);
    ValuesAgreeAt(LEG_KEYS, LegValues(host, a), LegValues(host, b));
    LegFieldsAgree(host, a, b);
  }

  lemma LegFieldsAgree(host: Host, a: Leg, b: Leg)
    requires host.Sound()
    requires forall i: nat :: i < 6 ==> AgreeAt(LegValues(host, a), LegValues(host, b), i)
    ensures a == b
  {
    var x, y := LegValues(host, a), LegValues(host, b);
    LegTextsAgree(host, a, b, x, y);
    DecimalAt(x, y, 3, a.strike, b.strike);
    IsoAt(x, y, 4, host.isoDate(a.expiry), host.isoDate(b.expiry));
    IntAt(x, y, 5, a.ratioQty, b.ratioQty);
  }

  lemma LegTextsAgree(host: Host, a: Leg, b: Leg, x: seq<Value>, y: seq<Value>)
    requires x == LegValues(host, a) && y == LegValues(host, b)
    requires AgreeAt(x, y, 0) && AgreeAt(x, y, 1) && AgreeAt(x, y, 2)
    ensures a.symbol == b.symbol && a.right == b.right && a.side == b.side
  {
    TextAt(x, y, 0, a.symbol, b.symbol);
    TextAt(x, y, 1, RightText(a.right), RightText(b.right));
    TextAt(x, y, 2, SideText(a.side), SideText(b.side));
  }

  lemma LegsHashable(host: Host, legs: seq<Leg>)
    ensures Hashable(VSeq(LegsValue(host, legs)))
  {
    forall i | 0 <= i < |legs| ensures Hashable(LegsValue(host, legs)[i]) {
      LegHashable(host, legs[i]);
    }
    ItemsHashable(LegsValue(host, legs));
  }

  lemma LegsAgree(host: Host, a: seq<Leg>, b: seq<Leg>)
    requires host.Sound()
    requires Meaning(VSeq(LegsValue(host, a))) == Meaning(VSeq(LegsValue(host, b)))
    ensures a == b
  {
    LegsHashable(host, a);
    LegsHashable(host, b);
    var ja, jb := CanonicalItems(LegsValue(host, a)).value, CanonicalItems(LegsValue(host, b)).value;
    assert JoinItems(ja) == JoinItems(jb);
    forall i | 0 <= i < |a| ensures a[i] == b[i] {
      assert JoinJson(ja[i]) == JoinItems(ja)[i] == JoinItems(jb)[i] == JoinJson(jb[i]);
      LegAgrees(host, a[i], b[i]);
    }
  }

  lemma LegsAt(host: Host, a: seq<Value>, b: seq<Value>, i: nat, l: seq<Leg>, m: seq<Leg>)
    requires host.Sound()
    requires AgreeAt(a, b, i) && a[i] == VSeq(LegsValue(host, l)) && b[i] == VSeq(LegsValue(host, m))
    ensures l == m
  {
    LegsAgree(host, l, m);
  }

  lemma ProposalHashable(host: Host, p: Proposal)
    ensures Hashable(Record(PROPOSAL_KEYS, ProposalValues(host, p)))
  {
    LegsHashable(host, p.legs);
    RecordHashable(PROPOSAL_KEYS, ProposalValues(host, p));
  }

  /** The fields an approval is bound to. */
  ghost predicate SameCovered(p: Proposal, q: Proposal) {
    && p.candidateId == q.candidateId && p.underlying == q.underlying
    && p.structure == q.structure && p.action == q.action && p.legs == q.legs
    && p.shortStrike == q.shortStrike && p.longStrike == q.longStrike && p.expiry == q.expiry
    && p.netCredit == q.netCredit && p.maxLoss == q.maxLoss && p.snapshotHash == q.snapshotHash
  }

  lemma CoveredTextsAgree(host: Host, p: Proposal, q: Proposal, x: seq<Value>, y: seq<Value>)
    requires x == ProposalValues(host, p) && y == ProposalValues(host, q)
    requires AgreeAt(x, y, 0) && AgreeAt(x, y, 1) && AgreeAt(x, y, 3) && AgreeAt(x, y, 10)
    ensures p.candidateId == q.candidateId && p.underlying == q.underlying
    ensures p.action == q.action && p.snapshotHash == q.snapshotHash
  {
    TextAt(x, y, 0, p.candidateId, q.candidateId);
    TextAt(x, y, 1, p.underlying, q.underlying);
    TextAt(x, y, 3, ActionText(p.action), ActionText(q.action));
    TextAt(x, y, 10, p.snapshotHash, q.snapshotHash);
  }

  lemma CoveredNumbersAgree(host: Host, p: Proposal, q: Proposal, x: seq<Value>, y: seq<Value>)
    requires x == ProposalValues(host, p) && y == ProposalValues(host, q)
    requires AgreeAt(x, y, 5) && AgreeAt(x, y, 6) && AgreeAt(x, y, 8) && AgreeAt(x, y, 9)
    ensures p.shortStrike == q.shortStrike && p.longStrike == q.longStrike
    ensures p.netCredit == q.netCredit && p.maxLoss == q.maxLoss
  {
    DecimalAt(x, y, 5, p.shortStrike, q.shortStrike);
    DecimalAt(x, y, 6, p.longStrike, q.longStrike);
    DecimalAt(x, y, 8, p.netCredit, q.netCredit);
    DecimalAt(x, y, 9, p.maxLoss, q.maxLoss);
  }

  lemma CoveredFieldsAgree(host: Host, p: Proposal, q: Proposal, x: seq<Value>, y: seq<Value>)
    requires host.Sound()
    requires x == ProposalValues(host, p) && y == ProposalValues(host, q)
    requires forall i: nat :: i < 11 ==> AgreeAt(x, y, i)
    ensures SameCovered(p, q)
  {
    CoveredTextsAgree(host, p, q, x, y);
    CoveredNumbersAgree(host, p, q, x, y);
    LegsAt(host, x, y, 4, p.legs, q.legs);
    IsoAt(x, y, 7, host.isoDate(p.expiry), host.isoDate(q.expiry));
  }

  /** Two proposals share a hash exactly when they agree on every covered field:
      change a strike, a leg's side or the credit's last digit and the hash changes. */
  lemma ProposalHashBinds(host: Host, p: Proposal, q: Proposal)
    requires host.Sound()
    ensures ProposalHash(host, p) == ProposalHash(host, q) <==> SameCovered(p, q)
  {
    if ProposalHash(host, p) == ProposalHash(host, q) {
      ProposalHashable(host, p);
      ProposalHashable(host, q);
      Sha256Binds(host, Record(PROPOSAL_KEYS, ProposalValues(host, p)),
                        Record(PROPOSAL_KEYS, ProposalValues(host, q)));
      ValuesAgreeAt(PROPOSAL_KEYS, ProposalValues(host, p), ProposalValues(host, q));
      CoveredFieldsAgree(host, p, q, ProposalValues(host, p), ProposalValues(host, q));
    }
  }
}
