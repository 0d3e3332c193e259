/** The append-only ledger: every record hashes its own content together with the
    previous record's hash, and a verifier walks the chain. */
module Ledger {
  import opened Strings
  import opened Numerals
  import opened Decimals
  import opened JsonText
  import opened Json
  import opened Canonical
  import opened Domain

  /** The content a record's hash covers, but for the link. */
  datatype AuditEntry = AuditEntry(
    occurredAt: int,
    correlationId: Option<string>,
    actor: string,
    action: string,
    entityType: Option<string>,
    entityId: Option<string>,
    before: Value,
    after: Value)

  datatype Row = Row(sequence: int, entry: AuditEntry, prevHash: Option<string>, recordHash: string)

  /** `"0" * 64` */
  const GENESIS: string := Zeros(64)

  const RECORD_KEYS := [
    "occurred_at", "correlation_id", "actor", "action", "entity_type", "entity_id",
    "before", "after", "prev_hash"]

  function Nullable(t: Option<string>): Value {
    match t case None => VNone case Some(s) => TextValue(s)
  }

  function RecordValues(host: Host, e: AuditEntry, prev: string): (r: seq<Value>)
    ensures |r| == |RECORD_KEYS|
  {
    [ VIso(U(host.isoTime(e.occurredAt))), Nullable(e.correlationId), TextValue(e.actor), TextValue(e.action),
      Nullable(e.entityType), Nullable(e.entityId), e.before, e.after, TextValue(prev) ]
  }

  /** `compute_hash(record_payload(...))`; `None` when a value cannot be canonicalized. */
  function RecordHash(host: Host, e: AuditEntry, prev: string): Option<string> {
    HashOf(host.sha, Record(RECORD_KEYS, RecordValues(host, e, prev)))
  }

  /** A digest is never empty and never the genesis value. */
  ghost predicate DigestShape(host: Host) {
    forall t :: host.sha(t) != "" && host.sha(t) != GENESIS
  }

  // ----- the chain ------------------------------------------------------------

  /** `x or GENESIS_HASH` */
  function OrGenesis(h: string): string {
    if h == "" then GENESIS else h
  }

  function LatestHash(rows: seq<Row>): string {
    if rows == [] then GENESIS else OrGenesis(rows[|rows| - 1].recordHash)
  }

  function ExpectedPrev(rows: seq<Row>, i: nat): string
    requires i <= |rows|
  {
    if i == 0 then GENESIS else rows[i - 1].recordHash
  }

  predicate Linked(rows: seq<Row>, i: nat)
    requires i < |rows|
  {
    rows[i].prevHash == Some(ExpectedPrev(rows, i))
  }

  predicate Unedited(host: Host, row: Row) {
    row.prevHash.Some? && RecordHash(host, row.entry, OrGenesis(row.prevHash.value)) == Some(row.recordHash)
  }

  predicate RowHolds(host: Host, rows: seq<Row>, i: nat)
    requires i < |rows|
  {
    Linked(rows, i) && Unedited(host, rows[i])
  }

  predicate Verifies(host: Host, rows: seq<Row>) {
    forall i :: 0 <= i < |rows| ==> RowHolds(host, rows, i)
  }

  function NextSequence(rows: seq<Row>): int {
    if rows == [] then 1 else rows[|rows| - 1].sequence + 1
  }

  /** The rows after one append, if the record can be hashed. */
  function Appended(host: Host, rows: seq<Row>, e: AuditEntry): Option<seq<Row>> {
    var prev := LatestHash(rows);
    match RecordHash(host, e, prev)
    case None => None
    case Some(h) => Some(rows + [Row(NextSequence(rows), e, Some(prev), h)])
  }

  datatype Break = LinkBroken | RowEdited

  datatype ChainVerification =
    | Valid(recordsChecked: nat)
    | Broken(recordsChecked: nat, firstBreakSeq: int, kind: Break)
    | Raised

  class AuditLedger {
    const host: Host
    var rows: seq<Row>

    constructor (host: Host)
      ensures this.host == host && rows == []
    {
      this.host := host;
      rows := [];
    }

    /** `append`; false when the record could not be canonicalized, and nothing is written. */
    method Append(e: AuditEntry) returns (written: bool)
      modifies this
      ensures match Appended(host, old(rows), e)
        case Some(after) => written && rows == after
        case None => !written && rows == old(rows)
    {
      var prev := LatestHash(rows);
      var h := RecordHash(host, e, prev);
      if h.None? {
        return false;
      }
      rows := rows + [Row(NextSequence(rows), e, Some(prev), h.value)];
      written := true;
    }
  }

  /** `verify_chain`: the verdict on the whole ledger, and on failure the least row that
      breaks, with the reason. */
  method VerifyChain(host: Host, rows: seq<Row>) returns (v: ChainVerification)
    ensures v.Valid? <==> Verifies(host, rows)
    ensures v.Valid? ==> v.recordsChecked == |rows|
    ensures v.Broken? ==>
      exists k :: 0 <= k < |rows| && v.firstBreakSeq == rows[k].sequence && v.recordsChecked == k + 1
        && (forall j :: 0 <= j < k ==> RowHolds(host, rows, j))
        && !RowHolds(host, rows, k) && (v.kind == LinkBroken <==> !Linked(rows, k))
    ensures v.Raised? ==>
      exists k :: 0 <= k < |rows| && Linked(rows, k) && (forall j :: 0 <= j < k ==> RowHolds(host, rows, j))
        && RecordHash(host, rows[k].entry, OrGenesis(ExpectedPrev(rows, k))).None?
  {
    var expectedPrev := GENESIS;
    for i := 0 to |rows|
      invariant expectedPrev == ExpectedPrev(rows, i)
      invariant forall j :: 0 <= j < i ==> RowHolds(host, rows, j)
    {
      var row := rows[i];
      if row.prevHash != Some(expectedPrev) {
        assert !RowHolds(host, rows, i);
        return Broken(i + 1, row.sequence, LinkBroken);
      }
      var h := RecordHash(host, row.entry, OrGenesis(expectedPrev));
      if h.None? {
        assert !RowHolds(host, rows, i);
        return Raised;
      }
      if h.value != row.recordHash {
        assert !RowHolds(host, rows, i);
        return Broken(i + 1, row.sequence, RowEdited);
      }
      expectedPrev := row.recordHash;
    }
    v := Valid(|rows|);
  }

  // ----- honest ledgers verify --------------------------------------------------

  lemma HashIsDigest(host: Host, e: AuditEntry, prev: string)
    requires DigestShape(host)
    ensures RecordHash(host, e, prev).Some? ==>
      RecordHash(host, e, prev).value != "" && RecordHash(host, e, prev).value != GENESIS
  {
  }

  lemma AppendKeepsVerifying(host: Host, rows: seq<Row>, e: AuditEntry)
    requires DigestShape(host) && Verifies(host, rows) && Appended(host, rows, e).Some?
    ensures Verifies(host, Appended(host, rows, e).value)
  {
    var after := Appended(host, rows, e).value;
    forall i | 0 <= i < |after| ensures RowHolds(host, after, i) {
      if i < |rows| {
        assert RowHolds(host, rows, i);
      } else {
        if rows != [] {
          assert RowHolds(host, rows, |rows| - 1);
          HashIsDigest(host, rows[|rows| - 1].entry, OrGenesis(rows[|rows| - 1].prevHash.value));
        }
        assert GENESIS != "" by { assert |GENESIS| == 64; }
      }
    }
  }

  /** A ledger after a series of appends; records that cannot be hashed leave it alone. */
  function Build(host: Host, entries: seq<AuditEntry>): seq<Row> {
    if entries == [] then []
    else
      var before := Build(host, entries[..|entries| - 1]);
      match Appended(host, before, entries[|entries| - 1]) case Some(after) => after case None => before
  }

  /** Every ledger built only by appending verifies. */
  lemma {:induction false} BuiltLedgersVerify(host: Host, entries: seq<AuditEntry>)
    requires DigestShape(host)
    ensures Verifies(host, Build(host, entries))
  {
    if entries != [] {
      var before := Build(host, entries[..|entries| - 1]);
      BuiltLedgersVerify(host, entries[..|entries| - 1]);
      if Appended(host, before, entries[|entries| - 1]).Some? {
        AppendKeepsVerifying(host, before, entries[|entries| - 1]);
      }
    }
  }

  // ----- the tip determines the history ------------------------------------------

  /** Two records with the same covered content; free-form values agree in meaning. */
  ghost predicate SameEntry(e: AuditEntry, f: AuditEntry) {
    && e.occurredAt == f.occurredAt && e.correlationId == f.correlationId
    && e.actor == f.actor && e.action == f.action
    && e.entityType == f.entityType && e.entityId == f.entityId
    && Meaning(e.before) == Meaning(f.before) && Meaning(e.after) == Meaning(f.after)
  }

  ghost predicate SameRow(a: Row, b: Row) {
    SameEntry(a.entry, b.entry) && a.prevHash == b.prevHash && a.recordHash == b.recordHash
  }

  lemma NullableAt(a: seq<Value>, b: seq<Value>, i: nat, s: Option<string>, t: Option<string>)
    requires AgreeAt(a, b, i) && a[i] == Nullable(s) && b[i] == Nullable(t)
    ensures s == t
  {
    if s.Some? && t.Some? {
      TextAgrees(s.value, t.value);
    }
  }

  lemma RecordTextsAgree(host: Host, e: AuditEntry, p: string, f: AuditEntry, q: string, x: seq<Value>, y: seq<Value>)
    requires host.Sound()
    requires x == RecordValues(host, e, p) && y == RecordValues(host, f, q)
    requires forall i: nat :: i < 9 ==> AgreeAt(x, y, i)
    ensures e.occurredAt == f.occurredAt && e.actor == f.actor && e.action == f.action && p == q
  {
    IsoAt(x, y, 0, host.isoTime(e.occurredAt), host.isoTime(f.occurredAt));
    TextAt(x, y, 2, e.actor, f.actor);
    TextAt(x, y, 3, e.action, f.action);
    TextAt(x, y, 8, p, q);
  }

  lemma RecordOptionsAgree(host: Host, e: AuditEntry, p: string, f: AuditEntry, q: string, x: seq<Value>, y: seq<Value>)
    requires x == RecordValues(host, e, p) && y == RecordValues(host, f, q)
    requires forall i: nat :: i < 9 ==> AgreeAt(x, y, i)
    ensures e.correlationId == f.correlationId && e.entityType == f.entityType && e.entityId == f.entityId
    ensures Meaning(e.before) == Meaning(f.before) && Meaning(e.after) == Meaning(f.after)
  {
    NullableAt(x, y, 1, e.correlationId, f.correlationId);
    NullableAt(x, y, 4, e.entityType, f.entityType);
    NullableAt(x, y, 5, e.entityId, f.entityId);
    assert AgreeAt(x, y, 6) && AgreeAt(x, y, 7);
  }

  /** One record hash fixes one content and one link. */
  lemma RecordHashBinds(host: Host, e: AuditEntry, p: string, f: AuditEntry, q: string)
    requires host.Sound()
    requires RecordHash(host, e, p).Some? && RecordHash(host, e, p) == RecordHash(host, f, q)
    ensures SameEntry(e, f) && p == q
  {
    var x, y := RecordValues(host, e, p), RecordValues(host, f, q);
    HashBinds(host.sha, Record(RECORD_KEYS, x), Record(RECORD_KEYS, y));
    ValuesAgreeAt(RECORD_KEYS, x, y);
    RecordTextsAgree(host, e, p, f, q, x, y);
    RecordOptionsAgree(host, e, p, f, q, x, y);
  }

  lemma PrevIsTip(host: Host, rows: seq<Row>)
    requires DigestShape(host) && Verifies(host, rows) && rows != []
    ensures var last := rows[|rows| - 1];
      && last.prevHash == Some(LatestHash(rows[..|rows| - 1]))
      && RecordHash(host, last.entry, LatestHash(rows[..|rows| - 1])) == Some(last.recordHash)
      && LatestHash(rows) == last.recordHash != GENESIS
    ensures Verifies(host, rows[..|rows| - 1])
  {
    var n := |rows| - 1;
    var before := rows[..n];
    assert RowHolds(host, rows, n);
    HashIsDigest(host, rows[n].entry, OrGenesis(rows[n].prevHash.value));
    if n > 0 {
      assert RowHolds(host, rows, n - 1);
      HashIsDigest(host, rows[n - 1].entry, OrGenesis(rows[n - 1].prevHash.value));
    }
    assert GENESIS != "" by { assert |GENESIS| == 64; }
    forall i | 0 <= i < |before| ensures RowHolds(host, before, i) {
      assert RowHolds(host, rows, i);
    }
  }

  /** Two ledgers that verify and end in the same hash are the same ledger, row for row:
      nothing in the past can be edited, inserted, removed or reordered unseen. */
  lemma {:induction false} TipFixesHistory(host: Host, a: seq<Row>, b: seq<Row>)
    requires host.Sound() && DigestShape(host)
    requires Verifies(host, a) && Verifies(host, b) && LatestHash(a) == LatestHash(b)
    ensures |a| == |b| && forall i :: 0 <= i < |a| ==> SameRow(a[i], b[i])
    decreases |a|
  {
    if a != [] { PrevIsTip(host, a); }
    if b != [] { PrevIsTip(host, b); }
    if a != [] && b != [] {
      var x, y := a[|a| - 1], b[|b| - 1];
      RecordHashBinds(host, x.entry, LatestHash(a[..|a| - 1]), y.entry, LatestHash(b[..|b| - 1]));
      TipFixesHistory(host, a[..|a| - 1], b[..|b| - 1]);
      forall i | 0 <= i < |a| ensures SameRow(a[i], b[i]) {
        if i < |a| - 1 {
          assert a[..|a| - 1][i] == a[i] && b[..|b| - 1][i] == b[i];
        }
      }
    }
  }

  // ----- what a ledger keeps ----------------------------------------------------------------

  /** Every entry can be hashed after whatever came before it. */
  ghost predicate Recordable(host: Host, entries: seq<AuditEntry>) {
    forall i, prev :: 0 <= i < |entries| ==> RecordHash(host, entries[i], prev).Some?
  }

  /** A ledger tells what it was told: the entries, in order, numbered from one. */
  lemma {:induction false} BuiltLedgersTell(host: Host, entries: seq<AuditEntry>)
    requires Recordable(host, entries)
    ensures var rows := Build(host, entries);
      && |rows| == |entries|
      && forall i :: 0 <= i < |rows| ==> rows[i].entry == entries[i] && rows[i].sequence == i + 1
  {
    if entries != [] {
      BuiltLedgersTell(host, entries[..|entries| - 1]);
    }
  }
}
