/** `canonicalize` and `canonical_json`: Python values reduced to JSON with
    sorted keys and no floats, and the hash taken over the text. */
module Canonical {
  import opened Strings
  import opened Decimals
  import opened Sorting
  import opened JsonText
  import opened Json

  /** What the callers put into a hashed payload. A date or datetime carries its
      ISO text; `Unhashable` is a float or any other type that is refused. */
  datatype Value =
    | VNone
    | VBool(b: bool)
    | VInt(n: int)
    | VStr(s: Str)
    | VDecimal(d: Decimal)
    | VIso(iso: Str)
    | VSeq(items: seq<Value>)
    | VMap(entries: seq<Entry>)
    | Unhashable

  datatype Entry = Entry(key: Str, value: Value)

  predicate FieldLe(f: Field, g: Field) {
    StrLe(f.key, g.key)
  }

  /** `canonicalize`; `None` is the `TypeError`. */
  function Canonicalize(v: Value): Option<Json>
    decreases v, 1
  {
    match v
    case VNone => Some(JNull)
    case VBool(b) => Some(JBool(b))
    case VInt(n) => Some(JInt(n))
    case VStr(s) => Some(JStr(s))
    case VDecimal(d) => Some(JStr(U(Text(d))))
    case VIso(iso) => Some(JStr(iso))
    case VSeq(items) =>
      (match CanonicalItems(items)
       case None => None
       case Some(js) => Some(JList(js)))
    case VMap(entries) =>
      (match CanonicalEntries(entries)
       case None => None
       case Some(fields) => Some(JObj(Sort(fields, FieldLe))))
    case Unhashable => None
  }

  function CanonicalItems(items: seq<Value>): (r: Option<seq<Json>>)
    ensures r.Some? ==> |r.value| == |items|
    ensures r.Some? ==> forall i :: 0 <= i < |items| ==> Canonicalize(items[i]) == Some(r.value[i])
    decreases items, 0
  {
    if items == [] then Some([])
    else
      match (Canonicalize(items[0]), CanonicalItems(items[1..]))
      case (Some(j), Some(js)) => Some([j] + js)
      case _ => None
  }

  function CanonicalEntries(entries: seq<Entry>): (r: Option<seq<Field>>)
    ensures r.Some? ==> |r.value| == |entries|
    ensures r.Some? ==> forall i :: 0 <= i < |entries| ==>
      r.value[i].key == entries[i].key && Canonicalize(entries[i].value) == Some(r.value[i].value)
    decreases entries, 0
  {
    if entries == [] then Some([])
    else
      match (Canonicalize(entries[0].value), CanonicalEntries(entries[1..]))
      case (Some(j), Some(fields)) => Some([Field(entries[0].key, j)] + fields)
      case _ => None
  }

  /** `json.dumps(..., sort_keys=True)` */
  function Dumps(j: Json): string {
    Print(SortKeys(j))
  }

  function SortKeys(j: Json): Json
    decreases j, 1
  {
    match j
    case JList(items) => JList(SortItems(items))
    case JObj(fields) => JObj(Sort(SortFields(fields), FieldLe))
    case _ => j
  }

  function SortItems(items: seq<Json>): (r: seq<Json>)
    ensures |r| == |items|
    decreases items, 0
  {
    if items == [] then [] else [SortKeys(items[0])] + SortItems(items[1..])
  }

  function SortFields(fields: seq<Field>): (r: seq<Field>)
    ensures |r| == |fields|
    decreases fields, 0
  {
    if fields == [] then []
    else
      assert fields[0].value < fields[0];
      [Field(fields[0].key, SortKeys(fields[0].value))] + SortFields(fields[1..])
  }

  /** `canonical_json` */
  function CanonicalJson(v: Value): Option<string> {
    match Canonicalize(v)
    case None => None
    case Some(j) => Some(Dumps(j))
  }

  /** `sha256_of`, over an arbitrary hash function. */
  function HashOf(sha: string -> string, v: Value): Option<string> {
    match CanonicalJson(v)
    case None => None
    case Some(t) => Some(sha(t))
  }

  ghost predicate CollisionFree(sha: string -> string) {
    forall a, b :: sha(a) == sha(b) ==> a == b
  }

  // ----- ordering of keys ---------------------------------------------------

  lemma FieldLeIsTotalPreorder()
    ensures TotalPreorder(FieldLe)
  {
    forall f: Field, g: Field ensures FieldLe(f, g) || FieldLe(g, f) {
      StrLeTotal(f.key, g.key);
    }
    forall f: Field, g: Field, h: Field | FieldLe(f, g) && FieldLe(g, h) ensures FieldLe(f, h) {
      StrLeTransitive(f.key, g.key, h.key);
    }
  }

  predicate DistinctKeys(fields: seq<Field>) {
    forall i, j :: 0 <= i < j < |fields| ==> fields[i].key != fields[j].key
  }

  lemma DistinctKeysApart(fields: seq<Field>)
    requires DistinctKeys(fields)
    ensures KeyedApart(fields, FieldLe)
  {
    forall f, g | f in fields && g in fields && FieldLe(f, g) && FieldLe(g, f) ensures f == g {
      StrLeAntisymmetric(f.key, g.key);
    }
  }

  lemma SortedAlike(f: seq<Field>, g: seq<Field>)
    requires multiset(f) == multiset(g) && DistinctKeys(f)
    ensures Sort(f, FieldLe) == Sort(g, FieldLe)
  {
    FieldLeIsTotalPreorder();
    DistinctKeysApart(f);
    SortForgetsOrder(f, g, FieldLe);
  }

  /** The insertion order of a dictionary's keys never reaches the text, at any depth:
      the values only have to canonicalize alike. */
  lemma KeyOrderIrrelevant(a: seq<Entry>, b: seq<Entry>)
    requires CanonicalEntries(a).Some? && CanonicalEntries(b).Some?
    requires multiset(CanonicalEntries(a).value) == multiset(CanonicalEntries(b).value)
    requires DistinctKeys(CanonicalEntries(a).value)
    ensures CanonicalJson(VMap(a)) == CanonicalJson(VMap(b))
  {
    var f, g := CanonicalEntries(a).value, CanonicalEntries(b).value;
    SortedAlike(f, g);
    CanonicalMap(a, f);
    CanonicalMap(b, g);
    SameText(VMap(a), VMap(b));
  }

  lemma CanonicalMap(a: seq<Entry>, f: seq<Field>)
    requires CanonicalEntries(a) == Some(f)
    ensures Canonicalize(VMap(a)) == Some(JObj(Sort(f, FieldLe)))
  {
  }

  lemma SameText(v: Value, w: Value)
    requires Canonicalize(v) == Canonicalize(w)
    ensures CanonicalJson(v) == CanonicalJson(w)
  {
  }

  // ----- the second sort changes nothing ------------------------------------

  lemma SortItemsOf(items: seq<Json>)
    requires forall i :: 0 <= i < |items| ==> SortKeys(items[i]) == items[i]
    ensures SortItems(items) == items
  {
    if items != [] {
      SortItemsOf(items[1..]);
      assert items == [items[0]] + items[1..];
    }
  }

  lemma SortFieldsOf(fields: seq<Field>)
    requires forall i :: 0 <= i < |fields| ==> SortKeys(fields[i].value) == fields[i].value
    ensures SortFields(fields) == fields
  {
    if fields != [] {
      SortFieldsOf(fields[1..]);
      assert fields == [fields[0]] + fields[1..];
    }
  }

  /** `sort_keys=True` finds the keys already sorted by `canonicalize`. */
  lemma {:induction false} SortKeysOfCanonical(v: Value)
    requires Canonicalize(v).Some?
    ensures SortKeys(Canonicalize(v).value) == Canonicalize(v).value
    decreases v
  {
    match v
    case VSeq(items) =>
      var js := CanonicalItems(items).value;
      forall i | 0 <= i < |js| ensures SortKeys(js[i]) == js[i] {
        SortKeysOfCanonical(items[i]);
      }
      SortItemsOf(js);
    case VMap(entries) =>
      var fields := CanonicalEntries(entries).value;
      forall i | 0 <= i < |fields| ensures SortKeys(fields[i].value) == fields[i].value {
        assert entries[i].value < entries[i];
        SortKeysOfCanonical(entries[i].value);
      }
      var sorted := Sort(fields, FieldLe);
      forall i | 0 <= i < |sorted| ensures SortKeys(sorted[i].value) == sorted[i].value {
        SortMembers(fields, FieldLe, sorted[i]);
      }
      SortFieldsOf(sorted);
      FieldLeIsTotalPreorder();
      SortIsSorted(fields, FieldLe);
      SortOfSorted(sorted, FieldLe);
    case _ =>
  }

  // ----- what equal texts say about the values ------------------------------

  /** Equal canonical texts mean equal canonical values, up to joined surrogates;
      and only then are the texts equal. */
  lemma CanonicalJsonInjective(v: Value, w: Value)
    requires Canonicalize(v).Some? && Canonicalize(w).Some?
    ensures CanonicalJson(v) == CanonicalJson(w)
       <==> JoinJson(Canonicalize(v).value) == JoinJson(Canonicalize(w).value)
  {
    SortKeysOfCanonical(v);
    SortKeysOfCanonical(w);
    PrintInjective(Canonicalize(v).value, Canonicalize(w).value);
  }

  /** A hash without collisions tells canonical values apart. */
  lemma HashBinds(sha: string -> string, v: Value, w: Value)
    requires CollisionFree(sha)
    requires HashOf(sha, v).Some? && HashOf(sha, v) == HashOf(sha, w)
    ensures Canonicalize(v).Some? && Canonicalize(w).Some?
    ensures JoinJson(Canonicalize(v).value) == JoinJson(Canonicalize(w).value)
  {
    CanonicalJsonInjective(v, w);
  }

  /** Two fields that share a key. */
  datatype Twin = Twin(key: Str, left: Json, right: Json)

  predicate TwinLe(a: Twin, b: Twin) {
    StrLe(a.key, b.key)
  }

  function Left(t: Twin): Field { Field(t.key, t.left) }
  function Right(t: Twin): Field { Field(t.key, t.right) }

  predicate SameKeys(f: seq<Field>, g: seq<Field>) {
    |f| == |g| && forall i :: 0 <= i < |f| ==> f[i].key == g[i].key
  }

  function Twins(f: seq<Field>, g: seq<Field>): (h: seq<Twin>)
    requires SameKeys(f, g)
    ensures |h| == |f|
    ensures forall i :: 0 <= i < |f| ==> h[i] == Twin(f[i].key, f[i].value, g[i].value)
  {
    seq(|f|, i requires 0 <= i < |f| => Twin(f[i].key, f[i].value, g[i].value))
  }

  /** Two records with the same keys are sorted by the same rearrangement. */
  lemma SortTwins(f: seq<Field>, g: seq<Field>)
    requires SameKeys(f, g)
    ensures Sort(f, FieldLe) == Map(Left, Sort(Twins(f, g), TwinLe))
    ensures Sort(g, FieldLe) == Map(Right, Sort(Twins(f, g), TwinLe))
  {
    var h := Twins(f, g);
    assert Map(Left, h) == f && Map(Right, h) == g;
    SortMap(Left, h, TwinLe, FieldLe);
    SortMap(Right, h, TwinLe, FieldLe);
  }

  /** Two records with the same keys whose sorted, joined objects agree, agree field by field. */
  lemma RecordAgrees(f: seq<Field>, g: seq<Field>, i: nat)
    requires SameKeys(f, g) && i < |f|
    requires JoinFields(Sort(f, FieldLe)) == JoinFields(Sort(g, FieldLe))
    ensures JoinJson(f[i].value) == JoinJson(g[i].value)
  {
    SortTwins(f, g);
    var h := Twins(f, g);
    var s := Sort(h, TwinLe);
    SortMembers(h, TwinLe, h[i]);
    var p :| 0 <= p < |s| && s[p] == h[i];
    TwinAgrees(s, p);
  }

  lemma {:induction false} TwinAgrees(s: seq<Twin>, p: nat)
    requires p < |s| && JoinFields(Map(Left, s)) == JoinFields(Map(Right, s))
    ensures JoinJson(s[p].left) == JoinJson(s[p].right)
  {
    assert JoinFields(Map(Left, s))[p] == JoinField(Left(s[p]));
    assert JoinFields(Map(Right, s))[p] == JoinField(Right(s[p]));
  }

  lemma LiteralWellPaired(s: string)
    ensures WellPaired(U(s)) && Join(U(s)) == U(s)
  {
    JoinIsIdentity(U(s));
  }

  /** Texts that came from ASCII literals or numerals keep their identity in a document. */
  lemma JoinedLiteral(s: string, t: string)
    ensures Join(U(s)) == Join(U(t)) ==> s == t
  {
    LiteralWellPaired(s);
    LiteralWellPaired(t);
    UInjective(s, t);
  }

  lemma JoinedDecimal(d: Decimal, d': Decimal)
    requires Join(U(Text(d))) == Join(U(Text(d')))
    ensures d == d'
  {
    JoinedLiteral(Text(d), Text(d'));
    TextInjective(d, d');
  }

  /** The one way two different texts print alike: a surrogate pair left apart, and
      the character it stands for. */
  lemma SplitPairCollides()
    ensures var split: Str := [0xD83D, 0xDE00];
      var joined: Str := [0x1F600];
      split != joined && CanonicalJson(VStr(split)) == CanonicalJson(VStr(joined))
  {
    var split: Str := [0xD83D, 0xDE00];
    var joined: Str := [0x1F600];
    assert split[2..] == [];
    assert Join(split) == joined && Join(joined) == joined;
    CanonicalJsonInjective(VStr(split), VStr(joined));
  }

  // ----- what can be hashed, and in what order -----------------------------------------------

  /** No float, nor any other value that is refused, at any depth. */
  predicate Clean(v: Value)
    decreases v, 1
  {
    match v
    case VSeq(items) => forall i :: 0 <= i < |items| ==> Clean(items[i])
    case VMap(entries) => CleanEntries(entries)
    case Unhashable => false
    case _ => true
  }

  predicate CleanEntries(entries: seq<Entry>)
    decreases entries, 0
  {
    forall i :: 0 <= i < |entries| ==> CleanEntry(entries[i])
  }

  predicate CleanEntry(e: Entry)
    decreases e, 2
  {
    Clean(e.value)
  }

  lemma {:induction false} CanonicalizesExactly(v: Value)
    ensures Canonicalize(v).Some? <==> Clean(v)
    decreases v, 1
  {
    match v
    case VSeq(items) => ItemsCanonicalizeExactly(items);
    case VMap(entries) => EntriesCanonicalizeExactly(entries);
    case _ =>
  }

  lemma {:induction false} ItemsCanonicalizeExactly(items: seq<Value>)
    ensures CanonicalItems(items).Some? <==> forall i :: 0 <= i < |items| ==> Clean(items[i])
    decreases items, 0
  {
    if items != [] {
      CanonicalizesExactly(items[0]);
      ItemsCanonicalizeExactly(items[1..]);
      assert forall i :: 1 <= i < |items| ==> items[i] == items[1..][i - 1];
    }
  }

  lemma {:induction false} EntriesCanonicalizeExactly(entries: seq<Entry>)
    ensures CanonicalEntries(entries).Some? <==> CleanEntries(entries)
    decreases entries, 0
  {
    if entries != [] {
      assert entries[0].value < entries[0];
      CanonicalizesExactly(entries[0].value);
      EntriesCanonicalizeExactly(entries[1..]);
      assert forall i :: 1 <= i < |entries| ==> entries[i] == entries[1..][i - 1];
      assert CleanEntry(entries[0]) <==> Clean(entries[0].value);
    }
  }

  /** A value has a canonical text exactly when there is no float in it anywhere. */
  lemma HashedExactly(v: Value)
    ensures CanonicalJson(v).Some? <==> Clean(v)
  {
    CanonicalizesExactly(v);
  }

  /** Every dictionary, at every depth, lists its keys in ascending order. */
  predicate KeysAscend(j: Json)
    decreases j, 1
  {
    match j
    case JList(items) => forall i :: 0 <= i < |items| ==> KeysAscend(items[i])
    case JObj(fields) => FieldsAscend(fields)
    case _ => true
  }

  predicate FieldsAscend(fields: seq<Field>)
    decreases fields, 0
  {
    && (forall i, j :: 0 <= i < j < |fields| ==> StrLe(fields[i].key, fields[j].key))
    && forall i :: 0 <= i < |fields| ==> FieldAscends(fields[i])
  }

  predicate FieldAscends(f: Field)
    decreases f, 2
  {
    KeysAscend(f.value)
  }

  /** Whatever is printed has its keys in ascending order. */
  lemma {:induction false} PrintedInOrder(j: Json)
    ensures KeysAscend(SortKeys(j))
    decreases j, 1
  {
    match j
    case JList(items) => ItemsInOrder(items);
    case JObj(fields) =>
      var sorted := SortFields(fields);
      FieldsInOrder(fields);
      FieldLeIsTotalPreorder();
      SortIsSorted(sorted, FieldLe);
      forall i | 0 <= i < |Sort(sorted, FieldLe)| ensures FieldAscends(Sort(sorted, FieldLe)[i]) {
        SortMembers(sorted, FieldLe, Sort(sorted, FieldLe)[i]);
      }
    case _ =>
  }

  lemma {:induction false} ItemsInOrder(items: seq<Json>)
    ensures forall i :: 0 <= i < |items| ==> KeysAscend(SortItems(items)[i])
    decreases items, 0
  {
    if items != [] {
      PrintedInOrder(items[0]);
      ItemsInOrder(items[1..]);
    }
  }

  lemma {:induction false} FieldsInOrder(fields: seq<Field>)
    ensures forall f :: f in SortFields(fields) ==> FieldAscends(f)
    decreases fields, 0
  {
    if fields != [] {
      assert fields[0].value < fields[0];
      PrintedInOrder(fields[0].value);
      FieldsInOrder(fields[1..]);
    }
  }
}
