/** `json.dumps(..., separators=(",", ":"))` and a reader for what it writes:
    the grammar of sections 3 to 7 of RFC 8259, without insignificant white
    space and with whole numbers only. */
module Json {
  import opened Strings
  import opened Decimals
  import opened Numerals
  import opened JsonText

  datatype Json =
    | JNull
    | JBool(b: bool)
    | JInt(n: int)
    | JStr(s: Str)
    | JList(items: seq<Json>)
    | JObj(fields: seq<Field>)

  datatype Field = Field(key: Str, value: Json)

  // ----- printing -----------------------------------------------------------

  function IntText(n: int): string {
    if n < 0 then "-" + Digits(-n) else Digits(n)
  }

  function Quote(s: Str): string {
    "\"" + (EscapeAll(s) + "\"")
  }

  function Print(j: Json): (t: string)
    decreases j, 1
  {
    match j
    case JNull => "null"
    case JBool(b) => if b then "true" else "false"
    case JInt(n) => IntText(n)
    case JStr(s) => Quote(s)
    case JList(items) => if items == [] then "[]" else "[" + (PrintItems(items) + "]")
    case JObj(fields) => if fields == [] then "{}" else "{" + (PrintFields(fields) + "}")
  }

  function PrintItems(items: seq<Json>): string
    requires items != []
    decreases items, 0
  {
    if |items| == 1 then Print(items[0])
    else Print(items[0]) + ("," + PrintItems(items[1..]))
  }

  function PrintField(f: Field): string
    decreases f, 2
  {
    Quote(f.key) + (":" + Print(f.value))
  }

  function PrintFields(fields: seq<Field>): string
    requires fields != []
    decreases fields, 0
  {
    if |fields| == 1 then PrintField(fields[0])
    else PrintField(fields[0]) + ("," + PrintFields(fields[1..]))
  }

  // ----- reading ------------------------------------------------------------

  predicate Starts(t: string, prefix: string) {
    |prefix| <= |t| && t[..|prefix|] == prefix
  }

  function ReadInt(t: string): (r: Option<(Json, string)>)
    ensures r.Some? ==> |r.value.1| < |t|
  {
    if t != [] && t[0] == '-' then
      var n := Span(t[1..]);
      if n == 0 then None else
      var v: int := Value(t[1..][..n]);
      Some((JInt(-v), t[1..][n..]))
    else
      var n := Span(t);
      if n == 0 then None else Some((JInt(Value(t[..n])), t[n..]))
  }

  /** One value, and the text after it. */
  function ReadValue(t: string): (r: Option<(Json, string)>)
    ensures r.Some? ==> |r.value.1| < |t|
    decreases |t|, 1
  {
    if t == [] then None
    else if Starts(t, "null") then Some((JNull, t[4..]))
    else if Starts(t, "true") then Some((JBool(true), t[4..]))
    else if Starts(t, "false") then Some((JBool(false), t[5..]))
    else if t[0] == '"' then
      (match ReadBody(t[1..])
       case None => None
       case Some((s, rest)) => Some((JStr(s), rest)))
    else if t[0] == '[' then
      if Starts(t, "[]") then Some((JList([]), t[2..]))
      else
        (match ReadItems(t[1..])
         case None => None
         case Some((items, rest)) => Some((JList(items), rest)))
    else if t[0] == '{' then
      if Starts(t, "{}") then Some((JObj([]), t[2..]))
      else
        (match ReadFields(t[1..])
         case None => None
         case Some((fields, rest)) => Some((JObj(fields), rest)))
    else ReadInt(t)
  }

  function ReadItems(t: string): (r: Option<(seq<Json>, string)>)
    ensures r.Some? ==> |r.value.1| < |t|
    decreases |t|, 2
  {
    match ReadValue(t)
    case None => None
    case Some((j, rest)) =>
      if rest != [] && rest[0] == ']' then Some(([j], rest[1..]))
      else if rest != [] && rest[0] == ',' then
        (match ReadItems(rest[1..])
         case None => None
         case Some((items, after)) => Some(([j] + items, after)))
      else None
  }

  function ReadField(t: string): (r: Option<(Field, string)>)
    ensures r.Some? ==> |r.value.1| < |t|
    decreases |t|, 2
  {
    if t == [] || t[0] != '"' then None
    else
      match ReadBody(t[1..])
      case None => None
      case Some((key, rest)) =>
        if rest == [] || rest[0] != ':' then None
        else
          match ReadValue(rest[1..])
          case None => None
          case Some((j, after)) => Some((Field(key, j), after))
  }

  function ReadFields(t: string): (r: Option<(seq<Field>, string)>)
    ensures r.Some? ==> |r.value.1| < |t|
    decreases |t|, 3
  {
    match ReadField(t)
    case None => None
    case Some((f, rest)) =>
      if rest != [] && rest[0] == '}' then Some(([f], rest[1..]))
      else if rest != [] && rest[0] == ',' then
        (match ReadFields(rest[1..])
         case None => None
         case Some((fields, after)) => Some(([f] + fields, after)))
      else None
  }

  /** A whole document. */
  function Read(t: string): Option<Json> {
    match ReadValue(t)
    case None => None
    case Some((j, rest)) => if rest == [] then Some(j) else None
  }

  // ----- surrogate pairs ----------------------------------------------------

  function JoinJson(j: Json): Json
    decreases j, 1
  {
    match j
    case JStr(s) => JStr(Join(s))
    case JList(items) => JList(JoinItems(items))
    case JObj(fields) => JObj(JoinFields(fields))
    case _ => j
  }

  function JoinItems(items: seq<Json>): (r: seq<Json>)
    ensures |r| == |items|
    ensures forall i :: 0 <= i < |items| ==> r[i] == JoinJson(items[i])
    decreases items, 0
  {
    if items == [] then [] else [JoinJson(items[0])] + JoinItems(items[1..])
  }

  function JoinField(f: Field): Field
    decreases f, 2
  {
    Field(Join(f.key), JoinJson(f.value))
  }

  function JoinFields(fields: seq<Field>): (r: seq<Field>)
    ensures |r| == |fields|
    ensures forall i :: 0 <= i < |fields| ==> r[i] == JoinField(fields[i])
    decreases fields, 0
  {
    if fields == [] then [] else [JoinField(fields[0])] + JoinFields(fields[1..])
  }

  // ----- the round trip -----------------------------------------------------

  lemma ReadOfQuote(s: Str, rest: string)
    ensures (Quote(s) + rest)[0] == '"'
    ensures ReadBody((Quote(s) + rest)[1..]) == Some((Join(s), rest))
  {
    assert (Quote(s) + rest)[1..] == EscapeAll(s) + ("\"" + rest);
    ReadOfEscaped(s, rest);
  }

  lemma ReadOfInt(n: int, rest: string)
    requires !StartsWithDigit(rest)
    ensures ReadInt(IntText(n) + rest) == Some((JInt(n), rest))
    ensures (IntText(n) + rest)[0] == '-' || IsDigit((IntText(n) + rest)[0])
  {
    var m := Abs(n);
    ValueOfDigits(m);
    SpanOfDigits(Digits(m), rest);
    if n < 0 {
      assert (IntText(n) + rest)[1..] == Digits(m) + rest;
    }
  }

  predicate Opens(t: string) {
    t != [] && (t[0] == '"' || t[0] == '[' || t[0] == '{' || t[0] == '-' || IsDigit(t[0])
                || t[0] == 'n' || t[0] == 't' || t[0] == 'f')
  }

  lemma PrintOpens(j: Json)
    ensures Opens(Print(j))
  {
    if j.JInt? { ReadOfInt(j.n, ""); assert IntText(j.n) + "" == IntText(j.n); }
  }

  lemma ReadOfWord(word: string, rest: string)
    requires word == "null" || word == "true" || word == "false"
    ensures ReadValue(word + rest)
         == Some((if word == "null" then JNull else JBool(word == "true"), rest))
  {
    var t := word + rest;
    assert t[..|word|] == word && t[|word|..] == rest;
    assert t[..4][0] == word[0];
  }

  lemma ReadOfScalar(j: Json, rest: string)
    requires (j.JInt? && !StartsWithDigit(rest)) || j.JStr?
    ensures ReadValue(Print(j) + rest) == Some((JoinJson(j), rest))
  {
    var t := Print(j) + rest;
    if j.JInt? { ReadOfInt(j.n, rest); } else { ReadOfQuote(j.s, rest); }
    assert |t| >= 4 ==> t[..4][0] == t[0];
    assert |t| >= 5 ==> t[..5][0] == t[0];
  }

  /** Every printed value reads back as itself, with its surrogate pairs joined. */
  lemma {:induction false} ReadOfPrint(j: Json, rest: string)
    requires !StartsWithDigit(rest)
    ensures ReadValue(Print(j) + rest) == Some((JoinJson(j), rest))
    decreases j, 1
  {
    match j
    case JNull => ReadOfWord("null", rest);
    case JBool(b) => ReadOfWord(if b then "true" else "false", rest);
    case JInt(_) => ReadOfScalar(j, rest);
    case JStr(_) => ReadOfScalar(j, rest);
    case JList(items) => ReadOfList(items, rest);
    case JObj(fields) => ReadOfObject(fields, rest);
  }

  lemma ReadOfList(items: seq<Json>, rest: string)
    ensures ReadValue(Print(JList(items)) + rest) == Some((JList(JoinItems(items)), rest))
    decreases items, 1
  {
    var t := Print(JList(items)) + rest;
    assert t[0] == '[';
    if items == [] {
      assert t[..2] == "[]" && t[2..] == rest;
    } else {
      ItemsOpen(items);
      assert t[1..] == PrintItems(items) + ("]" + rest);
      assert t[..2][1] == t[1..][0];
      ReadOfItems(items, rest);
    }
    assert |t| >= 4 ==> t[..4][0] == '[';
    assert |t| >= 5 ==> t[..5][0] == '[';
  }

  lemma ReadOfObject(fields: seq<Field>, rest: string)
    ensures ReadValue(Print(JObj(fields)) + rest) == Some((JObj(JoinFields(fields)), rest))
    decreases fields, 1
  {
    var t := Print(JObj(fields)) + rest;
    assert t[0] == '{';
    if fields == [] {
      assert t[..2] == "{}" && t[2..] == rest;
    } else {
      FieldsOpen(fields);
      assert t[1..] == PrintFields(fields) + ("}" + rest);
      assert t[..2][1] == t[1..][0];
      ReadOfFields(fields, rest);
    }
    assert |t| >= 4 ==> t[..4][0] == '{';
    assert |t| >= 5 ==> t[..5][0] == '{';
  }

  lemma ItemsOpen(items: seq<Json>)
    requires items != []
    ensures PrintItems(items) != [] && PrintItems(items)[0] != ']'
  {
    PrintOpens(items[0]);
  }

  lemma FieldsOpen(fields: seq<Field>)
    requires fields != []
    ensures PrintFields(fields) != [] && PrintFields(fields)[0] != '}'
  {
  }

  lemma {:induction false} ReadOfItems(items: seq<Json>, rest: string)
    requires items != []
    ensures ReadItems(PrintItems(items) + ("]" + rest)) == Some((JoinItems(items), rest))
    decreases items, 0
  {
    if |items| == 1 {
      ReadOfPrint(items[0], "]" + rest);
      assert ("]" + rest)[1..] == rest;
      assert JoinItems(items) == [JoinJson(items[0])];
    } else {
      var tail := PrintItems(items[1..]) + ("]" + rest);
      assert PrintItems(items) + ("]" + rest) == Print(items[0]) + ("," + tail);
      ReadOfPrint(items[0], "," + tail);
      assert ("," + tail)[1..] == tail;
      ReadOfItems(items[1..], rest);
    }
  }

  lemma {:induction false} ReadOfField(f: Field, rest: string)
    requires !StartsWithDigit(rest)
    ensures ReadField(PrintField(f) + rest) == Some((JoinField(f), rest))
    decreases f, 2
  {
    var tail := ":" + (Print(f.value) + rest);
    assert PrintField(f) + rest == Quote(f.key) + tail;
    ReadOfQuote(f.key, tail);
    assert tail[1..] == Print(f.value) + rest;
    ReadOfPrint(f.value, rest);
  }

  lemma {:induction false} ReadOfFields(fields: seq<Field>, rest: string)
    requires fields != []
    ensures ReadFields(PrintFields(fields) + ("}" + rest)) == Some((JoinFields(fields), rest))
    decreases fields, 0
  {
    if |fields| == 1 {
      ReadOfField(fields[0], "}" + rest);
      assert ("}" + rest)[1..] == rest;
      assert JoinFields(fields) == [JoinField(fields[0])];
    } else {
      var tail := PrintFields(fields[1..]) + ("}" + rest);
      assert PrintFields(fields) + ("}" + rest) == PrintField(fields[0]) + ("," + tail);
      ReadOfField(fields[0], "," + tail);
      assert ("," + tail)[1..] == tail;
      ReadOfFields(fields[1..], rest);
    }
  }

  /** The reader undoes the printer on every document. */
  lemma ReadUndoesPrint(j: Json)
    ensures Read(Print(j)) == Some(JoinJson(j))
  {
    ReadOfPrint(j, "");
    assert Print(j) + "" == Print(j);
  }

  lemma {:induction false} PrintOfJoined(j: Json)
    ensures Print(JoinJson(j)) == Print(j)
    decreases j, 1
  {
    match j
    case JStr(s) => EscapeOfJoined(s);
    case JList(items) => if items != [] { PrintOfJoinedItems(items); }
    case JObj(fields) => if fields != [] { PrintOfJoinedFields(fields); }
    case _ =>
  }

  lemma {:induction false} PrintOfJoinedItems(items: seq<Json>)
    requires items != []
    ensures PrintItems(JoinItems(items)) == PrintItems(items)
    decreases items, 0
  {
    PrintOfJoined(items[0]);
    if |items| > 1 {
      PrintOfJoinedItems(items[1..]);
      assert JoinItems(items)[1..] == JoinItems(items[1..]);
    }
  }

  lemma {:induction false} PrintOfJoinedFields(fields: seq<Field>)
    requires fields != []
    ensures PrintFields(JoinFields(fields)) == PrintFields(fields)
    decreases fields, 0
  {
    EscapeOfJoined(fields[0].key);
    PrintOfJoined(fields[0].value);
    if |fields| > 1 {
      PrintOfJoinedFields(fields[1..]);
      assert JoinFields(fields)[1..] == JoinFields(fields[1..]);
    }
  }

  /** Two documents print alike exactly when they are the same once surrogate
      pairs are joined. */
  lemma PrintInjective(a: Json, b: Json)
    ensures Print(a) == Print(b) <==> JoinJson(a) == JoinJson(b)
  {
    ReadUndoesPrint(a);
    ReadUndoesPrint(b);
    PrintOfJoined(a);
    PrintOfJoined(b);
  }

  /** Every text in the document is free of side-by-side surrogates. */
  predicate WellPairedJson(j: Json)
    decreases j, 1
  {
    match j
    case JStr(s) => WellPaired(s)
    case JList(items) => forall i :: 0 <= i < |items| ==> WellPairedJson(items[i])
    case JObj(fields) =>
      forall i :: 0 <= i < |fields| ==> WellPaired(fields[i].key) && WellPairedJson(fields[i].value)
    case _ => true
  }

  /** The printer keeps a document apart from every other one exactly when its
      texts are well paired: then, and only then, it is its own joined form. */
  lemma {:induction false} JoinJsonIsIdentity(j: Json)
    ensures JoinJson(j) == j <==> WellPairedJson(j)
    decreases j, 1
  {
    match j
    case JStr(s) => JoinIsIdentity(s);
    case JList(items) =>
      forall i | 0 <= i < |items| ensures JoinJson(items[i]) == items[i] <==> WellPairedJson(items[i]) {
        JoinJsonIsIdentity(items[i]);
      }
    case JObj(fields) =>
      forall i | 0 <= i < |fields|
        ensures JoinField(fields[i]) == fields[i]
           <==> WellPaired(fields[i].key) && WellPairedJson(fields[i].value)
      {
        JoinIsIdentity(fields[i].key);
        JoinJsonIsIdentity(fields[i].value);
      }
      assert JoinFields(fields) == fields
        <==> forall i :: 0 <= i < |fields| ==> JoinField(fields[i]) == fields[i];
    case _ =>
  }

  /** Among documents of ordinary text the printed texts are equal exactly when the documents
      are. */
  lemma WellPairedPrintsApart(a: Json, b: Json)
    requires WellPairedJson(a) && WellPairedJson(b)
    ensures Print(a) == Print(b) <==> a == b
  {
    PrintInjective(a, b);
    JoinJsonIsIdentity(a);
    JoinJsonIsIdentity(b);
  }
}
