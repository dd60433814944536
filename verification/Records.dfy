/**
  What a journal record is, how it is written as one line, and what a log of them means:
  the entries still to be delivered and the entries set aside.
 */
module Records {
  import opened Wrappers
  import Json

  datatype Entry = Entry(
    id: string,
    sourceId: string,
    receivedAt: string,
    payload: Json.Value,
    idempotencyKey: Option<string>)

  datatype Record =
    | Accepted(entry: Entry)
    | Done(id: string)
    | Dead(id: string, reason: string, at: string)

  /** An entry set aside, with the reason and the moment of its last `Dead` marker. */
  datatype Letter = Letter(entry: Entry, reason: string, at: string)

  // ----- the meaning of a log -----------------------------------------------

  function MarkedIds(records: seq<Record>): set<string> {
    set r <- records | !r.Accepted? :: r.id
  }

  function DoneIds(records: seq<Record>): set<string> {
    set r <- records | r.Done? :: r.id
  }

  function Entries(records: seq<Record>): seq<Entry> {
    if records == [] then []
    else if records[0].Accepted? then [records[0].entry] + Entries(records[1..])
    else Entries(records[1..])
  }

  function Without(entries: seq<Entry>, ids: set<string>): seq<Entry> {
    if entries == [] then []
    else if entries[0].id in ids then Without(entries[1..], ids)
    else [entries[0]] + Without(entries[1..], ids)
  }

  /** The accepted entries no marker names, in acceptance order. */
  function Pending(records: seq<Record>): seq<Entry> {
    Without(Entries(records), MarkedIds(records))
  }

  /** The last `Dead` marker of each id. */
  function Reasons(records: seq<Record>): map<string, (string, string)> {
    if records == [] then map[]
    else
      var last := records[|records| - 1];
      var before := Reasons(records[..|records| - 1]);
      if last.Dead? then before[last.id := (last.reason, last.at)] else before
  }

  function Letters(entries: seq<Entry>, reasons: map<string, (string, string)>): seq<Letter> {
    if entries == [] then []
    else
      var e := entries[0];
      if e.id in reasons
      then [Letter(e, reasons[e.id].0, reasons[e.id].1)] + Letters(entries[1..], reasons)
      else Letters(entries[1..], reasons)
  }

  /** The entries set aside, each with the reason of its last marker. */
  function DeadLetters(records: seq<Record>): seq<Letter> {
    Letters(Entries(records), Reasons(records))
  }

  function AsRecords(entries: seq<Entry>): seq<Record> {
    if entries == [] then [] else [Accepted(entries[0])] + AsRecords(entries[1..])
  }

  function Repost(letters: seq<Letter>): seq<Record> {
    if letters == [] then []
    else
      var l := letters[0];
      [Accepted(l.entry), Dead(l.entry.id, l.reason, l.at)] + Repost(letters[1..])
  }

  /** What compaction keeps: the pending entries, then each set-aside entry with its marker. */
  function Compacted(records: seq<Record>): seq<Record> {
    AsRecords(Pending(records)) + Repost(DeadLetters(records))
  }

  // ----- one record as one line ---------------------------------------------

  function Text(key: string, value: string): Json.Member {
    Json.Member(key, Json.Str(value))
  }

  /** The JSON object of a record; its `kind` comes first. */
  function ToJson(r: Record): (v: Json.Value)
    ensures v.Obj?
  {
    match r
    case Accepted(e) =>
      Json.Obj(Json.Cons(Text("kind", "entry"),
        Json.Cons(Text("id", e.id),
        Json.Cons(Text("source_id", e.sourceId),
        Json.Cons(Text("received_at", e.receivedAt),
        Json.Cons(Json.Member("payload", e.payload),
        if e.idempotencyKey.Some? then Json.Cons(Text("idempotency_key", e.idempotencyKey.value), Json.Nil)
        else Json.Nil))))))
    case Done(id) =>
      Json.Obj(Json.Cons(Text("kind", "done"), Json.Cons(Text("id", id), Json.Nil)))
    case Dead(id, reason, at) =>
      Json.Obj(Json.Cons(Text("kind", "dead"), Json.Cons(Text("id", id),
        Json.Cons(Text("reason", reason), Json.Cons(Text("at", at), Json.Nil)))))
  }

  /** Every value an object gives a key; more than one is refused. */
  function Values(members: Json.List<Json.Member>, key: string): seq<Json.Value> {
    match members
    case Nil => []
    case Cons(m, rest) => (if m.key == key then [m.value] else []) + Values(rest, key)
  }

  function TextField(members: Json.List<Json.Member>, key: string): Option<string> {
    var vs := Values(members, key);
    if |vs| == 1 && vs[0].Str? then Some(vs[0].s) else None
  }

  /** The optional key: absent and `null` are the same, anything but text is refused. */
  function OptionalField(members: Json.List<Json.Member>, key: string): Option<Option<string>> {
    var vs := Values(members, key);
    if vs == [] || vs == [Json.Null] then Some(None)
    else if |vs| == 1 && vs[0].Str? then Some(Some(vs[0].s))
    else None
  }

  /** An array gives the fields in the order they are declared; too many are refused. */
  function Positional(names: seq<string>, items: Json.List<Json.Value>): Option<Json.List<Json.Member>> {
    match items
    case Nil => Some(Json.Nil)
    case Cons(v, rest) =>
      if names == [] then None
      else match Positional(names[1..], rest)
        case None => None
        case Some(ms) => Some(Json.Cons(Json.Member(names[0], v), ms))
  }

  /** A record from its JSON: an object with a `kind`, or an array that starts with it. */
  function FromJson(v: Json.Value): Option<Record> {
    match v
    case Obj(ms) =>
      (match TextField(ms, "kind")
       case None => None
       case Some(kind) => FromFields(kind, ms))
    case Arr(items) =>
      if items.Cons? && items.head.Str? then
        match Positional(FieldNames(items.head.s), items.tail)
        case None => None
        case Some(ms) => FromFields(items.head.s, ms)
      else None
    case _ => None
  }

  function FieldNames(kind: string): seq<string> {
    if kind == "entry" then ["id", "source_id", "received_at", "payload", "idempotency_key"]
    else if kind == "dead" then ["id", "reason", "at"]
    else ["id"]
  }

  function FromFields(kind: string, ms: Json.List<Json.Member>): Option<Record> {
    match TextField(ms, "id")
    case None => None
    case Some(id) =>
      if kind == "entry" then EntryFromJson(ms, id)
      else if kind == "done" then Some(Done(id))
      else if kind == "dead" then
        match (TextField(ms, "reason"), TextField(ms, "at"))
        case (Some(reason), Some(at)) => Some(Dead(id, reason, at))
        case _ => None
      else None
  }

  function EntryFromJson(ms: Json.List<Json.Member>, id: string): Option<Record> {
    var payloads := Values(ms, "payload");
    match (TextField(ms, "source_id"), TextField(ms, "received_at"), OptionalField(ms, "idempotency_key"))
    case (Some(source), Some(at), Some(key)) =>
      if |payloads| == 1 then Some(Accepted(Entry(id, source, at, payloads[0], key))) else None
    case _ => None
  }

  function Print(r: Record): string { Json.Print(ToJson(r)) }

  function Parse(line: string): Option<Record> {
    match Json.Parse(line)
    case None => None
    case Some(v) => FromJson(v)
  }

  /** The values of a list of members, one member at a time. */
  function Own(m: Json.Member, key: string): seq<Json.Value> {
    if m.key == key then [m.value] else []
  }

  lemma TwoValues(a: Json.Member, b: Json.Member, rest: Json.List<Json.Member>, key: string)
    ensures Values(Json.Cons(a, Json.Cons(b, rest)), key) == Own(a, key) + Own(b, key) + Values(rest, key)
  {
    assert Values(Json.Cons(b, rest), key) == Own(b, key) + Values(rest, key);
  }

  lemma JsonRoundTrip(r: Record)
    ensures FromJson(ToJson(r)) == Some(r)
  {
    hide Json.IsNumber, Values;
    var ms := ToJson(r).members;
    var ms2 := ms.tail.tail;
    match r
    case Accepted(e) => EntryRoundTrip(e);
    case Done(id) =>
      forall key ensures Values(ms, key) == Own(ms.head, key) + Own(ms.tail.head, key) {
        TwoValues(ms.head, ms.tail.head, ms2, key);
        LastValues(ms2, key);
      }
    case Dead(id, reason, at) =>
      forall key ensures Values(ms, key) == Own(ms.head, key) + Own(ms.tail.head, key)
          + Own(ms2.head, key) + Own(ms2.tail.head, key) {
        TwoValues(ms.head, ms.tail.head, ms2, key);
        TwoValues(ms2.head, ms2.tail.head, Json.Nil, key);
        LastValues(Json.Nil, key);
      }
  }

  lemma EntryRoundTrip(e: Entry)
    ensures FromJson(ToJson(Accepted(e))) == Some(Accepted(e))
  {
    hide Json.IsNumber, Values;
    var ms := ToJson(Accepted(e)).members;
    forall key ensures Values(ms, key) == EntryValues(e, key) { EntryFields(e, key); }
    assert TextField(ms, "kind") == Some("entry") && TextField(ms, "id") == Some(e.id);
    assert TextField(ms, "source_id") == Some(e.sourceId) && TextField(ms, "received_at") == Some(e.receivedAt);
    assert Values(ms, "payload") == [e.payload];
    assert OptionalField(ms, "idempotency_key") == Some(e.idempotencyKey);
  }

  function EntryValues(e: Entry, key: string): seq<Json.Value> {
    if key == "kind" then [Json.Str("entry")]
    else if key == "id" then [Json.Str(e.id)]
    else if key == "source_id" then [Json.Str(e.sourceId)]
    else if key == "received_at" then [Json.Str(e.receivedAt)]
    else if key == "payload" then [e.payload]
    else if key == "idempotency_key" && e.idempotencyKey.Some? then [Json.Str(e.idempotencyKey.value)]
    else []
  }

  lemma EntryFields(e: Entry, key: string)
    ensures Values(ToJson(Accepted(e)).members, key) == EntryValues(e, key)
  {
    hide Json.IsNumber, Values;
    var ms := ToJson(Accepted(e)).members;
    var ms2 := ms.tail.tail;
    var ms4 := ms2.tail.tail;
    TwoValues(ms.head, ms.tail.head, ms2, key);
    TwoValues(ms2.head, ms2.tail.head, ms4, key);
    LastValues(ms4, key);
  }

  lemma LastValues(ms: Json.List<Json.Member>, key: string)
    requires ms.Cons? && ms.tail.Cons? ==> ms.tail.tail.Nil?
    ensures Values(ms, key) ==
      if ms.Nil? then [] else Own(ms.head, key) + (if ms.tail.Nil? then [] else Own(ms.tail.head, key))
  {
    if ms.Cons? && ms.tail.Cons? { assert Values(ms.tail, key) == Own(ms.tail.head, key); }
  }

  /** Reading a printed record gives it back. */
  lemma RecordRoundTrip(r: Record)
    ensures Parse(Print(r)) == Some(r)
  {
    Json.ParseUndoesPrint(ToJson(r));
    JsonRoundTrip(r);
  }

  /** A printed record is one line: no control character, an opening bracket first. */
  lemma PrintIsOneLine(r: Record)
    ensures Print(r) != "" && Print(r)[0] == '{'
    ensures forall i :: 0 <= i < |Print(r)| ==> Print(r)[i] >= ' '
  {
    Json.PrintIsOneLine(ToJson(r));
  }

  // ----- the form of a line --------------------------------------------------------------

  predicate IsPlain(s: string) { forall i :: 0 <= i < |s| ==> s[i] >= ' ' && s[i] != '"' && s[i] != '\\' }

  /** A name and a printed value, as they stand in an object. */
  function Pair(key: string, value: string): string { "\"" + key + "\":" + value }

  lemma {:induction false} PlainText(s: string)
    requires IsPlain(s)
    ensures Json.PrintChars(s) == s + "\""
  {
    if s != "" {
      PlainText(s[1..]);
      PlainCharacter(s[0]);
      hide Json.Escape, IsPlain;
      assert s == [s[0]] + s[1..];
    }
  }

  lemma PlainCharacter(c: char)
    requires c >= ' ' && c != '"' && c != '\\'
    ensures Json.Escape(c) == [c]
  {
  }

  lemma OneMember(key: string, value: Json.Value, rest: Json.List<Json.Member>)
    requires IsPlain(key)
    ensures Json.PrintMembers(Json.Cons(Json.Member(key, value), rest)) ==
      Pair(key, Json.Print(value)) + (if rest.Nil? then "}" else "," + Json.PrintMembers(rest))
  {
    PlainText(key);
    assert Json.PrintString(key) + ":" == "\"" + key + "\":";
  }

  lemma NamesArePlain()
    ensures IsPlain("kind") && IsPlain("id") && IsPlain("reason") && IsPlain("at") && IsPlain("source_id")
    ensures IsPlain("received_at") && IsPlain("payload") && IsPlain("idempotency_key")
  {
  }

  /** The printed members after the bracket: pairs, separated by commas. */
  function Pairs(pairs: seq<(string, string)>): string {
    if pairs == [] then "}"
    else Pair(pairs[0].0, pairs[0].1) + (if |pairs| == 1 then "}" else "," + Pairs(pairs[1..]))
  }

  function PairsOf(ms: Json.List<Json.Member>): (r: seq<(string, string)>)
    ensures r == [] <==> ms.Nil?
  {
    match ms
    case Nil => []
    case Cons(m, rest) => [(m.key, Json.Print(m.value))] + PairsOf(rest)
  }

  predicate PlainNames(ms: Json.List<Json.Member>) { ms.Nil? || (IsPlain(ms.head.key) && PlainNames(ms.tail)) }

  lemma TwoPairs(a: Json.Member, b: Json.Member, rest: Json.List<Json.Member>)
    ensures var ms := Json.Cons(a, Json.Cons(b, rest));
      && PairsOf(ms) == [(a.key, Json.Print(a.value)), (b.key, Json.Print(b.value))] + PairsOf(rest)
      && (PlainNames(ms) <==> IsPlain(a.key) && IsPlain(b.key) && PlainNames(rest))
  {
    hide IsPlain, Json.Print;
    var one := Json.Cons(b, rest);
    assert PlainNames(one) <==> IsPlain(b.key) && PlainNames(rest);
    assert PairsOf(one) == [(b.key, Json.Print(b.value))] + PairsOf(rest);
  }

  lemma {:induction false} PrintedMembers(ms: Json.List<Json.Member>)
    requires PlainNames(ms)
    ensures Json.PrintMembers(ms) == Pairs(PairsOf(ms))
  {
    hide IsPlain, Pair;
    if ms.Cons? {
      PrintedMembers(ms.tail);
      OneMember(ms.head.key, ms.head.value, ms.tail);
      assert PairsOf(ms)[1..] == PairsOf(ms.tail);
    }
  }

  /** A line's fields in order: its kind, and then each under its name. */
  function Form(r: Record): seq<(string, string)> {
    match r
    case Done(id) => [("kind", Json.PrintString("done")), ("id", Json.PrintString(id))]
    case Dead(id, reason, at) =>
      [("kind", Json.PrintString("dead")), ("id", Json.PrintString(id)),
       ("reason", Json.PrintString(reason)), ("at", Json.PrintString(at))]
    case Accepted(e) =>
      var required := [("kind", Json.PrintString("entry")), ("id", Json.PrintString(e.id)),
                       ("source_id", Json.PrintString(e.sourceId)), ("received_at", Json.PrintString(e.receivedAt)),
                       ("payload", Json.Print(e.payload))];
      if e.idempotencyKey.None? then required
      else required + [("idempotency_key", Json.PrintString(e.idempotencyKey.value))]
  }

  lemma EntryForm(e: Entry)
    ensures var ms := ToJson(Accepted(e)).members;
      PlainNames(ms) && PairsOf(ms) == Form(Accepted(e))
  {
    NamesArePlain();
    hide IsPlain, Json.PrintString, Json.PrintChars;
    var ms := ToJson(Accepted(e)).members;
    var ms2 := ms.tail.tail;
    var ms4 := ms2.tail.tail;
    TwoPairs(ms.head, ms.tail.head, ms2);
    TwoPairs(ms2.head, ms2.tail.head, ms4);
    assert PairsOf(ms4.tail) == if ms4.tail.Nil? then [] else [(ms4.tail.head.key, Json.Print(ms4.tail.head.value))];
    assert PairsOf(ms4) == [("payload", Json.Print(e.payload))] + PairsOf(ms4.tail);
    assert PlainNames(ms4.tail);
  }

  lemma MarkerForm(r: Record)
    requires !r.Accepted?
    ensures var ms := ToJson(r).members;
      PlainNames(ms) && PairsOf(ms) == Form(r)
  {
    NamesArePlain();
    hide IsPlain, Json.PrintString, Json.PrintChars;
    var ms := ToJson(r).members;
    TwoPairs(ms.head, ms.tail.head, ms.tail.tail);
    if r.Dead? { TwoPairs(ms.tail.tail.head, ms.tail.tail.tail.head, Json.Nil); }
  }

  /** A line is one object with these fields, and an entry without a key has no field for it. */
  lemma PrintedForm(r: Record)
    ensures Print(r) == "{" + Pairs(Form(r))
  {
    hide Json.PrintMembers, Pairs, PlainNames, PairsOf, Form;
    if r.Accepted? { EntryForm(r.entry); } else { MarkerForm(r); }
    PrintedMembers(ToJson(r).members);
  }

  // ----- records cut short and run together -----------------------------------

  /** The first `length` characters of a record's text: what a failed write may leave. */
  datatype Piece = Piece(record: Record, length: nat)

  predicate IsPiece(p: Piece) { 0 < p.length <= |Print(p.record)| }

  function PieceText(p: Piece): string
    requires IsPiece(p)
  {
    Print(p.record)[..p.length]
  }

  function Joined(ps: seq<Piece>): string
    requires forall p :: p in ps ==> IsPiece(p)
  {
    if ps == [] then "" else PieceText(ps[0]) + Joined(ps[1..])
  }

  lemma {:induction false} JoinedFollows(ps: seq<Piece>)
    requires forall p :: p in ps ==> IsPiece(p)
    ensures Json.Follows(Joined(ps))
    ensures ps != [] ==> Joined(ps) != "" && Joined(ps)[0] == '{'
  {
    if ps != [] {
      JoinedFollows(ps[1..]);
      assert ps[0] in ps;
      KindFirst(ps[0].record);
      hide Json.Follows, Json.Print, ToJson;
      PrintIsOneLine(ps[0].record);
      Json.PieceFollows(ToJson(ps[0].record), PieceText(ps[0]), Joined(ps[1..]));
    }
  }

  lemma KindFirst(r: Record)
    ensures ToJson(r).members.Cons? && ToJson(r).members.head.key == "kind"
    ensures Json.Escape("kind"[0]) == "k"
  {
  }

  /**
    Pieces run together on one line are a record exactly when there is one piece and it is
    the whole record.
   */
  lemma JoinedParses(ps: seq<Piece>)
    requires ps != [] && forall p :: p in ps ==> IsPiece(p)
    ensures Parse(Joined(ps)) ==
      if |ps| == 1 && ps[0].length == |Print(ps[0].record)| then Some(ps[0].record) else None
  {
    hide Json.Follows, Json.Print, ToJson, FromJson;
    var r := ps[0].record;
    var t, z := PieceText(ps[0]), Joined(ps[1..]);
    assert ps[0] in ps;
    JoinedFollows(ps[1..]);
    if ps[0].length < |Print(r)| {
      Json.CutObjectIsNoDocument(ToJson(r), t, z);
    } else if |ps| == 1 {
      assert t + z == Print(r);
      RecordRoundTrip(r);
    } else {
      assert Json.EndsToken(z);
      assert t == Print(r);
      Json.ValueRoundTrip(ToJson(r), z);
      assert Json.SkipSpace(z) == z;
    }
  }
}
