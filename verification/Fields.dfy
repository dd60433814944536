/** Which member of a payload each part of a request is read from. */
module Fields {
  import opened Wrappers
  import opened Request
  import Json
  import Records
  import Profile

  // ----- integers ---------------------------------------------------------------------

  function DigitChar(d: nat): char
    requires d < 10
  {
    '0' + d as char
  }

  /** A number in decimal, without leading zeros. */
  function Decimal(n: nat): string { if n < 10 then [DigitChar(n)] else Decimal(n / 10) + [DigitChar(n % 10)] }

  lemma {:induction false} DecimalDigits(n: nat)
    ensures AllDigits(Decimal(n)) && |Decimal(n)| > 0 && Digits(Decimal(n)) == n
    ensures Decimal(n)[0] == '0' ==> n == 0
  {
    if n < 10 {
      assert Decimal(n)[..0] == "";
    } else {
      DecimalDigits(n / 10);
      var d := Decimal(n);
      assert d[..|d| - 1] == Decimal(n / 10);
    }
  }

  lemma {:induction false} DigitsDecimal(s: string)
    requires s != "" && AllDigits(s) && (s[0] == '0' ==> |s| == 1)
    ensures Decimal(Digits(s)) == s && (s[0] != '0' ==> Digits(s) > 0)
  {
    var n := |s| - 1;
    if n == 0 {
      assert s[..0] == "";
    } else {
      DigitsDecimal(s[..n]);
      LastDigit(Digits(s[..n]), s[n]);
      assert s == s[..n] + [s[n]];
    }
  }

  lemma LastDigit(n: nat, c: char)
    requires n > 0 && '0' <= c <= '9'
    ensures var m := n * 10 + (c as int - '0' as int);
      m >= 10 && Decimal(m) == Decimal(n) + [c]
  {
  }

  /** How JSON writes an integer. */
  function Written(n: int): string { if n < 0 then "-" + Decimal(-n) else Decimal(n) }

  predicate LeadsWithZero(token: string) {
    || (|token| > 1 && token[0] == '0' && Json.IsDigit(token[1]))
    || (|token| > 2 && token[0] == '-' && token[1] == '0' && Json.IsDigit(token[2]))
  }

  lemma TwoDigits(s: string)
    ensures |s| > 1 && Json.IsDigit(s[0]) && Json.IsDigit(s[1]) ==> Json.DigitRun(s) > 1
  {
  }

  lemma NoLeadingZero(token: Json.Number)
    ensures !LeadsWithZero(token)
  {
    assert Json.IntegerLength(token).Some?;
    var minus := if token[0] == '-' then 1 else 0;
    TwoDigits(token[minus..]);
  }

  lemma DecimalExactly(digits: string, n: nat)
    requires AllDigits(digits) && |digits| > 1 ==> digits[0] != '0'
    ensures digits != "" && AllDigits(digits) && Digits(digits) == n <==> digits == Decimal(n)
  {
    DecimalDigits(n);
    if digits != "" && AllDigits(digits) { DigitsDecimal(digits); }
  }

  /** A number token is read as `n` exactly if it is how `n` is written and `n` has 64 bits. */
  lemma IntegerExactly(token: Json.Number, n: int)
    ensures IntOf(token) == Some(n) <==>
      token == Written(n) && -0x8000_0000_0000_0000 <= n < 0x8000_0000_0000_0000
  {
    NoLeadingZero(token);
    hide Digits, Decimal, Json.IsNumber;
    DecimalDigits(if n < 0 then -n else n);
    if token == "" || token[0] != '-' {
      if n >= 0 { DecimalExactly(token, n); }
    } else {
      assert token == "-" + token[1..];
      DecimalExactly(token[1..], if n < 0 then -n else n);
    }
  }

  // ----- members ------------------------------------------------------------------------

  function Listed<T>(list: Json.List<T>): (r: seq<T>)
    ensures r == [] <==> list.Nil?
  {
    match list
    case Nil => []
    case Cons(x, rest) => [x] + Listed(rest)
  }

  /** An array is read as the fields in the order of their names, and refused if it has more items than there are. */
  lemma {:induction false} ArrayIsInOrder(names: seq<string>, items: Json.List<Json.Value>)
    ensures var ms := Records.Positional(names, items);
      && (ms.Some? <==> |Listed(items)| <= |names|)
      && (ms.Some? ==>
            && |Listed(ms.value)| == |Listed(items)|
            && forall i :: 0 <= i < |Listed(items)| ==>
                 Listed(ms.value)[i] == Json.Member(names[i], Listed(items)[i]))
  {
    if items.Cons? && names != [] { ArrayIsInOrder(names[1..], items.tail); }
  }

  /** The last member of that name has this value. */
  predicate IsLast(all: seq<Json.Member>, key: string, v: Json.Value) {
    exists i :: 0 <= i < |all| && all[i] == Json.Member(key, v) && forall j :: i < j < |all| ==> all[j].key != key
  }

  lemma {:induction false} GetIsLast(ms: Json.List<Json.Member>, key: string)
    ensures forall v :: Get(ms, key) == Some(v) <==> IsLast(Listed(ms), key, v)
    ensures Get(ms, key) == None <==> forall m :: m in Listed(ms) ==> m.key != key
  {
    if ms.Cons? {
      GetIsLast(ms.tail, key);
      var all, rest := Listed(ms), Listed(ms.tail);
      forall v ensures IsLast(all, key, v) <==>
        IsLast(rest, key, v) || (ms.head == Json.Member(key, v) && forall m :: m in rest ==> m.key != key)
      {
        if IsLast(rest, key, v) {
          var i :| 0 <= i < |rest| && rest[i] == Json.Member(key, v)
            && forall j :: i < j < |rest| ==> rest[j].key != key;
          assert all[i + 1] == Json.Member(key, v);
        }
        if IsLast(all, key, v) {
          var i :| 0 <= i < |all| && all[i] == Json.Member(key, v) && forall j :: i < j < |all| ==> all[j].key != key;
          if i > 0 {
            assert rest[i - 1] == Json.Member(key, v);
            forall j | i - 1 < j < |rest| ensures rest[j].key != key { assert all[j + 1] == rest[j]; }
          } else {
            forall m | m in rest ensures m.key != key {
              var j :| 0 <= j < |rest| && rest[j] == m;
              assert all[j + 1] == m;
            }
          }
        }
        if ms.head == Json.Member(key, v) && forall m :: m in rest ==> m.key != key { assert all[0] == ms.head; }
      }
    }
  }

  lemma {:induction false} KnownExactly(ms: Json.List<Json.Member>, names: seq<string>)
    ensures OnlyKnown(ms, names) <==> forall m :: m in Listed(ms) ==> m.key in names
  {
    if ms.Cons? { KnownExactly(ms.tail, names); }
  }

  // ----- what each part of a request is read from -------------------------------------------

  predicate IsAbsent(v: Option<Json.Value>) { v == None || v == Some(Json.Null) }

  predicate MeansText(v: Option<Json.Value>, text: Option<string>) {
    if text.Some? then v == Some(Json.Str(text.value)) else IsAbsent(v)
  }

  predicate IsInteger(v: Json.Value, n: int) {
    v.Num? && v.token == Written(n) && -0x8000_0000_0000_0000 <= n < 0x8000_0000_0000_0000
  }

  predicate MeansInteger(v: Option<Json.Value>, n: Option<int>) {
    if n.Some? then v.Some? && IsInteger(v.value, n.value) else IsAbsent(v)
  }

  predicate MeansBool(v: Option<Json.Value>, b: Option<bool>) {
    if b.Some? then v == Some(Json.Bool(b.value)) else IsAbsent(v)
  }

  /** A flag left out is off; it may not be null. */
  predicate MeansFlag(v: Option<Json.Value>, b: bool) { v == Some(Json.Bool(b)) || (v == None && !b) }

  predicate AreIntegers(items: Json.List<Json.Value>, ns: seq<int>) {
    match items
    case Nil => ns == []
    case Cons(v, rest) => ns != [] && IsInteger(v, ns[0]) && AreIntegers(rest, ns[1..])
  }

  /** A list left out is empty. */
  predicate MeansIntegers(v: Option<Json.Value>, ns: seq<int>) {
    if v.None? then ns == [] else v.value.Arr? && AreIntegers(v.value.items, ns)
  }

  predicate MeansReminders(v: Json.Value, r: ReminderRequest) {
    && Members(v, REMINDER_FIELDS).Some?
    && var ms := Members(v, REMINDER_FIELDS).value;
       && MeansIntegers(Get(ms, "popup_minutes_before"), r.popup)
       && MeansIntegers(Get(ms, "email_minutes_before"), r.email)
       && MeansFlag(Get(ms, "silent"), r.silent)
  }

  predicate MeansOptionalReminders(v: Option<Json.Value>, r: Option<ReminderRequest>) {
    if r.Some? then v.Some? && MeansReminders(v.value, r.value) else IsAbsent(v)
  }

  /** Each part of the request is what the member of its name says. */
  predicate Says(ms: Json.List<Json.Member>, r: EventRequest) {
    && Get(ms, "title") == Some(Json.Str(r.title))
    && Get(ms, "start") == Some(Json.Str(r.start))
    && MeansText(Get(ms, "external_id"), r.externalId)
    && MeansText(Get(ms, "description"), r.description)
    && MeansText(Get(ms, "location"), r.location)
    && MeansText(Get(ms, "end"), r.end)
    && MeansInteger(Get(ms, "duration_minutes"), r.durationMinutes)
    && MeansFlag(Get(ms, "all_day"), r.allDay)
    && MeansInteger(Get(ms, "duration_days"), r.durationDays)
    && MeansBool(Get(ms, "busy"), r.busy)
    && MeansText(Get(ms, "color"), r.color)
    && MeansText(Get(ms, "status"), r.status)
    && MeansOptionalReminders(Get(ms, "reminders"), r.reminders)
    && MeansText(Get(ms, "timezone"), r.timezone)
  }

  lemma TextExactly(ms: Json.List<Json.Member>, key: string, text: Option<string>)
    ensures TextField(ms, key) == Some(text) <==> MeansText(Get(ms, key), text)
  {
    hide Get;
  }

  lemma IntExactly(ms: Json.List<Json.Member>, key: string, n: Option<int>)
    ensures IntField(ms, key) == Some(n) <==> MeansInteger(Get(ms, key), n)
  {
    hide Get, IntOf, Written;
    if Get(ms, key).Some? && Get(ms, key).value.Num? && n.Some? { IntegerExactly(Get(ms, key).value.token, n.value); }
  }

  lemma BoolExactly(ms: Json.List<Json.Member>, key: string, b: Option<bool>)
    ensures BoolField(ms, key) == Some(b) <==> MeansBool(Get(ms, key), b)
  {
    hide Get;
  }

  lemma FlagExactly(ms: Json.List<Json.Member>, key: string, b: bool)
    ensures FlagField(ms, key) == Some(b) <==> MeansFlag(Get(ms, key), b)
  {
    hide Get;
  }

  lemma {:induction false} IntsExactly(items: Json.List<Json.Value>, ns: seq<int>)
    ensures Ints(items) == Some(ns) <==> AreIntegers(items, ns)
    decreases items
  {
    hide IntOf, Written;
    if items.Cons? && ns != [] {
      IntsExactly(items.tail, ns[1..]);
      if items.head.Num? { IntegerExactly(items.head.token, ns[0]); }
      assert ns == [ns[0]] + ns[1..];
    }
  }

  lemma IntsFieldExactly(ms: Json.List<Json.Member>, key: string, ns: seq<int>)
    ensures IntsField(ms, key) == Some(ns) <==> MeansIntegers(Get(ms, key), ns)
  {
    hide Get, Ints, AreIntegers;
    if Get(ms, key).Some? && Get(ms, key).value.Arr? { IntsExactly(Get(ms, key).value.items, ns); }
  }

  lemma RemindersFieldExactly(ms: Json.List<Json.Member>, r: Option<ReminderRequest>)
    ensures RemindersField(ms) == Some(r) <==> MeansOptionalReminders(Get(ms, "reminders"), r)
  {
    assert Members(Json.Null, REMINDER_FIELDS) == None;
    hide Get, IntsField, MeansIntegers, FlagField, MeansFlag, Members;
    if r.Some? && Get(ms, "reminders").Some? {
      var members := Members(Get(ms, "reminders").value, REMINDER_FIELDS);
      if members.Some? {
        IntsFieldExactly(members.value, "popup_minutes_before", r.value.popup);
        IntsFieldExactly(members.value, "email_minutes_before", r.value.email);
        FlagExactly(members.value, "silent", r.value.silent);
      }
    }
  }

  /** A payload is read as a request exactly if it has no unknown member and each part is what its member says. */
  lemma ReadExactly(payload: Json.Value, r: EventRequest)
    ensures ParseRequest(payload) == Some(r) <==>
      Members(payload, FIELDS).Some? && Says(Members(payload, FIELDS).value, r)
  {
    hide Get, TextField, IntField, BoolField, FlagField, RemindersField, Members, MeansText, MeansInteger, MeansBool,
      MeansFlag, MeansOptionalReminders;
    if Members(payload, FIELDS).Some? {
      var ms := Members(payload, FIELDS).value;
      TextExactly(ms, "external_id", r.externalId);
      TextExactly(ms, "description", r.description);
      TextExactly(ms, "location", r.location);
      TextExactly(ms, "end", r.end);
      TextExactly(ms, "color", r.color);
      TextExactly(ms, "status", r.status);
      TextExactly(ms, "timezone", r.timezone);
      IntExactly(ms, "duration_minutes", r.durationMinutes);
      IntExactly(ms, "duration_days", r.durationDays);
      BoolExactly(ms, "busy", r.busy);
      FlagExactly(ms, "all_day", r.allDay);
      RemindersFieldExactly(ms, r.reminders);
    }
  }

  predicate IsMemberName(key: string) {
    || key == "title" || key == "start" || key == "external_id" || key == "description" || key == "location"
    || key == "end" || key == "duration_minutes" || key == "all_day" || key == "duration_days" || key == "busy"
    || key == "color" || key == "status" || key == "reminders" || key == "timezone"
  }

  lemma NamesOfMembers(key: string)
    ensures key in FIELDS <==> IsMemberName(key)
  {
    var last := FIELDS[7..];
    assert last == ["all_day", "duration_days", "busy", "color", "status", "reminders", "timezone"];
    assert FIELDS == FIELDS[..7] + last;
  }

  /** An object with a member of any other name is refused. */
  lemma UnknownMembersAreRefused(ms: Json.List<Json.Member>)
    ensures Members(Json.Obj(ms), FIELDS) ==
      if forall m :: m in Listed(ms) ==> IsMemberName(m.key) then Some(ms) else None
  {
    KnownExactly(ms, FIELDS);
    forall key ensures key in FIELDS <==> IsMemberName(key) { NamesOfMembers(key); }
    hide OnlyKnown, IsMemberName;
  }

  /**
    What an object becomes on the calendar: every member has a known name, and the event is
    what the last member of each name asks for.
   */
  lemma EventOfObject(ms: Json.List<Json.Member>, profile: Profile.Profile, lib: Library)
    requires MapPayload(Json.Obj(ms), profile, lib).Ok?
    ensures forall m :: m in Listed(ms) ==> IsMemberName(m.key)
    ensures exists r :: Says(ms, r) && WellFormed(MapPayload(Json.Obj(ms), profile, lib).value, r, profile, lib)
  {
    var payload := Json.Obj(ms);
    var r := ParseRequest(payload).value;
    ReadExactly(payload, r);
    UnknownMembersAreRefused(ms);
    hide ParseRequest, ToGoogleEvent, Says, WellFormed, Members, IsMemberName;
    MappedIsWellFormed(r, profile, lib);
  }

  /** Read off for the members that are shown as they are. */
  lemma ShownAsWritten(ms: Json.List<Json.Member>, profile: Profile.Profile, lib: Library)
    requires MapPayload(Json.Obj(ms), profile, lib).Ok?
    ensures var e := MapPayload(Json.Obj(ms), profile, lib).value;
      && IsLast(Listed(ms), "title", Json.Str(e.summary))
      && MeansText(Get(ms, "description"), e.description)
      && MeansText(Get(ms, "location"), e.location)
      && MeansText(Get(ms, "status"), e.status)
      && (e.transparency.Some? <==> Get(ms, "busy") == Some(Json.Bool(false)))
      && (e.properties.Some? <==> Get(ms, "external_id").Some? && Get(ms, "external_id") != Some(Json.Null))
  {
    EventOfObject(ms, profile, lib);
    hide MapPayload, RemindersFit, AtTheTimeAsked;
    GetIsLast(ms, "title");
    hide Get, IsLast, Listed;
  }
}
