/** The event a source sends and the calendar event it becomes. */
module Request {
  import opened Wrappers
  import opened Text
  import Json
  import Records
  import Profile

  /**
    The date and time libraries: the moment an RFC 3339 timestamp names (in nanoseconds) and
    its date where it was written, the day a plain date names, the zone names, and the last
    moment and day that can be represented.
   */
  datatype Moment = Moment(at: int, day: int)

  datatype Library = Library(
    moment: string -> Option<Moment>,
    day: string -> Option<int>,
    zone: string -> bool,
    lastMoment: int,
    lastDay: int)

  const MINUTE: int := 60_000_000_000
  const MAX_REMINDERS: nat := 5
  const MAX_REMINDER_MINUTES: int := 4 * 7 * 24 * 60
  const STATUSES: seq<string> := ["confirmed", "tentative", "cancelled"]
  const UPSERT_PROPERTY: string := "almanac_source_id"

  datatype ReminderRequest = ReminderRequest(popup: seq<int>, email: seq<int>, silent: bool)

  datatype EventRequest = EventRequest(
    title: string,
    start: string,
    externalId: Option<string>,
    description: Option<string>,
    location: Option<string>,
    end: Option<string>,
    durationMinutes: Option<int>,
    allDay: bool,
    durationDays: Option<int>,
    busy: Option<bool>,
    color: Option<string>,
    status: Option<string>,
    reminders: Option<ReminderRequest>,
    timezone: Option<string>)

  datatype Boundary = Timed(at: int, zone: string) | AllDay(day: int)

  datatype ReminderOverride = ReminderOverride(how: string, minutes: nat)

  datatype Reminders = Reminders(useDefault: bool, overrides: seq<ReminderOverride>)

  datatype GoogleEvent = GoogleEvent(
    summary: string,
    description: Option<string>,
    location: Option<string>,
    colorId: Option<string>,
    start: Boundary,
    end: Boundary,
    transparency: Option<string>,
    status: Option<string>,
    reminders: Option<Reminders>,
    properties: Option<map<string, string>>)

  /** `OutOfRange` stands for the date library giving up on a sum it cannot represent. */
  datatype MapError = Invalid(field: string) | OutOfRange

  // ----- parsing the payload ------------------------------------------------------

  const FIELDS: seq<string> := ["title", "start", "external_id", "description", "location", "end",
    "duration_minutes", "all_day", "duration_days", "busy", "color", "status", "reminders", "timezone"]

  const REMINDER_FIELDS: seq<string> := ["popup_minutes_before", "email_minutes_before", "silent"]

  /** The value an object holds under a key: the last one written wins. */
  function Get(ms: Json.List<Json.Member>, key: string): Option<Json.Value> {
    match ms
    case Nil => None
    case Cons(m, rest) =>
      match Get(rest, key)
      case Some(v) => Some(v)
      case None => if m.key == key then Some(m.value) else None
  }

  predicate OnlyKnown(ms: Json.List<Json.Member>, names: seq<string>) {
    match ms
    case Nil => true
    case Cons(m, rest) => m.key in names && OnlyKnown(rest, names)
  }

  /** The members of an object, or of an array read in field order; unknown names are refused. */
  function Members(v: Json.Value, names: seq<string>): Option<Json.List<Json.Member>> {
    match v
    case Obj(ms) => if OnlyKnown(ms, names) then Some(ms) else None
    case Arr(items) => Records.Positional(names, items)
    case _ => None
  }

  function Digits(s: string): nat {
    if s == "" then 0
    else Digits(s[..|s| - 1]) * 10 + if '0' <= s[|s| - 1] <= '9' then s[|s| - 1] as int - '0' as int else 0
  }

  predicate AllDigits(s: string) { forall i :: 0 <= i < |s| ==> '0' <= s[i] <= '9' }

  /** The 64-bit integer a number token stands for; fractions, exponents and `-0` are not one. */
  function IntOf(token: string): Option<int> {
    var negative := token != "" && token[0] == '-';
    var digits := if negative then token[1..] else token;
    if digits == "" || !AllDigits(digits) then None
    else
      var n: int := Digits(digits);
      if negative then (if 0 < n <= 0x8000_0000_0000_0000 then Some(-n) else None)
      else if n < 0x8000_0000_0000_0000 then Some(n) else None
  }

  function TextField(ms: Json.List<Json.Member>, key: string): Option<Option<string>> {
    match Get(ms, key)
    case None => Some(None)
    case Some(Null) => Some(None)
    case Some(Str(s)) => Some(Some(s))
    case Some(_) => None
  }

  function IntField(ms: Json.List<Json.Member>, key: string): Option<Option<int>> {
    match Get(ms, key)
    case None => Some(None)
    case Some(Null) => Some(None)
    case Some(Num(token)) => if IntOf(token).Some? then Some(IntOf(token)) else None
    case Some(_) => None
  }

  function BoolField(ms: Json.List<Json.Member>, key: string): Option<Option<bool>> {
    match Get(ms, key)
    case None => Some(None)
    case Some(Null) => Some(None)
    case Some(Bool(b)) => Some(Some(b))
    case Some(_) => None
  }

  /** A flag that may be left out but not `null`. */
  function FlagField(ms: Json.List<Json.Member>, key: string): Option<bool> {
    match Get(ms, key)
    case None => Some(false)
    case Some(Bool(b)) => Some(b)
    case Some(_) => None
  }

  function Ints(items: Json.List<Json.Value>): Option<seq<int>> {
    match items
    case Nil => Some([])
    case Cons(v, rest) =>
      if !v.Num? then None
      else match (IntOf(v.token), Ints(rest))
        case (Some(n), Some(ns)) => Some([n] + ns)
        case _ => None
  }

  function IntsField(ms: Json.List<Json.Member>, key: string): Option<seq<int>> {
    match Get(ms, key)
    case None => Some([])
    case Some(Arr(items)) => Ints(items)
    case Some(_) => None
  }

  function ParseReminders(v: Json.Value): Option<ReminderRequest> {
    match Members(v, REMINDER_FIELDS)
    case None => None
    case Some(ms) =>
      match (IntsField(ms, "popup_minutes_before"), IntsField(ms, "email_minutes_before"), FlagField(ms, "silent"))
      case (Some(popup), Some(email), Some(silent)) => Some(ReminderRequest(popup, email, silent))
      case _ => None
  }

  function RemindersField(ms: Json.List<Json.Member>): Option<Option<ReminderRequest>> {
    match Get(ms, "reminders")
    case None => Some(None)
    case Some(Null) => Some(None)
    case Some(v) => if ParseReminders(v).Some? then Some(ParseReminders(v)) else None
  }

  function ParseRequest(payload: Json.Value): Option<EventRequest> {
    match Members(payload, FIELDS)
    case None => None
    case Some(ms) =>
      match (Get(ms, "title"), Get(ms, "start"), FlagField(ms, "all_day"), RemindersField(ms))
      case (Some(Str(title)), Some(Str(start)), Some(allDay), Some(reminders)) =>
        (match (TextField(ms, "external_id"), TextField(ms, "description"), TextField(ms, "location"),
                TextField(ms, "end"), TextField(ms, "color"), TextField(ms, "status"), TextField(ms, "timezone"))
         case (Some(externalId), Some(description), Some(location), Some(end), Some(color), Some(status), Some(zone)) =>
           (match (IntField(ms, "duration_minutes"), IntField(ms, "duration_days"), BoolField(ms, "busy"))
            case (Some(minutes), Some(days), Some(busy)) =>
              Some(EventRequest(title, start, externalId, description, location, end, minutes, allDay, days,
                busy, color, status, reminders, zone))
            case _ => None)
         case _ => None)
      case _ => None
  }

  // ----- the event ------------------------------------------------------------------

  const PALETTE: seq<(string, string)> := [("1", "lavender"), ("2", "sage"), ("3", "grape"), ("4", "flamingo"),
    ("5", "banana"), ("6", "tangerine"), ("7", "peacock"), ("8", "graphite"), ("9", "blueberry"), ("10", "basil"),
    ("11", "tomato")]

  function ColorFrom(wanted: string, i: nat): Option<string>
    requires i <= |PALETTE|
    decreases |PALETTE| - i
  {
    if i == |PALETTE| then None
    else if PALETTE[i].0 == wanted || PALETTE[i].1 == wanted then Some(PALETTE[i].0)
    else ColorFrom(wanted, i + 1)
  }

  /** The colour id of a name or an id, whatever its case. */
  function ResolveColor(requested: string): Option<string> { ColorFrom(LowerCase(Trim(requested)), 0) }

  function AllMinutes(asked: ReminderRequest): seq<int> { asked.popup + asked.email }

  /** A cast to `u32`. */
  function AsU32(n: int): nat { n % 0x1_0000_0000 }

  function Overrides(how: string, minutes: seq<int>): (r: seq<ReminderOverride>)
    ensures |r| == |minutes|
    ensures forall i :: 0 <= i < |r| ==> r[i] == ReminderOverride(how, AsU32(minutes[i]))
  {
    if minutes == [] then [] else [ReminderOverride(how, AsU32(minutes[0]))] + Overrides(how, minutes[1..])
  }

  function ToReminders(asked: ReminderRequest): Result<Reminders, MapError> {
    var count := |asked.popup| + |asked.email|;
    if asked.silent && count > 0 then Err(Invalid("reminders"))
    else if count > MAX_REMINDERS then Err(Invalid("reminders"))
    else if exists i :: 0 <= i < count && (AllMinutes(asked)[i] < 0 || AllMinutes(asked)[i] > MAX_REMINDER_MINUTES)
      then Err(Invalid("reminders"))
    else Ok(Reminders(false, Overrides("popup", asked.popup) + Overrides("email", asked.email)))
  }

  function TimedWindow(request: EventRequest, profile: Profile.Profile, zone: string, lib: Library)
    : Result<(Boundary, Boundary), MapError>
  {
    match lib.moment(request.start)
    case None => Err(Invalid("start"))
    case Some(start) =>
      match request.end
      case Some(raw) =>
        (match lib.moment(raw)
         case None => Err(Invalid("end"))
         case Some(end) =>
           if end.at <= start.at then Err(Invalid("end")) else Ok((Timed(start.at, zone), Timed(end.at, zone))))
      case None =>
        var minutes :=
          if request.durationMinutes.Some? then request.durationMinutes.value
          else if profile.defaultDurationMinutes.Some? then profile.defaultDurationMinutes.value
          else Profile.FALLBACK_DURATION_MINUTES;
        if minutes <= 0 then Err(Invalid("duration_minutes"))
        else if start.at + minutes * MINUTE > lib.lastMoment then Err(OutOfRange)
        else Ok((Timed(start.at, zone), Timed(start.at + minutes * MINUTE, zone)))
  }

  /** A plain date, or the date of a timestamp where it was written. */
  function StartDay(start: string, lib: Library): Option<int> {
    match lib.day(start)
    case Some(d) => Some(d)
    case None => match lib.moment(start) { case Some(m) => Some(m.day) case None => None }
  }

  function AllDayWindow(request: EventRequest, lib: Library): Result<(Boundary, Boundary), MapError> {
    match StartDay(request.start, lib)
    case None => Err(Invalid("start"))
    case Some(day) =>
      var days := if request.durationDays.Some? then request.durationDays.value else 1;
      if days <= 0 then Err(Invalid("duration_days"))
      else if day + days > lib.lastDay then Err(OutOfRange)
      else Ok((AllDay(day), AllDay(day + days)))
  }

  function ToGoogleEvent(request: EventRequest, profile: Profile.Profile, lib: Library): Result<GoogleEvent, MapError> {
    if IsBlank(request.title) then Err(Invalid("title"))
    else if request.externalId.Some? && IsBlank(request.externalId.value) then Err(Invalid("external_id"))
    else
      var zone := if request.timezone.Some? then request.timezone.value else profile.timezone;
      if !lib.zone(zone) then Err(Invalid("timezone"))
      else
        match (if request.allDay then AllDayWindow(request, lib) else TimedWindow(request, profile, zone, lib))
        case Err(e) => Err(e)
        case Ok(window) => WithDetails(request, profile, window.0, window.1)
  }

  function WithDetails(request: EventRequest, profile: Profile.Profile, start: Boundary, end: Boundary)
    : Result<GoogleEvent, MapError>
  {
    if request.color.Some? && ResolveColor(request.color.value).None? then Err(Invalid("color"))
    else if request.status.Some? && request.status.value !in STATUSES then Err(Invalid("status"))
    else
      match (if request.reminders.Some? then ToReminders(request.reminders.value) else Ok(Reminders(true, [])))
      case Err(e) => Err(e)
      case Ok(reminders) =>
        Ok(GoogleEvent(
          request.title, request.description, request.location,
          if request.color.Some? then ResolveColor(request.color.value) else None,
          start, end,
          if request.busy == Some(false) then Some("transparent") else None,
          request.status,
          if request.reminders.Some? then Some(reminders) else None,
          if request.externalId.Some?
          then Some(map[UPSERT_PROPERTY := Profile.Key(profile.sourceId, request.externalId.value)])
          else None))
  }

  /** The shared function of the door and of delivery. */
  function MapPayload(payload: Json.Value, profile: Profile.Profile, lib: Library): Result<GoogleEvent, MapError> {
    match ParseRequest(payload)
    case None => Err(Invalid("payload"))
    case Some(request) => ToGoogleEvent(request, profile, lib)
  }

  // ----- every mapped event is well formed ----------------------------------------------

  /** How long a timed event without an end lasts. */
  function Minutes(request: EventRequest, profile: Profile.Profile): int {
    match (request.durationMinutes, profile.defaultDurationMinutes)
    case (Some(m), _) => m
    case (None, Some(m)) => m
    case (None, None) => 60
  }

  /** The colour id of a palette name or id. */
  function PaletteId(wanted: string): Option<string> {
    if wanted == "1" || wanted == "lavender" then Some("1")
    else if wanted == "2" || wanted == "sage" then Some("2")
    else if wanted == "3" || wanted == "grape" then Some("3")
    else if wanted == "4" || wanted == "flamingo" then Some("4")
    else if wanted == "5" || wanted == "banana" then Some("5")
    else if wanted == "6" || wanted == "tangerine" then Some("6")
    else if wanted == "7" || wanted == "peacock" then Some("7")
    else if wanted == "8" || wanted == "graphite" then Some("8")
    else if wanted == "9" || wanted == "blueberry" then Some("9")
    else if wanted == "10" || wanted == "basil" then Some("10")
    else if wanted == "11" || wanted == "tomato" then Some("11")
    else None
  }

  lemma LastColors(wanted: string)
    ensures ColorFrom(wanted, 8) ==
      if wanted == "9" || wanted == "blueberry" then Some("9")
      else if wanted == "10" || wanted == "basil" then Some("10")
      else if wanted == "11" || wanted == "tomato" then Some("11")
      else None
  {
    assert ColorFrom(wanted, 11) == None;
  }

  lemma LaterColors(wanted: string)
    ensures ColorFrom(wanted, 4) ==
      if wanted == "5" || wanted == "banana" then Some("5")
      else if wanted == "6" || wanted == "tangerine" then Some("6")
      else if wanted == "7" || wanted == "peacock" then Some("7")
      else if wanted == "8" || wanted == "graphite" then Some("8")
      else ColorFrom(wanted, 8)
  {
  }

  /** A colour is taken by name or by id, whatever its case and the white space around it. */
  lemma ColorsOfThePalette(requested: string)
    ensures ResolveColor(requested) == PaletteId(LowerCase(Trim(requested)))
  {
    hide LowerCase, Trim;
    LastColors(LowerCase(Trim(requested)));
    LaterColors(LowerCase(Trim(requested)));
  }

  /** When the event is: the window the request gives, in the request's zone or else the profile's. */
  predicate AtTheTimeAsked(e: GoogleEvent, request: EventRequest, profile: Profile.Profile, lib: Library) {
    if request.allDay then
      && e.start.AllDay? && e.end.AllDay?
      && (lib.day(request.start) == Some(e.start.day)
          || (lib.day(request.start).None?
              && lib.moment(request.start).Some? && lib.moment(request.start).value.day == e.start.day))
      && e.end.day - e.start.day == (if request.durationDays.Some? then request.durationDays.value else 1)
      && e.end.day > e.start.day
    else
      && e.start.Timed? && e.end.Timed?
      && e.start.zone == e.end.zone == (if request.timezone.Some? then request.timezone.value else profile.timezone)
      && lib.zone(e.start.zone)
      && lib.moment(request.start).Some? && e.start.at == lib.moment(request.start).value.at
      && e.end.at > e.start.at
      && (if request.end.Some?
          then lib.moment(request.end.value).Some? && e.end.at == lib.moment(request.end.value).value.at
          else e.end.at - e.start.at == Minutes(request, profile) * 60_000_000_000)
  }

  predicate IsStatus(s: string) { s == "confirmed" || s == "tentative" || s == "cancelled" }

  /** Everything an event shows, in terms of what the source asked for. */
  predicate AsAsked(e: GoogleEvent, request: EventRequest, profile: Profile.Profile, lib: Library) {
    && !IsBlank(e.summary)
    && e.summary == request.title && e.description == request.description && e.location == request.location
    && AtTheTimeAsked(e, request, profile, lib)
    && e.transparency == (if request.busy == Some(false) then Some("transparent") else None)
    && e.colorId == (if request.color.Some? then PaletteId(LowerCase(Trim(request.color.value))) else None)
    && (request.color.Some? ==> e.colorId.Some?)
    && e.status == request.status
    && (e.status.Some? ==> IsStatus(e.status.value))
    && (e.reminders.Some? <==> request.reminders.Some?)
    && (e.reminders.Some? ==> RemindersFit(e.reminders.value, request.reminders.value))
  }

  /** And it carries the source's own id for it, if the source gave one. */
  predicate WellFormed(e: GoogleEvent, request: EventRequest, profile: Profile.Profile, lib: Library) {
    && AsAsked(e, request, profile, lib)
    && e.properties ==
         if request.externalId.Some?
         then Some(map["almanac_source_id" := profile.sourceId + ":" + request.externalId.value])
         else None
  }

  /** At most five reminders, popups first, each exactly the minutes asked for and within four weeks. */
  predicate RemindersFit(r: Reminders, asked: ReminderRequest) {
    && !r.useDefault
    && |r.overrides| == |asked.popup| + |asked.email| <= MAX_REMINDERS
    && (asked.silent ==> r.overrides == [])
    && forall i :: 0 <= i < |r.overrides| ==>
         && r.overrides[i].how == (if i < |asked.popup| then "popup" else "email")
         && r.overrides[i].minutes == (if i < |asked.popup| then asked.popup[i] else asked.email[i - |asked.popup|])
         && r.overrides[i].minutes <= 40320
  }

  lemma RemindersAreKept(asked: ReminderRequest)
    requires ToReminders(asked).Ok?
    ensures RemindersFit(ToReminders(asked).value, asked)
  {
    var r := ToReminders(asked).value;
    forall i | 0 <= i < |r.overrides|
      ensures r.overrides[i].how == (if i < |asked.popup| then "popup" else "email")
      ensures r.overrides[i].minutes == (if i < |asked.popup| then asked.popup[i] else asked.email[i - |asked.popup|])
      ensures r.overrides[i].minutes <= 40320
    {
      var m := AllMinutes(asked)[i];
      assert 0 <= m <= MAX_REMINDER_MINUTES;
      assert r.overrides[i] == ReminderOverride(if i < |asked.popup| then "popup" else "email", AsU32(m));
    }
  }

  lemma MappedIsWellFormed(request: EventRequest, profile: Profile.Profile, lib: Library)
    requires ToGoogleEvent(request, profile, lib).Ok?
    ensures WellFormed(ToGoogleEvent(request, profile, lib).value, request, profile, lib)
  {
    hide ResolveColor, IsBlank, RemindersFit, ToReminders, PaletteId, LowerCase, Trim;
    if request.reminders.Some? { RemindersAreKept(request.reminders.value); }
    if request.color.Some? { ColorsOfThePalette(request.color.value); }
  }

  /** Whether the length the source asked for, or that applies, can be given. */
  predicate HasWindow(request: EventRequest, profile: Profile.Profile, lib: Library) {
    if request.allDay then
      var days := if request.durationDays.Some? then request.durationDays.value else 1;
      days > 0
      && if lib.day(request.start).Some? then lib.day(request.start).value + days <= lib.lastDay
         else lib.moment(request.start).Some? && lib.moment(request.start).value.day + days <= lib.lastDay
    else
      lib.moment(request.start).Some?
      && var start := lib.moment(request.start).value.at;
         if request.end.Some? then
           lib.moment(request.end.value).Some? && lib.moment(request.end.value).value.at > start
         else
           Minutes(request, profile) > 0 && start + Minutes(request, profile) * MINUTE <= lib.lastMoment
  }

  predicate RemindersAllowed(asked: ReminderRequest) {
    |asked.popup| + |asked.email| <= (if asked.silent then 0 else 5)
    && (forall i :: 0 <= i < |asked.popup| ==> 0 <= asked.popup[i] <= 40320)
    && (forall i :: 0 <= i < |asked.email| ==> 0 <= asked.email[i] <= 40320)
  }

  lemma RemindersExactly(asked: ReminderRequest)
    ensures ToReminders(asked).Ok? <==> RemindersAllowed(asked)
  {
    var all := AllMinutes(asked);
    assert forall i :: 0 <= i < |asked.popup| ==> all[i] == asked.popup[i];
    assert forall i :: 0 <= i < |asked.email| ==> all[|asked.popup| + i] == asked.email[i];
  }

  /** A request is mapped exactly when each thing it says can be said to the calendar. */
  lemma MappedExactlyWhen(request: EventRequest, profile: Profile.Profile, lib: Library)
    ensures ToGoogleEvent(request, profile, lib).Ok? <==>
      && !IsBlank(request.title)
      && (request.externalId.Some? ==> !IsBlank(request.externalId.value))
      && lib.zone(if request.timezone.Some? then request.timezone.value else profile.timezone)
      && HasWindow(request, profile, lib)
      && (request.color.Some? ==> PaletteId(LowerCase(Trim(request.color.value))).Some?)
      && (request.status.Some? ==> IsStatus(request.status.value))
      && (request.reminders.Some? ==> RemindersAllowed(request.reminders.value))
  {
    hide ResolveColor, IsBlank, ToReminders, RemindersAllowed, PaletteId, LowerCase, Trim;
    if request.color.Some? { ColorsOfThePalette(request.color.value); }
    if request.reminders.Some? { RemindersExactly(request.reminders.value); }
  }
}
