/** What the ingest door accepts, and the entry it journals. */
module Door {
  import opened Wrappers
  import opened Text
  import Json
  import Records
  import Profile
  import Request

  /** The upsert key of an entry: the event's own marker, else the idempotency key. */
  function UpsertKey(entry: Records.Entry, event: Request.GoogleEvent): Option<string> {
    if event.properties.Some? && Request.UPSERT_PROPERTY in event.properties.value
    then Some(event.properties.value[Request.UPSERT_PROPERTY])
    else if entry.idempotencyKey.Some?
    then Some(Profile.Key(entry.sourceId, entry.idempotencyKey.value))
    else None
  }

  /** The event delivery writes: one with a key always carries it. */
  function Stamped(entry: Records.Entry, event: Request.GoogleEvent): Request.GoogleEvent {
    if UpsertKey(entry, event).Some? && event.properties.None?
    then event.(properties := Some(map[Request.UPSERT_PROPERTY := UpsertKey(entry, event).value]))
    else event
  }

  /** The marker an event carries. */
  function MarkerOf(event: Request.GoogleEvent): Option<string> {
    if event.properties.Some? && Request.UPSERT_PROPERTY in event.properties.value
    then Some(event.properties.value[Request.UPSERT_PROPERTY])
    else None
  }

  /**
    Stamping changes nothing the calendar shows: an event that has a marker is written as it is
    mapped, and one without gets the entry's idempotency key, under its source, as its only property.
   */
  lemma StampedShowsTheSame(entry: Records.Entry, event: Request.GoogleEvent)
    ensures var s := Stamped(entry, event);
      && s.summary == event.summary && s.description == event.description && s.location == event.location
      && s.colorId == event.colorId && s.start == event.start && s.end == event.end
      && s.transparency == event.transparency && s.status == event.status && s.reminders == event.reminders
      && s.properties ==
           if event.properties.Some? then event.properties
           else if entry.idempotencyKey.Some?
           then Some(map["almanac_source_id" := Profile.Key(entry.sourceId, entry.idempotencyKey.value)])
           else None
  {
  }

  /** `header` is the Idempotency-Key header, when it is there and is text. */
  predicate RequiresAnId(payload: Json.Value, header: Option<string>) {
    || (payload.Obj? && Request.Get(payload.members, "external_id").Some?
        && Request.Get(payload.members, "external_id").value.Str?
        && !IsBlank(Request.Get(payload.members, "external_id").value.s))
    || (header.Some? && !IsBlank(header.value))
  }

  predicate MustBeMappable(payload: Json.Value, profile: Profile.Profile, lib: Request.Library) {
    Request.MapPayload(payload, profile, lib).Ok?
  }

  function BuildEntry(id: string, now: string, profile: Profile.Profile, header: Option<string>, payload: Json.Value)
    : Records.Entry
  {
    Records.Entry(id, profile.sourceId, now, payload,
      if header.Some? && Trim(header.value) != "" then Some(Trim(header.value)) else None)
  }

  lemma MarkerIsExternalId(payload: Json.Value, profile: Profile.Profile, lib: Request.Library)
    requires MustBeMappable(payload, profile, lib)
    ensures var event := Request.MapPayload(payload, profile, lib).value;
      var request := Request.ParseRequest(payload).value;
      && (request.externalId.Some? ==> !IsBlank(request.externalId.value))
      && event.properties.Some? == request.externalId.Some?
      && MarkerOf(event) ==
           if request.externalId.Some? then Some(Profile.Key(profile.sourceId, request.externalId.value)) else None
  {
    hide IsBlank, Request.ParseRequest, Request.ResolveColor, Request.ToReminders, Request.TimedWindow,
      Request.AllDayWindow;
  }

  /**
    What the door accepts can be delivered and found again: mapping the journalled entry
    under the same profile succeeds, it has a key made of the source and a non-blank id, and
    the event that is written carries exactly that key.
   */
  lemma AcceptedIsDeliverable(id: string, now: string, profile: Profile.Profile, header: Option<string>,
                              payload: Json.Value, lib: Request.Library)
    requires RequiresAnId(payload, header) && MustBeMappable(payload, profile, lib)
    ensures var entry := BuildEntry(id, now, profile, header, payload);
      var mapped := Request.MapPayload(entry.payload, profile, lib);
      && mapped.Ok?
      && UpsertKey(entry, mapped.value).Some?
      && MarkerOf(Stamped(entry, mapped.value)) == UpsertKey(entry, mapped.value)
      && exists own :: !IsBlank(own) && UpsertKey(entry, mapped.value) == Some(Profile.Key(profile.sourceId, own))
  {
  }

  /**
    For an object the refusal is exact: a mappable payload is refused for want of an id
    exactly when delivery would have no key for it.
   */
  lemma RefusedExactlyWhenUnkeyed(id: string, now: string, profile: Profile.Profile, header: Option<string>,
                                  payload: Json.Value, lib: Request.Library)
    requires payload.Obj? && MustBeMappable(payload, profile, lib)
    ensures RequiresAnId(payload, header) <==>
      UpsertKey(BuildEntry(id, now, profile, header, payload), Request.MapPayload(payload, profile, lib).value).Some?
  {
  }
}
