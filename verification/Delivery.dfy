/** Delivering one entry: map it, look its key up, then create or update; and deleting by key. */
module Delivery {
  import opened Wrappers
  import opened Request
  import opened Door
  import opened Remote
  import Json
  import Records
  import Profile

  datatype UpsertAction = CreateNew | UpdateExisting(id: nat)

  function Decide(existing: Option<nat>): UpsertAction {
    match existing
    case Some(id) => UpdateExisting(id)
    case None => CreateNew
  }

  datatype Delivered = Delivered(eventId: nat, created: bool, upsertKey: Option<string>)

  /** How the network treats the requests of one delivery. */
  datatype Net = Net(find: Answer, update: Answer, create: seq<Attempt>)

  type Delivery = (Remote, Result<Delivered, Failure>)

  /** The write that follows a lookup which found `existing`. */
  function WriteEvent(r: Remote, calendar: string, event: GoogleEvent, key: string, existing: Option<nat>, net: Net)
    : Delivery
  {
    match Decide(existing)
    case CreateNew =>
      (match CreateWithRetry(r, calendar, event, net.create)
       case (after, Ok(id)) => (after, Ok(Delivered(id, true, Some(key))))
       case (after, Err(f)) => (after, Err(f)))
    case UpdateExisting(id) =>
      match net.update
      case Answered => (Update(r, calendar, id, event), Ok(Delivered(id, false, Some(key))))
      case Unheard(f) => (Update(r, calendar, id, event), Err(f))
      case Failed(f) => (r, Err(f))
  }

  function DeliverTo(r: Remote, entry: Records.Entry, profile: Profile.Profile, lib: Library, net: Net): Delivery {
    match MapPayload(entry.payload, profile, lib)
    case Err(_) => (r, Err(Permanent))
    case Ok(mapped) =>
      var calendar := profile.targetCalendarId;
      match UpsertKey(entry, mapped)
      case None =>
        (match CreateWithRetry(r, calendar, mapped, net.create)
         case (after, Ok(id)) => (after, Ok(Delivered(id, true, None)))
         case (after, Err(f)) => (after, Err(f)))
      case Some(key) =>
        match net.find
        case Answered => WriteEvent(r, calendar, Stamped(entry, mapped), key, Find(r, calendar, key), net)
        case Failed(f) => (r, Err(f))
        case Unheard(f) => (r, Err(f))
  }

  datatype DeleteReply = Deleted(id: nat) | NotFound | BadGateway(failure: Failure)

  function DeleteFrom(r: Remote, profile: Profile.Profile, externalId: string, net: Net): (Remote, DeleteReply) {
    var calendar := profile.targetCalendarId;
    match net.find
    case Failed(f) => (r, BadGateway(f))
    case Unheard(f) => (r, BadGateway(f))
    case Answered =>
      match Find(r, calendar, Profile.Key(profile.sourceId, externalId))
      case None => (r, NotFound)
      case Some(id) =>
        match net.update
        case Answered => (Delete(r, calendar, id), Deleted(id))
        case Unheard(f) => (Delete(r, calendar, id), BadGateway(f))
        case Failed(f) => (r, BadGateway(f))
  }

  // ----- the objects ---------------------------------------------------------------------

  /** The id of the first event that carries the marker. */
  predicate IsFirst(events: seq<Stored>, key: string, id: nat) {
    exists i :: 0 <= i < |events| && events[i].id == id && MarkerOf(events[i].event) == Some(key)
      && forall j :: 0 <= j < i ==> MarkerOf(events[j].event) != Some(key)
  }

  lemma {:induction false} FirstMatching(events: seq<Stored>, key: string)
    ensures var found := Matching(events, key);
      if found == [] then forall s :: s in events ==> MarkerOf(s.event) != Some(key)
      else IsFirst(events, key, found[0].id)
  {
    MatchingMembers(events, key);
    if events != [] && MarkerOf(events[0].event) != Some(key) {
      FirstMatching(events[1..], key);
      if Matching(events, key) != [] {
        var id := Matching(events, key)[0].id;
        var i :| 0 <= i < |events[1..]| && events[1..][i].id == id && MarkerOf(events[1..][i].event) == Some(key)
          && forall j :: 0 <= j < i ==> MarkerOf(events[1..][j].event) != Some(key);
        assert events[i + 1].id == id;
        forall j | 0 <= j < i + 1 ensures MarkerOf(events[j].event) != Some(key) {
          if j > 0 { assert events[j] == events[1..][j - 1]; }
        }
      }
    }
  }

  lemma {:induction false} ReplacedAt(events: seq<Stored>, id: nat, event: GoogleEvent)
    ensures |Replaced(events, id, event)| == |events|
    ensures forall i :: 0 <= i < |events| ==>
      Replaced(events, id, event)[i] == if events[i].id == id then Stored(id, event) else events[i]
  {
    if events != [] { ReplacedAt(events[1..], id, event); }
  }

  class Lock {
    constructor () {}
  }

  /** One lock per key, made when first asked for. */
  class KeyLocks {
    var locks: map<string, Lock>

    /** Different keys never share a lock. */
    ghost predicate Valid()
      reads this
    {
      forall k, k' :: k in locks && k' in locks && k != k' ==> locks[k] != locks[k']
    }

    constructor ()
      ensures Valid() && locks == map[]
    {
      locks := map[];
    }

    /** The same lock for the same key, every time. */
    method ForKey(key: string) returns (lock: Lock)
      requires Valid()
      modifies this
      ensures Valid()
      ensures key in locks && locks[key] == lock
      ensures locks == old(locks)[key := lock]
      ensures if key in old(locks) then lock == old(locks[key]) else fresh(lock)
    {
      if key !in locks {
        lock := new Lock();
        locks := locks[key := lock];
      }
      lock := locks[key];
    }
  }

  class CalendarClient {
    var remote: Remote

    constructor (remote: Remote)
      ensures this.remote == remote
    {
      this.remote := remote;
    }

    /** What Google's filter on a private property answers. */
    method ListEventsByProperty(calendar: string, key: string, answer: Answer)
      returns (events: Result<seq<Stored>, Failure>)
      ensures events == if answer.Answered? then Ok(WithKey(remote, calendar, key)) else Err(answer.failure)
    {
      events := if answer.Answered? then Ok(WithKey(remote, calendar, key)) else Err(answer.failure);
    }

    /** The first event of the calendar, in list order, that carries the marker; `None` exactly if none does. */
    method FindEventByProperty(calendar: string, key: string, answer: Answer)
      returns (found: Result<Option<nat>, Failure>)
      ensures answer.Answered? <==> found.Ok?
      ensures found.Err? ==> found.error == answer.failure
      ensures found == Ok(None) ==> forall s :: s in EventsOf(remote, calendar) ==> MarkerOf(s.event) != Some(key)
      ensures found.Ok? && found.value.Some? ==> IsFirst(EventsOf(remote, calendar), key, found.value.value)
      ensures found.Ok? ==> found.value == Find(remote, calendar, key)
    {
      var listed := ListEventsByProperty(calendar, key, answer);
      if listed.Err? { return Err(listed.error); }
      FirstMatching(EventsOf(remote, calendar), key);
      found := Ok(if listed.value == [] then None else Some(listed.value[0].id));
    }

    /** Sends the create again after each transient failure, until an answer or the end of the attempts. */
    method CreateEvent(calendar: string, event: GoogleEvent, attempts: seq<Attempt>) returns (id: Result<nat, Failure>)
      modifies this
      ensures (remote, id) == CreateWithRetry(old(remote), calendar, event, attempts)
    {
      var i := 0;
      while i < |attempts|
        invariant 0 <= i <= |attempts|
        invariant CreateWithRetry(old(remote), calendar, event, attempts)
               == CreateWithRetry(remote, calendar, event, attempts[i..])
      {
        assert attempts[i..][1..] == attempts[i + 1..];
        match attempts[i] {
          case Lost =>
          case ReplyLost => remote := Create(remote, calendar, event);
          case Created =>
            id := Ok(remote.next);
            remote := Create(remote, calendar, event);
            return;
          case Garbled =>
            remote := Create(remote, calendar, event);
            return Err(Permanent);
          case Refused => return Err(Permanent);
        }
        i := i + 1;
      }
      id := Err(Transient);
    }

    /** Unless the request had no effect, the events of that id have the new content; nothing else changes. */
    method UpdateEvent(calendar: string, id: nat, event: GoogleEvent, answer: Answer)
      returns (r: Result<nat, Failure>)
      modifies this
      ensures r == if answer.Answered? then Ok(id) else Err(answer.failure)
      ensures remote == if answer.Failed? then old(remote) else Update(old(remote), calendar, id, event)
      ensures forall c :: c != calendar || answer.Failed? ==> EventsOf(remote, c) == EventsOf(old(remote), c)
      ensures |EventsOf(remote, calendar)| == |EventsOf(old(remote), calendar)|
      ensures !answer.Failed? ==> forall i :: 0 <= i < |EventsOf(remote, calendar)| ==>
        var was, now := EventsOf(old(remote), calendar)[i], EventsOf(remote, calendar)[i];
        now.id == was.id && now.event == if was.id == id then event else was.event
    {
      if !answer.Failed? {
        ReplacedAt(EventsOf(remote, calendar), id, event);
        remote := Update(remote, calendar, id, event);
      }
      r := if answer.Answered? then Ok(id) else Err(answer.failure);
    }

    /** Unless the request had no effect, no event of that id is left; every other stays. */
    method DeleteEvent(calendar: string, id: nat, answer: Answer) returns (r: Result<(), Failure>)
      modifies this
      ensures r == if answer.Answered? then Ok(()) else Err(answer.failure)
      ensures remote == if answer.Failed? then old(remote) else Delete(old(remote), calendar, id)
      ensures forall c :: c != calendar || answer.Failed? ==> EventsOf(remote, c) == EventsOf(old(remote), c)
      ensures !answer.Failed? ==> forall s ::
        s in EventsOf(remote, calendar) <==> s in EventsOf(old(remote), calendar) && s.id != id
    {
      if !answer.Failed? {
        RemovedMatches(EventsOf(remote, calendar), id, "");
        remote := Delete(remote, calendar, id);
      }
      r := if answer.Answered? then Ok(()) else Err(answer.failure);
    }
  }

  method Deliver(entry: Records.Entry, profile: Profile.Profile, client: CalendarClient, locks: KeyLocks,
                 lib: Library, net: Net)
    returns (r: Result<Delivered, Failure>)
    requires locks.Valid()
    modifies client, locks
    ensures locks.Valid()
    ensures (client.remote, r) == DeliverTo(old(client.remote), entry, profile, lib, net)
  {
    hide Find, CreateWithRetry, Update, MapPayload;
    var mapped := MapPayload(entry.payload, profile, lib);
    if mapped.Err? { return Err(Permanent); }
    var key := UpsertKey(entry, mapped.value);
    var event := Stamped(entry, mapped.value);
    var calendar := profile.targetCalendarId;
    if key.None? {
      var created := client.CreateEvent(calendar, event, net.create);
      return if created.Ok? then Ok(Delivered(created.value, true, None)) else Err(created.error);
    }
    var lock := locks.ForKey(key.value);
    var existing := client.FindEventByProperty(calendar, key.value, net.find);
    if existing.Err? { return Err(existing.error); }
    match Decide(existing.value) {
      case CreateNew =>
        var created := client.CreateEvent(calendar, event, net.create);
        r := if created.Ok? then Ok(Delivered(created.value, true, key)) else Err(created.error);
      case UpdateExisting(id) =>
        var updated := client.UpdateEvent(calendar, id, event, net.update);
        r := if updated.Ok? then Ok(Delivered(updated.value, false, key)) else Err(updated.error);
    }
  }

  method DeleteBySource(profile: Profile.Profile, externalId: string, client: CalendarClient, locks: KeyLocks, net: Net)
    returns (reply: DeleteReply)
    requires locks.Valid()
    modifies client, locks
    ensures locks.Valid()
    ensures (client.remote, reply) == DeleteFrom(old(client.remote), profile, externalId, net)
  {
    var key := Profile.Key(profile.sourceId, externalId);
    var calendar := profile.targetCalendarId;
    var lock := locks.ForKey(key);
    var found := client.FindEventByProperty(calendar, key, net.find);
    if found.Err? { return BadGateway(found.error); }
    if found.value.None? { return NotFound; }
    var done := client.DeleteEvent(calendar, found.value.value, net.update);
    reply := if done.Ok? then Deleted(found.value.value) else BadGateway(done.error);
  }

  // ----- what a delivery guarantees ----------------------------------------------------------

  /** The key a delivery would use, if the payload can be mapped. */
  function KeyOf(entry: Records.Entry, profile: Profile.Profile, lib: Library): Option<string> {
    match MapPayload(entry.payload, profile, lib)
    case Err(_) => None
    case Ok(mapped) => UpsertKey(entry, mapped)
  }

  /** The event a delivery writes. */
  function EventOf(entry: Records.Entry, profile: Profile.Profile, lib: Library): GoogleEvent
    requires MapPayload(entry.payload, profile, lib).Ok?
  {
    Stamped(entry, MapPayload(entry.payload, profile, lib).value)
  }

  lemma MappedHasAtMostTheMarker(payload: Json.Value, profile: Profile.Profile, lib: Library)
    requires MapPayload(payload, profile, lib).Ok?
    ensures MapPayload(payload, profile, lib).value.properties.Some? ==>
      UPSERT_PROPERTY in MapPayload(payload, profile, lib).value.properties.value
  {
    MarkerIsExternalId(payload, profile, lib);
  }

  lemma EventCarriesKey(entry: Records.Entry, profile: Profile.Profile, lib: Library)
    requires MapPayload(entry.payload, profile, lib).Ok?
    ensures MarkerOf(EventOf(entry, profile, lib)) == KeyOf(entry, profile, lib)
  {
    MappedHasAtMostTheMarker(entry.payload, profile, lib);
    hide MapPayload;
  }

  lemma FoundIsThere(r: Remote, calendar: string, key: string)
    ensures Find(r, calendar, key).Some? ==>
      && WithKey(r, calendar, key) != [] && WithKey(r, calendar, key)[0].id == Find(r, calendar, key).value
      && WithKey(r, calendar, key)[0] in EventsOf(r, calendar)
      && MarkerOf(WithKey(r, calendar, key)[0].event) == Some(key)
    ensures Find(r, calendar, key).None? <==> WithKey(r, calendar, key) == []
  {
    MatchingMembers(EventsOf(r, calendar), key);
    if WithKey(r, calendar, key) != [] { assert WithKey(r, calendar, key)[0] in WithKey(r, calendar, key); }
  }

  /** Ids are distinct, so whatever has the found id is the found event. */
  lemma SameIdSameEvent(r: Remote, calendar: string, key: string)
    requires FreshIds(r) && Find(r, calendar, key).Some?
    ensures forall s :: s in EventsOf(r, calendar) && s.id == Find(r, calendar, key).value ==>
      MarkerOf(s.event) == Some(key)
  {
    FoundIsThere(r, calendar, key);
    var events := EventsOf(r, calendar);
    var first := WithKey(r, calendar, key)[0];
    var i :| 0 <= i < |events| && events[i] == first;
    forall s | s in events && s.id == first.id ensures s == first {
      var j :| 0 <= j < |events| && events[j] == s;
    }
  }

  /** The locked write of an event under its key, for one calendar and key. */
  lemma WriteEffect(r: Remote, calendar: string, event: GoogleEvent, key: string, net: Net, c: string, k: string)
    requires FreshIds(r) && MarkerOf(event) == Some(key)
    ensures var (after, result) := WriteEvent(r, calendar, event, key, Find(r, calendar, key), net);
      && FreshIds(after)
      && (c != calendar || k != key ==> WithKey(after, c, k) == WithKey(r, c, k))
      && (Effects(net.create) <= 1 && |WithKey(r, calendar, key)| <= 1 ==> |WithKey(after, calendar, key)| <= 1)
      && (result.Ok? && Effects(net.create) <= 1 && |WithKey(r, calendar, key)| <= 1 ==>
            && WithKey(after, calendar, key) == [Stored(result.value.eventId, event)]
            && (result.value.created <==> WithKey(r, calendar, key) == [])
            && (!result.value.created ==> result.value.eventId == WithKey(r, calendar, key)[0].id))
  {
    FoundIsThere(r, calendar, key);
    hide WithKey, FreshIds, MarkerOf, CreateWithRetry, Effects, Find;
    match Find(r, calendar, key)
    case None =>
      CreateLoopAdds(r, calendar, event, net.create, c, k);
      CreateLoopAdds(r, calendar, event, net.create, calendar, key);
      CreatedLast(r, calendar, event, net.create, key);
      if c != calendar || k != key { OnlyOwnKey(r, calendar, event, net.create, c, k, key); }
    case Some(id) =>
      SameIdSameEvent(r, calendar, key);
      UpdateReplaces(r, calendar, id, event, c, k);
      UpdateReplaces(r, calendar, id, event, calendar, key);
      OneReplaced(WithKey(r, calendar, key), id, event);
  }

  lemma OneReplaced(found: seq<Stored>, id: nat, event: GoogleEvent)
    requires found != [] && found[0].id == id
    ensures |found| == 1 ==> Replaced(found, id, event) == [Stored(id, event)]
    ensures |Replaced(found, id, event)| <= 1 <==> |found| <= 1
  {
    if |found| > 1 { assert |Replaced(found[1..], id, event)| > 0; }
  }

  lemma OnlyOwnKey(r: Remote, calendar: string, event: GoogleEvent, attempts: seq<Attempt>, c: string, k: string,
                   key: string)
    requires MarkerOf(event) == Some(key) && (c != calendar || k != key)
    ensures WithKey(CreateWithRetry(r, calendar, event, attempts).0, c, k) == WithKey(r, c, k)
  {
    CreateLoopAdds(r, calendar, event, attempts, c, k);
  }

  /** With at most one effective attempt, a create that answers leaves exactly the event it names. */
  lemma {:induction false} CreatedLast(r: Remote, calendar: string, event: GoogleEvent, attempts: seq<Attempt>,
                                       key: string)
    requires MarkerOf(event) == Some(key)
    ensures var (after, id) := CreateWithRetry(r, calendar, event, attempts);
      id.Ok? && Effects(attempts) <= 1 ==>
        WithKey(after, calendar, key) == WithKey(r, calendar, key) + [Stored(id.value, event)]
    decreases |attempts|
  {
    if attempts != [] {
      CreateAdds(r, calendar, event, calendar, key);
      if attempts[0].Lost? {
        CreatedLast(r, calendar, event, attempts[1..], key);
      } else if attempts[0].ReplyLost? {
        NoEffectNoAnswer(Create(r, calendar, event), calendar, event, attempts[1..]);
      }
    }
  }

  lemma {:induction false} NoEffectNoAnswer(r: Remote, calendar: string, event: GoogleEvent, attempts: seq<Attempt>)
    ensures CreateWithRetry(r, calendar, event, attempts).1.Ok? ==> Effects(attempts) >= 1
    decreases |attempts|
  {
    if attempts != [] {
      if attempts[0].Lost? { NoEffectNoAnswer(r, calendar, event, attempts[1..]); }
      else if attempts[0].ReplyLost? { NoEffectNoAnswer(Create(r, calendar, event), calendar, event, attempts[1..]); }
    }
  }

  /** A delivery touches no event but those under its own key on its own calendar. */
  lemma DeliveryTouchesOnlyItsKey(r: Remote, entry: Records.Entry, profile: Profile.Profile, lib: Library, net: Net,
                                  c: string, k: string)
    requires FreshIds(r)
    requires c != profile.targetCalendarId || KeyOf(entry, profile, lib) != Some(k)
    ensures var after := DeliverTo(r, entry, profile, lib, net).0;
      FreshIds(after) && WithKey(after, c, k) == WithKey(r, c, k)
  {
    hide MapPayload, WithKey, FreshIds, CreateWithRetry, Find, WriteEvent, MarkerOf;
    if MapPayload(entry.payload, profile, lib).Ok? {
      EventCarriesKey(entry, profile, lib);
      var event := EventOf(entry, profile, lib);
      var calendar := profile.targetCalendarId;
      match KeyOf(entry, profile, lib)
      case None => CreateLoopAdds(r, calendar, event, net.create, c, k);
      case Some(key) => WriteEffect(r, calendar, event, key, net, c, k);
    }
  }

  /**
    Delivering an entry that has a key: events stay unique, and when it answers, exactly one
    event carries the key, with this entry's content; it was created only if none did, and
    otherwise kept its id.
   */
  lemma DeliveryUpserts(r: Remote, entry: Records.Entry, profile: Profile.Profile, lib: Library, net: Net, key: string)
    requires Unique(r) && FreshIds(r) && Effects(net.create) <= 1 && KeyOf(entry, profile, lib) == Some(key)
    ensures var (after, result) := DeliverTo(r, entry, profile, lib, net);
      var calendar := profile.targetCalendarId;
      && Unique(after) && FreshIds(after)
      && (result.Ok? ==>
            && WithKey(after, calendar, key) == [Stored(result.value.eventId, EventOf(entry, profile, lib))]
            && result.value.upsertKey == Some(key)
            && (result.value.created <==> WithKey(r, calendar, key) == [])
            && (!result.value.created ==> result.value.eventId == WithKey(r, calendar, key)[0].id))
  {
    hide MapPayload, WithKey, FreshIds, CreateWithRetry, Find, Update, MarkerOf, Effects;
    EventCarriesKey(entry, profile, lib);
    var event := EventOf(entry, profile, lib);
    var calendar := profile.targetCalendarId;
    forall c, k ensures |WithKey(DeliverTo(r, entry, profile, lib, net).0, c, k)| <= 1 {
      WriteEffect(r, calendar, event, key, net, c, k);
      assert |WithKey(r, c, k)| <= 1 && |WithKey(r, calendar, key)| <= 1;
    }
    WriteEffect(r, calendar, event, key, net, calendar, key);
    assert |WithKey(r, calendar, key)| <= 1;
  }

  /** The key is the source's own id for the event, or else the caller's idempotency key, under the source. */
  function OwnKey(entry: Records.Entry, request: EventRequest, profile: Profile.Profile): Option<string> {
    if request.externalId.Some? then Some(profile.sourceId + ":" + request.externalId.value)
    else if entry.idempotencyKey.Some? then Some(entry.sourceId + ":" + entry.idempotencyKey.value)
    else None
  }

  /** The event that is written shows what the request asks for, whatever it is keyed by, and has only its key. */
  lemma WrittenAsAsked(entry: Records.Entry, profile: Profile.Profile, lib: Library)
    requires MapPayload(entry.payload, profile, lib).Ok?
    ensures var request := ParseRequest(entry.payload).value;
      && AsAsked(EventOf(entry, profile, lib), request, profile, lib)
      && KeyOf(entry, profile, lib) == OwnKey(entry, request, profile)
      && EventOf(entry, profile, lib).properties ==
           if KeyOf(entry, profile, lib).None? then None
           else Some(map["almanac_source_id" := KeyOf(entry, profile, lib).value])
  {
    var mapped := MapPayload(entry.payload, profile, lib).value;
    var request := ParseRequest(entry.payload).value;
    MappedIsWellFormed(request, profile, lib);
    StampedShowsTheSame(entry, mapped);
    hide ParseRequest, ToGoogleEvent, RemindersFit, PaletteId, IsStatus;
  }

  /**
    After a delivery that answers, the one event under the entry's key is the mapped payload in
    everything it shows, its only property is that key, and so it is what the request asks for.
   */
  lemma DeliveredAsAsked(r: Remote, entry: Records.Entry, profile: Profile.Profile, lib: Library, net: Net)
    requires Unique(r) && FreshIds(r) && Effects(net.create) <= 1 && KeyOf(entry, profile, lib).Some?
    requires DeliverTo(r, entry, profile, lib, net).1.Ok?
    ensures var (after, result) := DeliverTo(r, entry, profile, lib, net);
      var key := KeyOf(entry, profile, lib).value;
      var request := ParseRequest(entry.payload).value;
      var under := WithKey(after, profile.targetCalendarId, key);
      && MapPayload(entry.payload, profile, lib).Ok?
      && Some(key) == OwnKey(entry, request, profile)
      && |under| == 1 && under[0].id == result.value.eventId
      && under[0].event == MapPayload(entry.payload, profile, lib).value.(
           properties := Some(map["almanac_source_id" := key]))
      && AsAsked(under[0].event, request, profile, lib)
  {
    var key := KeyOf(entry, profile, lib).value;
    DeliveryUpserts(r, entry, profile, lib, net, key);
    WrittenAsAsked(entry, profile, lib);
    StampedShowsTheSame(entry, MapPayload(entry.payload, profile, lib).value);
    hide DeliverTo, MapPayload, ParseRequest, AsAsked, Unique, FreshIds, Effects, WithKey, OwnKey, UpsertKey, Stamped;
  }

  /** Uniqueness survives every delivery, whether or not the entry has a key and whatever fails. */
  lemma DeliveryKeepsUnique(r: Remote, entry: Records.Entry, profile: Profile.Profile, lib: Library, net: Net)
    requires Unique(r) && FreshIds(r) && Effects(net.create) <= 1
    ensures Unique(DeliverTo(r, entry, profile, lib, net).0) && FreshIds(DeliverTo(r, entry, profile, lib, net).0)
  {
    match KeyOf(entry, profile, lib)
    case Some(key) => DeliveryUpserts(r, entry, profile, lib, net, key);
    case None =>
      hide MapPayload, WithKey, FreshIds, CreateWithRetry, Find, Update, MarkerOf, Effects;
      forall c, k ensures |WithKey(DeliverTo(r, entry, profile, lib, net).0, c, k)| <= 1 {
        DeliveryTouchesOnlyItsKey(r, entry, profile, lib, net, c, k);
      }
      DeliveryTouchesOnlyItsKey(r, entry, profile, lib, net, "", "");
  }

  lemma {:induction false} ReplacingWithItself(events: seq<Stored>, id: nat, event: GoogleEvent)
    requires forall s :: s in events && s.id == id ==> s.event == event
    ensures Replaced(events, id, event) == events
  {
    if events != [] {
      assert events[0] in events;
      ReplacingWithItself(events[1..], id, event);
      assert events == [events[0]] + events[1..];
    }
  }

  /**
    Redelivery converges: delivering the same entry again, as after a crash before it was
    marked, updates the same event and leaves the calendars exactly as they are.
   */
  lemma RedeliveryConverges(r: Remote, entry: Records.Entry, profile: Profile.Profile, lib: Library, net: Net,
                            again: Net)
    requires Unique(r) && FreshIds(r) && Effects(net.create) <= 1 && KeyOf(entry, profile, lib).Some?
    requires DeliverTo(r, entry, profile, lib, net).1.Ok?
    ensures var (after, result) := DeliverTo(r, entry, profile, lib, net);
      && DeliverTo(after, entry, profile, lib, again).0 == after
      && (again.find.Answered? && again.update.Answered? ==>
            DeliverTo(after, entry, profile, lib, again).1 == Ok(result.value.(created := false)))
  {
    var key := KeyOf(entry, profile, lib).value;
    var (after, result) := DeliverTo(r, entry, profile, lib, net);
    DeliveryUpserts(r, entry, profile, lib, net, key);
    hide MapPayload, FreshIds, CreateWithRetry, MarkerOf, Effects, DeliverTo, WithKey, Find, Update;
    UpdatingIsNothing(after, profile.targetCalendarId, key, result.value.eventId, EventOf(entry, profile, lib));
    DeliverAgain(after, entry, profile, lib, again, key, result.value.eventId);
  }

  /** Updating the one event of a key with the content it has changes nothing. */
  lemma UpdatingIsNothing(r: Remote, calendar: string, key: string, id: nat, event: GoogleEvent)
    requires FreshIds(r) && WithKey(r, calendar, key) == [Stored(id, event)]
    ensures Find(r, calendar, key) == Some(id) && Update(r, calendar, id, event) == r
  {
    hide FreshIds, MarkerOf;
    SameIdSameEvent(r, calendar, key);
    var events := EventsOf(r, calendar);
    MatchingMembers(events, key);
    forall s | s in events && s.id == id ensures s.event == event {
      assert s in WithKey(r, calendar, key);
    }
    ReplacingWithItself(events, id, event);
    assert calendar in r.calendars;
  }

  lemma DeliverAgain(r: Remote, entry: Records.Entry, profile: Profile.Profile, lib: Library, net: Net, key: string,
                     id: nat)
    requires KeyOf(entry, profile, lib) == Some(key) && Find(r, profile.targetCalendarId, key) == Some(id)
    ensures DeliverTo(r, entry, profile, lib, net) ==
      if net.find.Answered?
      then WriteEvent(r, profile.targetCalendarId, EventOf(entry, profile, lib), key, Some(id), net)
      else (r, Err(net.find.failure))
  {
    hide MapPayload, Find, WriteEvent, CreateWithRetry;
  }

  // ----- what is answered, and what is left alone ------------------------------------------------

  ghost predicate Carried(r: Remote, calendar: string, key: string) {
    exists s :: s in EventsOf(r, calendar) && MarkerOf(s.event) == Some(key)
  }

  lemma FindsWhatIsCarried(r: Remote, calendar: string, key: string)
    ensures Find(r, calendar, key).Some? <==> Carried(r, calendar, key)
    ensures Carried(r, calendar, key) <==> WithKey(r, calendar, key) != []
    ensures Find(r, calendar, key).Some? ==> IsFirst(EventsOf(r, calendar), key, Find(r, calendar, key).value)
  {
    FirstMatching(EventsOf(r, calendar), key);
    FoundIsThere(r, calendar, key);
    if Carried(r, calendar, key) {
      var s :| s in EventsOf(r, calendar) && MarkerOf(s.event) == Some(key);
      MatchingMembers(EventsOf(r, calendar), key);
      assert s in WithKey(r, calendar, key);
    }
  }

  /**
    What a deletion answers: "deleted", with the first event that carries the key, exactly if both
    requests were answered; "not found" exactly if the lookup was answered and nothing carries it,
    with every calendar as it was; and otherwise the failure of the request that failed.
   */
  lemma DeletionAnswers(r: Remote, profile: Profile.Profile, externalId: string, net: Net)
    ensures var (after, reply) := DeleteFrom(r, profile, externalId, net);
      var key := Profile.Key(profile.sourceId, externalId);
      var carried := Carried(r, profile.targetCalendarId, key);
      && (reply.Deleted? <==> net.find.Answered? && carried && net.update.Answered?)
      && (reply.Deleted? ==> IsFirst(EventsOf(r, profile.targetCalendarId), key, reply.id))
      && (reply.NotFound? <==> net.find.Answered? && !carried)
      && (reply.NotFound? ==> after == r)
      && (reply.BadGateway? <==> !net.find.Answered? || (carried && !net.update.Answered?))
      && (reply.BadGateway? ==>
            reply.failure == if !net.find.Answered? then net.find.failure else net.update.failure)
  {
    FindsWhatIsCarried(r, profile.targetCalendarId, Profile.Key(profile.sourceId, externalId));
    hide Find, Carried, IsFirst, Delete, EventsOf;
  }

  /**
    What it changes, if keys are unique: unless a request had no effect, exactly the event under
    the key is gone, and every other event of every calendar stays; "deleted" means it is gone.
   */
  lemma DeletionRemoves(r: Remote, profile: Profile.Profile, externalId: string, net: Net, c: string)
    requires Unique(r) && FreshIds(r)
    ensures var (after, reply) := DeleteFrom(r, profile, externalId, net);
      var key := Profile.Key(profile.sourceId, externalId);
      var calendar := profile.targetCalendarId;
      var gone := net.find.Answered? && !net.update.Failed?;
      && (forall s :: s in EventsOf(after, c) <==>
            s in EventsOf(r, c) && !(gone && c == calendar && MarkerOf(s.event) == Some(key)))
      && (reply.Deleted? || reply.NotFound? ==> WithKey(after, calendar, key) == [])
  {
    var key := Profile.Key(profile.sourceId, externalId);
    var calendar := profile.targetCalendarId;
    FindsWhatIsCarried(r, calendar, key);
    assert |WithKey(r, calendar, key)| <= 1;
    if Find(r, calendar, key).Some? {
      var id := Find(r, calendar, key).value;
      OnlyOneUnder(r, calendar, key);
      RemovedMatches(EventsOf(r, calendar), id, key);
      DeleteRemoves(r, calendar, id, calendar, key);
      assert Removed(WithKey(r, calendar, key), id) == [];
    }
    hide Find, WithKey, Unique, FreshIds, MarkerOf, IsFirst, Removed;
  }

  /** The events with the found id are exactly those under the key, if there is at most one. */
  lemma OnlyOneUnder(r: Remote, calendar: string, key: string)
    requires FreshIds(r) && Find(r, calendar, key).Some? && |WithKey(r, calendar, key)| <= 1
    ensures WithKey(r, calendar, key) == [WithKey(r, calendar, key)[0]]
    ensures forall s :: s in EventsOf(r, calendar) ==>
      (s.id == Find(r, calendar, key).value <==> MarkerOf(s.event) == Some(key))
  {
    FoundIsThere(r, calendar, key);
    SameIdSameEvent(r, calendar, key);
    MatchingMembers(EventsOf(r, calendar), key);
    forall s | s in EventsOf(r, calendar) && MarkerOf(s.event) == Some(key)
      ensures s.id == Find(r, calendar, key).value
    {
      assert s in WithKey(r, calendar, key);
    }
  }

  /** A delivery leaves every event alone that is on another calendar or not under its key. */
  lemma DeliveryKeepsTheRest(r: Remote, entry: Records.Entry, profile: Profile.Profile, lib: Library, net: Net,
                             c: string, s: Stored)
    requires FreshIds(r)
    requires c != profile.targetCalendarId || MarkerOf(s.event) != KeyOf(entry, profile, lib)
    ensures s in EventsOf(DeliverTo(r, entry, profile, lib, net).0, c) <==> s in EventsOf(r, c)
  {
    hide MapPayload, FreshIds, CreateWithRetry, Find, MarkerOf;
    if MapPayload(entry.payload, profile, lib).Ok? {
      EventCarriesKey(entry, profile, lib);
      var event := EventOf(entry, profile, lib);
      var calendar := profile.targetCalendarId;
      CreateKeepsTheRest(r, calendar, event, net.create, c, s);
      var key := KeyOf(entry, profile, lib);
      if key.Some? && Find(r, calendar, key.value).Some? {
        UpdateKeepsTheRest(r, calendar, key.value, event, c, s);
      }
    }
  }

  lemma CreateKeepsTheRest(r: Remote, calendar: string, event: GoogleEvent, attempts: seq<Attempt>, c: string,
                           s: Stored)
    requires c != calendar || MarkerOf(s.event) != MarkerOf(event)
    ensures s in EventsOf(CreateWithRetry(r, calendar, event, attempts).0, c) <==> s in EventsOf(r, c)
  {
    var k := StopsSomewhere(attempts);
    CreateLoopExactly(r, calendar, event, attempts, k);
    hide CreateWithRetry, MarkerOf, StopsAt;
  }

  lemma UpdateKeepsTheRest(r: Remote, calendar: string, key: string, event: GoogleEvent, c: string, s: Stored)
    requires FreshIds(r) && Find(r, calendar, key).Some? && MarkerOf(event) == Some(key)
    requires c != calendar || MarkerOf(s.event) != Some(key)
    ensures s in EventsOf(Update(r, calendar, Find(r, calendar, key).value, event), c) <==> s in EventsOf(r, c)
  {
    var id := Find(r, calendar, key).value;
    SameIdSameEvent(r, calendar, key);
    hide Find, FreshIds, MarkerOf;
    if c == calendar {
      var events := EventsOf(r, calendar);
      var now := Replaced(events, id, event);
      ReplacedAt(events, id, event);
      if s in events {
        var i :| 0 <= i < |events| && events[i] == s;
        assert now[i] == s;
      }
      if s in now {
        var i :| 0 <= i < |now| && now[i] == s;
        assert events[i] == s;
      }
    }
  }

  /** Without a key there is nothing to find: every attempt that takes effect appends the mapped event. */
  lemma UnkeyedIsAppended(r: Remote, entry: Records.Entry, profile: Profile.Profile, lib: Library, net: Net)
    requires MapPayload(entry.payload, profile, lib).Ok? && KeyOf(entry, profile, lib).None?
    ensures var (after, result) := DeliverTo(r, entry, profile, lib, net);
      var event := MapPayload(entry.payload, profile, lib).value;
      && Appended(r, profile.targetCalendarId, event, after, Effects(net.create))
      && (result.Ok? ==> result.value.created && result.value.eventId == after.next - 1 && result.value.upsertKey.None?)
  {
    var k := StopsSomewhere(net.create);
    CreateLoopExactly(r, profile.targetCalendarId, MapPayload(entry.payload, profile, lib).value, net.create, k);
    hide MapPayload, CreateWithRetry, StopsAt, Appended, Effects;
  }

  /**
    What a delivery answers. It succeeds exactly if the payload can be mapped and every request
    it makes is answered; otherwise the failure is that of the first request that failed, and a
    payload that cannot be mapped will never be.
   */
  lemma DeliveryAnswers(r: Remote, entry: Records.Entry, profile: Profile.Profile, lib: Library, net: Net, k: nat)
    requires StopsAt(net.create, k)
    ensures var result := DeliverTo(r, entry, profile, lib, net).1;
      var key := KeyOf(entry, profile, lib);
      var updates := key.Some? && Carried(r, profile.targetCalendarId, key.value);
      if MapPayload(entry.payload, profile, lib).Err? then result == Err(Permanent)
      else if key.Some? && !net.find.Answered? then result == Err(net.find.failure)
      else if updates then
        if net.update.Answered? then result.Ok? && !result.value.created else result == Err(net.update.failure)
      else if k == |net.create| then result == Err(Transient)
      else if net.create[k].Created? then result.Ok? && result.value.created
      else result == Err(Permanent)
  {
    if MapPayload(entry.payload, profile, lib).Ok? {
      var calendar := profile.targetCalendarId;
      CreateLoopExactly(r, calendar, EventOf(entry, profile, lib), net.create, k);
      var key := KeyOf(entry, profile, lib);
      if key.Some? { FindsWhatIsCarried(r, calendar, key.value); }
    }
    hide MapPayload, CreateWithRetry, StopsAt, Carried, Find, IsFirst, Appended, Update;
  }

  // ----- sources cannot reach each other's events ---------------------------------------------

  /** The key of an entry's delivery begins with its own source. */
  lemma KeyNamesTheSource(entry: Records.Entry, profile: Profile.Profile, lib: Library)
    requires entry.sourceId == profile.sourceId && KeyOf(entry, profile, lib).Some?
    ensures exists id :: KeyOf(entry, profile, lib) == Some(Profile.Key(profile.sourceId, id))
  {
  }

  /**
    No delivery and no deletion of one source changes an event keyed under another, on any
    calendar, even if it names the other's id.
   */
  lemma SourcesCannotCollide(r: Remote, entry: Records.Entry, profile: Profile.Profile, lib: Library, net: Net,
                             externalId: string, other: string, id: string, c: string)
    requires FreshIds(r) && entry.sourceId == profile.sourceId
    requires Profile.SourceIdIsSafe(profile.sourceId) && Profile.SourceIdIsSafe(other) && other != profile.sourceId
    ensures var k := Profile.Key(other, id);
      && WithKey(DeliverTo(r, entry, profile, lib, net).0, c, k) == WithKey(r, c, k)
      && WithKey(DeleteFrom(r, profile, externalId, net).0, c, k) == WithKey(r, c, k)
  {
    var k, own := Profile.Key(other, id), Profile.Key(profile.sourceId, externalId);
    if KeyOf(entry, profile, lib).Some? {
      KeyNamesTheSource(entry, profile, lib);
      var mine :| KeyOf(entry, profile, lib) == Some(Profile.Key(profile.sourceId, mine));
      Profile.KeysAreInjective(profile.sourceId, mine, other, id);
    }
    Profile.KeysAreInjective(profile.sourceId, externalId, other, id);
    hide WithKey, FreshIds, DeliverTo, Find, KeyOf, Profile.Key, Delete, MarkerOf;
    DeliveryTouchesOnlyItsKey(r, entry, profile, lib, net, c, k);
    var calendar := profile.targetCalendarId;
    if Find(r, calendar, own).Some? {
      var victim := Find(r, calendar, own).value;
      DeleteRemoves(r, calendar, victim, c, k);
      SameIdSameEvent(r, calendar, own);
      NotUnder(r, c, k, calendar, own, victim);
    }
  }

  lemma NotUnder(r: Remote, c: string, k: string, calendar: string, own: string, id: nat)
    requires forall s :: s in EventsOf(r, calendar) && s.id == id ==> MarkerOf(s.event) == Some(own)
    requires k != own
    ensures c == calendar ==> Removed(WithKey(r, c, k), id) == WithKey(r, c, k)
  {
    MatchingMembers(EventsOf(r, c), k);
    if c == calendar { RemovedOther(WithKey(r, c, k), id); }
  }
}
