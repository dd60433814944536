/** The door's handlers: accept and answer, or accept, deliver and answer. */
module Ingest {
  import opened Wrappers
  import opened Records
  import opened RecordFile
  import opened Compaction
  import opened Remote
  import opened Delivery
  import opened Door
  import opened Request
  import opened Text
  import Journal
  import Json
  import Profile
  import Utf8

  /** One request of an authenticated caller; `id` and `now` are drawn when its entry is built. */
  datatype Call = Call(payload: Json.Value, header: Option<string>, id: string, now: string)

  /** The answers 422, 500, 202, 200 and 502. */
  datatype Reply =
    | Unprocessable
    | NotJournalled
    | Taken(id: string)
    | DeliveredNow(delivered: Delivered)
    | BadGateway(failure: Failure)

  function EntryOf(call: Call, profile: Profile.Profile): Entry {
    BuildEntry(call.id, call.now, profile, call.header, call.payload)
  }

  predicate Admitted(call: Call, profile: Profile.Profile, lib: Library) {
    RequiresAnId(call.payload, call.header) && MustBeMappable(call.payload, profile, lib)
  }

  /** The asynchronous handler: the file afterwards, and the answer. */
  function Ingested(file: seq<Utf8.Byte>, call: Call, profile: Profile.Profile, lib: Library, cap: nat, disk: Disk)
    : (seq<Utf8.Byte>, Reply)
  {
    if !Admitted(call, profile, lib) then (file, Unprocessable)
    else
      var record := Accepted(EntryOf(call, profile));
      (AfterAppend(file, record, cap, disk),
       if Acknowledged(file, record, cap, disk) then Taken(call.id) else NotJournalled)
  }

  /** The synchronous handler; a marker that cannot be written does not change the answer. */
  function IngestedNow(file: seq<Utf8.Byte>, remote: Remote, call: Call, profile: Profile.Profile, lib: Library,
                       cap: nat, disk: Disk, net: Net, mark: Disk): (seq<Utf8.Byte>, Remote, Reply)
  {
    var (taken, reply) := Ingested(file, call, profile, lib, cap, disk);
    if !reply.Taken? then (taken, remote, reply)
    else
      var (after, result) := DeliverTo(remote, EntryOf(call, profile), profile, lib, net);
      match result
      case Ok(d) => (AfterAppend(taken, Done(call.id), cap, mark), after, DeliveredNow(d))
      case Err(f) => (taken, after, Reply.BadGateway(f))
  }

  method IngestEvent(call: Call, profile: Profile.Profile, journal: Journal.Journal, lib: Library, disk: Disk)
    returns (reply: Reply)
    modifies journal
    ensures (journal.file, reply) == Ingested(old(journal.file), call, profile, lib, journal.maxBytes, disk)
  {
    hide AfterAppend, Acknowledged, MapPayload, RequiresAnId;
    if !RequiresAnId(call.payload, call.header) { return Unprocessable; }
    if !MustBeMappable(call.payload, profile, lib) { return Unprocessable; }
    var accepted := journal.Accept(EntryOf(call, profile), disk);
    reply := if accepted.Ok? then Taken(call.id) else NotJournalled;
  }

  method IngestSync(call: Call, profile: Profile.Profile, journal: Journal.Journal, client: CalendarClient,
                    locks: KeyLocks, lib: Library, disk: Disk, net: Net, mark: Disk)
    returns (reply: Reply)
    requires locks.Valid()
    modifies journal, client, locks
    ensures locks.Valid()
    ensures (journal.file, client.remote, reply)
         == IngestedNow(old(journal.file), old(client.remote), call, profile, lib, journal.maxBytes, disk, net, mark)
  {
    hide AfterAppend, Acknowledged, MapPayload, RequiresAnId, DeliverTo;
    reply := IngestEvent(call, profile, journal, lib, disk);
    if !reply.Taken? { return; }
    var result := Deliver(EntryOf(call, profile), profile, client, locks, lib, net);
    match result {
      case Ok(d) =>
        var marked := journal.MarkDone(call.id, mark);
        reply := DeliveredNow(d);
      case Err(f) => reply := Reply.BadGateway(f);
    }
  }

  lemma DeliversWhen(file: seq<Utf8.Byte>, remote: Remote, call: Call, profile: Profile.Profile, lib: Library, cap: nat,
                     disk: Disk, net: Net, mark: Disk)
    ensures IngestedNow(file, remote, call, profile, lib, cap, disk, net, mark).2.DeliveredNow? <==>
      && Admitted(call, profile, lib) && Acknowledged(file, Accepted(EntryOf(call, profile)), cap, disk)
      && DeliverTo(remote, EntryOf(call, profile), profile, lib, net).1.Ok?
  {
    hide Admitted, Acknowledged, AfterAppend, DeliverTo;
  }

  // ----- what an answer promises --------------------------------------------------------------

  lemma Appends(file: seq<Utf8.Byte>, log: seq<Record>, r: Record, cap: nat)
    requires HasShape(file, Shape(log, [])) && Fits(file, r, cap)
    ensures HasShape(AfterAppend(file, r, cap, Sound), Shape(log + [r], []))
  {
    hide HasShape, Line;
    assert Line(r)[..|Line(r)|] == Line(r);
    LineLands(file, Shape(log, []), r);
  }

  /** A fresh entry at the end of a log is the last one pending. */
  lemma LastPending(log: seq<Record>, e: Entry)
    requires e.id !in MarkedIds(log)
    ensures Pending(log + [Accepted(e)]) == Pending(log) + [e]
  {
    EntriesAppend(log, [Accepted(e)]);
    assert [Accepted(e)][1..] == [];
    assert Entries([Accepted(e)]) == [e] + Entries([]) == [e];
    MarkedAppend(log, [Accepted(e)]);
    assert MarkedIds(log + [Accepted(e)]) == MarkedIds(log);
    WithoutAppend(Entries(log), [e], MarkedIds(log));
    assert [e][1..] == [];
    assert Without([e], MarkedIds(log)) == [e] + Without([], MarkedIds(log)) == [e];
  }

  /**
    An answer 202 means the entry is in the journal, pending after everything accepted before
    it, exactly when the journal ended with a line feed; after a torn tail the journal can no
    longer be read. 422 changes nothing, and is given exactly for what the guards refuse.
   */
  lemma TakenIsPending(file: seq<Utf8.Byte>, sh: Shape, call: Call, profile: Profile.Profile, lib: Library, cap: nat,
                       disk: Disk)
    requires HasShape(file, sh) && call.id !in MarkedIds(sh.records)
    ensures var (after, reply) := Ingested(file, call, profile, lib, cap, disk);
      var log := sh.records + [Accepted(EntryOf(call, profile))];
      && (reply.Taken? ==>
            && reply.id == EntryOf(call, profile).id
            && (Read(after).Ok? <==> EndsCleanly(file))
            && (EndsCleanly(file) ==>
                  && HasShape(after, Shape(log, [])) && Read(after) == Ok(log)
                  && Pending(log) == Pending(sh.records) + [EntryOf(call, profile)]))
      && (reply.Unprocessable? ==> after == file)
      && (reply.Unprocessable? <==> !Admitted(call, profile, lib))
      && (reply.Taken? <==>
            Admitted(call, profile, lib) && Acknowledged(file, Accepted(EntryOf(call, profile)), cap, disk))
      && (reply.Unprocessable? || reply.NotJournalled? || reply.Taken?)
  {
    hide HasShape, Line, Admitted, Pending, Read, EndsCleanly;
    var r := Accepted(EntryOf(call, profile));
    if Acknowledged(file, r, cap, disk) {
      assert Line(r)[..|Line(r)|] == Line(r);
      AppendIsReadable(file, sh, r);
      CleanEnd(file, sh);
      if EndsCleanly(file) {
        LineLands(file, sh, r);
        LastPending(sh.records, EntryOf(call, profile));
      }
    }
  }

  /** The key of an admitted call: its external id, or else its header trimmed, under the profile's source. */
  function KeyOfCall(call: Call, profile: Profile.Profile): Option<string> {
    match ParseRequest(call.payload)
    case Some(request) =>
      if request.externalId.Some? then Some(profile.sourceId + ":" + request.externalId.value)
      else if call.header.Some? then Some(profile.sourceId + ":" + Trim(call.header.value))
      else None
    case None => None
  }

  /** The entry keeps the call, and delivery goes by that key. */
  lemma AdmittedHasKey(call: Call, profile: Profile.Profile, lib: Library)
    requires Admitted(call, profile, lib)
    ensures var e := EntryOf(call, profile);
      && e.id == call.id && e.sourceId == profile.sourceId && e.receivedAt == call.now && e.payload == call.payload
      && MapPayload(e.payload, profile, lib).Ok?
      && KeyOfCall(call, profile).Some? && KeyOf(e, profile, lib) == KeyOfCall(call, profile)
  {
    var e := EntryOf(call, profile);
    AcceptedIsDeliverable(call.id, call.now, profile, call.header, call.payload, lib);
    WrittenAsAsked(e, profile, lib);
    hide MapPayload, ParseRequest, AsAsked;
  }

  /**
    What a synchronous answer says about the calendars: 200 means exactly one event carries
    the entry's key, with its content; and 502 is never the payload's fault.
   */
  lemma SyncDelivers(file: seq<Utf8.Byte>, remote: Remote, call: Call, profile: Profile.Profile, lib: Library, cap: nat,
                     disk: Disk, net: Net, mark: Disk)
    requires Unique(remote) && FreshIds(remote) && Effects(net.create) <= 1
    ensures var (_, calendars, reply) := IngestedNow(file, remote, call, profile, lib, cap, disk, net, mark);
      var e := EntryOf(call, profile);
      && Unique(calendars) && FreshIds(calendars)
      && (reply.DeliveredNow? ==>
            && MapPayload(e.payload, profile, lib).Ok?
            && KeyOf(e, profile, lib) == KeyOfCall(call, profile) && KeyOfCall(call, profile).Some?
            && var before := WithKey(remote, profile.targetCalendarId, KeyOfCall(call, profile).value);
               var under := WithKey(calendars, profile.targetCalendarId, KeyOfCall(call, profile).value);
               && under == [Stored(reply.delivered.eventId, EventOf(e, profile, lib))]
               && AsAsked(under[0].event, ParseRequest(call.payload).value, profile, lib)
               && reply.delivered.upsertKey == KeyOfCall(call, profile)
               && (reply.delivered.created <==> before == [])
               && (!reply.delivered.created ==> reply.delivered.eventId == before[0].id))
      && (reply.BadGateway? ==> MapPayload(e.payload, profile, lib).Ok?)
      && (reply.BadGateway? ==> DeliverTo(remote, e, profile, lib, net).1 == Err(reply.failure))
      && (!reply.DeliveredNow? && !reply.BadGateway? ==> calendars == remote)
  {
    var e := EntryOf(call, profile);
    if Admitted(call, profile, lib) {
      AdmittedHasKey(call, profile, lib);
      WrittenAsAsked(e, profile, lib);
      hide AfterAppend, DeliverTo, MapPayload, WithKey, Unique, FreshIds, Effects, KeyOf, KeyOfCall, AsAsked,
        ParseRequest, OwnKey, EventOf;
      DeliveryUpserts(remote, e, profile, lib, net, KeyOfCall(call, profile).value);
    }
  }

  /**
    And about the journal. If it ended with a line feed, then after 200 the queue is as before
    once the marker is acknowledged, and after 502 the entry stays queued for the worker. If it
    ended with a torn tail, it can no longer be read.
   */
  lemma SyncQueues(file: seq<Utf8.Byte>, sh: Shape, remote: Remote, call: Call, profile: Profile.Profile, lib: Library,
                   cap: nat, disk: Disk, net: Net, mark: Disk)
    requires HasShape(file, sh) && call.id !in MarkedIds(sh.records)
    requires forall e :: e in Entries(sh.records) ==> e.id != call.id
    ensures var (after, _, reply) := IngestedNow(file, remote, call, profile, lib, cap, disk, net, mark);
      var taken := Ingested(file, call, profile, lib, cap, disk).0;
      var e := EntryOf(call, profile);
      var marked := sh.records + [Accepted(e), Done(call.id)];
      && (reply.DeliveredNow? || reply.BadGateway? ==> (EndsCleanly(file) || Read(after).Err?))
      && (reply.DeliveredNow? && EndsCleanly(file) && Acknowledged(taken, Done(call.id), cap, mark) ==>
            Read(after) == Ok(marked) && Pending(marked) == Pending(sh.records))
      && (reply.BadGateway? && EndsCleanly(file) ==>
            && Read(after) == Ok(sh.records + [Accepted(e)])
            && Pending(sh.records + [Accepted(e)]) == Pending(sh.records) + [e])
  {
    hide HasShape, Line, Admitted, Pending, DeliverTo, Read, Entries, EndsCleanly, MarkedIds, Landed;
    var e := EntryOf(call, profile);
    TakenIsPending(file, sh, call, profile, lib, cap, disk);
    var (taken, reply) := Ingested(file, call, profile, lib, cap, disk);
    if reply.Taken? {
      if !EndsCleanly(file) {
        StaysDamaged(taken, Done(call.id), cap, mark);
      } else if Acknowledged(taken, Done(call.id), cap, mark) {
        MarkLands(taken, sh.records, e, call.id, cap);
        MarkedAtOnce(sh.records, e);
      }
    }
  }

  lemma StaysDamaged(file: seq<Utf8.Byte>, r: Record, cap: nat, disk: Disk)
    requires Read(file).Err?
    ensures Read(AfterAppend(file, r, cap, disk)).Err?
  {
    hide Read, Line;
    DamageStays(file, r, Landed(r, disk));
  }

  lemma MarkLands(file: seq<Utf8.Byte>, log: seq<Record>, e: Entry, id: string, cap: nat)
    requires HasShape(file, Shape(log + [Accepted(e)], [])) && Fits(file, Done(id), cap)
    ensures Read(AfterAppend(file, Done(id), cap, Sound)) == Ok(log + [Accepted(e), Done(id)])
  {
    hide HasShape, Read, Line;
    var two := log + [Accepted(e), Done(id)];
    Appends(file, log + [Accepted(e)], Done(id), cap);
    assert log + [Accepted(e)] + [Done(id)] == two;
    ShapeReads(AfterAppend(file, Done(id), cap, Sound), Shape(two, []));
    assert two + [] == two;
  }

  /** Accepting and marking an entry leaves the queue as it was. */
  lemma MarkedAtOnce(log: seq<Record>, e: Entry)
    requires forall x :: x in Entries(log) ==> x.id != e.id
    ensures Pending(log + [Accepted(e), Done(e.id)]) == Pending(log)
  {
    var two := [Accepted(e), Done(e.id)];
    EntriesAppend(log, two);
    assert two[1..] == [Done(e.id)] && [Done(e.id)][1..] == [];
    assert Entries(two) == [e] + Entries([Done(e.id)]) == [e];
    MarkedAppend(log, two);
    assert MarkedIds(two) == {e.id} by { assert two[1] in two; }
    var ids := MarkedIds(log) + {e.id};
    WithoutAppend(Entries(log), [e], ids);
    assert [e][1..] == [];
    assert Without([e], ids) == Without([], ids) == [];
    WithoutSame(Entries(log), ids, MarkedIds(log));
    assert Pending(log) + [] == Pending(log);
  }

  /** After a synchronous delivery that was marked, the one entry pending before is pending still. */
  lemma SyncKeepsQueue(e: Entry, remote: Remote, call: Call, profile: Profile.Profile, lib: Library, cap: nat, net: Net)
    requires call.id != e.id && Admitted(call, profile, lib)
    requires var file := Render([Accepted(e)]);
      && Fits(AfterAppend(file, Accepted(EntryOf(call, profile)), cap, Sound), Done(call.id), cap)
      && IngestedNow(file, remote, call, profile, lib, cap, Sound, net, Sound).2.DeliveredNow?
    ensures var after := IngestedNow(Render([Accepted(e)]), remote, call, profile, lib, cap, Sound, net, Sound).0;
      var log := [Accepted(e), Accepted(EntryOf(call, profile)), Done(call.id)];
      Read(after) == Ok(log) && Pending(log) == [e]
  {
    var one := [Accepted(e)];
    var file := Render(one);
    OneAlone(e);
    TakenFile(file, call, profile, lib, cap);
    hide Read, Pending, Render, Line, HasShape, Entries, MarkedIds, Fits, EntryOf, EndsCleanly, Landed, IngestedNow,
         Ingested, AfterAppend, Admitted;
    SyncQueues(file, Shape(one, []), remote, call, profile, lib, cap, Sound, net, Sound);
    assert one + [Accepted(EntryOf(call, profile)), Done(call.id)]
        == [Accepted(e), Accepted(EntryOf(call, profile)), Done(call.id)];
  }

  lemma OneAlone(e: Entry)
    ensures var one := [Accepted(e)];
      && HasShape(Render(one), Shape(one, [])) && EndsCleanly(Render(one))
      && Entries(one) == [e] && MarkedIds(one) == {} && Pending(one) == [e]
  {
    var one := [Accepted(e)];
    assert AsRecords([e]) == one by { assert [e][1..] == []; }
    hide Render, HasShape, Entries, MarkedIds, EndsCleanly;
    RenderReads(one);
    CleanEnd(Render(one), Shape(one, []));
    AsRecordsReads([e]);
    assert Without([e], {}) == [e] + Without([e][1..], {}) == [e];
  }

  lemma TakenFile(file: seq<Utf8.Byte>, call: Call, profile: Profile.Profile, lib: Library, cap: nat)
    requires Admitted(call, profile, lib)
    ensures Ingested(file, call, profile, lib, cap, Sound).0
         == AfterAppend(file, Accepted(EntryOf(call, profile)), cap, Sound)
  {
    hide Admitted, AfterAppend, EntryOf;
  }
}
