/** Which entry's content a pass of the worker leaves under each key. */
module LastWriter {
  import opened Wrappers
  import opened Records
  import opened RecordFile
  import opened Remote
  import opened Delivery
  import opened Worker
  import Landings
  import Profile
  import Request

  /** Where a delivery of the entry writes: its calendar and key. */
  predicate Targets(e: Entry, w: Setting, c: string, k: string) {
    && e.sourceId in w.profiles
    && w.profiles[e.sourceId].targetCalendarId == c
    && KeyOf(e, w.profiles[e.sourceId], w.lib) == Some(k)
  }

  /** The content a delivery of the entry writes. */
  function ContentOf(e: Entry, w: Setting): Request.GoogleEvent
    requires e.sourceId in w.profiles && KeyOf(e, w.profiles[e.sourceId], w.lib).Some?
  {
    EventOf(e, w.profiles[e.sourceId], w.lib)
  }

  /** The last of the entries that targets a calendar and key. */
  function LastFor(entries: seq<Entry>, w: Setting, c: string, k: string): (r: Option<Entry>)
    ensures r.Some? ==> Targets(r.value, w, c, k)
  {
    if entries == [] then None
    else
      var n := |entries| - 1;
      if Targets(entries[n], w, c, k) then Some(entries[n]) else LastFor(entries[..n], w, c, k)
  }

  /** The last of them whose attempt got through. */
  function LastSent(entries: seq<Entry>, trace: seq<Attempted>, w: Setting, c: string, k: string): (r: Option<Entry>)
    requires |trace| == |entries|
    ensures r.Some? ==> Targets(r.value, w, c, k)
  {
    if entries == [] then None
    else
      var n := |entries| - 1;
      if Targets(entries[n], w, c, k) && trace[n].Sent? then Some(entries[n])
      else LastSent(entries[..n], trace[..n], w, c, k)
  }

  /** Whether the last entry that targets a calendar and key got through. */
  predicate LatestGotThrough(entries: seq<Entry>, trace: seq<Attempted>, w: Setting, c: string, k: string)
    requires |trace| == |entries|
  {
    entries != [] &&
    var n := |entries| - 1;
    if Targets(entries[n], w, c, k) then trace[n].Sent? else LatestGotThrough(entries[..n], trace[..n], w, c, k)
  }

  /** No request takes effect without being answered. */
  predicate Plain(net: Net) {
    !net.update.Unheard? && forall i :: 0 <= i < |net.create| ==> !net.create[i].ReplyLost? && !net.create[i].Garbled?
  }

  /** A plain network, or at least a delivery that got through with one effective create at most. */
  predicate Tame(net: Net, a: Attempted) { Plain(net) || (a.Sent? && Effects(net.create) <= 1) }

  lemma {:induction false} PlainCreate(r: Remote, c: string, event: Request.GoogleEvent, attempts: seq<Attempt>)
    requires forall i :: 0 <= i < |attempts| ==> !attempts[i].ReplyLost? && !attempts[i].Garbled?
    ensures CreateWithRetry(r, c, event, attempts).1.Err? ==> CreateWithRetry(r, c, event, attempts).0 == r
    decreases |attempts|
  {
    if attempts != [] && attempts[0].Lost? { PlainCreate(r, c, event, attempts[1..]); }
  }

  lemma {:induction false} PlainEffects(attempts: seq<Attempt>)
    requires forall i :: 0 <= i < |attempts| ==> !attempts[i].ReplyLost? && !attempts[i].Garbled?
    ensures Effects(attempts) <= 1
  {
    if attempts != [] && attempts[0].Lost? { PlainEffects(attempts[1..]); }
  }

  /** On a plain network a delivery that fails leaves the calendars as they were. */
  lemma PlainFailureChangesNothing(r: Remote, e: Entry, profile: Profile.Profile, lib: Request.Library, net: Net)
    requires Plain(net)
    ensures DeliverTo(r, e, profile, lib, net).1.Err? ==> DeliverTo(r, e, profile, lib, net).0 == r
    ensures Effects(net.create) <= 1
  {
    hide Request.MapPayload, CreateWithRetry, Effects, Find, Update;
    PlainEffects(net.create);
    if Request.MapPayload(e.payload, profile, lib).Ok? {
      PlainCreate(r, profile.targetCalendarId, Request.MapPayload(e.payload, profile, lib).value, net.create);
      PlainCreate(r, profile.targetCalendarId, EventOf(e, profile, lib), net.create);
    }
  }

  /** What one attempt does to one calendar and key. */
  lemma VisitWrites(s: Pass, e: Entry, w: Setting, turn: Turn, c: string, k: string)
    requires Unique(s.remote) && FreshIds(s.remote)
    requires var after := Visit(s, e, w, turn); after.trace != [] && Tame(turn.net, after.trace[|after.trace| - 1])
    ensures var after := Visit(s, e, w, turn);
      var a := after.trace[|after.trace| - 1];
      Wrote(s.remote, after.remote, if Targets(e, w, c, k) && a.Sent? then Some(e) else None, w, c, k)
  {
    hide DeliverTo, WithKey, FreshIds, AfterAppend, Acknowledged, Unique, Effects, Request.MapPayload, KeyOf;
    if e.sourceId in w.profiles {
      var profile := w.profiles[e.sourceId];
      var a := Visit(s, e, w, turn).trace[|s.trace|];
      if Plain(turn.net) { PlainFailureChangesNothing(s.remote, e, profile, w.lib, turn.net); }
      if a.Sent? {
        DeliveryKeepsUnique(s.remote, e, profile, w.lib, turn.net);
        if Targets(e, w, c, k) {
          DeliveryUpserts(s.remote, e, profile, w.lib, turn.net, k);
          assert |WithKey(s.remote, c, k)| <= 1 by { UniqueAt(s.remote, c, k); }
        } else {
          DeliveryTouchesOnlyItsKey(s.remote, e, profile, w.lib, turn.net, c, k);
        }
      }
    }
  }

  lemma UniqueAt(r: Remote, c: string, k: string)
    requires Unique(r)
    ensures |WithKey(r, c, k)| <= 1
  {
  }

  /** Under the key stands one event with the writer's content and the id that was there, or nothing changed. */
  ghost predicate Wrote(before: Remote, after: Remote, writer: Option<Entry>, w: Setting, c: string, k: string)
    requires writer.Some? ==> Targets(writer.value, w, c, k)
  {
    var was, now := WithKey(before, c, k), WithKey(after, c, k);
    && Unique(after) && FreshIds(after)
    && match writer
       case None => now == was
       case Some(e) => |now| == 1 && now[0].event == ContentOf(e, w) && (was != [] ==> now[0].id == was[0].id)
  }

  lemma WroteAgain(a: Remote, b: Remote, d: Remote, first: Option<Entry>, second: Option<Entry>, w: Setting, c: string,
                   k: string)
    requires first.Some? ==> Targets(first.value, w, c, k)
    requires second.Some? ==> Targets(second.value, w, c, k)
    requires Wrote(a, b, first, w, c, k) && Wrote(b, d, second, w, c, k)
    ensures Wrote(a, d, if second.Some? then second else first, w, c, k)
  {
    hide WithKey, Unique, FreshIds, Targets, ContentOf;
  }

  lemma WroteNothing(r: Remote, w: Setting, c: string, k: string)
    requires Unique(r) && FreshIds(r)
    ensures Wrote(r, r, None, w, c, k)
  {
  }

  /** Every attempt of a pass over these entries met a tame network. */
  ghost predicate AllTame(s: Pass, entries: seq<Entry>, w: Setting, turns: nat -> Turn) {
    var trace := Visits(s, entries, w, turns).trace;
    |trace| == |entries| && forall i :: 0 <= i < |entries| ==> Tame(turns(i).net, trace[i])
  }

  /**
    Whatever fails in a pass, under each calendar and key stands the content of the last entry
    for it that got through, with the id that was there; if none got through, nothing there
    changed.
   */
  lemma {:induction false} PassWritesLastSent(s: Pass, entries: seq<Entry>, w: Setting, turns: nat -> Turn,
                                              c: string, k: string)
    requires Unique(s.remote) && FreshIds(s.remote) && s.trace == [] && AllTame(s, entries, w, turns)
    ensures var after := Visits(s, entries, w, turns);
      Wrote(s.remote, after.remote, LastSent(entries, after.trace, w, c, k), w, c, k)
  {
    hide Visit, WithKey, FreshIds, Unique, Tame, Wrote, Targets;
    if entries == [] {
      WroteNothing(s.remote, w, c, k);
    } else {
      var n := |entries| - 1;
      var mid := Visits(s, entries[..n], w, turns);
      var after := Visits(s, entries, w, turns);
      Landings.VisitsLand(s, entries[..n], w, turns);
      Landings.VisitLands(mid, entries[n], w, turns(n));
      assert after.trace[..n] == mid.trace;
      assert forall i :: 0 <= i < n ==> mid.trace[i] == after.trace[i];
      PassWritesLastSent(s, entries[..n], w, turns, c, k);
      VisitAfter(s.remote, mid, LastSent(entries[..n], mid.trace, w, c, k), entries[n], w, turns(n), c, k);
    }
  }

  /** One more attempt after some whose last effective writer is known. */
  lemma VisitAfter(start: Remote, mid: Pass, writer: Option<Entry>, e: Entry, w: Setting, turn: Turn, c: string,
                   k: string)
    requires writer.Some? ==> Targets(writer.value, w, c, k)
    requires Wrote(start, mid.remote, writer, w, c, k)
    requires var after := Visit(mid, e, w, turn); after.trace != [] && Tame(turn.net, after.trace[|after.trace| - 1])
    ensures var after := Visit(mid, e, w, turn);
      var sent := Targets(e, w, c, k) && after.trace[|after.trace| - 1].Sent?;
      Wrote(start, after.remote, if sent then Some(e) else writer, w, c, k)
  {
    hide Visit, WithKey, FreshIds, Unique, Tame, Targets;
    var after := Visit(mid, e, w, turn);
    var more := if Targets(e, w, c, k) && after.trace[|after.trace| - 1].Sent? then Some(e) else None;
    WroteIsOrderly(start, mid.remote, writer, w, c, k);
    VisitWrites(mid, e, w, turn, c, k);
    WroteAgain(start, mid.remote, after.remote, writer, more, w, c, k);
  }

  lemma WroteIsOrderly(a: Remote, b: Remote, writer: Option<Entry>, w: Setting, c: string, k: string)
    requires writer.Some? ==> Targets(writer.value, w, c, k)
    requires Wrote(a, b, writer, w, c, k)
    ensures Unique(b) && FreshIds(b)
  {
  }

  lemma {:induction false} LatestSentIsLast(entries: seq<Entry>, trace: seq<Attempted>, w: Setting, c: string,
                                            k: string)
    requires |trace| == |entries|
    ensures LatestGotThrough(entries, trace, w, c, k) ==>
      LastSent(entries, trace, w, c, k) == LastFor(entries, w, c, k) && LastFor(entries, w, c, k).Some?
    ensures LastFor(entries, w, c, k).None? ==> LastSent(entries, trace, w, c, k).None?
    ensures LastFor(entries, w, c, k).Some? && (forall a :: a in trace ==> a.Sent?) ==>
      LatestGotThrough(entries, trace, w, c, k)
  {
    hide Targets;
    if entries != [] {
      var n := |entries| - 1;
      assert trace[n] in trace && forall a :: a in trace[..n] ==> a in trace;
      LatestSentIsLast(entries[..n], trace[..n], w, c, k);
    }
  }

  /**
    The latest accepted entry of a key wins a pass exactly when its delivery got through, or
    when what stands under the key happens to be the same: the content of the last entry that
    did get through, or of the event that was there before.
   */
  lemma LatestWinsExactlyWhen(s: Pass, entries: seq<Entry>, w: Setting, turns: nat -> Turn, c: string, k: string)
    requires Unique(s.remote) && FreshIds(s.remote) && s.trace == [] && AllTame(s, entries, w, turns)
    requires LastFor(entries, w, c, k).Some?
    ensures var after := Visits(s, entries, w, turns);
      var latest := ContentOf(LastFor(entries, w, c, k).value, w);
      var found, now := WithKey(s.remote, c, k), WithKey(after.remote, c, k);
      (|now| == 1 && now[0].event == latest) <==>
        || LatestGotThrough(entries, after.trace, w, c, k)
        || (match LastSent(entries, after.trace, w, c, k)
            case Some(e) => ContentOf(e, w) == latest
            case None => |found| == 1 && found[0].event == latest)
  {
    hide Visits, WithKey, FreshIds, Unique, AllTame, Targets, ContentOf, LastFor, LastSent, LatestGotThrough;
    Landings.VisitsLand(s, entries, w, turns);
    PassWritesLastSent(s, entries, w, turns, c, k);
    LatestSentIsLast(entries, Visits(s, entries, w, turns).trace, w, c, k);
  }

  /** Every delivery of the pass gets through. */
  ghost predicate GetsThrough(s: Pass, entries: seq<Entry>, w: Setting, turns: nat -> Turn) {
    && (forall i :: 0 <= i < |entries| ==> Effects(turns(i).net.create) <= 1)
    && forall a :: a in Visits(s, entries, w, turns).trace ==> a.Sent?
  }

  /**
    A pass in which every delivery gets through is a last-writer-wins fold: each calendar and
    key that some entry targets ends with exactly one event, holding the mapping of the last
    such entry and keeping the id it had; every other key is untouched.
   */
  lemma LastWriterWins(s: Pass, entries: seq<Entry>, w: Setting, turns: nat -> Turn, c: string, k: string)
    requires Unique(s.remote) && FreshIds(s.remote) && s.trace == [] && GetsThrough(s, entries, w, turns)
    ensures Wrote(s.remote, Visits(s, entries, w, turns).remote, LastFor(entries, w, c, k), w, c, k)
  {
    hide Visits, WithKey, FreshIds, Unique, Targets, ContentOf, LastFor, LastSent, LatestGotThrough, Wrote, Effects;
    Landings.VisitsLand(s, entries, w, turns);
    var trace := Visits(s, entries, w, turns).trace;
    forall i | 0 <= i < |entries| ensures Tame(turns(i).net, trace[i]) { assert trace[i] in trace; }
    PassWritesLastSent(s, entries, w, turns, c, k);
    LatestSentIsLast(entries, trace, w, c, k);
  }

  /**
    Replaying a pass, as after a power cut before anything was marked, changes no event: under
    every calendar and key stand the same events with the same ids.
   */
  lemma ReplayConverges(s: Pass, t: Pass, entries: seq<Entry>, w: Setting, turns: nat -> Turn, again: nat -> Turn,
                        c: string, k: string)
    requires Unique(s.remote) && FreshIds(s.remote) && s.trace == [] && GetsThrough(s, entries, w, turns)
    requires t.remote == Visits(s, entries, w, turns).remote && t.trace == [] && GetsThrough(t, entries, w, again)
    ensures WithKey(Visits(t, entries, w, again).remote, c, k) == WithKey(Visits(s, entries, w, turns).remote, c, k)
  {
    hide Visits, WithKey, FreshIds, Unique, GetsThrough, Targets, ContentOf;
    LastWriterWins(s, entries, w, turns, c, k);
    LastWriterWins(t, entries, w, again, c, k);
    var first, second := WithKey(t.remote, c, k), WithKey(Visits(t, entries, w, again).remote, c, k);
    if LastFor(entries, w, c, k).Some? {
      assert first == [first[0]] && second == [second[0]];
    }
  }
}
