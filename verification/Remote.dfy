/**
  The remote calendars as Almanac sees them: events in list order, found by their marker,
  created, replaced and deleted by one request at a time.
 */
module Remote {
  import opened Wrappers
  import opened Request
  import opened Door

  datatype Stored = Stored(id: nat, event: GoogleEvent)

  /** `next` is above every id handed out so far. */
  datatype Remote = Remote(calendars: map<string, seq<Stored>>, next: nat)

  /** A request that failed: worth repeating or not. */
  datatype Failure = Transient | Permanent

  /**
    How a lookup, an update or a deletion ends: `Failed` had no effect, `Unheard` took effect
    although the caller is told it failed.
   */
  datatype Answer = Answered | Failed(failure: Failure) | Unheard(failure: Failure)

  /**
    One attempt at a create. `Lost` never arrived, `ReplyLost` took effect although the
    caller sees a network error, `Garbled` took effect with a reply that cannot be parsed.
   */
  datatype Attempt = Lost | ReplyLost | Created | Garbled | Refused

  function EventsOf(r: Remote, calendar: string): seq<Stored> {
    if calendar in r.calendars then r.calendars[calendar] else []
  }

  /** The events that carry a marker, in list order. */
  function Matching(events: seq<Stored>, key: string): seq<Stored> {
    if events == [] then []
    else if MarkerOf(events[0].event) == Some(key) then [events[0]] + Matching(events[1..], key)
    else Matching(events[1..], key)
  }

  function WithKey(r: Remote, calendar: string, key: string): seq<Stored> { Matching(EventsOf(r, calendar), key) }

  /** At most one event per calendar and key. */
  ghost predicate Unique(r: Remote) {
    forall calendar, key :: |WithKey(r, calendar, key)| <= 1
  }

  ghost predicate FreshIds(r: Remote) {
    && (forall c, i :: c in r.calendars && 0 <= i < |r.calendars[c]| ==> r.calendars[c][i].id < r.next)
    && (forall c, i, j :: c in r.calendars && 0 <= i < j < |r.calendars[c]| ==>
          r.calendars[c][i].id != r.calendars[c][j].id)
  }

  function Find(r: Remote, calendar: string, key: string): Option<nat> {
    var found := WithKey(r, calendar, key);
    if found == [] then None else Some(found[0].id)
  }

  function Create(r: Remote, calendar: string, event: GoogleEvent): Remote {
    Remote(r.calendars[calendar := EventsOf(r, calendar) + [Stored(r.next, event)]], r.next + 1)
  }

  function Replaced(events: seq<Stored>, id: nat, event: GoogleEvent): seq<Stored> {
    if events == [] then []
    else [if events[0].id == id then Stored(id, event) else events[0]] + Replaced(events[1..], id, event)
  }

  function Update(r: Remote, calendar: string, id: nat, event: GoogleEvent): Remote {
    r.(calendars := r.calendars[calendar := Replaced(EventsOf(r, calendar), id, event)])
  }

  function Removed(events: seq<Stored>, id: nat): seq<Stored> {
    if events == [] then []
    else if events[0].id == id then Removed(events[1..], id)
    else [events[0]] + Removed(events[1..], id)
  }

  function Delete(r: Remote, calendar: string, id: nat): Remote {
    r.(calendars := r.calendars[calendar := Removed(EventsOf(r, calendar), id)])
  }

  /** The retry loop around a create: it sends again after a transient failure, and looks nothing up. */
  function CreateWithRetry(r: Remote, calendar: string, event: GoogleEvent, attempts: seq<Attempt>)
    : (Remote, Result<nat, Failure>)
    decreases |attempts|
  {
    if attempts == [] then (r, Err(Transient))
    else match attempts[0]
      case Lost => CreateWithRetry(r, calendar, event, attempts[1..])
      case ReplyLost => CreateWithRetry(Create(r, calendar, event), calendar, event, attempts[1..])
      case Created => (Create(r, calendar, event), Ok(r.next))
      case Garbled => (Create(r, calendar, event), Err(Permanent))
      case Refused => (r, Err(Permanent))
  }

  /** How many of the attempts made take effect. */
  function Effects(attempts: seq<Attempt>): nat {
    if attempts == [] then 0
    else match attempts[0]
      case Lost => Effects(attempts[1..])
      case ReplyLost => 1 + Effects(attempts[1..])
      case Created => 1
      case Garbled => 1
      case Refused => 0
  }

  // ----- what each request changes ---------------------------------------------------

  lemma {:induction false} MatchingAppend(a: seq<Stored>, b: seq<Stored>, key: string)
    ensures Matching(a + b, key) == Matching(a, key) + Matching(b, key)
  {
    if a == [] {
      assert a + b == b;
    } else {
      assert (a + b)[1..] == a[1..] + b;
      MatchingAppend(a[1..], b, key);
    }
  }

  lemma {:induction false} MatchingMembers(events: seq<Stored>, key: string)
    ensures forall s :: s in Matching(events, key) <==> s in events && MarkerOf(s.event) == Some(key)
  {
    if events != [] {
      MatchingMembers(events[1..], key);
      assert events == [events[0]] + events[1..];
    }
  }

  /** A create adds one event under its own marker and touches nothing else. */
  lemma CreateAdds(r: Remote, calendar: string, event: GoogleEvent, c: string, key: string)
    ensures WithKey(Create(r, calendar, event), c, key) ==
      if c == calendar && MarkerOf(event) == Some(key)
      then WithKey(r, c, key) + [Stored(r.next, event)] else WithKey(r, c, key)
    ensures FreshIds(r) ==> FreshIds(Create(r, calendar, event))
  {
    var new_ := [Stored(r.next, event)];
    MatchingAppend(EventsOf(r, calendar), new_, key);
    assert new_[1..] == [];
    assert WithKey(r, c, key) + [] == WithKey(r, c, key);
  }

  lemma {:induction false} ReplacedMatches(events: seq<Stored>, id: nat, event: GoogleEvent, key: string)
    requires forall s :: s in events && s.id == id ==> MarkerOf(s.event) == MarkerOf(event)
    ensures |Replaced(events, id, event)| == |events|
    ensures forall i :: 0 <= i < |events| ==>
      Replaced(events, id, event)[i] == if events[i].id == id then Stored(id, event) else events[i]
    ensures Matching(Replaced(events, id, event), key) == Replaced(Matching(events, key), id, event)
  {
    if events != [] {
      var first := if events[0].id == id then Stored(id, event) else events[0];
      ReplacedMatches(events[1..], id, event, key);
      assert events[0] in events;
      assert ([first] + Replaced(events[1..], id, event))[1..] == Replaced(events[1..], id, event);
      if MarkerOf(events[0].event) == Some(key) {
        assert ([events[0]] + Matching(events[1..], key))[1..] == Matching(events[1..], key);
      }
    }
  }

  lemma {:induction false} ReplacedOther(events: seq<Stored>, id: nat, event: GoogleEvent)
    requires forall s :: s in events ==> s.id != id
    ensures Replaced(events, id, event) == events
  {
    if events != [] {
      assert events[0] in events;
      ReplacedOther(events[1..], id, event);
      assert events == [events[0]] + events[1..];
    }
  }

  /** An update of an event by one with the same marker replaces it in place and touches nothing else. */
  lemma UpdateReplaces(r: Remote, calendar: string, id: nat, event: GoogleEvent, c: string, key: string)
    requires FreshIds(r)
    requires forall s :: s in EventsOf(r, calendar) && s.id == id ==> MarkerOf(s.event) == MarkerOf(event)
    ensures WithKey(Update(r, calendar, id, event), c, key) ==
      if c == calendar && MarkerOf(event) == Some(key)
      then Replaced(WithKey(r, c, key), id, event) else WithKey(r, c, key)
    ensures FreshIds(Update(r, calendar, id, event))
  {
    ReplacedMatches(EventsOf(r, calendar), id, event, key);
    if c == calendar && MarkerOf(event) != Some(key) {
      MatchingMembers(EventsOf(r, calendar), key);
      ReplacedOther(WithKey(r, c, key), id, event);
    }
  }

  lemma {:induction false} RemovedMatches(events: seq<Stored>, id: nat, key: string)
    ensures Matching(Removed(events, id), key) == Removed(Matching(events, key), id)
    ensures |Removed(events, id)| <= |events|
    ensures forall s :: s in Removed(events, id) <==> s in events && s.id != id
  {
    if events != [] {
      RemovedMatches(events[1..], id, key);
      assert events == [events[0]] + events[1..];
      if MarkerOf(events[0].event) == Some(key) {
        assert ([events[0]] + Matching(events[1..], key))[1..] == Matching(events[1..], key);
      }
      if events[0].id != id {
        assert ([events[0]] + Removed(events[1..], id))[1..] == Removed(events[1..], id);
      }
    }
  }

  predicate OldAndDistinct(events: seq<Stored>, next: nat) {
    && (forall i :: 0 <= i < |events| ==> events[i].id < next)
    && (forall i, j :: 0 <= i < j < |events| ==> events[i].id != events[j].id)
  }

  lemma OneMoreDistinct(first: Stored, rest: seq<Stored>, next: nat)
    requires OldAndDistinct(rest, next) && first.id < next && forall s :: s in rest ==> s.id != first.id
    ensures OldAndDistinct([first] + rest, next)
  {
    var all := [first] + rest;
    assert forall i :: 0 < i < |all| ==> all[i] == rest[i - 1];
  }

  lemma {:induction false} RemovedKeepsIds(events: seq<Stored>, id: nat, next: nat)
    requires OldAndDistinct(events, next)
    ensures OldAndDistinct(Removed(events, id), next)
  {
    if events != [] {
      assert OldAndDistinct(events[1..], next);
      assert forall s :: s in events[1..] ==> s.id != events[0].id;
      hide OldAndDistinct;
      RemovedKeepsIds(events[1..], id, next);
      RemovedMatches(events[1..], id, "");
      if events[0].id != id {
        FirstIsOld(events, next);
        OneMoreDistinct(events[0], Removed(events[1..], id), next);
      }
    }
  }

  lemma FirstIsOld(events: seq<Stored>, next: nat)
    requires OldAndDistinct(events, next) && events != []
    ensures events[0].id < next
  {
  }

  lemma {:induction false} RemovedOther(events: seq<Stored>, id: nat)
    requires forall s :: s in events ==> s.id != id
    ensures Removed(events, id) == events
  {
    if events != [] {
      assert events[0] in events;
      RemovedOther(events[1..], id);
      assert events == [events[0]] + events[1..];
    }
  }

  /** A deletion removes the event from under its marker and touches nothing else. */
  lemma DeleteRemoves(r: Remote, calendar: string, id: nat, c: string, key: string)
    requires FreshIds(r)
    ensures WithKey(Delete(r, calendar, id), c, key) ==
      if c == calendar then Removed(WithKey(r, c, key), id) else WithKey(r, c, key)
    ensures FreshIds(Delete(r, calendar, id))
  {
    RemovedMatches(EventsOf(r, calendar), id, key);
    RemovedKeepsIds(EventsOf(r, calendar), id, r.next);
  }

  /**
    The create loop adds as many events under the event's marker as attempts took effect, and
    changes no other key: a reply lost on the way and sent again makes a second event.
   */
  lemma {:induction false} CreateLoopAdds(r: Remote, calendar: string, event: GoogleEvent, attempts: seq<Attempt>,
                                          c: string, key: string)
    ensures var after := CreateWithRetry(r, calendar, event, attempts).0;
      && |WithKey(after, c, key)| == |WithKey(r, c, key)|
           + (if c == calendar && MarkerOf(event) == Some(key) then Effects(attempts) else 0)
      && WithKey(r, c, key) <= WithKey(after, c, key)
      && (FreshIds(r) ==> FreshIds(after))
    decreases |attempts|
  {
    if attempts != [] {
      CreateAdds(r, calendar, event, c, key);
      if attempts[0].Lost? {
        CreateLoopAdds(r, calendar, event, attempts[1..], c, key);
      } else if attempts[0].ReplyLost? {
        CreateLoopAdds(Create(r, calendar, event), calendar, event, attempts[1..], c, key);
      }
    }
  }

  /** So a create of a key that is not there keeps events unique exactly when at most one attempt took effect. */
  lemma CreateUniqueExactlyWhen(r: Remote, calendar: string, event: GoogleEvent, attempts: seq<Attempt>, key: string)
    requires Unique(r) && MarkerOf(event) == Some(key) && WithKey(r, calendar, key) == []
    ensures Unique(CreateWithRetry(r, calendar, event, attempts).0) <==> Effects(attempts) <= 1
  {
    var after := CreateWithRetry(r, calendar, event, attempts).0;
    forall c, k ensures |WithKey(after, c, k)| == |WithKey(r, c, k)|
      + (if c == calendar && MarkerOf(event) == Some(k) then Effects(attempts) else 0)
    {
      CreateLoopAdds(r, calendar, event, attempts, c, k);
    }
    assert |WithKey(after, calendar, key)| == Effects(attempts);
  }

  // ----- the create loop, attempt by attempt ----------------------------------------------

  predicate SendsAgain(a: Attempt) { a == Lost || a == ReplyLost }

  predicate HasEffect(a: Attempt) { a == ReplyLost || a == Created || a == Garbled }

  /** The loop stops at the first attempt that is answered, if any is. */
  predicate StopsAt(attempts: seq<Attempt>, k: nat) {
    && k <= |attempts|
    && (forall i :: 0 <= i < k ==> SendsAgain(attempts[i]))
    && (k < |attempts| ==> !SendsAgain(attempts[k]))
  }

  function Copies(event: GoogleEvent, first: nat, n: nat): (r: seq<Stored>)
    ensures |r| == n && forall i :: 0 <= i < n ==> r[i] == Stored(first + i, event)
    decreases n
  {
    if n == 0 then [] else [Stored(first, event)] + Copies(event, first + 1, n - 1)
  }

  /** How many of the attempts take effect. */
  function Count(attempts: seq<Attempt>): nat {
    if attempts == [] then 0 else (if HasEffect(attempts[0]) then 1 else 0) + Count(attempts[1..])
  }

  lemma {:induction false} StopsSomewhere(attempts: seq<Attempt>) returns (k: nat)
    ensures StopsAt(attempts, k)
  {
    k := 0;
    if attempts != [] && SendsAgain(attempts[0]) {
      var rest := StopsSomewhere(attempts[1..]);
      k := rest + 1;
      assert forall i :: 0 < i < k ==> attempts[i] == attempts[1..][i - 1];
      assert k < |attempts| ==> attempts[k] == attempts[1..][rest];
    }
  }

  /** Exactly so many copies of the event, with new ids, are appended to the calendar. */
  ghost predicate Appended(r: Remote, calendar: string, event: GoogleEvent, after: Remote, made: nat) {
    && after.next == r.next + made
    && forall c :: EventsOf(after, c) == EventsOf(r, c) + if c == calendar then Copies(event, r.next, made) else []
  }

  lemma OneMoreCopy(r: Remote, calendar: string, event: GoogleEvent, after: Remote, made: nat)
    requires Appended(Create(r, calendar, event), calendar, event, after, made)
    ensures Appended(r, calendar, event, after, made + 1)
  {
    var more := Create(r, calendar, event);
    var rest := Copies(event, r.next + 1, made);
    assert Copies(event, r.next, made + 1) == [Stored(r.next, event)] + rest;
    assert EventsOf(r, calendar) + [Stored(r.next, event)] + rest
        == EventsOf(r, calendar) + ([Stored(r.next, event)] + rest);
    forall c | c != calendar ensures EventsOf(after, c) == EventsOf(r, c) + [] {
      assert EventsOf(more, c) == EventsOf(r, c);
    }
  }

  lemma NoCopies(r: Remote, calendar: string, event: GoogleEvent)
    ensures Appended(r, calendar, event, r, 0)
  {
    assert forall c :: EventsOf(r, c) + [] == EventsOf(r, c);
  }

  /** The effects are those of the attempts up to the one the loop stops at, and no others. */
  lemma {:induction false} EffectsUpToTheStop(attempts: seq<Attempt>, k: nat)
    requires StopsAt(attempts, k)
    ensures Effects(attempts) == Count(attempts[..if k < |attempts| then k + 1 else k])
  {
    if k == 0 {
      assert attempts[..0] == [];
      if attempts != [] { assert attempts[..1] == [attempts[0]] && [attempts[0]][1..] == []; }
    } else {
      EffectsUpToTheStop(attempts[1..], k - 1);
      var stop := if k < |attempts| then k + 1 else k;
      assert attempts[..stop][1..] == attempts[1..][..stop - 1];
    }
  }

  /**
    The create loop appends one copy for each attempt that takes effect, touches no other
    calendar, and answers with what the attempt it stops at says: the id of the last copy, a
    permanent failure, or a transient one if every attempt was to be sent again.
   */
  lemma {:induction false} CreateLoopExactly(r: Remote, calendar: string, event: GoogleEvent, attempts: seq<Attempt>,
                                             k: nat)
    requires StopsAt(attempts, k)
    ensures var (after, id) := CreateWithRetry(r, calendar, event, attempts);
      && Appended(r, calendar, event, after, Effects(attempts))
      && (id == if k == |attempts| then Err(Transient)
                else if attempts[k] == Created then Ok(after.next - 1)
                else Err(Permanent))
    decreases |attempts|, 1
  {
    hide Appended;
    NoCopies(r, calendar, event);
    if attempts != [] && k == 0 {
      NoCopies(Create(r, calendar, event), calendar, event);
      OneMoreCopy(r, calendar, event, Create(r, calendar, event), 0);
    } else if k > 0 {
      CreateLoopLater(r, calendar, event, attempts, k);
    }
  }

  lemma {:induction false} CreateLoopLater(r: Remote, calendar: string, event: GoogleEvent, attempts: seq<Attempt>,
                                           k: nat)
    requires StopsAt(attempts, k) && k > 0
    ensures var (after, id) := CreateWithRetry(r, calendar, event, attempts);
      && Appended(r, calendar, event, after, Effects(attempts))
      && (id == if k == |attempts| then Err(Transient)
                else if attempts[k] == Created then Ok(after.next - 1)
                else Err(Permanent))
    decreases |attempts|, 0
  {
    StopsLater(attempts, k);
    SendsOnceMore(r, calendar, event, attempts);
    hide Appended, StopsAt, CreateWithRetry, Effects, Create, SendsAgain;
    var more := if attempts[0].Lost? then r else Create(r, calendar, event);
    CreateLoopExactly(more, calendar, event, attempts[1..], k - 1);
    if attempts[0].ReplyLost? {
      OneMoreCopy(r, calendar, event, CreateWithRetry(r, calendar, event, attempts).0, Effects(attempts[1..]));
    }
  }

  lemma StopsLater(attempts: seq<Attempt>, k: nat)
    requires StopsAt(attempts, k) && k > 0
    ensures StopsAt(attempts[1..], k - 1) && SendsAgain(attempts[0])
    ensures k < |attempts| ==> attempts[k] == attempts[1..][k - 1]
  {
  }

  lemma SendsOnceMore(r: Remote, calendar: string, event: GoogleEvent, attempts: seq<Attempt>)
    requires attempts != [] && SendsAgain(attempts[0])
    ensures CreateWithRetry(r, calendar, event, attempts) ==
      CreateWithRetry(if attempts[0].Lost? then r else Create(r, calendar, event), calendar, event, attempts[1..])
    ensures Effects(attempts) == Effects(attempts[1..]) + if attempts[0].Lost? then 0 else 1
    ensures attempts[0].Lost? || attempts[0].ReplyLost?
  {
  }
}
