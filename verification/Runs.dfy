/** Runs of the worker that show what its promises do not cover, step by step. */
module Runs {
  import opened Wrappers
  import opened Text
  import opened Records
  import opened RecordFile
  import opened Compaction
  import opened Remote
  import opened Delivery
  import opened Worker
  import opened LastWriter
  import opened Samples
  import Ingest
  import Landings
  import Passes
  import Request
  import Utf8

  const EMPTY := Remote(map[], 0)

  const ANSWERS := Net(Answered, Answered, [Created])

  function Refuses(f: Failure): Net { Net(Failed(f), Answered, [Created]) }

  function SettingOf(cap: nat): Setting { Setting(map["s" := PROFILE], LIBRARY, cap) }

  lemma EmptyIsOrderly()
    ensures Unique(EMPTY) && FreshIds(EMPTY)
    ensures forall c, k :: WithKey(EMPTY, c, k) == []
  {
  }

  /** The last attempt of a trace. */
  function Last(trace: seq<Attempted>): Option<Attempted> {
    if trace == [] then None else Some(trace[|trace| - 1])
  }

  /** On a network that answers a sample is delivered, and stands alone under its key with its title. */
  lemma SampleIsSent(s: Pass, id: string, title: string, cap: nat, turn: Turn)
    requires !IsBlank(title) && turn.net == ANSWERS && Unique(s.remote) && FreshIds(s.remote)
    ensures var after := Visit(s, Sample(id, title), SettingOf(cap), turn);
      var now := WithKey(after.remote, "calendar", KEY);
      && Unique(after.remote) && FreshIds(after.remote) && |now| == 1 && now[0].event.summary == title
  {
    SampleIsMapped(id, title);
    assert Effects([Created]) == 1;
    hide DeliverTo, AfterAppend, Acknowledged, Payload, WithKey, Unique, FreshIds, KeyOf, EventOf, Request.MapPayload,
         Effects;
    SampleAnswers(s.remote, id, title, turn.net);
    DeliveryUpserts(s.remote, Sample(id, title), PROFILE, LIBRARY, turn.net, KEY);
  }

  /** And its marker is tried. */
  lemma SampleIsMarked(s: Pass, id: string, title: string, cap: nat, turn: Turn)
    requires !IsBlank(title) && turn.net == ANSWERS
    ensures var after := Visit(s, Sample(id, title), SettingOf(cap), turn);
      var a := Last(after.trace);
      && after.file == AfterAppend(s.file, Done(id), cap, turn.mark) && after.counts == s.counts
      && a.Some? && a.value.Sent? && a.value.id == id
      && a.value.marked == Acknowledged(s.file, Done(id), cap, turn.mark)
      && after.trace == s.trace + [a.value]
  {
    SampleAnswers(s.remote, id, title, turn.net);
    hide DeliverTo, AfterAppend, Acknowledged, Payload;
  }

  /** On a network that refuses it is counted, or its counter is dropped; nothing else changes. */
  lemma SampleIsRefused(s: Pass, id: string, title: string, cap: nat, turn: Turn, f: Failure)
    requires !IsBlank(title) && turn.net == Refuses(f) && (f.Permanent? ==> Seen(s.counts, id) < 2)
    ensures Visit(s, Sample(id, title), SettingOf(cap), turn) ==
      match f
      case Transient => s.(counts := s.counts - {id}, trace := s.trace + [FailedForNow(id)])
      case Permanent =>
        var seen := Seen(s.counts, id) + 1;
        s.(counts := s.counts[id := seen], trace := s.trace + [FailedForGood(id, seen, None)])
  {
    SampleAnswers(s.remote, id, title, turn.net);
    hide DeliverTo, AfterAppend, Acknowledged, Payload;
  }

  /** The third permanent refusal sets it aside. */
  lemma SampleIsSetAside(s: Pass, id: string, title: string, cap: nat, turn: Turn)
    requires !IsBlank(title) && turn.net == Refuses(Permanent) && Seen(s.counts, id) == 2
    requires Acknowledged(s.file, Dead(id, turn.reason, turn.at), cap, turn.mark)
    ensures Visit(s, Sample(id, title), SettingOf(cap), turn).trace
         == s.trace + [FailedForGood(id, 3, Some(Dead(id, turn.reason, turn.at)))]
  {
    SampleAnswers(s.remote, id, title, turn.net);
    hide DeliverTo, AfterAppend, Acknowledged, Payload;
  }

  lemma SampleAnswers(r: Remote, id: string, title: string, net: Net)
    requires !IsBlank(title)
    ensures net == ANSWERS ==> DeliverTo(r, Sample(id, title), PROFILE, LIBRARY, net).1.Ok?
    ensures forall f :: net == Refuses(f) ==> DeliverTo(r, Sample(id, title), PROFILE, LIBRARY, net) == (r, Err(f))
  {
    SampleIsMapped(id, title);
    hide Request.MapPayload, Find, Update, Create, Sample;
    assert [Created] != [] && [Created][0] == Created;
  }

  lemma Titles()
    ensures !IsBlank("older") && !IsBlank("newer")
  {
    assert "older"[0] == 'o' && "newer"[0] == 'n';
  }

  /** A pass over one pending sample is one visit. */
  lemma OneVisit(s: Pass, e: Entry, w: Setting, turns: nat -> Turn, log: seq<Record>)
    requires Read(s.file) == Ok(log) && Pending(log) == [e]
    ensures Drain(s, w, turns) == Visit(s, e, w, turns(0))
  {
    hide Read, Pending, Visit;
    assert [e][..0] == [];
    assert Visits(s, [], w, turns) == s;
  }

  lemma TwoVisits(s: Pass, a: Entry, b: Entry, w: Setting, turns: nat -> Turn)
    ensures Visits(s, [a, b], w, turns) == Visit(Visit(s, a, w, turns(0)), b, w, turns(1))
  {
    hide Visit;
    assert [a, b][..1] == [a] && [a][..0] == [];
    assert Visits(s, [], w, turns) == s;
    assert Visits(s, [a], w, turns) == Visit(s, a, w, turns(0));
  }

  // ----- the older entry can win --------------------------------------------------------------

  /** The two samples of the reordering, the older one accepted first. */
  const OLDER := Sample("1", "older")
  const NEWER := Sample("2", "newer")

  function Turned(net: Net): Turn { Turn(net, Sound, "", "") }

  lemma TwoPending()
    ensures var log := [Accepted(OLDER), Accepted(NEWER)];
      && Pending(log) == [OLDER, NEWER] && Pending(log + [Done("2")]) == [OLDER]
  {
    var log := [Accepted(OLDER), Accepted(NEWER)];
    hide Sample;
    assert OLDER.id == "1" && NEWER.id == "2" by { SampleIds(); }
    assert AsRecords([OLDER, NEWER]) == log by {
      assert [OLDER, NEWER][1..] == [NEWER] && [NEWER][1..] == [];
      assert AsRecords([NEWER]) == [Accepted(NEWER)] + AsRecords([]);
    }
    AsRecordsReads([OLDER, NEWER]);
    hide Entries, MarkedIds;
    KeepsTwo(OLDER, NEWER);
    Landings.MarksOnly(log, [Done("2")]);
    assert MarkedIds([Done("2")]) == {"2"} by { OneMarked("2"); }
  }

  lemma SampleIds()
    ensures OLDER.id == "1" && NEWER.id == "2" && "1" != "2"
  {
    assert "1"[0] != "2"[0];
  }

  lemma OneMarked(id: string)
    ensures MarkedIds([Done(id)]) == {id}
  {
    assert Done(id) in [Done(id)];
  }

  lemma KeepsTwo(a: Entry, b: Entry)
    requires a.id != b.id
    ensures Without([a, b], {}) == [a, b] && Without([a, b], {b.id}) == [a]
  {
    assert [a, b][1..] == [b] && [b][1..] == [];
    assert Without([b], {}) == [b] + Without([], {}) && Without([b], {b.id}) == Without([], {b.id});
    assert [a] + [] == [a];
  }

  /**
    The latest accepted entry can lose: the older one meets a passing failure in the first
    pass and is delivered in the second, over the newer one.
   */
  lemma OlderCanWin(cap: nat)
    requires |Render([Accepted(OLDER), Accepted(NEWER)])| + |Line(Done("2"))| <= cap
    ensures var w := SettingOf(cap);
      var s := Pass(Render([Accepted(OLDER), Accepted(NEWER)]), EMPTY, map[], []);
      var first := Drain(s, w, i => Turned(if i == 0 then Refuses(Transient) else ANSWERS));
      var second := Drain(first.(trace := []), w, _ => Turned(ANSWERS));
      var before, now := WithKey(first.remote, "calendar", KEY), WithKey(second.remote, "calendar", KEY);
      |before| == 1 && before[0].event.summary == "newer" && |now| == 1 && now[0].event.summary == "older"
  {
    var log := [Accepted(OLDER), Accepted(NEWER)];
    var turns: nat -> Turn := i => Turned(if i == 0 then Refuses(Transient) else ANSWERS);
    var again: nat -> Turn := _ => Turned(ANSWERS);
    TwoPending();
    hide Read, Pending, Render, Line, Sample, WithKey, Unique, FreshIds, SettingOf, Drain;
    var first := FirstPass(Pass(Render(log), EMPTY, map[], []), cap, turns, log);
    SecondPass(first.(trace := []), cap, again, log + [Done("2")]);
  }

  lemma FirstPass(s: Pass, cap: nat, turns: nat -> Turn, log: seq<Record>) returns (first: Pass)
    requires log == [Accepted(OLDER), Accepted(NEWER)] && s == Pass(Render(log), EMPTY, map[], [])
    requires turns(0) == Turned(Refuses(Transient)) && turns(1) == Turned(ANSWERS)
    requires |Render(log)| + |Line(Done("2"))| <= cap
    ensures first == Drain(s, SettingOf(cap), turns)
    ensures Read(first.file) == Ok(log + [Done("2")])
    ensures Unique(first.remote) && FreshIds(first.remote)
    ensures var now := WithKey(first.remote, "calendar", KEY);
      |now| == 1 && now[0].event.summary == "newer"
  {
    Titles();
    TwoPending();
    RenderReads(log);
    EmptyIsOrderly();
    hide Read, Pending, Render, Line, Sample, WithKey, Unique, FreshIds, SettingOf, Visit, HasShape, AfterAppend,
         Payload;
    first := Drain(s, SettingOf(cap), turns);
    TwoVisits(s, OLDER, NEWER, SettingOf(cap), turns);
    SampleIsRefused(s, "1", "older", cap, turns(0), Transient);
    var mid := Visit(s, OLDER, SettingOf(cap), turns(0));
    SampleIsSent(mid, "2", "newer", cap, turns(1));
    SampleIsMarked(mid, "2", "newer", cap, turns(1));
    Ingest.Appends(mid.file, log, Done("2"), cap);
    ShapeReads(first.file, Shape(log + [Done("2")], []));
    assert log + [Done("2")] + [] == log + [Done("2")];
  }

  lemma SecondPass(s: Pass, cap: nat, turns: nat -> Turn, log: seq<Record>)
    requires Read(s.file) == Ok(log) && Pending(log) == [OLDER]
    requires Unique(s.remote) && FreshIds(s.remote) && turns(0) == Turned(ANSWERS)
    ensures var now := WithKey(Drain(s, SettingOf(cap), turns).remote, "calendar", KEY);
      |now| == 1 && now[0].event.summary == "older"
  {
    Titles();
    hide Read, Pending, Sample, WithKey, Unique, FreshIds, SettingOf, Visit, Payload, Drain;
    OneVisit(s, OLDER, SettingOf(cap), turns, log);
    SampleIsSent(s, "1", "older", cap, turns(0));
  }

  /**
    No failure is needed: a synchronous delivery of the newer entry that comes between the
    acceptance of the older one and the worker's pass is written over by that pass.
   */
  lemma WorkerOvertakesSync(cap: nat)
    requires |Render([Accepted(OLDER), Accepted(NEWER)])| + |Line(Done("2"))| <= cap
    ensures var (file, remote, reply) := NewerNow(cap);
      var worker := Drain(Pass(file, remote, map[], []), SettingOf(cap), _ => Turned(ANSWERS));
      var before, now := WithKey(remote, "calendar", KEY), WithKey(worker.remote, "calendar", KEY);
      && reply.DeliveredNow?
      && |before| == 1 && before[0].event.summary == "newer" && |now| == 1 && now[0].event.summary == "older"
  {
    var again: nat -> Turn := _ => Turned(ANSWERS);
    var call := Ingest.Call(Payload("newer"), None, "2", "now");
    NewerIsDelivered(cap);
    NewerIsAdmitted(call);
    Titles();
    SampleIds();
    RoomForBoth(cap);
    assert Ingest.EntryOf(call, PROFILE) == NEWER;
    hide Read, Pending, Render, Line, Sample, WithKey, Unique, FreshIds, SettingOf, Drain, Fits, AfterAppend, Payload,
         Ingest.IngestedNow, Ingest.Admitted, Ingest.EntryOf;
    SyncShows(Render([Accepted(OLDER)]), call, cap, "2", "newer");
    Ingest.SyncKeepsQueue(OLDER, EMPTY, call, PROFILE, LIBRARY, cap, ANSWERS);
    SecondPass(Pass(NewerNow(cap).0, NewerNow(cap).1, map[], []), cap, again,
               [Accepted(OLDER), Accepted(NEWER), Done("2")]);
  }

  /** The synchronous delivery of the newer sample into a journal that holds the older one. */
  function NewerNow(cap: nat): (seq<Utf8.Byte>, Remote, Ingest.Reply) {
    Ingest.IngestedNow(Render([Accepted(OLDER)]), EMPTY, Ingest.Call(Payload("newer"), None, "2", "now"), PROFILE,
                       LIBRARY, cap, Sound, ANSWERS, Sound)
  }

  lemma NewerIsDelivered(cap: nat)
    requires |Render([Accepted(OLDER), Accepted(NEWER)])| + |Line(Done("2"))| <= cap
    ensures NewerNow(cap).2.DeliveredNow?
  {
    var call := Ingest.Call(Payload("newer"), None, "2", "now");
    NewerIsAdmitted(call);
    Titles();
    SampleAnswers(EMPTY, "2", "newer", ANSWERS);
    RoomForBoth(cap);
    assert Ingest.EntryOf(call, PROFILE) == NEWER;
    hide Render, Line, Sample, Ingest.Admitted, DeliverTo, Payload, Ingest.EntryOf, Fits, Ingest.IngestedNow;
    Ingest.DeliversWhen(Render([Accepted(OLDER)]), EMPTY, call, PROFILE, LIBRARY, cap, Sound, ANSWERS, Sound);
  }

  /** A sample delivered by a synchronous call stands alone under its key, with its title. */
  lemma SyncShows(file: seq<Utf8.Byte>, call: Ingest.Call, cap: nat, id: string, title: string)
    requires !IsBlank(title) && Ingest.EntryOf(call, PROFILE) == Sample(id, title)
    requires Ingest.IngestedNow(file, EMPTY, call, PROFILE, LIBRARY, cap, Sound, ANSWERS, Sound).2.DeliveredNow?
    ensures var remote := Ingest.IngestedNow(file, EMPTY, call, PROFILE, LIBRARY, cap, Sound, ANSWERS, Sound).1;
      var now := WithKey(remote, "calendar", KEY);
      Unique(remote) && FreshIds(remote) && |now| == 1 && now[0].event.summary == title
  {
    EmptyIsOrderly();
    SampleIsMapped(id, title);
    assert Effects([Created]) == 1;
    hide Sample, WithKey, Unique, FreshIds, KeyOf, EventOf, Request.MapPayload, Effects, Ingest.EntryOf,
         Ingest.IngestedNow;
    Ingest.SyncDelivers(file, EMPTY, call, PROFILE, LIBRARY, cap, Sound, ANSWERS, Sound);
  }

  lemma RoomForBoth(cap: nat)
    requires |Render([Accepted(OLDER), Accepted(NEWER)])| + |Line(Done("2"))| <= cap
    ensures var file := Render([Accepted(OLDER)]);
      Fits(file, Accepted(NEWER), cap) && Fits(AfterAppend(file, Accepted(NEWER), cap, Sound), Done("2"), cap)
  {
    hide Line, Sample;
    var one := [Accepted(OLDER)];
    RenderAppend(one, Accepted(NEWER));
    assert one + [Accepted(NEWER)] == [Accepted(OLDER), Accepted(NEWER)];
    assert Line(Accepted(NEWER))[..|Line(Accepted(NEWER))|] == Line(Accepted(NEWER));
  }

  lemma NewerIsAdmitted(call: Ingest.Call)
    requires call.payload == Payload("newer")
    ensures Ingest.Admitted(call, PROFILE, LIBRARY)
  {
    Titles();
    SampleIsAdmitted(call, "newer");
  }

  lemma SampleIsAdmitted(call: Ingest.Call, title: string)
    requires call.payload == Payload(title) && !IsBlank(title)
    ensures Ingest.Admitted(call, PROFILE, LIBRARY)
  {
    SampleIsMapped(call.id, title);
    Found(title, "external_id");
    assert !IsBlank("x") by { assert "x"[0] == 'x' && !IsWhitespace('x'); }
    hide Request.MapPayload, Request.Get, KeyOf, EventOf, IsBlank;
  }

  lemma UnmarkedSuccessStillCounts(id: string, title: string, cap: nat)
    requires !IsBlank(title) && |Render([Accepted(Sample(id, title))])| + |Line(Dead(id, "", ""))| <= cap
    ensures var w := SettingOf(cap);
      var start := Pass(Render([Accepted(Sample(id, title))]), EMPTY, map[], []);
      var two := Drain(Drain(start, w, _ => Turned(Refuses(Permanent))), w, _ => Turned(Refuses(Permanent)));
      var three := Drain(two, w, _ => Turn(ANSWERS, Disk.Refused, "", ""));
      var four := Drain(three, w, _ => Turned(Refuses(Permanent)));
      && |four.trace| == 4 && four.trace[2].Sent? && four.trace[2].id == id
      && four.trace[3] == FailedForGood(id, 3, Some(Dead(id, "", "")))
      && Passes.Failures(three.trace, id) == 2 && Passes.Consecutive(three.trace, id) == 0
  {
    var e, w, log := Sample(id, title), SettingOf(cap), [Accepted(Sample(id, title))];
    var bad: nat -> Turn := _ => Turned(Refuses(Permanent));
    var good: nat -> Turn := _ => Turn(ANSWERS, Disk.Refused, "", "");
    RenderReads(log);
    Landings.OneEntryLog(e);
    hide Read, Pending, Render, Line, SettingOf, Drain, Visit, AfterAppend, Payload, Sample;
    var s0 := Pass(Render(log), EMPTY, map[], []);
    OneVisit(s0, e, w, bad, log);
    SampleIsRefused(s0, id, title, cap, bad(0), Permanent);
    var s1 := Drain(s0, w, bad);
    OneVisit(s1, e, w, bad, log);
    SampleIsRefused(s1, id, title, cap, bad(0), Permanent);
    var s2 := Drain(s1, w, bad);
    OneVisit(s2, e, w, good, log);
    SampleIsMarked(s2, id, title, cap, good(0));
    var s3 := Drain(s2, w, good);
    RefusedLeaves(s2.file, Done(id), cap);
    OneVisit(s3, e, w, bad, log);
    SampleIsSetAside(s3, id, title, cap, bad(0));
    ThreeAttempts(s3.trace, id);
  }

  lemma RefusedLeaves(file: seq<Utf8.Byte>, r: Record, cap: nat)
    ensures AfterAppend(file, r, cap, Disk.Refused) == file
  {
    assert Line(r)[..0] == [] && file + [] == file;
  }

  lemma ThreeAttempts(trace: seq<Attempted>, id: string)
    requires |trace| == 3 && trace[2].Sent? && trace[2].id == id
    requires trace[0] == FailedForGood(id, 1, None) && trace[1] == FailedForGood(id, 2, None)
    ensures Passes.Failures(trace, id) == 2 && Passes.Consecutive(trace, id) == 0
  {
    var one, two := trace[..1], trace[..2];
    assert two[..1] == one && one[..0] == [] && two[1] == trace[1];
    assert Passes.Failures(one, id) == 1;
    assert Passes.Failures(two, id) == 2;
  }
}
