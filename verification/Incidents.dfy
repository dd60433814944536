/** Runs of the whole service, from its first start, into what its promises exclude. */
module Incidents {
  import opened Wrappers
  import opened Records
  import opened RecordFile
  import opened Door
  import opened Remote
  import opened Delivery
  import opened Protocol
  import opened Refinement
  import Profile
  import Request
  import Samples
  import Text
  import Utf8

  /** An entry lands after a power cut that tore another one's line. */
  function TornThenAccepted(first: Entry, n: nat, second: Entry): seq<Step> {
    [Accept(first, Cut(n)), PowerCut, Accept(second, Sound)]
  }

  function FileAfter(first: Entry, n: nat, second: Entry): seq<Utf8.Byte>
    requires n <= |Line(Accepted(first))|
  {
    Line(Accepted(first))[..n] + Line(Accepted(second))
  }

  lemma TornThenAcceptedRuns(s: State, first: Entry, n: nat, second: Entry, w: World)
    requires Initial(s) && first.id != second.id && n <= |Line(Accepted(first))|
    requires |Line(Accepted(first))| + |Line(Accepted(second))| <= w.cap
    ensures var run := Run(s, TornThenAccepted(first, n, second), w);
      && run.Some? && second in run.value.acked && first !in run.value.acked
      && run.value.file == FileAfter(first, n, second)
  {
    hide Unique, FreshIds, Line;
    var a, b := Accepted(first), Accepted(second);
    var one := Apply(s, Accept(first, Cut(n)), w).value;
    assert one.file == Line(a)[..n] by { assert [] + Line(a)[..n] == Line(a)[..n]; }
    var two := Apply(one, PowerCut, w).value;
    var three := Apply(two, Accept(second, Sound), w).value;
    assert Line(b)[..|Line(b)|] == Line(b);
    assert three.file == Line(a)[..n] + Line(b);
    hide Apply;
    RunLast(two, Accept(second, Sound), w);
    RunOne(one, PowerCut, [Accept(second, Sound)], w);
    RunOne(s, Accept(first, Cut(n)), [PowerCut, Accept(second, Sound)], w);
    assert [PowerCut] + [Accept(second, Sound)] == [PowerCut, Accept(second, Sound)];
    assert [Accept(first, Cut(n))] + [PowerCut, Accept(second, Sound)] == TornThenAccepted(first, n, second);
  }

  /**
    An acknowledged entry can be lost to sight. If a power cut leaves part of a line, and an
    entry is accepted before anything is compacted, the journal can no longer be read, exactly
    if the line was torn: cut after its first byte and before its line feed.
   */
  lemma TornTailHidesAccepted(s: State, first: Entry, n: nat, second: Entry, w: World)
    requires Initial(s) && first.id != second.id && n <= |Line(Accepted(first))|
    requires |Line(Accepted(first))| + |Line(Accepted(second))| <= w.cap
    ensures var run := Run(s, TornThenAccepted(first, n, second), w);
      && run.Some? && second in run.value.acked
      && (Read(run.value.file).Err? <==> 0 < n < |Line(Accepted(first))|)
  {
    hide Run, Unique, FreshIds, Read, Line;
    TornThenAcceptedRuns(s, first, n, second, w);
    TornThenWhole(Accepted(first), n, Accepted(second));
  }

  /** A whole line after the first bytes of another, in an otherwise empty file. */
  lemma TornThenWhole(a: Record, n: nat, b: Record)
    requires n <= |Line(a)|
    ensures Read(Line(a)[..n] + Line(b)).Err? <==> 0 < n < |Line(a)|
  {
    hide Read, Line, HasShape, RecordFile.Written, Records.Print, Utf8.CharsBefore;
    EmptyHasShape();
    var empty := Shape([], []);
    assert [] + Line(a)[..n] == Line(a)[..n];
    WriteLands([], empty, a, n);
    match RecordFile.Written(empty, a, n)
    case None =>
      assert Line(b)[..|Line(b)|] == Line(b);
      DamageStays(Line(a)[..n], b, |Line(b)|);
      UnreadableIsTorn(a, n);
    case Some(x) =>
      AppendIsReadable(Line(a)[..n], x, b);
      CleanEnd(Line(a)[..n], x);
      PiecesAfter(a, n);
  }

  lemma EmptyHasShape()
    ensures HasShape([], Shape([], []))
  {
    RenderReads([]);
  }

  lemma UnreadableIsTorn(a: Record, n: nat)
    requires n <= |Line(a)| && RecordFile.Written(Shape([], []), a, n).None?
    ensures 0 < n < |Line(a)|
  {
    hide Records.Print;
    var p := Records.Print(a);
    assert (p + "\n")[..0] == "" && (p + "\n")[..|p + "\n"|] == p + "\n" && Utf8.Encode("") == [];
    Utf8.CutText(p + "\n", n);
    WholeTextDecodes(p + "\n", n);
  }

  /** Nothing and everything of a text is cut between characters. */
  lemma WholeTextDecodes(text: string, n: nat)
    requires n <= |Utf8.Encode(text)| && Utf8.CharsBefore(text, n).None?
    ensures 0 < n < |Utf8.Encode(text)|
  {
    Utf8.CutText(text, n);
    if n == |Utf8.Encode(text)| {
      assert Utf8.Encode(text)[..n] == Utf8.Encode(text);
      Utf8.RoundTrip(text);
    }
  }

  lemma PiecesAfter(a: Record, n: nat)
    requires n <= |Line(a)| && RecordFile.Written(Shape([], []), a, n).Some?
    ensures RecordFile.Written(Shape([], []), a, n).value.pieces == [] <==> !(0 < n < |Line(a)|)
  {
    hide Records.Print;
    var p := Records.Print(a);
    LineFeedLast(a, n);
    assert (p + "\n")[..0] == "" && Utf8.Encode("") == [];
    Utf8.CutText(p + "\n", n);
  }

  // ----- two events under one key -------------------------------------------------------------------

  /** The network loses the reply of a create that took effect, and answers when it is sent again. */
  const REPLY_LOST := Net(Answered, Answered, [ReplyLost, Created])

  lemma LostReplyEffects()
    ensures Effects([ReplyLost, Created]) == 2
  {
    assert [ReplyLost, Created][1..] == [Created];
    assert Effects([Created]) == 1;
  }

  /** A delivery whose lost reply is sent again ends answered, with two events under its key. */
  lemma ResentCreateDuplicates(s: State, e: Entry, profile: Profile.Profile, w: World)
    returns (steps: seq<Step>, after: State)
    requires Initial(s) && |Line(Accepted(e))| <= w.cap && KeyOf(e, profile, w.lib).Some?
    requires WithKey(s.remote, profile.targetCalendarId, KeyOf(e, profile, w.lib).value) == []
    ensures Run(s, [Accept(e, Sound), StartSync(0, e, profile)] + steps, w) == Some(after)
    ensures HasWritten(after, 0) && !Unique(after.remote)
    ensures |WithKey(after.remote, profile.targetCalendarId, KeyOf(e, profile, w.lib).value)| == 2
  {
    hide Run, Unique, FreshIds, WithKey, KeyOf, TaskFor, Request.MapPayload, DeliverTo, Line, AfterAppend;
    var key, calendar := KeyOf(e, profile, w.lib).value, profile.targetCalendarId;
    var accepted := Apply(s, Accept(e, Sound), w).value;
    assert e in accepted.acked && accepted.tasks == map[] && accepted.held == map[];
    var started := Apply(accepted, StartSync(0, e, profile), w).value;
    steps, after := UninterruptedDelivery(started, 0, e, profile, REPLY_LOST, w);
    RunOne(accepted, StartSync(0, e, profile), steps, w);
    RunOne(s, Accept(e, Sound), [StartSync(0, e, profile)] + steps, w);
    assert [Accept(e, Sound)] + ([StartSync(0, e, profile)] + steps)
        == [Accept(e, Sound), StartSync(0, e, profile)] + steps;
    TwoCreated(s.remote, e, profile, w.lib, key);
    TaskOf(e, profile, w.lib, s.remote, REPLY_LOST);
    NotUnique(after.remote, calendar, key);
  }

  lemma TwoCreated(r: Remote, e: Entry, profile: Profile.Profile, lib: Request.Library, key: string)
    requires KeyOf(e, profile, lib) == Some(key) && WithKey(r, profile.targetCalendarId, key) == []
    ensures var (after, result) := DeliverTo(r, e, profile, lib, REPLY_LOST);
      result.Ok? && |WithKey(after, profile.targetCalendarId, key)| == 2
  {
    EventCarriesKey(e, profile, lib);
    LostReplyEffects();
    FoundIsThere(r, profile.targetCalendarId, key);
    assert [ReplyLost, Created][1..] == [Created];
    hide WithKey, Find, Create, Request.MapPayload, MarkerOf, Effects;
    CreateLoopAdds(r, profile.targetCalendarId, EventOf(e, profile, lib), [ReplyLost, Created],
                   profile.targetCalendarId, key);
    assert CreateWithRetry(r, profile.targetCalendarId, EventOf(e, profile, lib), [ReplyLost, Created]).1.Ok?;
  }

  lemma NotUnique(r: Remote, c: string, k: string)
    requires |WithKey(r, c, k)| > 1
    ensures !Unique(r)
  {
  }

  const FIRST_START := State([], Remote(map[], 0), map[], map[], [], map[], {}, {}, {}, {})

  lemma FirstStartIsInitial()
    ensures Initial(FIRST_START) && forall c, k :: WithKey(FIRST_START.remote, c, k) == []
  {
  }

  /** Such runs exist: any sample entry, a first start and empty calendars. */
  lemma SampleDuplicates(id: string, title: string, cap: nat) returns (steps: seq<Step>, after: State)
    requires !Text.IsBlank(title) && |Line(Accepted(Samples.Sample(id, title)))| <= cap
    ensures Initial(FIRST_START) && Run(FIRST_START, steps, World(cap, Samples.LIBRARY)) == Some(after)
    ensures |WithKey(after.remote, "calendar", Samples.KEY)| == 2
  {
    var e, w := Samples.Sample(id, title), World(cap, Samples.LIBRARY);
    FirstStartIsInitial();
    Samples.SampleIsMapped(id, title);
    hide Run, Line, Samples.Sample, KeyOf, Initial, WithKey, Unique, HasWritten;
    var rest;
    rest, after := ResentCreateDuplicates(FIRST_START, e, Samples.PROFILE, w);
    steps := [Accept(e, Sound), StartSync(0, e, Samples.PROFILE)] + rest;
  }
}
