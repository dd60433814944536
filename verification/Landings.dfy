/** What a pass of the worker writes to the journal, whatever the disk does with each marker. */
module Landings {
  import opened Wrappers
  import opened Records
  import opened RecordFile
  import opened Compaction
  import opened Worker
  import Cap
  import Delivery
  import Remote
  import Utf8

  /** The marker an attempt sets out to write. */
  function Marker(a: Attempted, turn: Turn): Option<Record> {
    match a
    case Sent(id, _, _) => Some(Done(id))
    case FailedForGood(id, seen, _) =>
      if seen >= PERMANENT_FAILURES_BEFORE_DEAD then Some(Dead(id, turn.reason, turn.at)) else None
    case _ => None
  }

  /** The first `length` bytes of a marker's line, at least one of them, that reached the file. */
  datatype Landing = Landing(marker: Record, length: nat)

  predicate IsLanding(l: Landing) { 0 < l.length <= |Line(l.marker)| }

  predicate IsFor(l: Landing, e: Entry) { !l.marker.Accepted? && l.marker.id == e.id }

  predicate AreLandings(ls: seq<Landing>) { forall l :: l in ls ==> IsLanding(l) && !l.marker.Accepted? }

  function LandingOf(file: seq<Utf8.Byte>, marker: Option<Record>, cap: nat, disk: Disk): (ls: seq<Landing>)
    ensures forall l :: l in ls ==> IsLanding(l) && marker == Some(l.marker)
  {
    if marker.None? || !Fits(file, marker.value, cap) || Landed(marker.value, disk) == 0 then []
    else [Landing(marker.value, Landed(marker.value, disk))]
  }

  function BytesOf(l: Landing): seq<Utf8.Byte>
    requires IsLanding(l)
  {
    Line(l.marker)[..l.length]
  }

  function Bytes(ls: seq<Landing>): seq<Utf8.Byte>
    requires AreLandings(ls)
  {
    if ls == [] then []
    else
      var n := |ls| - 1;
      Bytes(ls[..n]) + BytesOf(ls[n])
  }

  /** What lands during one visit. */
  function VisitLanding(s: Pass, e: Entry, w: Setting, turn: Turn): seq<Landing> {
    var trace := Visit(s, e, w, turn).trace;
    if trace == [] then [] else LandingOf(s.file, Marker(trace[|trace| - 1], turn), w.cap, turn.mark)
  }

  /** What lands during the visits of some entries, in order. */
  function LandingsOf(s: Pass, entries: seq<Entry>, w: Setting, turns: nat -> Turn): seq<Landing> {
    if entries == [] then []
    else
      var n := |entries| - 1;
      var mid := Visits(s, entries[..n], w, turns);
      LandingsOf(s, entries[..n], w, turns) + VisitLanding(mid, entries[n], w, turns(n))
  }

  lemma VisitLands(s: Pass, e: Entry, w: Setting, turn: Turn)
    ensures var after := Visit(s, e, w, turn);
      && |after.trace| == |s.trace| + 1 && after.trace[..|s.trace|] == s.trace
      && var a := after.trace[|s.trace|];
         var marker := Marker(a, turn);
         && a.id == e.id
         && (marker.Some? ==> !marker.value.Accepted? && marker.value.id == e.id)
         && after.file == (if marker.Some? then AfterAppend(s.file, marker.value, w.cap, turn.mark) else s.file)
  {
    hide Delivery.DeliverTo, AfterAppend, Acknowledged;
  }

  lemma AppendLands(file: seq<Utf8.Byte>, r: Record, cap: nat, disk: Disk)
    requires !r.Accepted?
    ensures var ls := LandingOf(file, Some(r), cap, disk);
      AreLandings(ls) && AfterAppend(file, r, cap, disk) == file + Bytes(ls)
  {
    hide Line;
    var ls := LandingOf(file, Some(r), cap, disk);
    if ls == [] {
      assert Line(r)[..0] == [];
      assert file + [] == file;
    } else {
      assert ls[..0] == [];
      assert Bytes(ls) == [] + Line(r)[..Landed(r, disk)];
    }
  }

  lemma {:induction false} BytesAppend(a: seq<Landing>, b: seq<Landing>)
    requires AreLandings(a) && AreLandings(b)
    ensures AreLandings(a + b) && Bytes(a + b) == Bytes(a) + Bytes(b)
  {
    hide Line, IsLanding;
    assert forall l :: l in a + b <==> l in a || l in b;
    if b == [] {
      assert a + b == a;
      assert Bytes(a) + [] == Bytes(a);
    } else {
      var n := |b| - 1;
      assert b[n] in b && forall l :: l in b[..n] ==> l in b;
      BytesAppend(a, b[..n]);
      var c := a + b;
      assert c[..|c| - 1] == a + b[..n] && c[|c| - 1] == b[n];
      var last := BytesOf(b[n]);
      assert Bytes(c) == Bytes(a + b[..n]) + last && Bytes(b) == Bytes(b[..n]) + last;
      assert Bytes(a) + Bytes(b[..n]) + last == Bytes(a) + (Bytes(b[..n]) + last);
    }
  }

  /** Each entry was attempted once, in order, and the file grew by exactly these markers' landings. */
  ghost predicate Tallies(file: seq<Utf8.Byte>, after: Pass, entries: seq<Entry>, ls: seq<Landing>) {
    && |after.trace| == |entries|
    && (forall i :: 0 <= i < |entries| ==> after.trace[i].id == entries[i].id)
    && AreLandings(ls) && after.file == file + Bytes(ls)
    && (forall l :: l in ls ==> exists e <- entries :: IsFor(l, e))
  }

  lemma VisitTallies(s: Pass, e: Entry, w: Setting, turn: Turn)
    ensures var after := Visit(s, e, w, turn);
      var ls := VisitLanding(s, e, w, turn);
      && AreLandings(ls) && after.file == s.file + Bytes(ls)
      && (forall l :: l in ls ==> IsFor(l, e))
  {
    VisitLands(s, e, w, turn);
    hide Visit, AfterAppend, Line;
    var marker := Marker(Visit(s, e, w, turn).trace[|s.trace|], turn);
    if marker.Some? {
      AppendLands(s.file, marker.value, w.cap, turn.mark);
    } else {
      assert s.file + [] == s.file;
    }
  }

  lemma TallyOneMore(file: seq<Utf8.Byte>, mid: Pass, init: seq<Entry>, ls: seq<Landing>, after: Pass, e: Entry,
                     more: seq<Landing>)
    requires Tallies(file, mid, init, ls)
    requires |after.trace| == |mid.trace| + 1 && after.trace[..|mid.trace|] == mid.trace
    requires after.trace[|mid.trace|].id == e.id
    requires AreLandings(more) && after.file == mid.file + Bytes(more) && forall l :: l in more ==> IsFor(l, e)
    ensures Tallies(file, after, init + [e], ls + more)
  {
    hide AreLandings, Bytes;
    BytesAppend(ls, more);
    Regroup(file, Bytes(ls), Bytes(more));
    IdsAppend(mid.trace, init, after.trace, e);
    TargetsAppend(init, ls, e, more);
  }

  lemma Regroup(a: seq<Utf8.Byte>, b: seq<Utf8.Byte>, c: seq<Utf8.Byte>)
    ensures a + b + c == a + (b + c)
  {
  }

  lemma IdsAppend(before: seq<Attempted>, init: seq<Entry>, trace: seq<Attempted>, e: Entry)
    requires |before| == |init| && forall i :: 0 <= i < |init| ==> before[i].id == init[i].id
    requires |trace| == |before| + 1 && trace[..|before|] == before && trace[|before|].id == e.id
    ensures forall i :: 0 <= i < |init + [e]| ==> trace[i].id == (init + [e])[i].id
  {
    assert forall i :: 0 <= i < |init| ==> trace[i] == before[i];
  }

  lemma TargetsAppend(init: seq<Entry>, ls: seq<Landing>, e: Entry, more: seq<Landing>)
    requires forall l :: l in ls ==> exists x <- init :: IsFor(l, x)
    requires forall l :: l in more ==> IsFor(l, e)
    ensures forall l :: l in ls + more ==> exists x <- init + [e] :: IsFor(l, x)
  {
    assert e in init + [e];
    forall l | l in ls + more ensures exists x <- init + [e] :: IsFor(l, x) {
      if l in ls {
        var x :| x in init && IsFor(l, x);
        assert x in init + [e];
      }
    }
  }

  lemma {:induction false} VisitsLand(s: Pass, entries: seq<Entry>, w: Setting, turns: nat -> Turn)
    requires s.trace == []
    ensures Tallies(s.file, Visits(s, entries, w, turns), entries, LandingsOf(s, entries, w, turns))
  {
    hide Visit, VisitLanding, Tallies;
    if entries == [] {
      NothingTallies(s);
    } else {
      var n := |entries| - 1;
      VisitsLand(s, entries[..n], w, turns);
      var mid := Visits(s, entries[..n], w, turns);
      VisitLands(mid, entries[n], w, turns(n));
      VisitTallies(mid, entries[n], w, turns(n));
      TallyOneMore(s.file, mid, entries[..n], LandingsOf(s, entries[..n], w, turns),
                   Visit(mid, entries[n], w, turns(n)), entries[n], VisitLanding(mid, entries[n], w, turns(n)));
      assert entries[..n] + [entries[n]] == entries;
    }
  }

  lemma NothingTallies(s: Pass)
    requires s.trace == []
    ensures Tallies(s.file, s, [], [])
  {
    assert s.file + [] == s.file;
  }

  // ----- what the file holds afterwards -----------------------------------------------------

  /** What the landings make of a file's shape, or `None` when it can no longer be read. */
  function Settled(sh: Shape, ls: seq<Landing>): Option<Shape>
    requires AreLandings(ls)
  {
    if ls == [] then Some(sh)
    else
      var n := |ls| - 1;
      match Settled(sh, ls[..n])
      case None => None
      case Some(x) => Written(x, ls[n].marker, ls[n].length)
  }

  lemma {:induction false} SettledReads(file: seq<Utf8.Byte>, sh: Shape, ls: seq<Landing>)
    requires HasShape(file, sh) && AreLandings(ls)
    ensures match Settled(sh, ls)
      case Some(x) => HasShape(file + Bytes(ls), x)
      case None => Read(file + Bytes(ls)).Err?
  {
    hide HasShape, Read, Line, Written;
    if ls == [] {
      assert file + [] == file;
    } else {
      var n := |ls| - 1;
      SettledReads(file, sh, ls[..n]);
      var before, more := file + Bytes(ls[..n]), Line(ls[n].marker)[..ls[n].length];
      assert before + more == file + Bytes(ls);
      match Settled(sh, ls[..n])
      case Some(x) => WriteLands(before, x, ls[n].marker, ls[n].length);
      case None => DamageStays(before, ls[n].marker, ls[n].length);
    }
  }

  predicate Whole(l: Landing) { l.length == |Line(l.marker)| }

  /** The landing ends between characters. */
  predicate Legible(l: Landing) {
    l.length <= |Line(l.marker)| && Utf8.CharsBefore(Records.Print(l.marker) + "\n", l.length).Some?
  }

  /** No landing is cut inside a character, and no whole line comes after a torn one. */
  predicate Harmless(sh: Shape, ls: seq<Landing>) {
    && (forall i :: 0 <= i < |ls| ==> Legible(ls[i]))
    && (forall j :: 0 <= j < |ls| && Whole(ls[j]) ==> sh.pieces == [])
    && (forall i, j :: 0 <= i < j < |ls| && Whole(ls[j]) ==> Whole(ls[i]))
  }

  /** The markers of the lines that landed whole. */
  function WholeMarkers(ls: seq<Landing>): seq<Record> {
    if ls == [] then []
    else
      var n := |ls| - 1;
      if Whole(ls[n]) then WholeMarkers(ls[..n]) + [ls[n].marker] else WholeMarkers(ls[..n])
  }

  lemma WrittenExactly(x: Shape, l: Landing)
    requires IsLanding(l)
    ensures Written(x, l.marker, l.length).Some? <==> Legible(l) && (Whole(l) ==> x.pieces == [])
    ensures Legible(l) && (Whole(l) ==> x.pieces == []) ==>
      var y := Written(x, l.marker, l.length).value;
      if Whole(l) then y == Shape(x.records + [l.marker], [])
      else
        && y.records == x.records && |y.pieces| == |x.pieces| + 1
        && (x.pieces == [] ==> Intact(y.pieces) == if l.length == |Line(l.marker)| - 1 then [l.marker] else [])
  {
    hide Records.Print;
    var p := Records.Print(l.marker);
    if Legible(l) {
      LineFeedLast(l.marker, l.length);
      assert (p + "\n")[..0] == "" && Utf8.Encode("") == [];
      Utf8.CutText(p + "\n", l.length);
    }
  }

  predicate AllWhole(ls: seq<Landing>) { forall l :: l in ls ==> Whole(l) }

  /** The marker of the last landing, if only its line feed is missing and all before it are whole. */
  function Unterminated(ls: seq<Landing>): seq<Record> {
    if ls == [] then []
    else
      var n := |ls| - 1;
      if AllWhole(ls[..n]) && ls[n].length == |Line(ls[n].marker)| - 1 then [ls[n].marker] else []
  }

  /** The markers among the landings that can be read, on a file that ended cleanly. */
  function Readable(ls: seq<Landing>): seq<Record> { WholeMarkers(ls) + Unterminated(ls) }

  /** The log after harmless landings. */
  function LogAfter(sh: Shape, ls: seq<Landing>): seq<Record> {
    if sh.pieces == [] then sh.records + Readable(ls) else if ls == [] then Recorded(sh) else sh.records
  }

  /** The file stays readable exactly when the landings are harmless, and its shape says what it holds. */
  lemma {:induction false} SettledExactly(sh: Shape, ls: seq<Landing>)
    requires AreLandings(ls)
    ensures Settled(sh, ls).Some? <==> Harmless(sh, ls)
    ensures Harmless(sh, ls) ==> Outcome(sh, ls, Settled(sh, ls).value)
  {
    hide Legible, Whole, Written, Outcome, Harmless;
    if ls == [] {
      NothingSettles(sh);
    } else {
      var n := |ls| - 1;
      var init, last := ls[..n], ls[n];
      SettledExactly(sh, init);
      assert ls == init + [last];
      assert last in ls && forall l :: l in init ==> l in ls;
      HarmlessPrefix(sh, init, last);
      if Settled(sh, init).Some? {
        OneMoreSettles(sh, init, last, Settled(sh, init).value);
      }
    }
  }

  /** A shape that harmless landings lead to. */
  ghost predicate Outcome(sh: Shape, ls: seq<Landing>, x: Shape) {
    && x.records == sh.records + WholeMarkers(ls)
    && (x.pieces == [] <==> sh.pieces == [] && AllWhole(ls))
    && (sh.pieces != [] ==> |x.pieces| == |sh.pieces| + |ls|)
    && (sh.pieces == [] ==> Intact(x.pieces) == Unterminated(ls))
    && (ls == [] ==> x == sh)
  }

  lemma NothingSettles(sh: Shape)
    ensures Harmless(sh, []) && Outcome(sh, [], sh)
  {
    assert sh.records + [] == sh.records;
  }

  lemma OneMoreSettles(sh: Shape, init: seq<Landing>, last: Landing, x: Shape)
    requires IsLanding(last) && Outcome(sh, init, x)
    ensures Written(x, last.marker, last.length).Some? <==>
      Legible(last) && (Whole(last) ==> sh.pieces == [] && AllWhole(init))
    ensures Written(x, last.marker, last.length).Some? ==>
      Outcome(sh, init + [last], Written(x, last.marker, last.length).value)
  {
    hide Legible, Written, Line;
    WrittenExactly(x, last);
    var ls := init + [last];
    assert ls[..|init|] == init && ls[|init|] == last;
    assert sh.records + (WholeMarkers(init) + [last.marker]) == sh.records + WholeMarkers(init) + [last.marker];
    assert AllWhole(ls) <==> AllWhole(init) && Whole(last) by {
      assert forall l :: l in ls <==> l in init || l == last;
    }
  }

  lemma HarmlessPrefix(sh: Shape, init: seq<Landing>, last: Landing)
    ensures Harmless(sh, init + [last]) <==>
      Harmless(sh, init) && Legible(last) && (Whole(last) ==> sh.pieces == [] && AllWhole(init))
  {
    hide Legible, Whole;
    var ls := init + [last];
    assert forall i :: 0 <= i < |init| ==> ls[i] == init[i];
    assert ls[|init|] == last;
  }

  // ----- the account of a pass -----------------------------------------------------------------

  /** Each pending entry is attempted once, in acceptance order, whatever fails. */
  lemma EachOnceInOrder(s: Pass, w: Setting, turns: nat -> Turn, log: seq<Record>)
    requires Read(s.file) == Ok(log) && s.trace == []
    ensures var after := Drain(s, w, turns);
      && |after.trace| == |Pending(log)|
      && forall i :: 0 <= i < |after.trace| ==> after.trace[i].id == Pending(log)[i].id
  {
    hide Read, Pending, Visits;
    VisitsLand(s, Pending(log), w, turns);
  }

  /**
    The account of a pass over any readable journal, whatever the network and the disk do. The
    file grows by exactly what landed of the markers. It stays readable exactly when no landing
    was cut inside a character and no whole line came after a torn one, and then reads as
    `LogAfter` says. On a file that ended cleanly, what is pending afterwards is what was
    pending before, without exactly the entries whose marker can be read: those that landed
    whole, and the last one if only its line feed is missing.
   */
  lemma PassAccounting(s: Pass, w: Setting, turns: nat -> Turn, sh: Shape)
    requires HasShape(s.file, sh) && s.trace == []
    ensures var pending := Pending(Recorded(sh));
      var ls := LandingsOf(s, pending, w, turns);
      Tallies(s.file, Drain(s, w, turns), pending, ls)
    ensures var ls := LandingsOf(s, Pending(Recorded(sh)), w, turns);
      var log := Read(Drain(s, w, turns).file);
      if Harmless(sh, ls) then log == Ok(LogAfter(sh, ls)) else log.Err?
    ensures var ls := LandingsOf(s, Pending(Recorded(sh)), w, turns);
      sh.pieces == [] ==>
        Pending(LogAfter(sh, ls)) == Without(Pending(Recorded(sh)), MarkedIds(Readable(ls)))
  {
    ShapeReads(s.file, sh);
    hide HasShape, Visits, Read, Without, MarkedIds, Harmless, LogAfter, Pending, LandingsOf;
    var pending := Pending(Recorded(sh));
    var ls := LandingsOf(s, pending, w, turns);
    VisitsLand(s, pending, w, turns);
    LandingsRead(s.file, sh, ls);
    if sh.pieces == [] { LandingsMark(sh, ls); }
  }

  lemma LandingsRead(file: seq<Utf8.Byte>, sh: Shape, ls: seq<Landing>)
    requires HasShape(file, sh) && AreLandings(ls)
    ensures var log := Read(file + Bytes(ls));
      if Harmless(sh, ls) then log == Ok(LogAfter(sh, ls)) else log.Err?
  {
    hide HasShape, Read, Settled, Harmless, AllWhole, Unterminated, Bytes;
    SettledReads(file, sh, ls);
    SettledExactly(sh, ls);
    if Harmless(sh, ls) {
      var x := Settled(sh, ls).value;
      ShapeReads(file + Bytes(ls), x);
      if sh.pieces == [] {
        assert sh.records + (WholeMarkers(ls) + Unterminated(ls)) == sh.records + WholeMarkers(ls) + Unterminated(ls);
      } else if ls != [] {
        NoneWhole(sh, ls);
        assert sh.records + [] + [] == sh.records;
      }
    }
  }

  lemma LandingsMark(sh: Shape, ls: seq<Landing>)
    requires AreLandings(ls) && sh.pieces == []
    ensures Pending(LogAfter(sh, ls)) == Without(Pending(Recorded(sh)), MarkedIds(Readable(ls)))
  {
    hide Pending, MarkedIds, Without, WholeMarkers, AllWhole;
    assert Recorded(sh) == sh.records by { assert sh.records + [] == sh.records; }
    WholeMarkersAreMarkers(ls);
    if ls != [] { assert ls[|ls| - 1] in ls; }
    MarksOnly(sh.records, Readable(ls));
  }

  lemma {:induction false} NoneWhole(sh: Shape, ls: seq<Landing>)
    requires Harmless(sh, ls) && sh.pieces != []
    ensures WholeMarkers(ls) == []
  {
    hide Whole, Legible;
    if ls != [] {
      var n := |ls| - 1;
      assert Harmless(sh, ls[..n]);
      NoneWhole(sh, ls[..n]);
    }
  }

  lemma {:induction false} WholeMarkersAreMarkers(ls: seq<Landing>)
    requires AreLandings(ls)
    ensures forall r :: r in WholeMarkers(ls) ==> !r.Accepted?
  {
    hide Whole;
    if ls != [] {
      assert ls[|ls| - 1] in ls;
      WholeMarkersAreMarkers(ls[..|ls| - 1]);
    }
  }

  lemma {:induction false} NoEntries(records: seq<Record>)
    requires forall r :: r in records ==> !r.Accepted?
    ensures Entries(records) == []
  {
    if records != [] {
      assert records[0] in records;
      NoEntries(records[1..]);
    }
  }

  /** Markers appended to a log take their entries out of the queue and change nothing else. */
  lemma MarksOnly(log: seq<Record>, marks: seq<Record>)
    requires forall r :: r in marks ==> !r.Accepted?
    ensures Entries(log + marks) == Entries(log)
    ensures Pending(log + marks) == Without(Pending(log), MarkedIds(marks))
  {
    hide Entries, MarkedIds, Without;
    EntriesAppend(log, marks);
    NoEntries(marks);
    assert Entries(log) + [] == Entries(log);
    MarkedAppend(log, marks);
    WithoutTwice(Entries(log), MarkedIds(log), MarkedIds(marks));
  }

  // ----- a journal without room for a marker ----------------------------------------------------

  /** Nothing of the marker an attempt sets out to write can land in this file. */
  predicate Bounces(file: seq<Utf8.Byte>, marker: Option<Record>, cap: nat, disk: Disk) {
    marker.None? || !Fits(file, marker.value, cap) || Landed(marker.value, disk) == 0
  }

  /** No attempt of a trace can land its marker in this file. */
  predicate AllBounce(file: seq<Utf8.Byte>, trace: seq<Attempted>, w: Setting, turns: nat -> Turn) {
    forall i :: 0 <= i < |trace| ==> Bounces(file, Marker(trace[i], turns(i)), w.cap, turns(i).mark)
  }

  lemma {:induction false} NothingLandsExactlyWhen(s: Pass, entries: seq<Entry>, w: Setting, turns: nat -> Turn)
    requires s.trace == []
    ensures var after := Visits(s, entries, w, turns);
      && |after.trace| == |entries|
      && |after.file| >= |s.file|
      && (|after.file| == |s.file| ==> after.file == s.file)
      && (after.file == s.file <==> AllBounce(s.file, after.trace, w, turns))
  {
    hide Visit, Bounces, Line;
    if entries != [] {
      var n := |entries| - 1;
      NothingLandsExactlyWhen(s, entries[..n], w, turns);
      var mid := Visits(s, entries[..n], w, turns);
      var after := Visits(s, entries, w, turns);
      VisitLands(mid, entries[n], w, turns(n));
      var marker := Marker(after.trace[n], turns(n));
      hide Marker, Visits, AfterAppend;
      assert forall i :: 0 <= i < n ==> after.trace[i] == mid.trace[i];
      if marker.Some? { AppendGrows(mid.file, marker.value, w.cap, turns(n).mark); }
      NoMarkerBounces(s.file, w.cap, turns(n).mark);
    }
  }

  lemma NoMarkerBounces(file: seq<Utf8.Byte>, cap: nat, disk: Disk)
    ensures Bounces(file, None, cap, disk)
  {
  }

  lemma AppendGrows(file: seq<Utf8.Byte>, r: Record, cap: nat, disk: Disk)
    ensures |AfterAppend(file, r, cap, disk)| >= |file|
    ensures |AfterAppend(file, r, cap, disk)| == |file| <==> Bounces(file, Some(r), cap, disk)
    ensures Bounces(file, Some(r), cap, disk) ==> AfterAppend(file, r, cap, disk) == file
  {
    hide Line;
    if Landed(r, disk) == 0 { assert file + Line(r)[..0] == file; }
  }

  /** A pass leaves the journal as it is exactly when nothing of any marker it sets out to write can land. */
  lemma PassLeavesFileExactlyWhen(s: Pass, w: Setting, turns: nat -> Turn, log: seq<Record>)
    requires Read(s.file) == Ok(log) && s.trace == []
    ensures var after := Drain(s, w, turns);
      && |after.trace| == |Pending(log)|
      && (after.file == s.file <==> AllBounce(s.file, after.trace, w, turns))
  {
    hide Read, Pending, Visits, AllBounce;
    NothingLandsExactlyWhen(s, Pending(log), w, turns);
  }

  /**
    A pass in which everything gets delivered and every accepted write is synced marks nothing
    exactly when not one `Done` line of a pending entry fits under the cap.
   */
  lemma FullJournalIsStuck(s: Pass, w: Setting, turns: nat -> Turn, log: seq<Record>)
    requires Read(s.file) == Ok(log) && s.trace == []
    requires forall i :: 0 <= i < |Pending(log)| ==> turns(i).mark.Sound?
    requires forall a :: a in Drain(s, w, turns).trace ==> a.Sent?
    ensures Drain(s, w, turns).file == s.file <==> forall e :: e in Pending(log) ==> !Fits(s.file, Done(e.id), w.cap)
  {
    var after := Drain(s, w, turns);
    hide Read, Pending, Drain, Fits;
    PassLeavesFileExactlyWhen(s, w, turns, log);
    EachOnceInOrder(s, w, turns, log);
    forall i | 0 <= i < |after.trace|
      ensures Bounces(s.file, Marker(after.trace[i], turns(i)), w.cap, turns(i).mark)
        <==> !Fits(s.file, Done(Pending(log)[i].id), w.cap)
    {
      assert after.trace[i] in after.trace;
    }
  }

  /**
    Such a journal exists: one entry whose line is as long as the cap is accepted into an empty
    file, and then no pass, whatever it delivers, and no compaction changes a byte any more.
   */
  lemma OneEntryFillsTheCap(e: Entry, remote: Remote.Remote, counts: Counts, w: Setting, turns: nat -> Turn)
    requires w.cap == |Line(Accepted(e))|
    ensures var file := AfterAppend([], Accepted(e), w.cap, Sound);
      && Acknowledged([], Accepted(e), w.cap, Sound)
      && Read(file) == Ok([Accepted(e)]) && Pending([Accepted(e)]) == [e]
      && Drain(Pass(file, remote, counts, []), w, turns).file == file
      && AfterCompact(file, true) == file
  {
    var log := [Accepted(e)];
    var file := AfterAppend([], Accepted(e), w.cap, Sound);
    OneEntryLog(e);
    hide Read, Line, Pending, Compacted;
    assert Line(Accepted(e))[..|Line(Accepted(e))|] == Line(Accepted(e));
    assert file == Render(log) by { assert Render([]) == [] && log[0] == Accepted(e); }
    RenderReads(log);
    var s := Pass(file, remote, counts, []);
    PassLeavesFileExactlyWhen(s, w, turns, log);
    forall r: Record ensures !Fits(file, r, w.cap) { assert |Line(r)| > 0; }
  }

  lemma OneEntryLog(e: Entry)
    ensures Pending([Accepted(e)]) == [e] && Compacted([Accepted(e)]) == [Accepted(e)]
  {
    var log := [Accepted(e)];
    assert [e][1..] == [];
    assert AsRecords([e]) == [Accepted(e)] + AsRecords([]) == log;
    AsRecordsReads([e]);
    hide MarkedIds, Entries, Reasons;
    assert Without([e], {}) == [e] + Without([], {}) == [e];
    assert Letters([e], map[]) == Letters([], map[]) == [];
    assert Repost([]) == [] && log + [] == log;
  }
}
