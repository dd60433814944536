/** What passes of the worker guarantee, one by one and over whole runs. */
module Passes {
  import opened Wrappers
  import opened Records
  import opened RecordFile
  import opened Compaction
  import opened Remote
  import opened Delivery
  import opened Worker
  import Landings
  import Utf8

  // ----- accounting -----------------------------------------------------------------------

  /** The marker an attempt left in the journal. */
  function MarkOf(a: Attempted): seq<Record> {
    match a
    case Sent(id, _, true) => [Done(id)]
    case FailedForGood(_, _, Some(marker)) => [marker]
    case _ => []
  }

  function Marks(trace: seq<Attempted>): seq<Record> {
    if trace == [] then [] else Marks(trace[..|trace| - 1]) + MarkOf(trace[|trace| - 1])
  }

  /** No write of the pass is cut short: each is synced or refused as a whole. */
  predicate WholeWrites(turns: nat -> Turn, n: nat) { forall i :: 0 <= i < n ==> !turns(i).mark.Cut? }

  lemma WholeAppend(file: seq<Utf8.Byte>, log: seq<Record>, r: Record, cap: nat, disk: Disk)
    requires HasShape(file, Shape(log, [])) && !disk.Cut?
    ensures HasShape(AfterAppend(file, r, cap, disk),
      Shape(if Acknowledged(file, r, cap, disk) then log + [r] else log, []))
  {
    hide HasShape, Line;
    if Acknowledged(file, r, cap, disk) {
      assert Line(r)[..|Line(r)|] == Line(r);
      LineLands(file, Shape(log, []), r);
    } else if Fits(file, r, cap) {
      assert file + Line(r)[..0] == file;
    }
  }

  lemma VisitMarks(s: Pass, e: Entry, w: Setting, turn: Turn, log: seq<Record>)
    requires HasShape(s.file, Shape(log, [])) && !turn.mark.Cut?
    ensures var after := Visit(s, e, w, turn);
      && |after.trace| == |s.trace| + 1 && after.trace[..|s.trace|] == s.trace
      && var a := after.trace[|s.trace|];
         && a.id == e.id
         && HasShape(after.file, Shape(log + MarkOf(a), []))
         && (forall r :: r in MarkOf(a) ==> !r.Accepted? && r.id == e.id)
  {
    hide HasShape, DeliverTo, AfterAppend, Acknowledged;
    WholeAppend(s.file, log, Done(e.id), w.cap, turn.mark);
    WholeAppend(s.file, log, Dead(e.id, turn.reason, turn.at), w.cap, turn.mark);
    assert log + [] == log;
  }

  /** Every entry is attempted exactly once, in order, and the log grows by exactly the marks written. */
  lemma {:induction false} VisitsMark(s: Pass, entries: seq<Entry>, w: Setting, turns: nat -> Turn, log: seq<Record>)
    requires HasShape(s.file, Shape(log, [])) && s.trace == [] && WholeWrites(turns, |entries|)
    ensures var after := Visits(s, entries, w, turns);
      && |after.trace| == |entries|
      && (forall i :: 0 <= i < |entries| ==> after.trace[i].id == entries[i].id)
      && HasShape(after.file, Shape(log + Marks(after.trace), []))
      && (forall r :: r in Marks(after.trace) ==> !r.Accepted?)
  {
    hide HasShape, Visit;
    if entries == [] {
      assert log + [] == log;
    } else {
      var n := |entries| - 1;
      VisitsMark(s, entries[..n], w, turns, log);
      var mid := Visits(s, entries[..n], w, turns);
      VisitMarks(mid, entries[n], w, turns(n), log + Marks(mid.trace));
      var after := Visits(s, entries, w, turns);
      var m := MarkOf(after.trace[n]);
      assert after.trace[..n] == mid.trace;
      assert (log + Marks(mid.trace)) + m == log + (Marks(mid.trace) + m);
    }
  }

  /**
    The account of a pass whose writes are synced or refused as a whole: what is pending
    afterwards is what was pending before without exactly the entries whose marker was
    acknowledged.
   */
  lemma WholePassAccounting(s: Pass, w: Setting, turns: nat -> Turn, log: seq<Record>)
    requires HasShape(s.file, Shape(log, [])) && s.trace == [] && WholeWrites(turns, |Pending(log)|)
    ensures var after := Drain(s, w, turns);
      var written := Marks(after.trace);
      && |after.trace| == |Pending(log)|
      && (forall i :: 0 <= i < |after.trace| ==> after.trace[i].id == Pending(log)[i].id)
      && Read(after.file) == Ok(log + written)
      && HasShape(after.file, Shape(log + written, []))
      && Pending(log + written) == Without(Pending(log), MarkedIds(written))
  {
    hide HasShape, Visits, Read, Entries, MarkedIds, Without, Pending;
    ShapeReads(s.file, Shape(log, []));
    assert Recorded(Shape(log, [])) == log;
    VisitsMark(s, Pending(log), w, turns, log);
    var after := Drain(s, w, turns);
    var written := Marks(after.trace);
    ShapeReads(after.file, Shape(log + written, []));
    assert Recorded(Shape(log + written, [])) == log + written;
    Landings.MarksOnly(log, written);
  }

  // ----- counting failures -------------------------------------------------------------------

  /** Permanent failures of `id` since its last transient failure or since it was set aside. */
  function Failures(trace: seq<Attempted>, id: string): nat {
    if trace == [] then 0
    else
      var last := trace[|trace| - 1];
      var before := Failures(trace[..|trace| - 1], id);
      if last.id != id then before
      else match last
        case FailedForGood(_, _, marker) => if marker.Some? then 0 else before + 1
        case FailedForNow(_) => 0
        case _ => before
  }

  /** Every permanent failure was counted right, and only a third one or later set anything aside. */
  predicate Sound(trace: seq<Attempted>) {
    forall i :: 0 <= i < |trace| && trace[i].FailedForGood? ==>
      && trace[i].seen == Failures(trace[..i], trace[i].id) + 1
      && (trace[i].marker.Some? ==> trace[i].seen >= PERMANENT_FAILURES_BEFORE_DEAD)
  }

  ghost predicate Counted(s: Pass) {
    Sound(s.trace) && forall id :: Seen(s.counts, id) == Failures(s.trace, id)
  }

  lemma VisitCountsOne(s: Pass, e: Entry, w: Setting, turn: Turn)
    ensures var after := Visit(s, e, w, turn);
      && |after.trace| == |s.trace| + 1 && after.trace[..|s.trace|] == s.trace
      && var a := after.trace[|s.trace|];
         && a.id == e.id
         && (a.FailedForGood? ==> a.seen == Seen(s.counts, e.id) + 1)
         && (a.FailedForGood? && a.marker.None? ==> Seen(after.counts, e.id) == a.seen)
         && (a.FailedForGood? && a.marker.Some? ==> a.marker.value.Dead? && a.marker.value.id == e.id)
         && forall id :: id != e.id ==> Seen(after.counts, id) == Seen(s.counts, id)
  {
    hide DeliverTo, AfterAppend, Acknowledged;
  }

  lemma VisitCounts(s: Pass, e: Entry, w: Setting, turn: Turn)
    requires Counted(s)
    ensures Counted(Visit(s, e, w, turn))
    ensures s.trace <= Visit(s, e, w, turn).trace
  {
    hide DeliverTo, AfterAppend, Acknowledged;
    hide Seen;
    var after := Visit(s, e, w, turn);
    var n := |s.trace|;
    VisitCountsOne(s, e, w, turn);
    VisitCounter(s, e, w, turn);
    assert after.trace == s.trace + [after.trace[n]];
    forall i | 0 <= i < |s.trace| ensures after.trace[..i] == s.trace[..i] && after.trace[i] == s.trace[i] {}
  }

  /** What one attempt does to the counter of its own entry. */
  lemma VisitCounter(s: Pass, e: Entry, w: Setting, turn: Turn)
    ensures var after := Visit(s, e, w, turn);
      && |after.trace| == |s.trace| + 1
      && var a := after.trace[|s.trace|];
         && Seen(after.counts, e.id) == (match a
              case FailedForGood(_, seen, marker) => if marker.Some? then 0 else seen
              case FailedForNow(_) => 0
              case _ => Seen(s.counts, e.id))
         && (a.FailedForGood? && a.marker.Some? ==> a.seen >= PERMANENT_FAILURES_BEFORE_DEAD)
  {
    hide DeliverTo, AfterAppend, Acknowledged;
  }

  lemma {:induction false} VisitsCount(s: Pass, entries: seq<Entry>, w: Setting, turns: nat -> Turn)
    requires Counted(s)
    ensures Counted(Visits(s, entries, w, turns))
    ensures s.trace <= Visits(s, entries, w, turns).trace
  {
    hide Visit, Counted;
    if entries != [] {
      VisitsCount(s, entries[..|entries| - 1], w, turns);
      VisitCounts(Visits(s, entries[..|entries| - 1], w, turns), entries[|entries| - 1], w, turns(|entries| - 1));
    }
  }

  /** What happens to a running process: passes, compactions, entries accepted, and restarts. */
  datatype Event =
    | Passed(w: Setting, turns: nat -> Turn)
    | Compacting(replaced: bool)
    | Accepting(entry: Entry, cap: nat, disk: Disk)
    | Restarting

  function AfterEvent(s: Pass, e: Event): Pass {
    match e
    case Passed(w, turns) => Drain(s, w, turns)
    case Compacting(replaced) => s.(file := AfterCompact(s.file, replaced))
    case Accepting(entry, cap, disk) => s.(file := AfterAppend(s.file, Accepted(entry), cap, disk))
    case Restarting => Pass(s.file, s.remote, map[], [])
  }

  function AfterEvents(s: Pass, events: seq<Event>): Pass {
    if events == [] then s else AfterEvent(AfterEvents(s, events[..|events| - 1]), events[|events| - 1])
  }

  /**
    Over any run of a process the counter of every id is the number of its permanent
    failures since the last transient one (or since it was set aside, or since the process
    started), and an entry is set aside only at a third such failure or later.
   */
  lemma {:induction false} CountersOverAnyRun(s: Pass, events: seq<Event>)
    requires Counted(s)
    ensures Counted(AfterEvents(s, events))
  {
    hide Visits, Counted, Read, Pending;
    if events != [] {
      var before := AfterEvents(s, events[..|events| - 1]);
      CountersOverAnyRun(s, events[..|events| - 1]);
      match events[|events| - 1]
      case Passed(w, turns) =>
        if Read(before.file).Ok? { VisitsCount(before, Pending(Read(before.file).value), w, turns); }
      case Compacting(replaced) => SameCounts(before, before.(file := AfterCompact(before.file, replaced)));
      case Accepting(e, cap, disk) =>
        SameCounts(before, before.(file := AfterAppend(before.file, Accepted(e), cap, disk)));
      case Restarting => NothingCounted(before);
    }
  }

  lemma SameCounts(s: Pass, t: Pass)
    requires Counted(s) && t.counts == s.counts && t.trace == s.trace
    ensures Counted(t)
  {
  }

  lemma NothingCounted(s: Pass)
    ensures Counted(Pass(s.file, s.remote, map[], []))
  {
  }

  /** The permanent failure before the last one, with no transient failure of the id in between. */
  lemma {:induction false} EarlierFailure(trace: seq<Attempted>, id: string) returns (k: nat)
    requires Failures(trace, id) > 0
    ensures k < |trace| && trace[k].FailedForGood? && trace[k].id == id
    ensures Failures(trace[..k], id) + 1 == Failures(trace, id)
    ensures forall j :: k < j < |trace| ==> !(trace[j].FailedForNow? && trace[j].id == id)
  {
    var n := |trace| - 1;
    if trace[n].id == id && trace[n].FailedForGood? {
      k := n;
    } else {
      k := EarlierFailure(trace[..n], id);
      assert trace[..n][..k] == trace[..k];
      assert forall j :: 0 <= j < n ==> trace[..n][j] == trace[j];
    }
  }

  /** An entry set aside failed permanently at least three times, with no transient failure in between. */
  lemma SetAsideMeansThree(trace: seq<Attempted>, i: nat) returns (j: nat, k: nat)
    requires Sound(trace) && i < |trace| && trace[i].FailedForGood? && trace[i].marker.Some?
    ensures j < k < i
    ensures trace[j].FailedForGood? && trace[k].FailedForGood?
    ensures trace[j].id == trace[k].id == trace[i].id
    ensures forall m :: j < m < i ==> !(trace[m].FailedForNow? && trace[m].id == trace[i].id)
  {
    var id := trace[i].id;
    k := EarlierFailure(trace[..i], id);
    assert trace[..i][..k] == trace[..k];
    j := EarlierFailure(trace[..k], id);
    assert forall m :: 0 <= m < i ==> trace[..i][m] == trace[m];
    assert forall m :: 0 <= m < k ==> trace[..k][m] == trace[m];
  }

  // ----- consecutive or not ------------------------------------------------------------------------

  /** Permanent failures of `id` with no other attempt of it in between, since it was last set aside. */
  function Consecutive(trace: seq<Attempted>, id: string): nat {
    if trace == [] then 0
    else
      var last := trace[|trace| - 1];
      var before := Consecutive(trace[..|trace| - 1], id);
      if last.id != id then before
      else if last.FailedForGood? && last.marker.None? then before + 1
      else 0
  }

  /** An attempt that sets the counter of its entry back. */
  predicate Resets(a: Attempted) { a.FailedForNow? || (a.FailedForGood? && a.marker.Some?) }

  /** A success whose marker was not written, or a pass without a profile, stands after a failure still counted. */
  predicate Interrupted(trace: seq<Attempted>, id: string) {
    exists i :: 0 <= i < |trace| && Interrupts(trace, i, id)
  }

  predicate Interrupts(trace: seq<Attempted>, i: nat, id: string)
    requires i < |trace|
  {
    && trace[i].id == id && (trace[i].Sent? || trace[i].NoProfile?) && Failures(trace[..i], id) > 0
    && forall j :: i < j < |trace| && trace[j].id == id ==> !Resets(trace[j])
  }

  /**
    The counter is the number of consecutive permanent failures exactly when no success left
    unmarked and no pass without a profile stands after a failure still counted.
   */
  lemma {:induction false} CounterIsConsecutiveExactlyWhen(trace: seq<Attempted>, id: string)
    ensures Consecutive(trace, id) <= Failures(trace, id)
    ensures Failures(trace, id) == Consecutive(trace, id) <==> !Interrupted(trace, id)
  {
    hide Interrupts;
    if trace != [] {
      var n := |trace| - 1;
      CounterIsConsecutiveExactlyWhen(trace[..n], id);
      var last := trace[n];
      InterruptsStays(trace, id);
    }
  }

  /** What one more attempt does to the interruptions. */
  lemma InterruptsStays(trace: seq<Attempted>, id: string)
    requires trace != []
    ensures var n := |trace| - 1;
      var last := trace[n];
      Interrupted(trace, id) <==>
        if last.id != id then Interrupted(trace[..n], id)
        else if Resets(last) then false
        else Interrupted(trace[..n], id) || ((last.Sent? || last.NoProfile?) && Failures(trace[..n], id) > 0)
  {
    hide Failures;
    var n := |trace| - 1;
    var init, last := trace[..n], trace[n];
    forall i | 0 <= i < n
      ensures Interrupts(trace, i, id) <==> Interrupts(init, i, id) && (last.id == id ==> !Resets(last))
    {
      assert init[..i] == trace[..i] && init[i] == trace[i];
      assert forall j :: 0 <= j < n ==> init[j] == trace[j];
    }
    if Interrupted(init, id) {
      var i :| 0 <= i < |init| && Interrupts(init, i, id);
      assert 0 <= i < |trace|;
    }
    assert Interrupts(trace, n, id) <==> last.id == id && (last.Sent? || last.NoProfile?) && Failures(init, id) > 0;
  }

  // ----- the queue drains -----------------------------------------------------------------------

  /** An attempt without outside trouble: delivered and marked, or a counted failure set aside in time. */
  predicate Healthy(a: Attempted) {
    || (a.Sent? && a.marked)
    || (a.FailedForGood? && (a.seen >= PERMANENT_FAILURES_BEFORE_DEAD ==> a.marker.Some?))
  }

  predicate AllHealthy(trace: seq<Attempted>) { forall a :: a in trace ==> Healthy(a) }

  /** With distinct ids, an entry's attempt sees the counter the pass started with and decides the one it ends with. */
  lemma {:induction false} CountersInAPass(s: Pass, entries: seq<Entry>, w: Setting, turns: nat -> Turn)
    requires DistinctIds(entries) && s.trace == []
    ensures var after := Visits(s, entries, w, turns);
      && |after.trace| == |entries|
      && (forall i :: 0 <= i < |entries| ==>
            var a := after.trace[i];
            && a.id == entries[i].id
            && (a.FailedForGood? ==> a.seen == Seen(s.counts, a.id) + 1)
            && (a.FailedForGood? && a.marker.None? ==> Seen(after.counts, a.id) == a.seen)
            && (a.FailedForGood? && a.marker.Some? ==> a.marker.value.Dead? && a.marker.value.id == a.id))
      && (forall id :: (forall i :: 0 <= i < |entries| ==> entries[i].id != id) ==>
            Seen(after.counts, id) == Seen(s.counts, id))
  {
    hide Visit, Seen;
    if entries != [] {
      var n := |entries| - 1;
      CountersInAPass(s, entries[..n], w, turns);
      var mid := Visits(s, entries[..n], w, turns);
      VisitCountsOne(mid, entries[n], w, turns(n));
      assert forall i :: 0 <= i < n ==> entries[..n][i] == entries[i];
      var after := Visits(s, entries, w, turns);
      assert forall i :: 0 <= i < n ==> after.trace[i] == mid.trace[i];
    }
  }

  lemma {:induction false} MarksInclude(trace: seq<Attempted>, i: nat)
    requires i < |trace|
    ensures forall r :: r in MarkOf(trace[i]) ==> r in Marks(trace)
  {
    var n := |trace| - 1;
    if i < n { MarksInclude(trace[..n], i); }
  }

  lemma WrittenIsMarked(trace: seq<Attempted>, i: nat)
    requires i < |trace|
    ensures trace[i].Sent? && trace[i].marked ==> trace[i].id in MarkedIds(Marks(trace))
    ensures trace[i].FailedForGood? && trace[i].marker.Some? && !trace[i].marker.value.Accepted? ==>
      trace[i].marker.value.id in MarkedIds(Marks(trace))
  {
    MarksInclude(trace, i);
    if trace[i].Sent? && trace[i].marked { assert Done(trace[i].id) in MarkOf(trace[i]); }
    if trace[i].FailedForGood? && trace[i].marker.Some? { assert trace[i].marker.value in MarkOf(trace[i]); }
  }

  /** After a pass without outside trouble, whatever is left was left by one more counted failure. */
  lemma HealthyPass(s: Pass, w: Setting, turns: nat -> Turn, log: seq<Record>)
    requires HasShape(s.file, Shape(log, [])) && s.trace == [] && WholeWrites(turns, |Pending(log)|)
    requires DistinctIds(Entries(log)) && AllHealthy(Drain(s, w, turns).trace)
    ensures var after := Drain(s, w, turns);
      var log' := log + Marks(after.trace);
      && HasShape(after.file, Shape(log', [])) && DistinctIds(Entries(log'))
      && (forall e :: e in Pending(log') ==>
            e in Pending(log) && Seen(after.counts, e.id) == Seen(s.counts, e.id) + 1 < PERMANENT_FAILURES_BEFORE_DEAD)
  {
    var after := Drain(s, w, turns);
    var written := Marks(after.trace);
    var pending := Pending(log);
    hide HasShape, Visits, Visit, Read, Entries, Without, Pending;
    WholePassAccounting(s, w, turns, log);
    ShapeReads(s.file, Shape(log, []));
    assert Recorded(Shape(log, [])) == log;
    MarksAreNoEntries(s, w, turns, log);
    PendingDistinct(log);
    CountersInAPass(s, pending, w, turns);
    WithoutMembers(pending, MarkedIds(written));
    forall e | e in Pending(log + written)
      ensures e in pending && Seen(after.counts, e.id) == Seen(s.counts, e.id) + 1 < PERMANENT_FAILURES_BEFORE_DEAD
    {
      var i :| 0 <= i < |pending| && pending[i] == e;
      var a := after.trace[i];
      assert a in after.trace && Healthy(a);
      WrittenIsMarked(after.trace, i);
    }
  }

  lemma PendingDistinct(log: seq<Record>)
    requires DistinctIds(Entries(log))
    ensures DistinctIds(Pending(log))
  {
    FiltersDistinct(Entries(log), MarkedIds(log));
  }

  lemma MarksAreNoEntries(s: Pass, w: Setting, turns: nat -> Turn, log: seq<Record>)
    requires HasShape(s.file, Shape(log, [])) && s.trace == [] && WholeWrites(turns, |Pending(log)|)
    ensures Entries(log + Marks(Drain(s, w, turns).trace)) == Entries(log)
  {
    hide HasShape, Visits, Visit, Read, Entries;
    ShapeReads(s.file, Shape(log, []));
    assert Recorded(Shape(log, [])) == log;
    VisitsMark(s, Pending(log), w, turns, log);
    var written := Marks(Drain(s, w, turns).trace);
    Landings.MarksOnly(log, written);
  }

  /** How many failures the pending entries are still allowed, together. */
  function Potential(entries: seq<Entry>, counts: Counts): nat {
    if entries == [] then 0
    else if Seen(counts, entries[0].id) < PERMANENT_FAILURES_BEFORE_DEAD then
      Potential(entries[1..], counts) + PERMANENT_FAILURES_BEFORE_DEAD - Seen(counts, entries[0].id)
    else Potential(entries[1..], counts)
  }

  lemma {:induction false} PotentialFallsAlong(entries: seq<Entry>, ids: set<string>, before: Counts, after: Counts)
    requires forall e :: e in entries ==> Seen(before, e.id) < PERMANENT_FAILURES_BEFORE_DEAD
    requires forall e :: e in entries && e.id !in ids ==> Seen(after, e.id) == Seen(before, e.id) + 1
    ensures Potential(Without(entries, ids), after) + |entries| <= Potential(entries, before)
  {
    if entries != [] {
      assert entries[0] in entries;
      PotentialFallsAlong(entries[1..], ids, before, after);
    }
  }

  /** A pass without outside trouble uses up at least one allowed failure per pending entry. */
  lemma PotentialFalls(s: Pass, w: Setting, turns: nat -> Turn, log: seq<Record>)
    requires HasShape(s.file, Shape(log, [])) && s.trace == [] && WholeWrites(turns, |Pending(log)|)
    requires DistinctIds(Entries(log)) && AllHealthy(Drain(s, w, turns).trace)
    requires forall e :: e in Pending(log) ==> Seen(s.counts, e.id) < PERMANENT_FAILURES_BEFORE_DEAD
    ensures var after := Drain(s, w, turns);
      Potential(Pending(log + Marks(after.trace)), after.counts) + |Pending(log)| <= Potential(Pending(log), s.counts)
  {
    var after := Drain(s, w, turns);
    var written := Marks(after.trace);
    hide HasShape, Drain, Entries, Without, Pending, Seen;
    HealthyPass(s, w, turns, log);
    WholePassAccounting(s, w, turns, log);
    WithoutMembers(Pending(log), MarkedIds(written));
    PotentialFallsAlong(Pending(log), MarkedIds(written), s.counts, after.counts);
  }

  /** Three passes without outside trouble, and nothing new, leave nothing pending. */
  lemma QueueDrains(s: Pass, w: Setting, t1: nat -> Turn, t2: nat -> Turn, t3: nat -> Turn, log: seq<Record>)
    requires HasShape(s.file, Shape(log, [])) && s.trace == [] && DistinctIds(Entries(log))
    requires forall i :: !t1(i).mark.Cut? && !t2(i).mark.Cut? && !t3(i).mark.Cut?
    requires AllHealthy(Drain(s, w, t1).trace)
    requires var s1 := Drain(s, w, t1).(trace := []); AllHealthy(Drain(s1, w, t2).trace)
    requires var s1 := Drain(s, w, t1).(trace := []);
      var s2 := Drain(s1, w, t2).(trace := []);
      AllHealthy(Drain(s2, w, t3).trace)
    ensures var s1 := Drain(s, w, t1).(trace := []);
      var s2 := Drain(s1, w, t2).(trace := []);
      exists records :: Read(Drain(s2, w, t3).file) == Ok(records) && Pending(records) == []
  {
    hide HasShape, Drain, Entries, Pending, Seen, AllHealthy, Read;
    var s1 := Drain(s, w, t1).(trace := []);
    var s2 := Drain(s1, w, t2).(trace := []);
    var log1 := log + Marks(Drain(s, w, t1).trace);
    var log2 := log1 + Marks(Drain(s1, w, t2).trace);
    var log3 := log2 + Marks(Drain(s2, w, t3).trace);
    assert Pending(log3) != [] ==> Pending(log3)[0] in Pending(log3);
    HealthyPass(s, w, t1, log);
    HealthyPass(s1, w, t2, log1);
    HealthyPass(s2, w, t3, log2);
    WholePassAccounting(s2, w, t3, log2);
    assert Read(Drain(s2, w, t3).file) == Ok(log3);
  }

  /** A pass that counts nothing beforehand sets nothing aside: startup and shutdown only deliver. */
  lemma UntrackedNeverSetsAside(s: Pass, w: Setting, turns: nat -> Turn, log: seq<Record>)
    requires Read(s.file) == Ok(log) && s.trace == [] && s.counts == map[] && DistinctIds(Entries(log))
    ensures forall a :: a in Drain(s, w, turns).trace && a.FailedForGood? ==> a.marker.None?
  {
    hide Visits, Read, Entries, Pending, Failures;
    PendingDistinct(log);
    CountersInAPass(s, Pending(log), w, turns);
    NothingCounted(s);
    VisitsCount(s, Pending(log), w, turns);
    var trace := Drain(s, w, turns).trace;
    forall a | a in trace && a.FailedForGood? ensures a.marker.None? {
      var i :| 0 <= i < |trace| && trace[i] == a;
      assert Seen(s.counts, a.id) == 0;
    }
  }
}
