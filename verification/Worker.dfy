/**
  The delivery worker: one pass over the pending entries, its dead-letter counters, and the
  loop around it.
 */
module Worker {
  import opened Wrappers
  import opened Records
  import opened RecordFile
  import opened Remote
  import opened Delivery
  import Journal
  import Pacing
  import Profile
  import Request
  import Utf8

  const PERMANENT_FAILURES_BEFORE_DEAD := 3
  const COMPACT_AFTER_DELIVERIES := 100

  type Profiles = map<string, Profile.Profile>

  /** Consecutive permanent failures by entry id. */
  type Counts = map<string, nat>

  function Seen(counts: Counts, id: string): nat { if id in counts then counts[id] else 0 }

  /** How the network and the disk treat one entry, and the words a failure would be recorded in. */
  datatype Turn = Turn(net: Net, mark: Disk, reason: string, at: string)

  /** What a pass did with one entry. */
  datatype Attempted =
    | NoProfile(id: string)
    | Sent(id: string, delivered: Delivered, marked: bool)
    | FailedForNow(id: string)
    | FailedForGood(id: string, seen: nat, marker: Option<Record>)

  /** The state a pass folds over: the durable part, the counters, and what was done so far. */
  datatype Pass = Pass(file: seq<Utf8.Byte>, remote: Remote, counts: Counts, trace: seq<Attempted>)

  /** What stays the same during a pass. */
  datatype Setting = Setting(profiles: Profiles, lib: Request.Library, cap: nat)

  function Visit(s: Pass, entry: Entry, w: Setting, turn: Turn): Pass {
    if entry.sourceId !in w.profiles then s.(trace := s.trace + [NoProfile(entry.id)])
    else
      var (remote, result) := DeliverTo(s.remote, entry, w.profiles[entry.sourceId], w.lib, turn.net);
      match result
      case Ok(delivered) =>
        Pass(AfterAppend(s.file, Done(entry.id), w.cap, turn.mark), remote, s.counts,
             s.trace + [Sent(entry.id, delivered, Acknowledged(s.file, Done(entry.id), w.cap, turn.mark))])
      case Err(Transient) =>
        Pass(s.file, remote, s.counts - {entry.id}, s.trace + [FailedForNow(entry.id)])
      case Err(Permanent) =>
        var seen := Seen(s.counts, entry.id) + 1;
        var counted := s.counts[entry.id := seen];
        if seen < PERMANENT_FAILURES_BEFORE_DEAD then
          Pass(s.file, remote, counted, s.trace + [FailedForGood(entry.id, seen, None)])
        else
          var marker := Dead(entry.id, turn.reason, turn.at);
          var written := Acknowledged(s.file, marker, w.cap, turn.mark);
          Pass(AfterAppend(s.file, marker, w.cap, turn.mark), remote,
               if written then counted - {entry.id} else counted,
               s.trace + [FailedForGood(entry.id, seen, if written then Some(marker) else None)])
  }

  /** The entries in order; the turns are those of one pass. */
  function Visits(s: Pass, entries: seq<Entry>, w: Setting, turns: nat -> Turn): Pass {
    if entries == [] then s
    else
      var n := |entries| - 1;
      Visit(Visits(s, entries[..n], w, turns), entries[n], w, turns(n))
  }

  /** A whole pass; an unreadable journal is one failure and nothing else. */
  function Drain(s: Pass, w: Setting, turns: nat -> Turn): Pass {
    match Read(s.file)
    case Ok(records) => Visits(s, Pending(records), w, turns)
    case Err(_) => s
  }

  function CountSent(trace: seq<Attempted>): (n: nat)
    ensures n <= |trace|
  {
    if trace == [] then 0
    else CountSent(trace[..|trace| - 1]) + if trace[|trace| - 1].Sent? then 1 else 0
  }

  lemma VisitsOfNone(s: Pass, entries: seq<Entry>, w: Setting, turns: nat -> Turn)
    ensures Visits(s, entries[..0], w, turns) == s && CountSent([]) == 0
  {
    hide Visit;
  }

  lemma VisitsOfOneMore(s: Pass, entries: seq<Entry>, i: nat, w: Setting, turns: nat -> Turn)
    requires i < |entries|
    ensures Visits(s, entries[..i + 1], w, turns) == Visit(Visits(s, entries[..i], w, turns), entries[i], w, turns(i))
  {
    hide Visit;
    assert entries[..i + 1][..i] == entries[..i] && entries[..i + 1][i] == entries[i];
  }

  lemma CountOneMore(trace: seq<Attempted>, a: Attempted)
    ensures CountSent(trace + [a]) == CountSent(trace) + if a.Sent? then 1 else 0
  {
    assert (trace + [a])[..|trace + [a]| - 1] == trace;
  }

  /** What the pacing sees of a pass: its counts, and for a stalled one whether the journal is filling. */
  function Observed(before: seq<Utf8.Byte>, after: Pass, cap: nat): Pacing.Observation {
    var sent := CountSent(after.trace);
    var summary := Pacing.DrainSummary(sent, if Read(before).Ok? then |after.trace| - sent else 1);
    Pacing.Observation(summary,
      summary.failed > 0 && summary.delivered == 0 && Pacing.JournalIsFilling(|after.file|, cap))
  }

  // ----- one tick of the loop -------------------------------------------------------------

  /** What the loop keeps between ticks. */
  datatype Kept = Kept(sinceCompaction: nat, counts: Counts, pace: Pacing.State)

  /** What a tick meets: the journal and the calendars as they are by then, the pass's turns, the compaction's end. */
  datatype Met = Met(file: seq<Utf8.Byte>, remote: Remote, turns: nat -> Turn, replaced: bool)

  function PassOf(k: Kept, met: Met, w: Setting): Pass {
    Drain(Pass(met.file, met.remote, k.counts, []), w, met.turns)
  }

  function SentIn(k: Kept, met: Met, w: Setting): nat { CountSent(PassOf(k, met, w).trace) }

  predicate TriesToCompact(k: Kept, met: Met, w: Setting) {
    k.sinceCompaction + SentIn(k, met, w) >= COMPACT_AFTER_DELIVERIES
  }

  predicate Compacts(k: Kept, met: Met, w: Setting) {
    TriesToCompact(k, met, w) && met.replaced && Read(PassOf(k, met, w).file).Ok?
  }

  function PacedBy(k: Kept, met: Met, w: Setting): (Pacing.State, Pacing.Pacing) {
    Pacing.Next(k.pace, Observed(met.file, PassOf(k, met, w), w.cap))
  }

  function AfterTick(k: Kept, met: Met, w: Setting): Kept {
    Kept(if Compacts(k, met, w) then 0 else k.sinceCompaction + SentIn(k, met, w),
         PassOf(k, met, w).counts, PacedBy(k, met, w).0)
  }

  // ----- the objects --------------------------------------------------------------------

  class PermanentFailures {
    var counts: Counts

    constructor ()
      ensures counts == map[]
    {
      counts := map[];
    }
  }

  datatype DrainOutcome = DrainOutcome(delivered: nat, failed: nat)

  /** Delivers every pending entry once, marks what was delivered and sets aside what never can be. */
  method DrainOnceTracking(journal: Journal.Journal, client: CalendarClient, locks: KeyLocks,
                           permanent: PermanentFailures, w: Setting, turns: nat -> Turn)
    returns (outcome: DrainOutcome, ghost trace: seq<Attempted>)
    requires locks.Valid() && w.cap == journal.maxBytes
    modifies journal, client, locks, permanent
    ensures locks.Valid()
    ensures Pass(journal.file, client.remote, permanent.counts, trace)
         == Drain(Pass(old(journal.file), old(client.remote), old(permanent.counts), []), w, turns)
    ensures outcome.delivered == CountSent(trace)
    ensures outcome == match Read(old(journal.file))
      case Ok(_) => DrainOutcome(CountSent(trace), |trace| - CountSent(trace))
      case Err(_) => DrainOutcome(0, 1)
  {
    hide Visit, Visits, Read, Pending, CountSent;
    trace := [];
    var pending := journal.PendingEntries();
    if pending.Err? { return DrainOutcome(0, 1), []; }
    var entries := pending.value;
    var delivered, failed := 0, 0;
    ghost var start := Pass(journal.file, client.remote, permanent.counts, []);
    var i := 0;
    VisitsOfNone(start, entries, w, turns);
    while i < |entries|
      invariant 0 <= i <= |entries| && locks.Valid()
      invariant Pass(journal.file, client.remote, permanent.counts, trace) == Visits(start, entries[..i], w, turns)
      invariant delivered == CountSent(trace) && delivered + failed == |trace|
    {
      VisitsOfOneMore(start, entries, i, w, turns);
      var attempted := VisitEntry(journal, client, locks, permanent, entries[i], w, turns(i), trace);
      CountOneMore(trace, attempted);
      trace := trace + [attempted];
      if attempted.Sent? { delivered := delivered + 1; } else { failed := failed + 1; }
      i := i + 1;
    }
    assert entries[..i] == entries;
    outcome := DrainOutcome(delivered, failed);
  }

  /** One entry of a pass: deliver it, then mark it, count it or set it aside. */
  method VisitEntry(journal: Journal.Journal, client: CalendarClient, locks: KeyLocks, permanent: PermanentFailures,
                    entry: Entry, w: Setting, turn: Turn, ghost before: seq<Attempted>)
    returns (attempted: Attempted)
    requires locks.Valid() && w.cap == journal.maxBytes
    modifies journal, client, locks, permanent
    ensures locks.Valid()
    ensures Pass(journal.file, client.remote, permanent.counts, before + [attempted])
         == Visit(Pass(old(journal.file), old(client.remote), old(permanent.counts), before), entry, w, turn)
  {
    hide DeliverTo, AfterAppend, Acknowledged;
    if entry.sourceId !in w.profiles { return NoProfile(entry.id); }
    var result := Deliver(entry, w.profiles[entry.sourceId], client, locks, w.lib, turn.net);
    match result {
      case Ok(d) =>
        var marked := journal.MarkDone(entry.id, turn.mark);
        attempted := Sent(entry.id, d, marked.Ok?);
      case Err(Transient) =>
        permanent.counts := permanent.counts - {entry.id};
        attempted := FailedForNow(entry.id);
      case Err(Permanent) =>
        var seen := Seen(permanent.counts, entry.id) + 1;
        permanent.counts := permanent.counts[entry.id := seen];
        attempted := FailedForGood(entry.id, seen, None);
        if seen >= PERMANENT_FAILURES_BEFORE_DEAD {
          var written := journal.MarkDead(entry.id, turn.reason, turn.at, turn.mark);
          if written.Ok? { permanent.counts := permanent.counts - {entry.id}; }
          attempted := FailedForGood(entry.id, seen,
            if written.Ok? then Some(Dead(entry.id, turn.reason, turn.at)) else None);
        }
    }
  }

  /** The state of the loop between passes. */
  class Loop {
    const journal: Journal.Journal
    const client: CalendarClient
    const locks: KeyLocks
    const permanent: PermanentFailures
    const pace: Pacing.Worker
    var sinceCompaction: nat

    constructor (journal: Journal.Journal, client: CalendarClient, locks: KeyLocks, replayed: nat)
      ensures this.journal == journal && this.client == client && this.locks == locks
      ensures sinceCompaction == replayed && permanent.counts == map[] && pace.Abstract() == Pacing.START
      ensures fresh(permanent) && fresh(pace)
    {
      this.journal, this.client, this.locks := journal, client, locks;
      permanent := new PermanentFailures();
      pace := new Pacing.Worker();
      sinceCompaction := replayed;
    }

    /** What it keeps from one tick to the next. */
    function Keeps(): Kept
      reads this, permanent, pace
    {
      Kept(sinceCompaction, permanent.counts, pace.Abstract())
    }

    /** One tick: drain, pace, and compact once enough was delivered since the last time. */
    method Tick(w: Setting, turns: nat -> Turn, replaced: bool)
      returns (next: Pacing.Pacing, ghost trace: seq<Attempted>)
      requires locks.Valid() && w.cap == journal.maxBytes
      modifies this`sinceCompaction, journal, client, locks, permanent, pace
      ensures locks.Valid()
      ensures var s := Drain(Pass(old(journal.file), old(client.remote), old(permanent.counts), []), w, turns);
        var total := old(sinceCompaction) + CountSent(trace);
        && client.remote == s.remote && permanent.counts == s.counts && trace == s.trace
        && (if total >= COMPACT_AFTER_DELIVERIES then
              && journal.file == AfterCompact(s.file, replaced)
              && sinceCompaction == (if replaced && Read(s.file).Ok? then 0 else total)
            else journal.file == s.file && sinceCompaction == total)
      ensures var s := Drain(Pass(old(journal.file), old(client.remote), old(permanent.counts), []), w, turns);
        (pace.Abstract(), next) == Pacing.Next(old(pace.Abstract()), Observed(old(journal.file), s, journal.maxBytes))
      ensures Keeps() == AfterTick(old(Keeps()), Met(old(journal.file), old(client.remote), turns, replaced), w)
    {
      hide Drain, Read, AfterCompact, CountSent;
      var outcome;
      outcome, trace := DrainOnceTracking(journal, client, locks, permanent, w, turns);
      sinceCompaction := sinceCompaction + outcome.delivered;
      var stalled := outcome.failed > 0 && outcome.delivered == 0;
      var filling := stalled && Pacing.JournalIsFilling(|journal.file|, journal.maxBytes);
      next := pace.After(Pacing.DrainSummary(outcome.delivered, outcome.failed), filling);
      if sinceCompaction >= COMPACT_AFTER_DELIVERIES {
        var compacted := journal.Compact(replaced);
        if compacted.Ok? { sinceCompaction := 0; }
      }
    }
  }
}
