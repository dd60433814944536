/** The worker's loop over any run of ticks, whatever the door and the dashboard do in between. */
module Ticks {
  import opened Wrappers
  import opened Worker
  import RecordFile
  import Pacing

  // ----- when the journal is compacted --------------------------------------------------

  /** What a tick delivers, and whether a compaction in it would succeed. */
  datatype Tally = Tally(sent: nat, compactable: bool)

  /** The deliveries counted before tick `i`: a compaction starts the count again. */
  function Since(start: nat, ts: seq<Tally>, i: nat): nat
    requires i <= |ts|
    decreases i, 0
  {
    if i == 0 then start else if CompactedAt(start, ts, i - 1) then 0 else Since(start, ts, i - 1) + ts[i - 1].sent
  }

  predicate TriedAt(start: nat, ts: seq<Tally>, i: nat)
    requires i < |ts|
    decreases i, 1
  {
    Since(start, ts, i) + ts[i].sent >= 100
  }

  predicate CompactedAt(start: nat, ts: seq<Tally>, i: nat)
    requires i < |ts|
    decreases i, 2
  {
    TriedAt(start, ts, i) && ts[i].compactable
  }

  /** The deliveries of the ticks from `from` up to `to`. */
  function SentBetween(ts: seq<Tally>, from: nat, to: nat): nat
    requires from <= to <= |ts|
  {
    if from == to then 0 else SentBetween(ts, from, to - 1) + ts[to - 1].sent
  }

  /** Nothing has been compacted since tick `last`, and that tick is the first or follows a compaction. */
  predicate IsLastCompaction(start: nat, ts: seq<Tally>, last: nat, i: nat)
    requires last <= i <= |ts|
  {
    && (last == 0 || CompactedAt(start, ts, last - 1))
    && forall j :: last <= j < i ==> !CompactedAt(start, ts, j)
  }

  /** The deliveries since the last compaction; before the first, those of the replay count too. */
  function Counted(start: nat, ts: seq<Tally>, last: nat, i: nat): nat
    requires last <= i <= |ts|
  {
    (if last == 0 then start else 0) + SentBetween(ts, last, i)
  }

  lemma {:induction false} CountedSince(start: nat, ts: seq<Tally>, last: nat, i: nat)
    requires last <= i <= |ts| && IsLastCompaction(start, ts, last, i)
    ensures Since(start, ts, i) == Counted(start, ts, last, i)
    decreases i - last
  {
    if last < i { CountedSince(start, ts, last, i - 1); }
  }

  /**
    A compaction is tried in a tick exactly if the deliveries since the last one, this tick's
    with them, have reached a hundred.
   */
  lemma CompactionIsTriedExactlyWhen(start: nat, ts: seq<Tally>, last: nat, i: nat)
    requires last <= i < |ts| && IsLastCompaction(start, ts, last, i)
    ensures TriedAt(start, ts, i) <==> Counted(start, ts, last, i + 1) >= 100
  {
    CountedSince(start, ts, last, i);
  }

  /** While every try would succeed, the next compaction is in the tick that brings the count to a hundred. */
  lemma CompactsAtTheHundredth(start: nat, ts: seq<Tally>, last: nat, i: nat)
    requires last <= i < |ts| && IsLastCompaction(start, ts, last, last)
    requires forall j :: last <= j <= i ==> ts[j].compactable
    ensures IsLastCompaction(start, ts, last, i) && CompactedAt(start, ts, i) <==>
      (last < i ==> Counted(start, ts, last, i) < 100) && Counted(start, ts, last, i + 1) >= 100
  {
    NoneBelowAHundred(start, ts, last, i);
    if IsLastCompaction(start, ts, last, i) { CompactionIsTriedExactlyWhen(start, ts, last, i); }
  }

  lemma {:induction false} NoneBelowAHundred(start: nat, ts: seq<Tally>, last: nat, i: nat)
    requires last <= i <= |ts| && IsLastCompaction(start, ts, last, last)
    requires forall j :: last <= j < i ==> ts[j].compactable
    ensures IsLastCompaction(start, ts, last, i) <==> last == i || Counted(start, ts, last, i) < 100
    decreases i
  {
    if last < i {
      NoneBelowAHundred(start, ts, last, i - 1);
      assert ts[i - 1].compactable;
      assert IsLastCompaction(start, ts, last, i) <==>
        IsLastCompaction(start, ts, last, i - 1) && !CompactedAt(start, ts, i - 1);
      if IsLastCompaction(start, ts, last, i - 1) { CompactionIsTriedExactlyWhen(start, ts, last, i - 1); }
    }
  }

  // ----- the loop's own ticks -----------------------------------------------------------

  /** What the loop keeps before tick `i`. */
  function Before(k: Kept, ticks: seq<Met>, i: nat, w: Setting): Kept
    requires i <= |ticks|
  {
    if i == 0 then k else AfterTick(Before(k, ticks, i - 1, w), ticks[i - 1], w)
  }

  /** The pass of tick `i`. */
  function PassAt(k: Kept, ticks: seq<Met>, i: nat, w: Setting): Pass
    requires i < |ticks|
  {
    PassOf(Before(k, ticks, i, w), ticks[i], w)
  }

  /** A compaction succeeds if the journal left by the pass can be read and its replacement is put in its place. */
  function TallyOf(k: Kept, met: Met, w: Setting): Tally {
    var pass := PassOf(k, met, w);
    Tally(CountSent(pass.trace), met.replaced && RecordFile.Read(pass.file).Ok?)
  }

  function Tallies(k: Kept, ticks: seq<Met>, n: nat, w: Setting): (ts: seq<Tally>)
    requires n <= |ticks|
    ensures |ts| == n && forall i :: 0 <= i < n ==> ts[i] == TallyOf(Before(k, ticks, i, w), ticks[i], w)
  {
    if n == 0 then []
    else Tallies(k, ticks, n - 1, w) + [TallyOf(Before(k, ticks, n - 1, w), ticks[n - 1], w)]
  }

  lemma OneTick(k: Kept, met: Met, w: Setting)
    ensures var tally := TallyOf(k, met, w);
      && (TriesToCompact(k, met, w) <==> k.sinceCompaction + tally.sent >= 100)
      && (Compacts(k, met, w) <==> TriesToCompact(k, met, w) && tally.compactable)
      && AfterTick(k, met, w).sinceCompaction == if Compacts(k, met, w) then 0 else k.sinceCompaction + tally.sent
  {
    hide PassOf, PacedBy;
  }

  /** The loop counts, tries to compact and compacts as said above, whatever happens between its ticks. */
  lemma {:induction false} LoopCountsSo(k: Kept, ticks: seq<Met>, i: nat, w: Setting)
    requires i <= |ticks|
    ensures var ts := Tallies(k, ticks, |ticks|, w);
      && Before(k, ticks, i, w).sinceCompaction == Since(k.sinceCompaction, ts, i)
      && (i < |ticks| ==>
            && (TriesToCompact(Before(k, ticks, i, w), ticks[i], w) <==> TriedAt(k.sinceCompaction, ts, i))
            && (Compacts(Before(k, ticks, i, w), ticks[i], w) <==> CompactedAt(k.sinceCompaction, ts, i)))
  {
    hide TallyOf, Tallies, TriesToCompact, Compacts, AfterTick;
    if i > 0 {
      LoopCountsSo(k, ticks, i - 1, w);
      OneTick(Before(k, ticks, i - 1, w), ticks[i - 1], w);
    }
    if i < |ticks| { OneTick(Before(k, ticks, i, w), ticks[i], w); }
  }

  // ----- pacing ---------------------------------------------------------------------------

  function ObservedAt(k: Kept, ticks: seq<Met>, i: nat, w: Setting): Pacing.Observation
    requires i < |ticks|
  {
    Observed(ticks[i].file, PassAt(k, ticks, i, w), w.cap)
  }

  /** The passes of the first `n` ticks as the pacing sees them. */
  function Observations(k: Kept, ticks: seq<Met>, n: nat, w: Setting): (r: seq<Pacing.Observation>)
    requires n <= |ticks|
    ensures |r| == n && forall i :: 0 <= i < n ==> r[i] == ObservedAt(k, ticks, i, w)
  {
    if n == 0 then [] else Observations(k, ticks, n - 1, w) + [ObservedAt(k, ticks, n - 1, w)]
  }

  lemma {:induction false} PaceIsOfTheTrace(k: Kept, ticks: seq<Met>, i: nat, w: Setting)
    requires i <= |ticks| && k.pace == Pacing.START
    ensures Before(k, ticks, i, w).pace == Pacing.After(Observations(k, ticks, i, w))
  {
    hide PassOf, Observed, Pacing.Next;
    if i > 0 {
      PaceIsOfTheTrace(k, ticks, i - 1, w);
      var seen := Observations(k, ticks, i, w);
      assert seen[..i - 1] == Observations(k, ticks, i - 1, w);
    }
  }

  /** A pass that tried something and delivered nothing. */
  predicate NothingGotThrough(k: Kept, ticks: seq<Met>, i: nat, w: Setting)
    requires i < |ticks|
  {
    var pass := PassAt(k, ticks, i, w);
    CountSent(pass.trace) == 0 && (RecordFile.Read(ticks[i].file).Ok? ==> pass.trace != [])
  }

  /** The journal left by the pass has reached half its cap. */
  predicate HalfFull(k: Kept, ticks: seq<Met>, i: nat, w: Setting)
    requires i < |ticks|
  {
    2 * |PassAt(k, ticks, i, w).file| >= w.cap
  }

  function AnswerAt(k: Kept, ticks: seq<Met>, i: nat, w: Setting): Pacing.Pacing
    requires i < |ticks|
  {
    PacedBy(Before(k, ticks, i, w), ticks[i], w).1
  }

  /**
    Over any run of ticks of a fresh loop: a backlog is reported in the first tick of an outage
    that leaves the journal at half its cap or more, and in no other; and the next tick comes
    after five seconds, or in an outage after the ladder's wait for its length so far.
   */
  lemma BacklogIsReportedExactlyWhen(k: Kept, ticks: seq<Met>, from: nat, i: nat, w: Setting)
    requires from <= i < |ticks| && k.pace == Pacing.START
    requires forall j :: from <= j < i ==> NothingGotThrough(k, ticks, j, w)
    requires from > 0 ==> !NothingGotThrough(k, ticks, from - 1, w)
    ensures AnswerAt(k, ticks, i, w).reportBacklog <==>
      && NothingGotThrough(k, ticks, i, w) && HalfFull(k, ticks, i, w)
      && forall j :: from <= j < i ==> !HalfFull(k, ticks, j, w)
    ensures AnswerAt(k, ticks, i, w).waitSecs ==
      if NothingGotThrough(k, ticks, i, w) then [15, 60, 300, 900, 1800][if i - from < 4 then i - from else 4] else 5
  {
    hide *;
    var seen := Observations(k, ticks, |ticks|, w);
    TraceAsItIs(k, ticks, w);
    AnswersAreOfTheTrace(k, ticks, i, w);
    Pacing.RunLength(seen, from, i);
    Pacing.AnswersOverAnyTrace(seen, i);
  }

  lemma TraceAsItIs(k: Kept, ticks: seq<Met>, w: Setting)
    ensures var seen := Observations(k, ticks, |ticks|, w);
      forall j :: 0 <= j < |ticks| ==>
        && (Pacing.Stalled(seen[j]) <==> NothingGotThrough(k, ticks, j, w))
        && (Pacing.Stalled(seen[j]) ==> (seen[j].filling <==> HalfFull(k, ticks, j, w)))
  {
    hide *;
    forall j | 0 <= j < |ticks|
      ensures var seen := Observations(k, ticks, |ticks|, w);
        && (Pacing.Stalled(seen[j]) <==> NothingGotThrough(k, ticks, j, w))
        && (Pacing.Stalled(seen[j]) ==> (seen[j].filling <==> HalfFull(k, ticks, j, w)))
    {
      SeenAsItIs(k, ticks, j, w);
    }
  }

  lemma SeenAsItIs(k: Kept, ticks: seq<Met>, j: nat, w: Setting)
    requires j < |ticks|
    ensures var seen := ObservedAt(k, ticks, j, w);
      && (Pacing.Stalled(seen) <==> NothingGotThrough(k, ticks, j, w))
      && (Pacing.Stalled(seen) ==> (seen.filling <==> HalfFull(k, ticks, j, w)))
  {
    hide PassAt;
  }

  lemma AnswersAreOfTheTrace(k: Kept, ticks: seq<Met>, i: nat, w: Setting)
    requires i < |ticks| && k.pace == Pacing.START
    ensures AnswerAt(k, ticks, i, w) == Pacing.Answer(Observations(k, ticks, |ticks|, w), i)
  {
    hide PassOf, Observed, Before, Pacing.Next;
    PaceIsOfTheTrace(k, ticks, i, w);
    assert Observations(k, ticks, |ticks|, w)[..i] == Observations(k, ticks, i, w);
  }
}
