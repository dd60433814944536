/** How fast the worker comes back after a pass, over any trace of passes. */
module Pacing {

  const FAILURE_BACKOFF_SECS: seq<nat> := [15, 60, 300, 900, 1800]
  const POLL_INTERVAL_SECS: nat := 5

  datatype DrainSummary = DrainSummary(delivered: nat, failed: nat)

  datatype Pacing = Pacing(waitSecs: nat, reportBacklog: bool, recovered: bool)

  /** One pass as the pacing sees it. */
  datatype Observation = Observation(summary: DrainSummary, filling: bool)

  predicate Stalled(o: Observation) { o.summary.failed > 0 && o.summary.delivered == 0 }

  /** Whether a journal of `size` bytes has reached half its cap. */
  predicate JournalIsFilling(size: nat, cap: nat) { 2 * size >= cap }

  datatype State = State(consecutiveFailures: nat, backlogReported: bool)

  const START := State(0, false)

  function Next(s: State, o: Observation): (State, Pacing) {
    if !Stalled(o) then (START, Pacing(POLL_INTERVAL_SECS, false, s.consecutiveFailures > 0))
    else
      var last := |FAILURE_BACKOFF_SECS| - 1;
      var rung := if s.consecutiveFailures < last then s.consecutiveFailures else last;
      var report := o.filling && !s.backlogReported;
      (State(s.consecutiveFailures + 1, s.backlogReported || report),
       Pacing(FAILURE_BACKOFF_SECS[rung], report, false))
  }

  class Worker {
    var consecutiveFailures: nat
    var backlogReported: bool

    function Abstract(): State
      reads this
    {
      State(consecutiveFailures, backlogReported)
    }

    constructor ()
      ensures Abstract() == START
    {
      consecutiveFailures, backlogReported := 0, false;
    }

    /** Folds one pass into the pacing state. */
    method After(summary: DrainSummary, filling: bool) returns (p: Pacing)
      modifies this
      ensures (Abstract(), p) == Next(old(Abstract()), Observation(summary, filling))
    {
      var stalled := summary.failed > 0 && summary.delivered == 0;
      if !stalled {
        var recovered := consecutiveFailures > 0;
        consecutiveFailures := 0;
        backlogReported := false;
        return Pacing(POLL_INTERVAL_SECS, false, recovered);
      }
      var last := |FAILURE_BACKOFF_SECS| - 1;
      var wait := FAILURE_BACKOFF_SECS[if consecutiveFailures < last then consecutiveFailures else last];
      consecutiveFailures := consecutiveFailures + 1;
      var report := filling && !backlogReported;
      if report { backlogReported := true; }
      p := Pacing(wait, report, false);
    }
  }

  /** The state after a whole trace, and what the last pass of it answered. */
  function After(trace: seq<Observation>): State {
    if trace == [] then START else Next(After(trace[..|trace| - 1]), trace[|trace| - 1]).0
  }

  function Answer(trace: seq<Observation>, i: nat): Pacing
    requires i < |trace|
  {
    Next(After(trace[..i]), trace[i]).1
  }

  /** How many stalled passes stand immediately before position `i`. */
  function StalledBefore(trace: seq<Observation>, i: nat): (n: nat)
    requires i <= |trace|
    ensures n <= i
    ensures forall j :: i - n <= j < i ==> Stalled(trace[j])
    ensures n < i ==> !Stalled(trace[i - n - 1])
  {
    if i == 0 || !Stalled(trace[i - 1]) then 0 else 1 + StalledBefore(trace, i - 1)
  }

  lemma {:induction false} StateIsHistory(trace: seq<Observation>, i: nat)
    requires i <= |trace|
    ensures var n := StalledBefore(trace, i);
      && After(trace[..i]).consecutiveFailures == n
      && (After(trace[..i]).backlogReported <==> exists j :: i - n <= j < i && trace[j].filling)
  {
    if i > 0 {
      StateIsHistory(trace, i - 1);
      assert trace[..i][..i - 1] == trace[..i - 1] && trace[..i][i - 1] == trace[i - 1];
      var n := StalledBefore(trace, i);
      if Stalled(trace[i - 1]) {
        if trace[i - 1].filling { assert i - n <= i - 1 < i && trace[i - 1].filling; }
        if After(trace[..i - 1]).backlogReported {
          var j :| i - 1 - (n - 1) <= j < i - 1 && trace[j].filling;
          assert i - n <= j < i && trace[j].filling;
        }
      }
    }
  }

  /**
    The answer at any point of any trace: on a stalled pass the ladder at the number of
    stalled passes just before it, and five seconds otherwise; recovery is reported on the
    first good pass after a stalled one; a backlog is reported at the first filling pass of
    an outage and at no other.
   */
  lemma AnswersOverAnyTrace(trace: seq<Observation>, i: nat)
    requires i < |trace|
    ensures var n := StalledBefore(trace, i);
      var a := Answer(trace, i);
      && a.waitSecs == (if Stalled(trace[i]) then [15, 60, 300, 900, 1800][if n < 4 then n else 4] else 5)
      && (a.recovered <==> !Stalled(trace[i]) && i > 0 && Stalled(trace[i - 1]))
      && (a.reportBacklog <==>
            Stalled(trace[i]) && trace[i].filling && forall j :: i - n <= j < i ==> !trace[j].filling)
  {
    StateIsHistory(trace, i);
  }

  /** An outage that contains a filling pass reports its backlog exactly once. */
  lemma OneReportPerOutage(trace: seq<Observation>, from: nat, to: nat)
    requires from < to <= |trace|
    requires from > 0 ==> !Stalled(trace[from - 1])
    requires forall j :: from <= j < to ==> Stalled(trace[j])
    requires exists j :: from <= j < to && trace[j].filling
    ensures exists i :: from <= i < to && Answer(trace, i).reportBacklog
    ensures forall i, k :: from <= i < k < to ==> !(Answer(trace, i).reportBacklog && Answer(trace, k).reportBacklog)
  {
    var first := FirstFilling(trace, from, to);
    forall i | from <= i < to ensures StalledBefore(trace, i) == i - from { RunLength(trace, from, i); }
    AnswersOverAnyTrace(trace, first);
    assert Answer(trace, first).reportBacklog;
    forall i, k | from <= i < k < to ensures !(Answer(trace, i).reportBacklog && Answer(trace, k).reportBacklog) {
      AnswersOverAnyTrace(trace, i);
      AnswersOverAnyTrace(trace, k);
    }
  }

  lemma {:induction false} RunLength(trace: seq<Observation>, from: nat, i: nat)
    requires from <= i <= |trace|
    requires from > 0 ==> !Stalled(trace[from - 1])
    requires forall j :: from <= j < i ==> Stalled(trace[j])
    ensures StalledBefore(trace, i) == i - from
    decreases i - from
  {
    if i > from { RunLength(trace, from, i - 1); }
  }

  lemma {:induction false} FirstFilling(trace: seq<Observation>, from: nat, to: nat) returns (first: nat)
    requires from < to <= |trace|
    requires exists j :: from <= j < to && trace[j].filling
    ensures from <= first < to
    ensures trace[first].filling
    ensures forall j :: from <= j < first ==> !trace[j].filling
    decreases |trace| - from
  {
    if trace[from].filling {
      first := from;
    } else {
      first := FirstFilling(trace, from + 1, to);
    }
  }
}
