/** The steps of the service, taken one task at a time, do what the sequential worker and handlers do. */
module Refinement {
  import opened Wrappers
  import opened Records
  import opened RecordFile
  import opened Request
  import opened Door
  import opened Remote
  import opened Delivery
  import opened Protocol
  import Profile
  import Utf8
  import Worker

  function RequestsOf(t: nat, attempts: seq<Attempt>): seq<Step>
    decreases |attempts|
  {
    if attempts == [] then [Send(t, GivenUp(false, Transient))]
    else match attempts[0]
      case Lost => [Send(t, Again(false))] + RequestsOf(t, attempts[1..])
      case ReplyLost => [Send(t, Again(true))] + RequestsOf(t, attempts[1..])
      case Created => [Send(t, Confirmed)]
      case Garbled => [Send(t, GivenUp(true, Permanent))]
      case Refused => [Send(t, GivenUp(false, Permanent))]
  }

  /** The phase a delivery's result leaves its task in. */
  function PhaseOf(result: Result<nat, Failure>): Phase {
    match result
    case Ok(id) => Written(id)
    case Err(f) => Gone(f)
  }

  function IdOf(result: Result<Delivered, Failure>): Result<nat, Failure> {
    match result
    case Ok(d) => Ok(d.eventId)
    case Err(f) => Err(f)
  }

  /** One task got to a phase and let its lock go; of the rest, only the calendars may have changed. */
  predicate Reaches(s: State, after: State, t: nat, phase: Phase) {
    && t in s.tasks && after.tasks == s.tasks[t := s.tasks[t].(phase := phase)]
    && after.held == Released(s.held, t)
    && after.file == s.file && after.queue == s.queue
  }

  lemma RunOne(s: State, step: Step, rest: seq<Step>, w: World)
    requires Apply(s, step, w).Some?
    ensures Run(s, [step] + rest, w) == Run(Apply(s, step, w).value, rest, w)
  {
    hide Apply;
    assert ([step] + rest)[1..] == rest;
  }

  lemma {:induction false} RunBoth(s: State, first: seq<Step>, second: seq<Step>, w: World)
    requires Run(s, first, w).Some?
    ensures Run(s, first + second, w) == Run(Run(s, first, w).value, second, w)
    decreases |first|
  {
    hide Apply;
    if first == [] {
      assert first + second == second;
    } else {
      assert (first + second)[1..] == first[1..] + second && (first + second)[0] == first[0];
      RunBoth(Apply(s, first[0], w).value, first[1..], second, w);
    }
  }

  lemma RunNothing(s: State, w: World)
    ensures Run(s, [], w) == Some(s)
  {
  }

  lemma RunLast(s: State, step: Step, w: World)
    requires Apply(s, step, w).Some?
    ensures Run(s, [step], w) == Apply(s, step, w)
  {
    hide Apply;
    RunOne(s, step, [], w);
    RunNothing(Apply(s, step, w).value, w);
    assert [step] + [] == [step];
  }

  lemma LastSend(s: State, t: nat, reply: Reply, w: World)
    requires t in s.tasks && s.tasks[t].phase.Found? && s.tasks[t].job.Upsert? && !reply.Again?
    requires Possible(s.remote, s.tasks[t], reply)
    ensures Run(s, [Send(t, reply)], w) == Some(AfterSend(s, t, reply))
    ensures var after := AfterSend(s, t, reply);
      && after.remote == (if TakesEffect(reply) then Effect(s.remote, s.tasks[t]) else s.remote)
      && Reaches(s, after, t,
                 if reply.Confirmed? then Written(WrittenId(s.remote, s.tasks[t])) else Gone(reply.failure))
  {
    hide Effect, Possible;
    RunOne(s, Send(t, reply), [], w);
    assert [Send(t, reply)] + [] == [Send(t, reply)];
  }

  lemma {:induction false} CreateByRequests(s: State, t: nat, attempts: seq<Attempt>, w: World) returns (after: State)
    requires t in s.tasks && s.tasks[t].job.Upsert? && s.tasks[t].phase.Found? && s.tasks[t].phase.existing.None?
    ensures Run(s, RequestsOf(t, attempts), w) == Some(after)
    ensures var (remote, result) := CreateWithRetry(s.remote, s.tasks[t].calendar, s.tasks[t].job.event, attempts);
      after.remote == remote && Reaches(s, after, t, PhaseOf(result))
    decreases |attempts|
  {
    hide Run, Create, Apply, Released;
    if attempts == [] {
      LastSend(s, t, GivenUp(false, Transient), w);
      after := AfterSend(s, t, GivenUp(false, Transient));
    } else {
      match attempts[0]
      case Lost => after := CreateAgain(s, t, false, attempts, w);
      case ReplyLost => after := CreateAgain(s, t, true, attempts, w);
      case Created =>
        LastSend(s, t, Confirmed, w);
        after := AfterSend(s, t, Confirmed);
      case Garbled =>
        LastSend(s, t, GivenUp(true, Permanent), w);
        after := AfterSend(s, t, GivenUp(true, Permanent));
      case Refused =>
        LastSend(s, t, GivenUp(false, Permanent), w);
        after := AfterSend(s, t, GivenUp(false, Permanent));
    }
  }

  lemma {:induction false} CreateAgain(s: State, t: nat, took: bool, attempts: seq<Attempt>, w: World)
    returns (after: State)
    requires t in s.tasks && s.tasks[t].job.Upsert? && s.tasks[t].phase.Found? && s.tasks[t].phase.existing.None?
    requires attempts != [] && attempts[0] == if took then ReplyLost else Lost
    ensures Run(s, RequestsOf(t, attempts), w) == Some(after)
    ensures var (remote, result) := CreateWithRetry(s.remote, s.tasks[t].calendar, s.tasks[t].job.event, attempts);
      after.remote == remote && Reaches(s, after, t, PhaseOf(result))
    decreases |attempts|, 0
  {
    hide Run, Create, Released;
    var next := AfterSend(s, t, Again(took));
    RunOne(s, Send(t, Again(took)), RequestsOf(t, attempts[1..]), w);
    after := CreateByRequests(next, t, attempts[1..], w);
    ReachesFrom(s, next, after, t, after.tasks[t].phase);
  }

  /** The phases in between do not matter. */
  lemma ReachesFrom(s: State, mid: State, after: State, t: nat, phase: Phase)
    requires t in s.tasks && t in mid.tasks && mid.tasks == s.tasks[t := s.tasks[t].(phase := mid.tasks[t].phase)]
    requires mid.file == s.file && mid.queue == s.queue && Released(mid.held, t) == Released(s.held, t)
    requires Reaches(mid, after, t, phase)
    ensures Reaches(s, after, t, phase)
  {
    hide Released;
  }

  /** The task of an entry is about to begin, and holds nothing. */
  predicate Begins(s: State, t: nat, e: Entry, profile: Profile.Profile, lib: Library) {
    && t in s.tasks && s.tasks[t] == TaskFor(e, profile, lib)
    && (forall k :: k in s.held ==> s.held[k] != t)
    && (KeyOf(e, profile, lib).Some? ==> KeyOf(e, profile, lib).value !in s.held)
  }

  /**
    A delivery nobody interleaves with does exactly what `DeliverTo` says, whether its payload
    can be mapped, whether it has a key, and however the network behaves: same calendars, same
    result, same event id.
   */
  lemma UninterruptedDelivery(s: State, t: nat, e: Entry, profile: Profile.Profile, net: Net, w: World)
    returns (steps: seq<Step>, after: State)
    requires Begins(s, t, e, profile, w.lib)
    ensures Run(s, steps, w) == Some(after)
    ensures var (remote, result) := DeliverTo(s.remote, e, profile, w.lib, net);
      after.remote == remote && Reaches(s, after, t, PhaseOf(IdOf(result)))
  {
    hide Run, CreateWithRetry, MapPayload, WithKey, Find, Reaches, Released;
    match MapPayload(e.payload, profile, w.lib)
    case Err(_) =>
      steps, after := [], s;
      RunNothing(s, w);
      AlreadyThere(s, t);
    case Ok(mapped) =>
      if UpsertKey(e, mapped).None? {
        steps := RequestsOf(t, net.create);
        after := CreateByRequests(s, t, net.create, w);
      } else {
        steps, after := KeyedDelivery(s, t, e, profile, net, w);
      }
  }

  lemma AlreadyThere(s: State, t: nat)
    requires t in s.tasks && forall k :: k in s.held ==> s.held[k] != t
    ensures Reaches(s, s, t, s.tasks[t].phase)
  {
  }

  lemma KeyedDelivery(s: State, t: nat, e: Entry, profile: Profile.Profile, net: Net, w: World)
    returns (steps: seq<Step>, after: State)
    requires Begins(s, t, e, profile, w.lib) && KeyOf(e, profile, w.lib).Some?
    ensures Run(s, steps, w) == Some(after)
    ensures var (remote, result) := DeliverTo(s.remote, e, profile, w.lib, net);
      after.remote == remote && Reaches(s, after, t, PhaseOf(IdOf(result)))
  {
    hide Run, CreateWithRetry, MapPayload, WithKey, Find;
    var key, calendar := KeyOf(e, profile, w.lib).value, profile.targetCalendarId;
    var event := EventOf(e, profile, w.lib);
    assert s.tasks[t] == Task(Upsert(e, event), calendar, Some(key), Waiting);
    var locked := Apply(s, Acquire(t), w).value;
    var rest;
    rest, after := FromTheLock(locked, t, e, event, calendar, key, net, w);
    steps := [Acquire(t)] + rest;
    RunOne(s, Acquire(t), rest, w);
    assert Released(locked.held, t) == Released(s.held, t);
    ReachesFrom(s, locked, after, t, after.tasks[t].phase);
  }

  lemma FromTheLock(s: State, t: nat, e: Entry, event: GoogleEvent, calendar: string, key: string, net: Net, w: World)
    returns (steps: seq<Step>, after: State)
    requires t in s.tasks && s.tasks[t] == Task(Upsert(e, event), calendar, Some(key), Holding)
    ensures Run(s, steps, w) == Some(after)
    ensures var (remote, result) :=
        if net.find.Answered? then WriteEvent(s.remote, calendar, event, key, Find(s.remote, calendar, key), net)
        else (s.remote, Err(net.find.failure));
      after.remote == remote && Reaches(s, after, t, PhaseOf(IdOf(result)))
  {
    hide Run, CreateWithRetry, Find, WithKey, Update, Create, Released;
    var looked := AfterLook(s, t, key, net.find);
    var rest: seq<Step> := [];
    after := looked;
    if net.find.Answered? {
      FoundIsThere(s.remote, calendar, key);
      match Find(s.remote, calendar, key)
      case None =>
        rest := RequestsOf(t, net.create);
        after := CreateByRequests(looked, t, net.create, w);
        ReachesFrom(s, looked, after, t, after.tasks[t].phase);
      case Some(id) =>
        var reply := match net.update
          case Answered => Confirmed
          case Failed(f) => GivenUp(false, f)
          case Unheard(f) => GivenUp(true, f);
        LastSend(looked, t, reply, w);
        rest := [Send(t, reply)];
        after := AfterSend(looked, t, reply);
        ReachesFrom(s, looked, after, t, after.tasks[t].phase);
    } else {
      RunNothing(looked, w);
    }
    steps := [Look(t, net.find)] + rest;
    RunOne(s, Look(t, net.find), rest, w);
  }

  lemma RemovalFromTheLock(s: State, t: nat, profile: Profile.Profile, externalId: string, net: Net, w: World)
    returns (steps: seq<Step>, after: State)
    requires t in s.tasks
    requires s.tasks[t]
          == Task(Removal, profile.targetCalendarId, Some(Profile.Key(profile.sourceId, externalId)), Holding)
    ensures Run(s, steps, w) == Some(after)
    ensures after.remote == DeleteFrom(s.remote, profile, externalId, net).0 && t !in after.tasks
  {
    hide Run, Find, WithKey, Delete, Profile.Key, Released;
    var key, calendar := Profile.Key(profile.sourceId, externalId), profile.targetCalendarId;
    var looked := AfterLook(s, t, key, net.find);
    steps, after := [Look(t, net.find)], looked;
    if net.find.Answered? && Find(s.remote, calendar, key).Some? {
      FoundIsThere(s.remote, calendar, key);
      var reply := match net.update
        case Answered => Confirmed
        case Failed(f) => GivenUp(false, f)
        case Unheard(f) => GivenUp(true, f);
      after := AfterSend(looked, t, reply);
      steps := [Look(t, net.find)] + [Send(t, reply)];
      RunLast(looked, Send(t, reply), w);
      RunOne(s, Look(t, net.find), [Send(t, reply)], w);
    } else {
      RunLast(s, Look(t, net.find), w);
    }
  }

  /** A deletion nobody interleaves with does exactly what `DeleteFrom` says, and ends. */
  lemma UninterruptedRemoval(s: State, t: nat, profile: Profile.Profile, externalId: string, net: Net, w: World)
    returns (steps: seq<Step>, after: State)
    requires t !in s.tasks && Profile.Key(profile.sourceId, externalId) !in s.held
    ensures Run(s, [StartRemoval(t, profile, externalId), Acquire(t)] + steps, w) == Some(after)
    ensures after.remote == DeleteFrom(s.remote, profile, externalId, net).0 && t !in after.tasks
  {
    hide Run, DeleteFrom, Profile.Key;
    var started := Apply(s, StartRemoval(t, profile, externalId), w).value;
    var locked := Apply(started, Acquire(t), w).value;
    steps, after := RemovalFromTheLock(locked, t, profile, externalId, net, w);
    RunOne(started, Acquire(t), steps, w);
    RunOne(s, StartRemoval(t, profile, externalId), [Acquire(t)] + steps, w);
    assert [StartRemoval(t, profile, externalId)] + ([Acquire(t)] + steps)
        == [StartRemoval(t, profile, externalId), Acquire(t)] + steps;
  }

  // ----- a whole pass of the worker is a run ------------------------------------------------------

  /** The service with nothing running, its queue aside, holds what the pass has come to. */
  predicate AtRest(s: State, file: seq<Utf8.Byte>, remote: Remote, queue: seq<Entry>) {
    s.file == file && s.remote == remote && s.queue == queue && s.tasks == map[] && s.held == map[]
  }

  /** How the worker goes on from a delivery: it marks, sets aside, or leaves the entry. */
  function Ending(a: Worker.Attempted, turn: Worker.Turn): Step {
    match a
    case Sent(_, _, _) => MarkDone(0, turn.mark)
    case FailedForGood(_, seen, _) =>
      if seen >= Worker.PERMANENT_FAILURES_BEFORE_DEAD then SetAside(0, turn.reason, turn.at, turn.mark) else Abandon(0)
    case _ => Abandon(0)
  }

  lemma TaskOf(e: Entry, profile: Profile.Profile, lib: Library, r: Remote, net: Net)
    ensures var task := TaskFor(e, profile, lib);
      !task.job.Removal? && task.job.entry == e && (DeliverTo(r, e, profile, lib, net).1.Ok? ==> task.job.Upsert?)
  {
    hide MapPayload, CreateWithRetry, WriteEvent;
  }

  /** The end of one visit, with its task in the phase the delivery left it in. */
  lemma VisitEnds(s: State, p: Worker.Pass, e: Entry, v: Worker.Setting, turn: Worker.Turn)
    requires e.sourceId in v.profiles
    requires var (remote, result) := DeliverTo(p.remote, e, v.profiles[e.sourceId], v.lib, turn.net);
      && 0 in s.tasks && s.tasks == map[0 := s.tasks[0]] && s.held == map[] && s.file == p.file && s.remote == remote
      && s.tasks[0].phase == PhaseOf(IdOf(result))
      && !s.tasks[0].job.Removal? && s.tasks[0].job.entry == e && (result.Ok? ==> s.tasks[0].job.Upsert?)
    ensures var next := Worker.Visit(p, e, v, turn);
      var after := Apply(s, Ending(next.trace[|p.trace|], turn), World(v.cap, v.lib));
      after.Some? && AtRest(after.value, next.file, next.remote, s.queue)
  {
    hide DeliverTo, AfterAppend, Acknowledged, Received;
    assert s.tasks - {0} == map[];
  }

  lemma VisitIsARun(s: State, p: Worker.Pass, e: Entry, rest: seq<Entry>, v: Worker.Setting, turn: Worker.Turn)
    returns (steps: seq<Step>, after: State)
    requires AtRest(s, p.file, p.remote, [e] + rest)
    ensures Run(s, steps, World(v.cap, v.lib)) == Some(after)
    ensures var next := Worker.Visit(p, e, v, turn);
      AtRest(after, next.file, next.remote, rest)
  {
    var w := World(v.cap, v.lib);
    hide Run, DeliverTo, AfterAppend, Acknowledged, MapPayload, TaskFor, KeyOf;
    assert ([e] + rest)[1..] == rest;
    if e.sourceId !in v.profiles {
      steps := [SkipNext];
      after := Apply(s, SkipNext, w).value;
      RunLast(s, SkipNext, w);
    } else {
      var profile := v.profiles[e.sourceId];
      var started := Apply(s, StartNext(0, profile), w).value;
      var middle, delivered := UninterruptedDelivery(started, 0, e, profile, turn.net, w);
      TaskOf(e, profile, v.lib, p.remote, turn.net);
      VisitEnds(delivered, p, e, v, turn);
      var ending := Ending(Worker.Visit(p, e, v, turn).trace[|p.trace|], turn);
      hide Worker.Visit, Apply;
      after := Apply(delivered, ending, w).value;
      RunLast(delivered, ending, w);
      RunBoth(started, middle, [ending], w);
      steps := [StartNext(0, profile)] + (middle + [ending]);
      RunOne(s, StartNext(0, profile), middle + [ending], w);
    }
  }

  lemma {:induction false} VisitsAreARun(s: State, p: Worker.Pass, entries: seq<Entry>, rest: seq<Entry>,
                                         v: Worker.Setting, turns: nat -> Worker.Turn)
    returns (steps: seq<Step>, after: State)
    requires AtRest(s, p.file, p.remote, entries + rest)
    ensures Run(s, steps, World(v.cap, v.lib)) == Some(after)
    ensures var next := Worker.Visits(p, entries, v, turns);
      AtRest(after, next.file, next.remote, rest)
  {
    hide Run, Worker.Visit;
    var w := World(v.cap, v.lib);
    if entries == [] {
      steps, after := [], s;
      RunNothing(s, w);
      assert entries + rest == rest;
    } else {
      var n := |entries| - 1;
      var first, mid, last;
      assert entries[..n] + ([entries[n]] + rest) == entries + rest;
      first, mid := VisitsAreARun(s, p, entries[..n], [entries[n]] + rest, v, turns);
      last, after := VisitIsARun(mid, Worker.Visits(p, entries[..n], v, turns), entries[n], rest, v, turns(n));
      steps := first + last;
      RunBoth(s, first, last, w);
    }
  }

  /**
    A pass of the worker is a run of the service: from rest, reading the queue and delivering
    its entries one after the other, with whatever the network and the disk do to each, leaves
    the file and the calendars exactly as the sequential pass leaves them.
   */
  lemma PassIsARun(s: State, p: Worker.Pass, v: Worker.Setting, turns: nat -> Worker.Turn)
    returns (steps: seq<Step>, after: State)
    requires AtRest(s, p.file, p.remote, s.queue) && Read(p.file).Ok?
    ensures Run(s, [ReadQueue] + steps, World(v.cap, v.lib)) == Some(after)
    ensures var drained := Worker.Drain(p, v, turns);
      AtRest(after, drained.file, drained.remote, [])
  {
    hide Run, Worker.Visits, Read, Pending;
    var w := World(v.cap, v.lib);
    var queue := Pending(Read(p.file).value);
    var begun := Apply(s, ReadQueue, w).value;
    assert queue + [] == queue;
    steps, after := VisitsAreARun(begun, p, queue, [], v, turns);
    RunOne(s, ReadQueue, steps, w);
  }
}
