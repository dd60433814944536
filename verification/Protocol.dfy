/**
  The whole service as steps that interleave: requests at the door, the worker's pass, the
  locked writes of deliveries and deletions, marks, compaction, people, power cuts.
 */
module Protocol {
  import opened Wrappers
  import opened Records
  import opened RecordFile
  import opened Compaction
  import opened Request
  import opened Door
  import opened Remote
  import opened Delivery
  import Profile
  import Utf8

  /** What a task is for; `Hopeless` is a delivery whose payload cannot be mapped. */
  datatype Job =
    | Upsert(entry: Entry, event: GoogleEvent)
    | Hopeless(entry: Entry)
    | Removal

  /**
    Where a task stands. Between `Holding` and the end of `Found` it has the lock of its key;
    `took` says that some request of its write took effect without an answer.
   */
  datatype Phase =
    | Waiting
    | Holding
    | Found(existing: Option<nat>, took: bool)
    | Written(id: nat)
    | Gone(failure: Failure)

  datatype Task = Task(job: Job, calendar: string, key: Option<string>, phase: Phase)

  /**
    `file` and `remote` survive a power cut; `held`, `tasks` and `queue` do not. The rest
    records what happened: entries offered at the door, those acknowledged, those whose
    write was answered, the ids whose `Done` marker the journal received, and the ids whose
    marker was acknowledged.
   */
  datatype State = State(
    file: seq<Utf8.Byte>,
    remote: Remote,
    held: map<string, nat>,
    tasks: map<nat, Task>,
    queue: seq<Entry>,
    offered: map<string, Entry>,
    acked: set<Entry>,
    reached: set<Entry>,
    done: set<string>,
    settled: set<string>)

  /** How one request of a write ends: sent again, given up, or answered. */
  datatype Reply = Again(took: bool) | GivenUp(took: bool, failure: Failure) | Confirmed

  predicate TakesEffect(r: Reply) { r.Confirmed? || r.took }

  datatype Step =
    | Accept(entry: Entry, disk: Disk)
    | ReadQueue
    | StartNext(t: nat, profile: Profile.Profile)
    | SkipNext
    | StartSync(t: nat, entry: Entry, profile: Profile.Profile)
    | StartRemoval(t: nat, profile: Profile.Profile, externalId: string)
    | Acquire(t: nat)
    | Look(t: nat, answer: Answer)
    | Send(t: nat, reply: Reply)
    | MarkDone(t: nat, disk: Disk)
    | SetAside(t: nat, reason: string, at: string, disk: Disk)
    | Abandon(t: nat)
    | Compact(replaced: bool)
    | PersonDeletes(calendar: string, id: nat)
    | PowerCut

  datatype World = World(cap: nat, lib: Library)

  function TaskFor(e: Entry, profile: Profile.Profile, lib: Library): Task {
    match MapPayload(e.payload, profile, lib)
    case Err(_) => Task(Hopeless(e), profile.targetCalendarId, None, Gone(Permanent))
    case Ok(mapped) =>
      var key := UpsertKey(e, mapped);
      Task(Upsert(e, Stamped(e, mapped)), profile.targetCalendarId, key,
           if key.None? then Found(None, false) else Waiting)
  }

  function Released(held: map<string, nat>, t: nat): map<string, nat> {
    map k | k in held && held[k] != t :: held[k]
  }

  /** The task lets go of its lock and goes on to `phase`. */
  function Leave(s: State, t: nat, phase: Phase): State
    requires t in s.tasks
  {
    s.(held := Released(s.held, t), tasks := s.tasks[t := s.tasks[t].(phase := phase)])
  }

  function Ended(s: State, t: nat): State { s.(held := Released(s.held, t), tasks := s.tasks - {t}) }

  /** What one request of the task's write does to the calendars. */
  function Effect(r: Remote, task: Task): Remote
    requires task.phase.Found?
  {
    match task.job
    case Upsert(_, event) =>
      (match Decide(task.phase.existing)
       case CreateNew => Create(r, task.calendar, event)
       case UpdateExisting(id) => Update(r, task.calendar, id, event))
    case Removal =>
      (match task.phase.existing
       case Some(id) => Delete(r, task.calendar, id)
       case None => r)
    case Hopeless(_) => r
  }

  /** The id of the event an answered write leaves. */
  function WrittenId(r: Remote, task: Task): nat
    requires task.phase.Found?
  {
    match Decide(task.phase.existing)
    case CreateNew => r.next
    case UpdateExisting(id) => id
  }

  /** A request about an event that is no longer there is refused. */
  predicate Possible(r: Remote, task: Task, reply: Reply)
    requires task.phase.Found?
  {
    TakesEffect(reply) && task.phase.existing.Some? ==>
      exists e <- EventsOf(r, task.calendar) :: e.id == task.phase.existing.value
  }

  function AfterSend(s: State, t: nat, reply: Reply): State
    requires t in s.tasks && s.tasks[t].phase.Found?
  {
    var task := s.tasks[t];
    var sent := s.(remote := if TakesEffect(reply) then Effect(s.remote, task) else s.remote);
    match reply
    case Again(took) =>
      sent.(tasks := s.tasks[t := task.(phase := Found(task.phase.existing, task.phase.took || took))])
    case GivenUp(_, f) => if task.job.Removal? then Ended(sent, t) else Leave(sent, t, Gone(f))
    case Confirmed =>
      if task.job.Removal? then Ended(sent, t)
      else Leave(sent.(reached := s.reached + {task.job.entry}), t, Written(WrittenId(s.remote, task)))
  }

  function AfterLook(s: State, t: nat, key: string, answer: Answer): State
    requires t in s.tasks
  {
    var task := s.tasks[t];
    match answer
    case Answered =>
      var existing := Find(s.remote, task.calendar, key);
      if task.job.Removal? && existing.None? then Ended(s, t)
      else s.(tasks := s.tasks[t := task.(phase := Found(existing, false))])
    case Failed(f) => if task.job.Removal? then Ended(s, t) else Leave(s, t, Gone(f))
    case Unheard(f) => if task.job.Removal? then Ended(s, t) else Leave(s, t, Gone(f))
  }

  /** The record is in the file, if only without its line feed. */
  predicate Received(file: seq<Utf8.Byte>, r: Record, cap: nat, disk: Disk) {
    Fits(file, r, cap) && Landed(r, disk) + 1 >= |Line(r)|
  }

  function Mark(s: State, t: nat, r: Record, w: World, disk: Disk): State {
    Ended(s, t).(
      file := AfterAppend(s.file, r, w.cap, disk),
      done := if r.Done? && Received(s.file, r, w.cap, disk) then s.done + {r.id} else s.done,
      settled := if !r.Accepted? && Acknowledged(s.file, r, w.cap, disk) then s.settled + {r.id} else s.settled)
  }

  predicate HasWritten(s: State, t: nat) { t in s.tasks && s.tasks[t].phase.Written? && s.tasks[t].job.Upsert? }

  predicate In(s: State, t: nat, phase: Phase) { t in s.tasks && s.tasks[t].phase == phase }

  /** The state after a step, if the step is possible. */
  function Apply(s: State, step: Step, w: World): Option<State> {
    match step
    case Accept(e, disk) =>
      if e.id in s.offered then None
      else Some(s.(
        file := AfterAppend(s.file, Accepted(e), w.cap, disk),
        offered := s.offered[e.id := e],
        acked := if Acknowledged(s.file, Accepted(e), w.cap, disk) then s.acked + {e} else s.acked))
    case ReadQueue =>
      (match Read(s.file)
       case Ok(log) => Some(s.(queue := Pending(log)))
       case Err(_) => None)
    case StartNext(t, profile) =>
      if t in s.tasks || s.queue == [] then None
      else Some(s.(queue := s.queue[1..], tasks := s.tasks[t := TaskFor(s.queue[0], profile, w.lib)]))
    case SkipNext => if s.queue == [] then None else Some(s.(queue := s.queue[1..]))
    case StartSync(t, e, profile) =>
      if t in s.tasks || e !in s.acked then None
      else Some(s.(tasks := s.tasks[t := TaskFor(e, profile, w.lib)]))
    case StartRemoval(t, profile, id) =>
      if t in s.tasks then None
      else Some(s.(tasks := s.tasks[t :=
        Task(Removal, profile.targetCalendarId, Some(Profile.Key(profile.sourceId, id)), Waiting)]))
    case Acquire(t) =>
      if !In(s, t, Waiting) || s.tasks[t].key.None? || s.tasks[t].key.value in s.held then None
      else Some(s.(held := s.held[s.tasks[t].key.value := t], tasks := s.tasks[t := s.tasks[t].(phase := Holding)]))
    case Look(t, answer) =>
      if !In(s, t, Holding) || s.tasks[t].key.None? then None
      else Some(AfterLook(s, t, s.tasks[t].key.value, answer))
    case Send(t, reply) =>
      if t !in s.tasks || !s.tasks[t].phase.Found? || !Possible(s.remote, s.tasks[t], reply) then None
      else Some(AfterSend(s, t, reply))
    case MarkDone(t, disk) =>
      if !HasWritten(s, t) then None
      else Some(Mark(s, t, Done(s.tasks[t].job.entry.id), w, disk))
    case SetAside(t, reason, at, disk) =>
      if !In(s, t, Gone(Permanent)) || s.tasks[t].job.Removal? then None
      else Some(Mark(s, t, Dead(s.tasks[t].job.entry.id, reason, at), w, disk))
    case Abandon(t) => if t in s.tasks then Some(Ended(s, t)) else None
    case Compact(replaced) => Some(s.(file := AfterCompact(s.file, replaced)))
    case PersonDeletes(c, id) => Some(s.(remote := Delete(s.remote, c, id)))
    case PowerCut => Some(s.(held := map[], tasks := map[], queue := []))
  }

  function Run(s: State, steps: seq<Step>, w: World): Option<State>
    decreases |steps|
  {
    if steps == [] then Some(s)
    else match Apply(s, steps[0], w)
      case None => None
      case Some(next) => Run(next, steps[1..], w)
  }

  /** Calendars that hold no two events under one key; nothing journalled, nothing running. */
  ghost predicate Initial(s: State) {
    && Unique(s.remote) && FreshIds(s.remote)
    && s == State([], s.remote, map[], map[], [], map[], {}, {}, {}, {})
  }

  // ----- at most one event per key --------------------------------------------------------

  predicate Inside(p: Phase) { p.Holding? || p.Found? }

  /** A lock is held by exactly the task that is between acquiring and leaving. */
  ghost predicate Exclusive(s: State) {
    && (forall k :: k in s.held ==>
          s.held[k] in s.tasks && s.tasks[s.held[k]].key == Some(k) && Inside(s.tasks[s.held[k]].phase))
    && (forall t :: t in s.tasks && s.tasks[t].key.Some? && Inside(s.tasks[t].phase) ==>
          s.tasks[t].key.value in s.held && s.held[s.tasks[t].key.value] == t)
  }

  /** What a task may rely on while it holds its lock. */
  ghost predicate Informed(r: Remote, task: Task) {
    && (task.job.Upsert? ==> MarkerOf(task.job.event) == task.key)
    && (task.job.Removal? ==> task.key.Some?)
    && (task.job.Hopeless? ==> task.key.None? && !Inside(task.phase))
    && (task.phase.Found? ==> match task.phase.existing
          case None =>
            && task.job.Upsert?
            && (task.key.Some? && !task.phase.took ==> WithKey(r, task.calendar, task.key.value) == [])
          case Some(id) =>
            && task.key.Some? && id < r.next
            && forall e :: e in EventsOf(r, task.calendar) && e.id == id ==> MarkerOf(e.event) == task.key)
  }

  ghost predicate AllInformed(s: State) { forall t :: t in s.tasks ==> Informed(s.remote, s.tasks[t]) }

  ghost predicate Orderly(s: State) {
    Unique(s.remote) && FreshIds(s.remote) && Exclusive(s) && AllInformed(s)
  }

  /** A create that already took effect unheard is sent once more and takes effect again. */
  predicate Resends(s: State, step: Step) {
    && step.Send? && step.t in s.tasks && s.tasks[step.t].key.Some?
    && s.tasks[step.t].phase.Found? && s.tasks[step.t].phase.existing.None? && s.tasks[step.t].phase.took
    && TakesEffect(step.reply)
  }

  predicate NeverResends(s: State, steps: seq<Step>, w: World)
    decreases |steps|
  {
    steps != [] ==>
      && !Resends(s, steps[0])
      && (Apply(s, steps[0], w).Some? ==> NeverResends(Apply(s, steps[0], w).value, steps[1..], w))
  }

  lemma TaskForIsInformed(r: Remote, e: Entry, profile: Profile.Profile, lib: Library)
    ensures var task := TaskFor(e, profile, lib);
      Informed(r, task) && !task.phase.Holding? && (task.phase.Found? ==> task.key.None?)
  {
    if MapPayload(e.payload, profile, lib).Ok? { EventCarriesKey(e, profile, lib); }
    hide MapPayload, WithKey;
  }

  /** What a change of the calendars leaves to a task whose key it does not touch. */
  ghost predicate Spares(before: Remote, after: Remote, task: Task) {
    && before.next <= after.next
    && (task.key.Some? ==>
          WithKey(after, task.calendar, task.key.value) == WithKey(before, task.calendar, task.key.value))
    && (task.phase.Found? && task.phase.existing.Some? ==>
          forall e :: e in EventsOf(after, task.calendar) && e.id == task.phase.existing.value ==>
            exists d :: d in EventsOf(before, task.calendar) && d.id == e.id && MarkerOf(d.event) == MarkerOf(e.event))
  }

  lemma SparedStaysInformed(before: Remote, after: Remote, task: Task)
    requires Informed(before, task) && Spares(before, after, task)
    ensures Informed(after, task)
  {
    hide WithKey;
  }

  /** What one request of a task does to one calendar and key. */
  lemma EffectOnKey(r: Remote, task: Task, c: string, k: string)
    requires FreshIds(r) && task.phase.Found? && Informed(r, task)
    ensures var after := Effect(r, task);
      && FreshIds(after) && r.next <= after.next
      && (c != task.calendar || task.key != Some(k) ==> WithKey(after, c, k) == WithKey(r, c, k))
      && |WithKey(after, c, k)| <= |WithKey(r, c, k)| +
           (if c == task.calendar && task.key == Some(k) && task.phase.existing.None? then 1 else 0)
  {
    hide WithKey, FreshIds, MarkerOf;
    match task.phase.existing
    case None => CreateAdds(r, task.calendar, task.job.event, c, k);
    case Some(id) =>
      if task.job.Upsert? {
        UpdateReplaces(r, task.calendar, id, task.job.event, c, k);
        ReplacedLength(WithKey(r, c, k), id, task.job.event);
      } else {
        DeleteRemoves(r, task.calendar, id, c, k);
        RemovedMatches(WithKey(r, c, k), id, k);
        if task.key != Some(k) { NotUnder(r, c, k, task.calendar, task.key.value, id); }
      }
  }

  lemma {:induction false} ReplacedLength(events: seq<Stored>, id: nat, event: GoogleEvent)
    ensures |Replaced(events, id, event)| == |events|
    ensures forall e :: e in Replaced(events, id, event) ==>
      e in events || (e == Stored(id, event) && exists d <- events :: d.id == id)
  {
    if events != [] {
      ReplacedLength(events[1..], id, event);
      assert events == [events[0]] + events[1..];
    }
  }

  /** No request gives an id another marker, or brings back an id that is gone. */
  lemma EffectOnIds(r: Remote, task: Task, c: string, id: nat)
    requires FreshIds(r) && task.phase.Found? && Informed(r, task) && id < r.next
    ensures forall e :: e in EventsOf(Effect(r, task), c) && e.id == id ==>
      exists d :: d in EventsOf(r, c) && d.id == id && MarkerOf(d.event) == MarkerOf(e.event)
  {
    hide WithKey, FreshIds, MarkerOf;
    var events := EventsOf(r, task.calendar);
    match task.phase.existing
    case None =>
    case Some(own) =>
      if task.job.Upsert? { ReplacedLength(events, own, task.job.event); } else { RemovedMatches(events, own, ""); }
  }

  lemma EffectSpares(r: Remote, task: Task, other: Task)
    requires FreshIds(r) && task.phase.Found? && Informed(r, task) && Informed(r, other)
    requires other.key.Some? ==> other.key != task.key
    ensures Spares(r, Effect(r, task), other)
  {
    hide WithKey, FreshIds, MarkerOf, Effect;
    EffectOnKey(r, task, other.calendar, if other.key.Some? then other.key.value else "");
    if other.phase.Found? && other.phase.existing.Some? {
      EffectOnIds(r, task, other.calendar, other.phase.existing.value);
    }
  }

  /** A request keeps events unique, unless it repeats a create that took effect. */
  lemma EffectKeepsUnique(r: Remote, task: Task)
    requires Unique(r) && FreshIds(r) && task.phase.Found? && Informed(r, task)
    requires !(task.key.Some? && task.phase.existing.None? && task.phase.took)
    ensures Unique(Effect(r, task)) && FreshIds(Effect(r, task))
  {
    hide WithKey, FreshIds, MarkerOf, Effect;
    forall c, k ensures |WithKey(Effect(r, task), c, k)| <= 1 {
      EffectOnKey(r, task, c, k);
      assert |WithKey(r, c, k)| <= 1;
    }
    EffectOnKey(r, task, "", "");
  }

  lemma SameOrder(s: State, after: State)
    requires Orderly(s) && after.remote == s.remote && after.held == s.held && after.tasks == s.tasks
    ensures Orderly(after)
  {
    hide WithKey, FreshIds, Unique, Informed;
  }

  lemma EndedOrderly(s: State, t: nat)
    requires Orderly(s)
    ensures Orderly(Ended(s, t))
  {
    hide WithKey, FreshIds, Unique, Informed;
  }

  lemma LeaveOrderly(s: State, t: nat, phase: Phase)
    requires Orderly(s) && t in s.tasks && !Inside(phase)
    ensures Orderly(Leave(s, t, phase))
  {
    hide WithKey, FreshIds, Unique;
  }

  lemma StartOrderly(s: State, t: nat, task: Task)
    requires Orderly(s) && t !in s.tasks && Informed(s.remote, task)
    requires !task.phase.Holding? && (task.phase.Found? ==> task.key.None?)
    ensures Orderly(s.(tasks := s.tasks[t := task]))
  {
    hide WithKey, FreshIds, Unique, Informed;
  }

  lemma LookOrderly(s: State, t: nat, key: string, answer: Answer)
    requires Orderly(s) && In(s, t, Holding) && s.tasks[t].key == Some(key) && !s.tasks[t].job.Hopeless?
    ensures Orderly(AfterLook(s, t, key, answer))
  {
    hide WithKey, FreshIds, Unique, Find;
    var task := s.tasks[t];
    EndedOrderly(s, t);
    if answer.Answered? {
      FoundIsThere(s.remote, task.calendar, key);
      FoundIsOld(s.remote, task.calendar, key);
      if Find(s.remote, task.calendar, key).Some? { SameIdSameEvent(s.remote, task.calendar, key); }
    } else {
      LeaveOrderly(s, t, Gone(answer.failure));
    }
  }

  lemma FoundIsOld(r: Remote, c: string, key: string)
    requires FreshIds(r)
    ensures Find(r, c, key).Some? ==> Find(r, c, key).value < r.next
  {
    FoundIsThere(r, c, key);
    hide WithKey, Find;
  }

  /** The tasks other than `t` are as informed after the request of `t` as before. */
  lemma OthersInformed(s: State, t: nat, u: nat)
    requires Orderly(s) && t in s.tasks && s.tasks[t].phase.Found? && u in s.tasks && u != t
    ensures Informed(Effect(s.remote, s.tasks[t]), s.tasks[u])
  {
    hide WithKey, FreshIds, Unique, Effect, Informed;
    if s.tasks[u].phase.Found? {
      EffectSpares(s.remote, s.tasks[t], s.tasks[u]);
      SparedStaysInformed(s.remote, Effect(s.remote, s.tasks[t]), s.tasks[u]);
    } else {
      NotFoundInformed(s.remote, Effect(s.remote, s.tasks[t]), s.tasks[u]);
    }
  }

  lemma NotFoundInformed(before: Remote, after: Remote, task: Task)
    requires Informed(before, task) && !task.phase.Found?
    ensures Informed(after, task)
  {
  }

  lemma OwnInformed(s: State, t: nat, took: bool)
    requires Orderly(s) && t in s.tasks && s.tasks[t].phase.Found?
    ensures var task := s.tasks[t];
      var after := if took then Effect(s.remote, task) else s.remote;
      Informed(after, task.(phase := Found(task.phase.existing, task.phase.took || took)))
  {
    hide WithKey, FreshIds, Unique, Effect;
    var task := s.tasks[t];
    EffectOnKey(s.remote, task, "", "");
    if task.phase.existing.Some? { EffectOnIds(s.remote, task, task.calendar, task.phase.existing.value); }
  }

  lemma SendOrderly(s: State, t: nat, reply: Reply)
    requires Orderly(s) && t in s.tasks && s.tasks[t].phase.Found? && !Resends(s, Send(t, reply))
    ensures Orderly(AfterSend(s, t, reply))
  {
    hide WithKey, FreshIds, Unique, Effect, Informed, Exclusive, Released;
    var task := s.tasks[t];
    var took := TakesEffect(reply);
    var sent := s.(remote := if took then Effect(s.remote, task) else s.remote);
    if took { EffectKeepsUnique(s.remote, task); }
    OwnInformed(s, t, took);
    var marked := sent.(tasks := s.tasks[t := task.(phase := Found(task.phase.existing, task.phase.took || took))]);
    forall u | u in s.tasks && u != t ensures Informed(sent.remote, s.tasks[u]) {
      if took { OthersInformed(s, t, u); }
    }
    StillExclusive(s, t, marked);
    match reply
    case Again(_) =>
    case GivenUp(_, f) =>
      EndedOrderly(marked, t);
      LeaveOrderly(marked, t, Gone(f));
      SameOrder(Ended(marked, t), Ended(sent, t));
      SameOrder(Leave(marked, t, Gone(f)), Leave(sent, t, Gone(f)));
    case Confirmed =>
      EndedOrderly(marked, t);
      var id := WrittenId(s.remote, task);
      LeaveOrderly(marked, t, Written(id));
      SameOrder(Ended(marked, t), Ended(sent, t));
      if !task.job.Removal? { SameOrder(Leave(marked, t, Written(id)), AfterSend(s, t, reply)); }
  }

  lemma StillExclusive(s: State, t: nat, after: State)
    requires Exclusive(s) && t in s.tasks && t in after.tasks && after.held == s.held
    requires after.tasks == s.tasks[t := after.tasks[t]]
    requires after.tasks[t].key == s.tasks[t].key && Inside(after.tasks[t].phase) && Inside(s.tasks[t].phase)
    ensures Exclusive(after)
  {
  }

  lemma DeletionSpares(r: Remote, c: string, id: nat, task: Task)
    requires FreshIds(r) && Informed(r, task)
    ensures Informed(Delete(r, c, id), task)
  {
    RemovedMatches(EventsOf(r, c), id, "");
    if task.key.Some? {
      DeleteRemoves(r, c, id, task.calendar, task.key.value);
      RemovedMatches(WithKey(r, task.calendar, task.key.value), id, "");
    }
    hide WithKey, FreshIds, MarkerOf;
  }

  lemma PersonDeletesOrderly(s: State, c: string, id: nat)
    requires Orderly(s)
    ensures Orderly(s.(remote := Delete(s.remote, c, id)))
  {
    hide WithKey, FreshIds, Informed, Delete;
    var after := Delete(s.remote, c, id);
    forall d, k ensures |WithKey(after, d, k)| <= 1 {
      DeleteRemoves(s.remote, c, id, d, k);
      RemovedMatches(WithKey(s.remote, d, k), id, k);
      assert |WithKey(s.remote, d, k)| <= 1;
    }
    DeleteRemoves(s.remote, c, id, "", "");
    forall t | t in s.tasks ensures Informed(after, s.tasks[t]) { DeletionSpares(s.remote, c, id, s.tasks[t]); }
  }

  lemma AcquireOrderly(s: State, t: nat)
    requires Orderly(s) && In(s, t, Waiting) && s.tasks[t].key.Some? && s.tasks[t].key.value !in s.held
    ensures Orderly(s.(held := s.held[s.tasks[t].key.value := t], tasks := s.tasks[t := s.tasks[t].(phase := Holding)]))
  {
    hide WithKey, FreshIds, Unique;
  }

  lemma MarkOrderly(s: State, t: nat, r: Record, w: World, disk: Disk)
    requires Orderly(s)
    ensures Orderly(Mark(s, t, r, w, disk))
  {
  }

  lemma TaskStepOrderly(s: State, t: nat, task: Task)
    requires Orderly(s) && t in s.tasks && s.tasks[t] == task
    ensures Informed(s.remote, task)
  {
    hide WithKey, FreshIds, Unique, Informed;
  }

  /** Every step that repeats no effective create keeps order. */
  lemma StepOrderly(s: State, step: Step, w: World)
    requires Orderly(s) && Apply(s, step, w).Some? && !Resends(s, step)
    ensures Orderly(Apply(s, step, w).value)
  {
    hide Orderly, AfterAppend, Acknowledged, AfterSend, AfterLook, Mark, Ended, TaskFor, Read, AfterCompact,
         Informed, Possible, Pending, Profile.Key;
    var after := Apply(s, step, w).value;
    match step
    case StartNext(t, profile) =>
      TaskForIsInformed(s.remote, s.queue[0], profile, w.lib);
      StartOrderly(s, t, TaskFor(s.queue[0], profile, w.lib));
      SameOrder(s.(tasks := after.tasks), after);
    case StartSync(t, e, profile) =>
      TaskForIsInformed(s.remote, e, profile, w.lib);
      StartOrderly(s, t, TaskFor(e, profile, w.lib));
    case StartRemoval(t, profile, id) => RemovalStarts(s, t, after.tasks[t]);
    case Acquire(t) => AcquireOrderly(s, t);
    case Look(t, answer) =>
      TaskStepOrderly(s, t, s.tasks[t]);
      HoldingIsNotHopeless(s.remote, s.tasks[t]);
      LookOrderly(s, t, s.tasks[t].key.value, answer);
    case Send(t, reply) => SendOrderly(s, t, reply);
    case MarkDone(t, disk) => MarkOrderly(s, t, Done(s.tasks[t].job.entry.id), w, disk);
    case SetAside(t, reason, at, disk) => MarkOrderly(s, t, Dead(s.tasks[t].job.entry.id, reason, at), w, disk);
    case Abandon(t) => EndedOrderly(s, t);
    case PersonDeletes(c, id) => PersonDeletesOrderly(s, c, id);
    case PowerCut => NothingRuns(s, after);
    case Accept(_, _) => SameOrder(s, after);
    case ReadQueue => SameOrder(s, after);
    case SkipNext => SameOrder(s, after);
    case Compact(_) => SameOrder(s, after);
  }

  lemma HoldingIsNotHopeless(r: Remote, task: Task)
    requires Informed(r, task) && task.phase.Holding?
    ensures !task.job.Hopeless?
  {
  }

  lemma RemovalStarts(s: State, t: nat, task: Task)
    requires Orderly(s) && t !in s.tasks && task.job.Removal? && task.key.Some? && task.phase.Waiting?
    ensures Orderly(s.(tasks := s.tasks[t := task]))
  {
    StartOrderly(s, t, task);
  }

  lemma NothingRuns(s: State, after: State)
    requires Orderly(s) && after.remote == s.remote && after.tasks == map[] && after.held == map[]
    ensures Orderly(after)
  {
  }

  /**
    However deliveries, deletions, marks, compactions, people's deletions and power cuts
    interleave, every calendar holds at most one event per key, as long as no create that
    took effect unheard is sent again.
   */
  lemma {:induction false} OneEventPerKey(s: State, steps: seq<Step>, w: World)
    requires Orderly(s) && Run(s, steps, w).Some? && NeverResends(s, steps, w)
    ensures Orderly(Run(s, steps, w).value)
    decreases |steps|
  {
    hide Orderly, Apply, Resends;
    if steps != [] {
      StepOrderly(s, steps[0], w);
      OneEventPerKey(Apply(s, steps[0], w).value, steps[1..], w);
    }
  }

  lemma AtMostOneEventPerKey(s: State, steps: seq<Step>, w: World)
    requires Initial(s) && Run(s, steps, w).Some? && NeverResends(s, steps, w)
    ensures Unique(Run(s, steps, w).value.remote)
  {
    OneEventPerKey(s, steps, w);
  }

  /**
    The proviso is exact: a request that takes effect in an orderly state leaves two events
    under a key exactly when it creates one while the key already has one.
   */
  lemma ResendDuplicates(s: State, t: nat, reply: Reply)
    requires Orderly(s) && t in s.tasks && s.tasks[t].phase.Found? && TakesEffect(reply)
    ensures var task := s.tasks[t];
      Unique(AfterSend(s, t, reply).remote)
      <==> !(task.key.Some? && task.phase.existing.None? && WithKey(s.remote, task.calendar, task.key.value) != [])
  {
    hide FreshIds, MarkerOf, Effect, WithKey, Exclusive;
    var task := s.tasks[t];
    TaskStepOrderly(s, t, task);
    var after := Effect(s.remote, task);
    if task.key.Some? && task.phase.existing.None? {
      CreatesUnder(s.remote, task);
      if WithKey(s.remote, task.calendar, task.key.value) == [] {
        forall c, k ensures |WithKey(after, c, k)| <= 1 {
          EffectOnKey(s.remote, task, c, k);
          assert |WithKey(s.remote, c, k)| <= 1;
        }
      }
    } else {
      EffectKeepsUnique(s.remote, task);
    }
  }

  lemma CreatesUnder(r: Remote, task: Task)
    requires Informed(r, task) && task.phase.Found? && task.key.Some? && task.phase.existing.None?
    ensures WithKey(Effect(r, task), task.calendar, task.key.value)
         == WithKey(r, task.calendar, task.key.value) + [Stored(r.next, task.job.event)]
  {
    hide WithKey, MarkerOf;
    CreateAdds(r, task.calendar, task.job.event, task.calendar, task.key.value);
  }

  /** When a delivery is answered, exactly one event carries its key, and it is this delivery's. */
  lemma AnsweredIsThere(s: State, t: nat)
    requires Orderly(s) && t in s.tasks && s.tasks[t].phase.Found? && s.tasks[t].key.Some? && s.tasks[t].job.Upsert?
    requires !Resends(s, Send(t, Confirmed)) && Possible(s.remote, s.tasks[t], Confirmed)
    ensures var task := s.tasks[t];
      var there := WithKey(AfterSend(s, t, Confirmed).remote, task.calendar, task.key.value);
      && |there| == 1 && there[0].event == task.job.event
      && (task.phase.existing.Some? ==> there[0].id == task.phase.existing.value)
  {
    hide FreshIds, MarkerOf, WithKey, Exclusive;
    var task := s.tasks[t];
    var c, k := task.calendar, task.key.value;
    TaskStepOrderly(s, t, task);
    assert |WithKey(s.remote, c, k)| <= 1;
    match task.phase.existing
    case None => CreatesUnder(s.remote, task);
    case Some(id) =>
      var e :| e in EventsOf(s.remote, c) && e.id == id;
      assert MarkerOf(e.event) == task.key;
      UnderItsKey(s.remote, c, k, e);
      UpdateReplaces(s.remote, c, id, task.job.event, c, k);
      OneReplaced(WithKey(s.remote, c, k), id, task.job.event);
  }

  lemma UnderItsKey(r: Remote, c: string, k: string, e: Stored)
    requires e in EventsOf(r, c) && MarkerOf(e.event) == Some(k) && |WithKey(r, c, k)| <= 1
    ensures WithKey(r, c, k) == [e]
  {
    MatchingMembers(EventsOf(r, c), k);
    assert e in WithKey(r, c, k);
  }

  /** When a deletion is answered, no event carries its key: no interleaved delivery can have left a copy. */
  lemma AnsweredRemovalLeavesNone(s: State, t: nat)
    requires Orderly(s) && t in s.tasks && s.tasks[t].phase.Found? && s.tasks[t].job.Removal?
    requires Possible(s.remote, s.tasks[t], Confirmed)
    ensures var task := s.tasks[t];
      task.key.Some? && WithKey(AfterSend(s, t, Confirmed).remote, task.calendar, task.key.value) == []
  {
    hide FreshIds, MarkerOf, WithKey, Exclusive;
    var task := s.tasks[t];
    TaskStepOrderly(s, t, task);
    var c, k := task.calendar, task.key.value;
    var id := task.phase.existing.value;
    assert |WithKey(s.remote, c, k)| <= 1;
    var e :| e in EventsOf(s.remote, c) && e.id == id;
    UnderItsKey(s.remote, c, k, e);
    DeleteRemoves(s.remote, c, id, c, k);
    assert Removed([e], id) == Removed([e][1..], id) == [];
  }

  // ----- nothing acknowledged is lost -----------------------------------------------------

  /** The file holds this log, possibly followed by what unfinished writes left. */
  ghost predicate Holds(file: seq<Utf8.Byte>, log: seq<Record>) {
    exists sh :: HasShape(file, sh) && Recorded(sh) == log
  }

  function Appended(s: State, step: Step): Option<(Record, Disk)> {
    match step
    case Accept(e, disk) => Some((Accepted(e), disk))
    case MarkDone(t, disk) =>
      if HasWritten(s, t) then Some((Done(s.tasks[t].job.entry.id), disk)) else None
    case SetAside(t, reason, at, disk) =>
      if In(s, t, Gone(Permanent)) && !s.tasks[t].job.Removal?
      then Some((Dead(s.tasks[t].job.entry.id, reason, at), disk)) else None
    case _ => None
  }

  /** Nothing is appended to a torn tail, and no write is cut inside a character. */
  predicate Careful(s: State, step: Step) {
    match Appended(s, step)
    case None => true
    case Some((r, disk)) => EndsCleanly(s.file) && Utf8.CharsBefore(Records.Print(r) + "\n", Landed(r, disk)).Some?
  }

  predicate AlwaysCareful(s: State, steps: seq<Step>, w: World)
    decreases |steps|
  {
    steps != [] ==>
      && Careful(s, steps[0])
      && (Apply(s, steps[0], w).Some? ==> AlwaysCareful(Apply(s, steps[0], w).value, steps[1..], w))
  }

  lemma HeldIsRead(file: seq<Utf8.Byte>, log: seq<Record>)
    requires Holds(file, log)
    ensures Read(file) == Ok(log)
  {
    hide HasShape, Read;
    var sh :| HasShape(file, sh) && Recorded(sh) == log;
    ShapeReads(file, sh);
  }

  lemma RenderIsHeld(log: seq<Record>)
    ensures Holds(Render(log), log)
  {
    hide HasShape, Read, Render;
    RenderReads(log);
    assert Recorded(Shape(log, [])) == log;
  }

  /** A careful append adds the record exactly if the file receives it. */
  lemma CarefulAppend(file: seq<Utf8.Byte>, log: seq<Record>, r: Record, cap: nat, disk: Disk)
    requires Holds(file, log) && EndsCleanly(file)
    requires Utf8.CharsBefore(Records.Print(r) + "\n", Landed(r, disk)).Some?
    ensures Holds(AfterAppend(file, r, cap, disk), if Received(file, r, cap, disk) then log + [r] else log)
    ensures Acknowledged(file, r, cap, disk) ==> Received(file, r, cap, disk)
  {
    hide HasShape, Read, Line, Records.Print, Utf8.CharsBefore, EndsCleanly;
    var sh :| HasShape(file, sh) && Recorded(sh) == log;
    if Fits(file, r, cap) {
      var n := Landed(r, disk);
      CleanEnd(file, sh);
      assert Intact([]) == [] && sh.records + [] == sh.records;
      WriteLands(file, sh, r, n);
      TornWriteReads(file, sh, r, n);
      var torn := file + Line(r)[..n];
      var shape := RecordFile.Written(sh, r, n);
      if shape.Some? { ShapeReads(torn, shape.value); }
    }
  }

  lemma HeldAfterCompact(file: seq<Utf8.Byte>, log: seq<Record>, replaced: bool)
    requires Holds(file, log)
    ensures Holds(AfterCompact(file, replaced), if replaced then Compacted(log) else log)
  {
    hide Holds, Read, Render;
    HeldIsRead(file, log);
    RenderIsHeld(Compacted(log));
  }

  /** The entry was written to its calendar and its `Done` marker came into the journal. */
  predicate IsDelivered(s: State, e: Entry) { e in s.reached && e.id in s.done }

  /** The parts of `Durable` that do not look at the file's bytes. */
  ghost predicate Kept(s: State, log: seq<Record>) {
    && (forall e :: e in Entries(log) ==> e.id in s.offered && s.offered[e.id] == e)
    && (forall e :: e in s.acked ==>
          e.id in s.offered && s.offered[e.id] == e && (e in Entries(log) || IsDelivered(s, e)))
    && (forall id :: id in DoneIds(log) ==> id in s.offered && IsDelivered(s, s.offered[id]) && s.offered[id].id == id)
    && (forall id :: id in s.settled ==>
          id in s.offered && (id in MarkedIds(log) || forall e :: e in Entries(log) ==> e.id != id))
  }

  /** Entries that are being delivered were offered, and count as reached once their write was answered. */
  ghost predicate Known(s: State) {
    && (forall e :: e in s.queue ==> e.id in s.offered && s.offered[e.id] == e)
    && (forall t :: t in s.tasks && !s.tasks[t].job.Removal? ==>
          var e := s.tasks[t].job.entry;
          && e.id in s.offered && s.offered[e.id] == e
          && (s.tasks[t].phase.Written? ==> e in s.reached))
  }

  /** What keeps acknowledged entries safe. */
  ghost predicate Durable(s: State, log: seq<Record>) { Holds(s.file, log) && Kept(s, log) && Known(s) }

  /** Compaction drops only entries that were delivered. */
  lemma KeptByCompaction(s: State, log: seq<Record>)
    requires Kept(s, log)
    ensures Kept(s, Compacted(log))
  {
    hide Entries, MarkedIds, Reasons, Compacted, Without, Only;
    var c := Compacted(log);
    CompactedReads(log);
    WithoutMembers(Entries(log), MarkedIds(log));
    OnlyMembers(Entries(log), Reasons(log).Keys);
    NoDoneLeft(log);
    forall e | e in Entries(log) ensures e in Entries(c) || e.id in DoneIds(log) {
      MarkedOrSetAside(log, e.id);
    }
  }

  lemma MarkedOrSetAside(log: seq<Record>, id: string)
    ensures id in MarkedIds(log) ==> id in DoneIds(log) || id in Reasons(log)
  {
    ReasonsAreMarked(log);
  }

  lemma NoDoneLeft(log: seq<Record>)
    ensures DoneIds(Compacted(log)) == {}
  {
    var p, d := AsRecords(Pending(log)), Repost(DeadLetters(log));
    MarkedAppend(p, d);
    AsRecordsDone(Pending(log));
    RepostDone(DeadLetters(log));
  }

  lemma {:induction false} AsRecordsDone(es: seq<Entry>)
    ensures DoneIds(AsRecords(es)) == {}
  {
    if es != [] {
      AsRecordsDone(es[1..]);
      MarkedAppend([Accepted(es[0])], AsRecords(es[1..]));
    }
  }

  lemma {:induction false} RepostDone(ls: seq<Letter>)
    ensures DoneIds(Repost(ls)) == {}
  {
    if ls != [] {
      RepostDone(ls[1..]);
      MarkedAppend([Accepted(ls[0].entry), Dead(ls[0].entry.id, ls[0].reason, ls[0].at)], Repost(ls[1..]));
    }
  }

  /** What one more record does to the readings of a log. */
  lemma OneMore(log: seq<Record>, r: Record)
    ensures Entries(log + [r]) == if r.Accepted? then Entries(log) + [r.entry] else Entries(log)
    ensures MarkedIds(log + [r]) == if r.Accepted? then MarkedIds(log) else MarkedIds(log) + {r.id}
    ensures DoneIds(log + [r]) == if r.Done? then DoneIds(log) + {r.id} else DoneIds(log)
  {
    EntriesAppend(log, [r]);
    MarkedAppend(log, [r]);
    assert [r][1..] == [];
    assert Entries([r]) == if r.Accepted? then [r.entry] else [];
    assert Entries(log) + [] == Entries(log);
    assert r in [r];
  }

  lemma AcceptKeeps(s: State, log: seq<Record>, e: Entry, w: World, disk: Disk) returns (log': seq<Record>)
    requires Durable(s, log) && e.id !in s.offered && Careful(s, Accept(e, disk))
    ensures Durable(Apply(s, Accept(e, disk), w).value, log')
  {
    hide Holds, Kept, AfterAppend, Acknowledged, Utf8.CharsBefore, EndsCleanly, Records.Print, Received;
    CarefulAppend(s.file, log, Accepted(e), w.cap, disk);
    log' := if Received(s.file, Accepted(e), w.cap, disk) then log + [Accepted(e)] else log;
    AcceptKept(s, log, e, w, disk);
  }

  lemma AcceptKept(s: State, log: seq<Record>, e: Entry, w: World, disk: Disk)
    requires Kept(s, log) && e.id !in s.offered
    requires Acknowledged(s.file, Accepted(e), w.cap, disk) ==> Received(s.file, Accepted(e), w.cap, disk)
    ensures Kept(Apply(s, Accept(e, disk), w).value,
      if Received(s.file, Accepted(e), w.cap, disk) then log + [Accepted(e)] else log)
  {
    hide Entries, MarkedIds, DoneIds, AfterAppend, Acknowledged, Received;
    OneMore(log, Accepted(e));
  }

  /** A marker of a known id; a `Done` marker only after the entry reached its calendar. */
  lemma MarkKeeps(s: State, log: seq<Record>, t: nat, r: Record, w: World, disk: Disk) returns (log': seq<Record>)
    requires Durable(s, log) && !r.Accepted? && r.id in s.offered && s.offered[r.id].id == r.id
    requires r.Done? ==> s.offered[r.id] in s.reached
    requires EndsCleanly(s.file) && Utf8.CharsBefore(Records.Print(r) + "\n", Landed(r, disk)).Some?
    ensures Durable(Mark(s, t, r, w, disk), log')
  {
    hide Holds, Kept, AfterAppend, Acknowledged, Utf8.CharsBefore, EndsCleanly, Records.Print, Received;
    CarefulAppend(s.file, log, r, w.cap, disk);
    log' := if Received(s.file, r, w.cap, disk) then log + [r] else log;
    MarkKept(s, log, t, r, w, disk);
  }

  lemma MarkKept(s: State, log: seq<Record>, t: nat, r: Record, w: World, disk: Disk)
    requires Kept(s, log) && !r.Accepted? && r.id in s.offered && s.offered[r.id].id == r.id
    requires r.Done? ==> s.offered[r.id] in s.reached
    requires Acknowledged(s.file, r, w.cap, disk) ==> Received(s.file, r, w.cap, disk)
    ensures Kept(Mark(s, t, r, w, disk), if Received(s.file, r, w.cap, disk) then log + [r] else log)
  {
    hide Entries, MarkedIds, DoneIds, AfterAppend, Acknowledged, Received;
    OneMore(log, r);
  }

  lemma PendingIsKnown(s: State, log: seq<Record>)
    requires Kept(s, log)
    ensures forall e :: e in Pending(log) ==> e.id in s.offered && s.offered[e.id] == e
  {
    WithoutMembers(Entries(log), MarkedIds(log));
  }

  lemma StartKeeps(s: State, t: nat, e: Entry, profile: Profile.Profile, lib: Library)
    requires Known(s) && e.id in s.offered && s.offered[e.id] == e
    ensures Known(s.(tasks := s.tasks[t := TaskFor(e, profile, lib)]))
  {
    hide MapPayload;
  }

  lemma SendKnown(s: State, t: nat, reply: Reply)
    requires Known(s) && t in s.tasks && s.tasks[t].phase.Found?
    ensures Known(AfterSend(s, t, reply))
  {
    hide Effect;
  }

  lemma LookKnown(s: State, t: nat, key: string, answer: Answer)
    requires Known(s) && t in s.tasks && s.tasks[t].phase.Holding?
    ensures Known(AfterLook(s, t, key, answer))
  {
    hide Find;
  }

  lemma TakeNextKeeps(s: State)
    requires Known(s) && s.queue != []
    ensures Known(s.(queue := s.queue[1..])) && s.queue[0].id in s.offered && s.offered[s.queue[0].id] == s.queue[0]
  {
    assert s.queue[0] in s.queue;
  }

  lemma SendKept(s: State, t: nat, reply: Reply, log: seq<Record>)
    requires Kept(s, log) && t in s.tasks && s.tasks[t].phase.Found?
    ensures Kept(AfterSend(s, t, reply), log) && AfterSend(s, t, reply).file == s.file
  {
    hide Effect, Entries, DoneIds, MarkedIds;
  }

  lemma LookKept(s: State, t: nat, key: string, answer: Answer, log: seq<Record>)
    requires Kept(s, log) && t in s.tasks
    ensures Kept(AfterLook(s, t, key, answer), log) && AfterLook(s, t, key, answer).file == s.file
  {
    hide Find, Entries, DoneIds, MarkedIds;
  }

  lemma TaskKnown(s: State, t: nat)
    requires Known(s) && t in s.tasks && !s.tasks[t].job.Removal?
    ensures var e := s.tasks[t].job.entry;
      e.id in s.offered && s.offered[e.id] == e && (s.tasks[t].phase.Written? ==> e in s.reached)
  {
  }

  lemma SameFacts(s: State, after: State, log: seq<Record>)
    requires Kept(s, log) && after.offered == s.offered && after.acked == s.acked
    requires after.reached == s.reached && after.settled == s.settled && after.done == s.done
    ensures Kept(after, log)
  {
  }

  lemma AcquireKnown(s: State, t: nat, held: map<string, nat>)
    requires Known(s) && t in s.tasks
    ensures Known(s.(held := held, tasks := s.tasks[t := s.tasks[t].(phase := Holding)]))
  {
  }

  lemma RemovalKnown(s: State, t: nat, task: Task)
    requires Known(s) && task.job.Removal?
    ensures Known(s.(tasks := s.tasks[t := task]))
  {
  }

  lemma FewerKnown(s: State, after: State)
    requires Known(s) && after.offered == s.offered && after.reached == s.reached
    requires after.queue == s.queue || after.queue == []
    requires forall t :: t in after.tasks ==> t in s.tasks && after.tasks[t] == s.tasks[t]
    ensures Known(after)
  {
  }

  /** Every careful step keeps acknowledged entries safe, with a log the file can be read as. */
  lemma StepDurable(s: State, log: seq<Record>, step: Step, w: World) returns (log': seq<Record>)
    requires Durable(s, log) && Apply(s, step, w).Some? && Careful(s, step)
    ensures Durable(Apply(s, step, w).value, log')
  {
    hide Holds, Kept, Known, AfterAppend, Acknowledged, AfterSend, AfterLook, Mark, TaskFor, Read, AfterCompact,
         Possible, Pending, Compacted, Profile.Key, EndsCleanly, Utf8.CharsBefore, Records.Print;
    var after := Apply(s, step, w).value;
    log' := log;
    match step
    case Accept(e, disk) => log' := AcceptKeeps(s, log, e, w, disk);
    case ReadQueue =>
      HeldIsRead(s.file, log);
      ReadKeeps(s, log);
      SameFacts(s, after, log);
    case StartNext(t, profile) =>
      TakeNextKeeps(s);
      StartKeeps(s.(queue := s.queue[1..]), t, s.queue[0], profile, w.lib);
      SameFacts(s, after, log);
    case SkipNext =>
      TakeNextKeeps(s);
      SameFacts(s, after, log);
    case StartSync(t, e, profile) =>
      AckedIsOffered(s, log, e);
      StartKeeps(s, t, e, profile, w.lib);
      SameFacts(s, after, log);
    case StartRemoval(t, profile, id) =>
      RemovalKnown(s, t, after.tasks[t]);
      SameFacts(s, after, log);
    case Acquire(t) =>
      AcquireKnown(s, t, after.held);
      SameFacts(s, after, log);
    case Look(t, answer) =>
      LookKnown(s, t, s.tasks[t].key.value, answer);
      LookKept(s, t, s.tasks[t].key.value, answer, log);
    case Send(t, reply) =>
      SendKnown(s, t, reply);
      SendKept(s, t, reply, log);
    case MarkDone(t, disk) =>
      TaskKnown(s, t);
      log' := MarkKeeps(s, log, t, Done(s.tasks[t].job.entry.id), w, disk);
    case SetAside(t, reason, at, disk) =>
      TaskKnown(s, t);
      log' := MarkKeeps(s, log, t, Dead(s.tasks[t].job.entry.id, reason, at), w, disk);
    case Abandon(t) =>
      FewerKnown(s, after);
      SameFacts(s, after, log);
    case Compact(replaced) =>
      if replaced { log' := Compacted(log); KeptByCompaction(s, log); }
      HeldAfterCompact(s.file, log, replaced);
      FewerKnown(s, after);
      SameFacts(s, after, log');
    case PersonDeletes(c, id) =>
      FewerKnown(s, after);
      SameFacts(s, after, log);
    case PowerCut =>
      FewerKnown(s, after);
      SameFacts(s, after, log);
  }

  lemma AckedIsOffered(s: State, log: seq<Record>, e: Entry)
    requires Kept(s, log) && e in s.acked
    ensures e.id in s.offered && s.offered[e.id] == e
  {
  }

  lemma ReadKeeps(s: State, log: seq<Record>)
    requires Kept(s, log) && Known(s)
    ensures Known(s.(queue := Pending(log)))
  {
    PendingIsKnown(s, log);
  }

  lemma {:induction false} RunDurable(s: State, log: seq<Record>, steps: seq<Step>, w: World)
    returns (log': seq<Record>)
    requires Durable(s, log) && Run(s, steps, w).Some? && AlwaysCareful(s, steps, w)
    ensures Durable(Run(s, steps, w).value, log')
    decreases |steps|
  {
    hide Durable, Apply, Careful;
    log' := log;
    if steps != [] {
      log' := StepDurable(s, log, steps[0], w);
      log' := RunDurable(Apply(s, steps[0], w).value, log', steps[1..], w);
    }
  }

  /** Where an entry stands according to the journal: still queued, or set aside with a reason. */
  predicate Listed(log: seq<Record>, e: Entry) { e in Pending(log) || exists l <- DeadLetters(log) :: l.entry == e }

  lemma KeptMeans(s: State, log: seq<Record>)
    requires Kept(s, log)
    ensures forall e :: e in s.acked ==> Listed(log, e) || IsDelivered(s, e)
    ensures forall e :: e in Pending(log) ==> e.id !in s.settled
  {
    hide Entries, MarkedIds, DoneIds, Reasons, Without, Letters;
    WithoutMembers(Entries(log), MarkedIds(log));
    LettersMembers(Entries(log), Reasons(log));
    forall e | e in s.acked ensures Listed(log, e) || IsDelivered(s, e) {
      MarkedOrSetAside(log, e.id);
      if e in Entries(log) && e.id in Reasons(log) {
        var l := Letter(e, Reasons(log)[e.id].0, Reasons(log)[e.id].1);
        assert l in DeadLetters(log);
      }
    }
  }

  /**
    Nothing acknowledged is lost. In every state a run can reach, with any interleaving,
    failed disk writes and power cuts, the journal can be read, and every entry whose
    acceptance was acknowledged is pending in it, set aside in it with a reason, or was written
    to its calendar and then marked done in it. Until that marker came into the journal, then,
    a delivered entry stays queued or set aside. The proviso: nothing is appended to a torn
    tail before a compaction, and no write is cut inside a character.
   */
  lemma NothingAcknowledgedIsLost(s: State, steps: seq<Step>, w: World) returns (log: seq<Record>)
    requires Initial(s) && Run(s, steps, w).Some? && AlwaysCareful(s, steps, w)
    ensures var after := Run(s, steps, w).value;
      && Read(after.file) == Ok(log)
      && (forall e :: e in after.acked ==> Listed(log, e) || IsDelivered(after, e))
      && (forall e :: e in Pending(log) ==> e.id !in after.settled)
  {
    hide Run, AlwaysCareful, Unique, FreshIds, Read, Pending, Listed, IsDelivered;
    InitialIsDurable(s);
    log := RunDurable(s, [], steps, w);
    HeldIsRead(Run(s, steps, w).value.file, log);
    KeptMeans(Run(s, steps, w).value, log);
  }

  lemma InitialIsDurable(s: State)
    requires Initial(s)
    ensures Durable(s, [])
  {
    hide Unique, FreshIds, Holds;
    RenderIsHeld([]);
  }

  /** The proviso is exact: after an acknowledged acceptance the journal is readable if and only if it ended cleanly. */
  lemma TornTailLoses(s: State, log: seq<Record>, e: Entry, w: World)
    requires Durable(s, log) && e.id !in s.offered && Acknowledged(s.file, Accepted(e), w.cap, Sound)
    ensures Read(Apply(s, Accept(e, Sound), w).value.file).Ok? <==> EndsCleanly(s.file)
  {
    hide Kept, Known, HasShape, Read, EndsCleanly, Line;
    var sh :| HasShape(s.file, sh) && Recorded(sh) == log;
    AppendIsReadable(s.file, sh, Accepted(e));
    assert Line(Accepted(e))[..|Line(Accepted(e))|] == Line(Accepted(e));
  }

  /** And compaction is the way out: what it leaves ends with a line feed. */
  lemma CompactionMends(s: State, log: seq<Record>)
    requires Durable(s, log)
    ensures EndsCleanly(AfterCompact(s.file, true))
  {
    hide Kept, Known, HasShape, Read, EndsCleanly, Render;
    HeldIsRead(s.file, log);
    RenderReads(Compacted(log));
    CleanEnd(Render(Compacted(log)), Shape(Compacted(log), []));
  }
}
