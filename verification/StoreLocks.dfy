/**
  The token store under concurrency: two readers/writer locks with one queue each, the
  operations as steps between their awaits, one file written while both locks are held.
 */
module StoreLocks {
  import opened Wrappers
  import opened TokenStore

  datatype Mode = Shared | Exclusive

  datatype Which = Tokens | Sessions

  /** Where an operation stands; `Persisting` has serialised this copy and is writing it. */
  datatype Phase =
    | WaitsFirst
    | HoldsFirst
    | WaitsSecond
    | HoldsBoth
    | Persisting(copy: Memory)
    | Finished

  /** `logged` is the place of the operation among the changes, once it has changed the memory. */
  datatype Task = Task(op: Op, phase: Phase, logged: Option<nat>)

  /**
    The queues of the two locks, in order of arrival; who holds a lock follows from the
    phases. `log`, `committed` and `answered` are history: the changes made to the memory,
    how many of them the file holds, and the changes whose caller was told they are durable.
    `stale` says that a change was left unwritten.
   */
  datatype State = State(
    tasks: seq<Task>,
    forTokens: seq<nat>,
    forSessions: seq<nat>,
    memory: Memory,
    file: Memory,
    log: seq<Op>,
    committed: nat,
    answered: set<nat>,
    stale: bool)

  datatype Step =
    | Begin(op: Op)
    | Grant(lock: Which)
    | Act(t: nat)
    | Commit(t: nat, replaced: bool)
    | Cancel(t: nat)
    | PowerCut

  // ----- the lock order -------------------------------------------------------------------

  /** The lock an operation takes first. Tokens come before sessions, always. */
  function First(op: Op): (Which, Mode) {
    match op
    case Issue(_, _) => (Tokens, Exclusive)
    case Revoke(_) => (Tokens, Exclusive)
    case Verify(_, _) => (Tokens, Shared)
    case StartSession(_, _, _) => (Tokens, Shared)
    case EndSession(_) => (Tokens, Shared)
    case SessionIsLive(_, _) => (Sessions, Shared)
  }

  /** How an operation that writes the file takes the second lock, the sessions. */
  function Second(op: Op): Option<Mode> {
    match op
    case Issue(_, _) => Some(Shared)
    case Revoke(_) => Some(Shared)
    case StartSession(_, _, _) => Some(Exclusive)
    case EndSession(_) => Some(Exclusive)
    case Verify(_, _) => None
    case SessionIsLive(_, _) => None
  }

  /** The mode in which a task holds a lock, if it does. */
  function Owns(task: Task, lock: Which): Option<Mode> {
    match task.phase
    case HoldsFirst => if First(task.op).0 == lock then Some(First(task.op).1) else None
    case WaitsSecond => if First(task.op).0 == lock then Some(First(task.op).1) else None
    case HoldsBoth => if First(task.op).0 == lock then Some(First(task.op).1) else Second(task.op)
    case Persisting(_) => if First(task.op).0 == lock then Some(First(task.op).1) else Second(task.op)
    case WaitsFirst => None
    case Finished => None
  }

  predicate WaitsFor(task: Task, lock: Which) {
    (task.phase.WaitsFirst? && First(task.op).0 == lock) || (task.phase.WaitsSecond? && lock == Sessions)
  }

  function Wanted(task: Task): Mode {
    if task.phase.WaitsFirst? then First(task.op).1
    else match Second(task.op)
      case Some(m) => m
      case None => Shared
  }

  function Queue(s: State, lock: Which): seq<nat> { if lock.Tokens? then s.forTokens else s.forSessions }

  /** A reader may enter beside readers, a writer only alone. */
  predicate Admits(s: State, lock: Which, mode: Mode) {
    forall t :: 0 <= t < |s.tasks| ==> match Owns(s.tasks[t], lock)
      case None => true
      case Some(m) => m.Shared? && mode.Shared?
  }

  // ----- the steps -------------------------------------------------------------------------

  function Without(queue: seq<nat>, t: nat): (r: seq<nat>)
    ensures forall u :: u in r <==> u in queue && u != t
  {
    if queue == [] then []
    else if queue[0] == t then Without(queue[1..], t)
    else [queue[0]] + Without(queue[1..], t)
  }

  function With(s: State, t: nat, phase: Phase): State
    requires t < |s.tasks|
  {
    s.(tasks := s.tasks[t := s.tasks[t].(phase := phase)])
  }

  /** The task changes the memory, and waits or writes next. */
  function Changing(s: State, t: nat): State
    requires t < |s.tasks|
  {
    var op := s.tasks[t].op;
    s.(memory := Applied(s.memory, op), log := s.log + [op],
       tasks := s.tasks[t := s.tasks[t].(logged := Some(|s.log|))])
  }

  function ToSecond(s: State, t: nat): State
    requires t < |s.tasks|
  {
    With(s, t, WaitsSecond).(forSessions := s.forSessions + [t])
  }

  function AfterAct(s: State, t: nat): Option<State>
    requires t < |s.tasks|
  {
    var task := s.tasks[t];
    if task.phase.HoldsFirst? then
      (match task.op
       case Issue(_, _) => Some(ToSecond(Changing(s, t), t))
       case Revoke(_) => Some(if Changes(s.memory, task.op) then ToSecond(Changing(s, t), t) else With(s, t, Finished))
       case StartSession(_, _, _) => Some(ToSecond(s, t))
       case EndSession(_) => Some(ToSecond(s, t))
       case Verify(_, _) => Some(With(s, t, Finished))
       case SessionIsLive(_, _) => Some(With(s, t, Finished)))
    else if task.phase.HoldsBoth? then
      if task.op.Issue? || task.op.Revoke? then Some(With(s, t, Persisting(s.memory)))
      else if Changes(s.memory, task.op) then
        var changed := Changing(s, t);
        Some(With(changed, t, Persisting(changed.memory)))
      else Some(With(s, t, Finished))
    else None
  }

  function Apply(s: State, step: Step): Option<State> {
    match step
    case Begin(op) =>
      var t := |s.tasks|;
      var begun := s.(tasks := s.tasks + [Task(op, WaitsFirst, None)]);
      Some(if First(op).0.Tokens? then begun.(forTokens := s.forTokens + [t])
           else begun.(forSessions := s.forSessions + [t]))
    case Grant(lock) =>
      var queue := Queue(s, lock);
      if queue == [] || queue[0] >= |s.tasks| || !Admits(s, lock, Wanted(s.tasks[queue[0]])) then None
      else
        var t := queue[0];
        var entered := With(s, t, if s.tasks[t].phase.WaitsFirst? then HoldsFirst else HoldsBoth);
        Some(if lock.Tokens? then entered.(forTokens := queue[1..]) else entered.(forSessions := queue[1..]))
    case Act(t) => if t < |s.tasks| then AfterAct(s, t) else None
    case Commit(t, replaced) =>
      if t >= |s.tasks| || !s.tasks[t].phase.Persisting? || s.tasks[t].logged.None? then None
      else if replaced then
        Some(With(s, t, Finished).(file := s.tasks[t].phase.copy, committed := |s.log|, stale := false,
                                   answered := s.answered + {s.tasks[t].logged.value}))
      else Some(With(s, t, Finished).(stale := true))
    case Cancel(t) =>
      if t >= |s.tasks| || !(s.tasks[t].phase.WaitsFirst? || s.tasks[t].phase.WaitsSecond?) then None
      else Some(With(s, t, Finished).(
        forTokens := Without(s.forTokens, t), forSessions := Without(s.forSessions, t),
        stale := s.stale || s.tasks[t].logged.Some?))
    case PowerCut =>
      Some(State([], [], [], s.file, s.file, if s.committed <= |s.log| then s.log[..s.committed] else s.log,
                 s.committed, s.answered, false))
  }

  function Run(s: State, steps: seq<Step>): Option<State>
    decreases |steps|
  {
    if steps == [] then Some(s)
    else match Apply(s, steps[0])
      case None => None
      case Some(next) => Run(next, steps[1..])
  }

  const INITIAL := State([], [], [], EMPTY, EMPTY, [], 0, {}, false)

  // ----- what every interleaving keeps -------------------------------------------------------

  predicate Distinct(queue: seq<nat>) { forall i, j :: 0 <= i < j < |queue| ==> queue[i] != queue[j] }

  /** A queue holds exactly the tasks that wait for its lock. */
  ghost predicate Queued(s: State, lock: Which) {
    && Distinct(Queue(s, lock))
    && forall t: nat :: t in Queue(s, lock) <==> t < |s.tasks| && WaitsFor(s.tasks[t], lock)
  }

  /** A writer is alone. */
  predicate WritersAlone(s: State) {
    forall t, u, lock :: 0 <= t < |s.tasks| && 0 <= u < |s.tasks| && t != u && Owns(s.tasks[t], lock) == Some(Exclusive)
      ==> Owns(s.tasks[u], lock) == None
  }

  predicate Running(task: Task) { task.phase.HoldsFirst? || task.phase.HoldsBoth? || task.phase.Persisting? }

  /** Changed the memory, and the file does not have the change yet. */
  predicate Dirty(task: Task) { task.logged.Some? && !task.phase.Finished? }

  predicate Sensible(s: State, task: Task) {
    && (task.phase.WaitsSecond? || task.phase.HoldsBoth? || task.phase.Persisting? ==> Second(task.op).Some?)
    && (task.phase.WaitsFirst? || task.phase.HoldsFirst? ==> task.logged.None?)
    && (task.phase.WaitsSecond? || task.phase.HoldsBoth? ==> (task.logged.Some? <==> task.op.Issue? || task.op.Revoke?))
    && (task.phase.Persisting? ==> task.logged.Some? && task.phase.copy == s.memory)
    && (task.logged.Some? ==> task.logged.value < |s.log|)
  }

  predicate AllSensible(s: State) { forall t :: 0 <= t < |s.tasks| ==> Sensible(s, s.tasks[t]) }

  predicate IsWriting(s: State, t: nat) { t < |s.tasks| && s.tasks[t].phase.Persisting? }

  predicate Settled(s: State) { forall t :: 0 <= t < |s.tasks| ==> !Dirty(s.tasks[t]) }

  /** The file holds the first `committed` changes, and every change that was answered. */
  ghost predicate Recorded(s: State) {
    && s.memory == Folded(s.log)
    && s.committed <= |s.log| && s.file == Folded(s.log[..s.committed])
    && (forall i :: i in s.answered ==> i < s.committed)
    && (forall t :: 0 <= t < |s.tasks| && Dirty(s.tasks[t]) ==> s.committed <= s.tasks[t].logged.value)
    && (s.stale ==> s.committed < |s.log|)
    && (!s.stale && Settled(s) ==> s.committed == |s.log|)
  }

  ghost predicate Sound(s: State) {
    Queued(s, Tokens) && Queued(s, Sessions) && WritersAlone(s) && AllSensible(s) && Recorded(s)
  }

  lemma InitialIsSound()
    ensures Sound(INITIAL)
  {
  }

  /** While one task has changed the memory but not written it, no other can be where it changes or writes. */
  lemma OneChanger(s: State, t: nat, u: nat)
    requires WritersAlone(s) && AllSensible(s) && t < |s.tasks| && u < |s.tasks| && t != u && Dirty(s.tasks[t])
    ensures !Dirty(s.tasks[u])
    ensures !(s.tasks[u].phase.HoldsFirst? && (s.tasks[u].op.Issue? || s.tasks[u].op.Revoke?))
    ensures !s.tasks[u].phase.HoldsBoth? && !s.tasks[u].phase.Persisting?
  {
    assert Sensible(s, s.tasks[t]) && Sensible(s, s.tasks[u]);
    assert Owns(s.tasks[t], Tokens).Some?;
    assert Owns(s.tasks[t], Tokens) == Some(Exclusive) || Owns(s.tasks[t], Sessions) == Some(Exclusive);
  }

  // How one task's step changes the queues and the holders.

  /** Every task but `t` is as before. */
  predicate OnlyChanges(s: State, after: State, t: nat) {
    && t < |after.tasks| && (|after.tasks| == |s.tasks| || t + 1 == |after.tasks| == |s.tasks| + 1)
    && forall u :: 0 <= u < |s.tasks| && u != t ==> after.tasks[u] == s.tasks[u]
  }

  lemma QueueStays(s: State, after: State, t: nat, lock: Which)
    requires Queued(s, lock) && OnlyChanges(s, after, t) && Queue(after, lock) == Queue(s, lock)
    requires WaitsFor(after.tasks[t], lock) <==> t < |s.tasks| && WaitsFor(s.tasks[t], lock)
    ensures Queued(after, lock)
  {
    hide WaitsFor, Queue;
  }

  lemma QueueGrows(s: State, after: State, t: nat, lock: Which)
    requires Queued(s, lock) && OnlyChanges(s, after, t) && Queue(after, lock) == Queue(s, lock) + [t]
    requires WaitsFor(after.tasks[t], lock) && !(t < |s.tasks| && WaitsFor(s.tasks[t], lock))
    ensures Queued(after, lock)
  {
    hide WaitsFor, Queue;
    var before, now := Queue(s, lock), Queue(after, lock);
    assert forall u :: u in now <==> u in before || u == t;
    forall i, j | 0 <= i < j < |now| ensures now[i] != now[j] { assert now[i] in before; }
  }

  lemma QueueShrinks(s: State, after: State, t: nat, lock: Which)
    requires Queued(s, lock) && OnlyChanges(s, after, t) && Distinct(Queue(after, lock))
    requires forall u :: u in Queue(after, lock) <==> u in Queue(s, lock) && u != t
    requires !WaitsFor(after.tasks[t], lock)
    ensures Queued(after, lock)
  {
    hide WaitsFor, Queue;
  }

  lemma HeadLeaves(queue: seq<nat>)
    requires Distinct(queue) && queue != []
    ensures Distinct(queue[1..]) && forall u :: u in queue[1..] <==> u in queue && u != queue[0]
  {
    assert queue == [queue[0]] + queue[1..];
  }

  lemma {:induction false} WithoutDistinct(queue: seq<nat>, t: nat)
    requires Distinct(queue)
    ensures Distinct(Without(queue, t))
  {
    if queue != [] {
      HeadLeaves(queue);
      WithoutDistinct(queue[1..], t);
      var rest := Without(queue[1..], t);
      assert forall k :: 0 <= k < |rest| ==> rest[k] in rest;
    }
  }

  /** Giving locks up disturbs no writer. */
  lemma OwnersStay(s: State, after: State, t: nat)
    requires WritersAlone(s) && OnlyChanges(s, after, t)
    requires forall lock :: Owns(after.tasks[t], lock).Some? ==>
      t < |s.tasks| && Owns(after.tasks[t], lock) == Owns(s.tasks[t], lock)
    ensures WritersAlone(after)
  {
    hide Owns;
  }

  /** Nor does entering a lock that admits the task. */
  lemma OwnerEnters(s: State, after: State, t: nat, lock: Which, mode: Mode)
    requires WritersAlone(s) && OnlyChanges(s, after, t) && t < |s.tasks| && Admits(s, lock, mode)
    requires Owns(after.tasks[t], lock) == Some(mode)
    requires forall other :: other != lock ==> Owns(after.tasks[t], other) == Owns(s.tasks[t], other)
    ensures WritersAlone(after)
  {
    hide Owns;
  }

  lemma TasksSensible(s: State, after: State, t: nat)
    requires AllSensible(s) && OnlyChanges(s, after, t) && Sensible(after, after.tasks[t])
    requires |s.log| <= |after.log|
    requires after.memory == s.memory || forall u :: 0 <= u < |s.tasks| && u != t ==> !s.tasks[u].phase.Persisting?
    ensures AllSensible(after)
  {
    hide Second;
    forall u | 0 <= u < |after.tasks| ensures Sensible(after, after.tasks[u]) {
      if u != t { assert Sensible(s, s.tasks[u]); }
    }
  }

  lemma SameRecord(s: State, after: State, t: nat)
    requires Recorded(s) && OnlyChanges(s, after, t) && (t < |s.tasks| ==> Sensible(s, s.tasks[t]))
    requires after.memory == s.memory && after.file == s.file && after.log == s.log
    requires after.committed == s.committed && after.answered == s.answered
    requires Dirty(after.tasks[t]) ==> t < |s.tasks| && Dirty(s.tasks[t]) && after.tasks[t].logged == s.tasks[t].logged
    requires after.stale || (t < |s.tasks| && Dirty(s.tasks[t]) ==> Dirty(after.tasks[t]))
    requires after.stale != s.stale ==> after.stale && t < |s.tasks| && Dirty(s.tasks[t])
    ensures Recorded(after)
  {
    hide Folded;
  }

  lemma BeginSound(s: State, op: Op)
    requires Sound(s)
    ensures Sound(Apply(s, Begin(op)).value)
  {
    var after := Apply(s, Begin(op)).value;
    var t := |s.tasks|;
    assert OnlyChanges(s, after, t);
    hide Queued, WritersAlone, AllSensible, Recorded, OnlyChanges;
    if First(op).0.Tokens? {
      QueueGrows(s, after, t, Tokens);
      QueueStays(s, after, t, Sessions);
    } else {
      QueueGrows(s, after, t, Sessions);
      QueueStays(s, after, t, Tokens);
    }
    OwnersStay(s, after, t);
    TasksSensible(s, after, t);
    SameRecord(s, after, t);
  }

  lemma HeadWaits(s: State, lock: Which)
    requires Queued(s, lock) && AllSensible(s) && Queue(s, lock) != []
    ensures var t := Queue(s, lock)[0];
      && t < |s.tasks| && WaitsFor(s.tasks[t], lock) && Sensible(s, s.tasks[t])
      && Distinct(Queue(s, lock)[1..]) && forall u :: u in Queue(s, lock)[1..] <==> u in Queue(s, lock) && u != t
  {
  }

  lemma GrantSound(s: State, lock: Which)
    requires Sound(s) && Apply(s, Grant(lock)).Some?
    ensures Sound(Apply(s, Grant(lock)).value)
  {
    hide Folded;
    var after := Apply(s, Grant(lock)).value;
    var t := Queue(s, lock)[0];
    HeadWaits(s, lock);
    assert OnlyChanges(s, after, t);
    hide Queued, WritersAlone, AllSensible, Recorded, OnlyChanges, Distinct, Admits;
    QueueShrinks(s, after, t, lock);
    QueueStays(s, after, t, if lock.Tokens? then Sessions else Tokens);
    OwnerEnters(s, after, t, lock, Wanted(s.tasks[t]));
    TasksSensible(s, after, t);
    SameRecord(s, after, t);
  }

  lemma CommitSound(s: State, t: nat, replaced: bool)
    requires Sound(s) && Apply(s, Commit(t, replaced)).Some?
    ensures Sound(Apply(s, Commit(t, replaced)).value)
  {
    hide Folded;
    var after := Apply(s, Commit(t, replaced)).value;
    assert Sensible(s, s.tasks[t]);
    assert s.log[..|s.log|] == s.log;
    assert OnlyChanges(s, after, t);
    hide Queued, WritersAlone, AllSensible, OnlyChanges;
    QueueStays(s, after, t, Tokens);
    QueueStays(s, after, t, Sessions);
    OwnersStay(s, after, t);
    TasksSensible(s, after, t);
    if replaced {
      forall u | 0 <= u < |s.tasks| && u != t ensures !Dirty(s.tasks[u]) { OneChanger(s, t, u); }
      assert Recorded(after);
    } else {
      SameRecord(s, after, t);
    }
  }

  lemma CancelSound(s: State, t: nat)
    requires Sound(s) && Apply(s, Cancel(t)).Some?
    ensures Sound(Apply(s, Cancel(t)).value)
  {
    var after := Apply(s, Cancel(t)).value;
    WithoutDistinct(s.forTokens, t);
    WithoutDistinct(s.forSessions, t);
    assert OnlyChanges(s, after, t);
    hide WritersAlone, AllSensible, Recorded, OnlyChanges, Distinct;
    QueueShrinks(s, after, t, Tokens);
    QueueShrinks(s, after, t, Sessions);
    OwnersStay(s, after, t);
    SensibleFinished(s, t);
    TasksSensible(s, after, t);
    SameRecord(s, after, t);
  }

  lemma SensibleFinished(s: State, t: nat)
    requires AllSensible(s) && t < |s.tasks|
    ensures Sensible(s, s.tasks[t].(phase := Finished))
  {
    assert Sensible(s, s.tasks[t]);
  }

  lemma PowerCutSound(s: State)
    requires Sound(s)
    ensures Sound(Apply(s, PowerCut).value)
  {
    hide Folded;
    var after := Apply(s, PowerCut).value;
    assert after.log[..s.committed] == s.log[..s.committed];
  }

  /** A change of the memory by the one task that may make it. */
  lemma ChangingKeeps(s: State, t: nat)
    requires Sound(s) && t < |s.tasks| && s.tasks[t].logged.None?
    requires forall u :: 0 <= u < |s.tasks| && u != t ==> !s.tasks[u].phase.Persisting? && !Dirty(s.tasks[u])
    requires !s.tasks[t].phase.Persisting?
    ensures var after := Changing(s, t);
      && after.memory == Folded(after.log) && |after.log| == |s.log| + 1
      && after.committed <= |after.log| && after.file == Folded(after.log[..after.committed])
      && (forall i :: i in after.answered ==> i < after.committed)
  {
    var after := Changing(s, t);
    assert after.log[..|s.log|] == s.log;
    assert after.log[..s.committed] == s.log[..s.committed];
  }

  /** Where an act may change the memory, no other task is dirty or writing. */
  lemma ChangerIsAlone(s: State, t: nat)
    requires Sound(s) && t < |s.tasks|
    requires (s.tasks[t].phase.HoldsFirst? && (s.tasks[t].op.Issue? || s.tasks[t].op.Revoke?))
          || s.tasks[t].phase.HoldsBoth?
    ensures forall u :: 0 <= u < |s.tasks| && u != t ==> !s.tasks[u].phase.Persisting? && !Dirty(s.tasks[u])
  {
    hide Folded;
    forall u | 0 <= u < |s.tasks| && u != t ensures !s.tasks[u].phase.Persisting? && !Dirty(s.tasks[u]) {
      assert Sensible(s, s.tasks[u]);
      if Dirty(s.tasks[u]) { OneChanger(s, u, t); }
    }
  }

  lemma NotQueued(s: State, t: nat)
    requires Sound(s) && t < |s.tasks| && Running(s.tasks[t])
    ensures t !in s.forTokens && t !in s.forSessions && Sensible(s, s.tasks[t])
  {
  }

  /** An act that changes nothing, or only moves on. */
  lemma QuietActSound(s: State, t: nat, next: Phase, after: State)
    requires Sound(s) && t < |s.tasks| && Running(s.tasks[t]) && !s.tasks[t].phase.Persisting?
    requires after == if next.WaitsSecond? then ToSecond(s, t) else With(s, t, next)
    requires match next
      case WaitsSecond =>
        && s.tasks[t].phase.HoldsFirst? && First(s.tasks[t].op).0.Tokens?
        && Second(s.tasks[t].op) == Some(Exclusive)
      case Finished => s.tasks[t].logged.None?
      case Persisting(copy) => copy == s.memory && s.tasks[t].phase.HoldsBoth? && s.tasks[t].logged.Some?
      case _ => false
    ensures Sound(after)
  {
    NotQueued(s, t);
    assert OnlyChanges(s, after, t);
    hide Queued, WritersAlone, AllSensible, Recorded, OnlyChanges;
    QueueStays(s, after, t, Tokens);
    if next.WaitsSecond? { QueueGrows(s, after, t, Sessions); } else { QueueStays(s, after, t, Sessions); }
    OwnersStay(s, after, t);
    TasksSensible(s, after, t);
    SameRecord(s, after, t);
  }

  /** The act of the one task that may change the memory. */
  lemma ChangingActSound(s: State, t: nat, after: State)
    requires Sound(s) && t < |s.tasks| && s.tasks[t].logged.None?
    requires (s.tasks[t].phase.HoldsFirst? && (s.tasks[t].op.Issue? || s.tasks[t].op.Revoke?)
              && after == ToSecond(Changing(s, t), t))
          || (s.tasks[t].phase.HoldsBoth? && after == With(Changing(s, t), t, Persisting(Changing(s, t).memory)))
    ensures Sound(after)
  {
    hide Folded, Applied;
    NotQueued(s, t);
    ChangerIsAlone(s, t);
    ChangingKeeps(s, t);
    assert OnlyChanges(s, after, t);
    assert Dirty(after.tasks[t]);
    hide Queued, WritersAlone, AllSensible, OnlyChanges;
    QueueStays(s, after, t, Tokens);
    if after.tasks[t].phase.WaitsSecond? {
      QueueGrows(s, after, t, Sessions);
    } else {
      QueueStays(s, after, t, Sessions);
    }
    OwnersStay(s, after, t);
    TasksSensible(s, after, t);
    assert Recorded(after);
  }

  lemma ActSound(s: State, t: nat)
    requires Sound(s) && Apply(s, Act(t)).Some?
    ensures Sound(Apply(s, Act(t)).value)
  {
    hide Folded, Applied, Sound, Changing, Owns;
    var after := Apply(s, Act(t)).value;
    var task := s.tasks[t];
    NotQueued(s, t);
    if (task.phase.HoldsFirst? && (task.op.Issue? || (task.op.Revoke? && Changes(s.memory, task.op))))
      || (task.phase.HoldsBoth? && !task.op.Issue? && !task.op.Revoke? && Changes(s.memory, task.op)) {
      ChangingActSound(s, t, after);
    } else {
      QuietActSound(s, t, after.tasks[t].phase, after);
    }
  }

  lemma StepSound(s: State, step: Step)
    requires Sound(s) && Apply(s, step).Some?
    ensures Sound(Apply(s, step).value)
  {
    hide Sound, Apply;
    match step
    case Begin(op) => BeginSound(s, op);
    case Grant(lock) => GrantSound(s, lock);
    case Act(t) => ActSound(s, t);
    case Commit(t, replaced) => CommitSound(s, t, replaced);
    case Cancel(t) => CancelSound(s, t);
    case PowerCut => PowerCutSound(s);
  }

  lemma {:induction false} RunSound(s: State, steps: seq<Step>)
    requires Sound(s) && Run(s, steps).Some?
    ensures Sound(Run(s, steps).value)
    decreases |steps|
  {
    hide Sound, Apply;
    if steps != [] {
      StepSound(s, steps[0]);
      RunSound(Apply(s, steps[0]).value, steps[1..]);
    }
  }

  /**
    No update is lost and no answer is wrong, whatever interleaves, fails, is cancelled or is
    cut: memory is every change so far, in the order they were made; the file is the first
    `committed` of them, among which are all that were answered; at most one task is writing;
    and the file has every change exactly when none is under way and no write was left undone.
   */
  lemma NoLostUpdate(steps: seq<Step>)
    requires Run(INITIAL, steps).Some?
    ensures var s := Run(INITIAL, steps).value;
      && s.memory == Folded(s.log)
      && s.committed <= |s.log| && s.file == Folded(s.log[..s.committed])
      && (forall i :: i in s.answered ==> i < s.committed)
      && (forall t: nat, u: nat :: IsWriting(s, t) && IsWriting(s, u) ==> t == u)
      && (s.committed == |s.log| <==> !s.stale && Settled(s))
      && (!s.stale && Settled(s) ==> s.file == s.memory)
  {
    hide Folded, Run;
    InitialIsSound();
    RunSound(INITIAL, steps);
    var s := Run(INITIAL, steps).value;
    forall t: nat, u: nat | IsWriting(s, t) && IsWriting(s, u) ensures t == u {
      assert Sensible(s, s.tasks[t]);
      if t != u { OneChanger(s, t, u); }
    }
    assert s.log[..|s.log|] == s.log;
    assert forall t :: 0 <= t < |s.tasks| && Dirty(s.tasks[t]) ==> Sensible(s, s.tasks[t]);
  }

  /**
    A change can be left unwritten: an issue cancelled while it waits for the sessions is in
    memory, verifies, and is not in the file.
   */
  lemma CancelledIssueIsUnwritten(source: string, record: TokenRecord)
    ensures var steps := [Begin(Issue(source, record)), Grant(Tokens), Act(0), Cancel(0)];
      && Run(INITIAL, steps).Some?
      && var s := Run(INITIAL, steps).value;
         && |s.tasks| == 1 && s.tasks[0].phase.Finished? && s.stale
         && source in s.memory.tokens && s.memory.tokens[source] == record
         && source !in s.file.tokens
  {
    var begun := Apply(INITIAL, Begin(Issue(source, record))).value;
    var granted := Apply(begun, Grant(Tokens)).value;
    var acted := Apply(granted, Act(0)).value;
    var cancelled := Apply(acted, Cancel(0)).value;
    RunOne(INITIAL, Begin(Issue(source, record)), [Grant(Tokens), Act(0), Cancel(0)]);
    RunOne(begun, Grant(Tokens), [Act(0), Cancel(0)]);
    RunOne(granted, Act(0), [Cancel(0)]);
    RunOne(acted, Cancel(0), []);
    assert [Grant(Tokens)] + [Act(0), Cancel(0)] == [Grant(Tokens), Act(0), Cancel(0)];
    assert [Act(0)] + [Cancel(0)] == [Act(0), Cancel(0)] && [Cancel(0)] + [] == [Cancel(0)];
    assert [Begin(Issue(source, record))] + [Grant(Tokens), Act(0), Cancel(0)]
        == [Begin(Issue(source, record)), Grant(Tokens), Act(0), Cancel(0)];
  }

  lemma RunOne(s: State, step: Step, rest: seq<Step>)
    requires Apply(s, step).Some?
    ensures Run(s, [step] + rest) == Run(Apply(s, step).value, rest)
  {
    assert ([step] + rest)[1..] == rest;
  }

  // ----- nobody waits for ever ---------------------------------------------------------------------

  /** The steps a task makes on its own: entering, acting, writing. */
  predicate Internal(step: Step) { step.Grant? || step.Act? || step.Commit? }

  lemma WaitsSomewhere(s: State, t: nat)
    requires Sound(s) && t < |s.tasks| && !s.tasks[t].phase.Finished? && !Running(s.tasks[t])
    ensures t in s.forTokens || t in s.forSessions
  {
  }

  /** Some unfinished task can make its next step. */
  lemma SomeoneCanStep(s: State, t: nat) returns (step: Step)
    requires Sound(s) && t < |s.tasks| && !s.tasks[t].phase.Finished?
    ensures Internal(step) && Apply(s, step).Some?
  {
    hide Folded, Applied;
    if u :| 0 <= u < |s.tasks| && Running(s.tasks[u]) {
      assert Sensible(s, s.tasks[u]);
      step := if s.tasks[u].phase.Persisting? then Commit(u, true) else Act(u);
    } else if s.forSessions != [] {
      var head := s.forSessions[0];
      assert head in Queue(s, Sessions);
      step := Grant(Sessions);
      forall u | 0 <= u < |s.tasks| ensures Owns(s.tasks[u], Sessions) == None { assert Sensible(s, s.tasks[u]); }
    } else {
      WaitsSomewhere(s, t);
      var head := s.forTokens[0];
      assert head in Queue(s, Tokens);
      step := Grant(Tokens);
      forall u | 0 <= u < |s.tasks| ensures Owns(s.tasks[u], Tokens) == None {
        assert !WaitsFor(s.tasks[u], Sessions) || u in s.forSessions;
      }
    }
  }

  function Rank(p: Phase): nat {
    match p
    case WaitsFirst => 5
    case HoldsFirst => 4
    case WaitsSecond => 3
    case HoldsBoth => 2
    case Persisting(_) => 1
    case Finished => 0
  }

  /** How many steps the tasks still have before them, together. */
  function Work(tasks: seq<Task>): nat {
    if tasks == [] then 0 else Rank(tasks[0].phase) + Work(tasks[1..])
  }

  lemma {:induction false} WorkOfOther(tasks: seq<Task>, t: nat, task: Task)
    requires t < |tasks|
    ensures Work(tasks[t := task]) == Work(tasks) - Rank(tasks[t].phase) + Rank(task.phase)
  {
    if t == 0 {
      assert tasks[0 := task][1..] == tasks[1..];
    } else {
      assert tasks[t := task][1..] == tasks[1..][t - 1 := task];
      WorkOfOther(tasks[1..], t - 1, task);
    }
  }

  lemma InternalStepsWork(s: State, step: Step)
    requires Sound(s) && Internal(step) && Apply(s, step).Some?
    ensures Work(Apply(s, step).value.tasks) < Work(s.tasks)
  {
    var after := Apply(s, step).value;
    var t := Stepping(s, step);
    hide Folded, Applied, Work, Sound, Apply;
    WorkOfOther(s.tasks, t, after.tasks[t]);
  }

  /** One task gets on, and no other moves. */
  predicate Moves(s: State, after: State, t: nat) {
    && t < |s.tasks| == |after.tasks| && after.tasks == s.tasks[t := after.tasks[t]]
    && Rank(after.tasks[t].phase) < Rank(s.tasks[t].phase)
  }

  lemma GrantMoves(s: State, lock: Which)
    requires Sound(s) && Apply(s, Grant(lock)).Some?
    ensures Queue(s, lock) != [] && Moves(s, Apply(s, Grant(lock)).value, Queue(s, lock)[0])
  {
    hide Queued, WritersAlone, AllSensible, Recorded, Admits;
    HeadWaits(s, lock);
  }

  lemma ActMoves(s: State, t: nat)
    requires Apply(s, Act(t)).Some?
    ensures Moves(s, Apply(s, Act(t)).value, t)
  {
    hide Changes, Applied;
  }

  lemma CommitMoves(s: State, t: nat, replaced: bool)
    requires Apply(s, Commit(t, replaced)).Some?
    ensures Moves(s, Apply(s, Commit(t, replaced)).value, t)
  {
  }

  /** An internal step moves one task on, and no other. */
  lemma Stepping(s: State, step: Step) returns (t: nat)
    requires Sound(s) && Internal(step) && Apply(s, step).Some?
    ensures Moves(s, Apply(s, step).value, t)
  {
    hide Sound, Apply, Moves;
    match step
    case Grant(lock) =>
      GrantMoves(s, lock);
      t := Queue(s, lock)[0];
    case Act(u) =>
      ActMoves(s, u);
      t := u;
    case Commit(u, replaced) =>
      CommitMoves(s, u, replaced);
      t := u;
  }

  /**
    No deadlock and no livelock: tasks left to themselves make at most as many steps as they
    have before them, and when no step is left every one has finished.
   */
  lemma {:induction false} EveryoneFinishes(s: State, steps: seq<Step>)
    requires Sound(s) && Run(s, steps).Some? && forall step :: step in steps ==> Internal(step)
    ensures |steps| + Work(Run(s, steps).value.tasks) <= Work(s.tasks)
    ensures var after := Run(s, steps).value;
      (forall step :: Internal(step) ==> Apply(after, step).None?) ==>
        forall t :: 0 <= t < |after.tasks| ==> after.tasks[t].phase.Finished?
    decreases |steps|
  {
    hide Sound, Apply, Work;
    if steps == [] {
      if (forall step :: Internal(step) ==> Apply(s, step).None?)
        && !(forall t :: 0 <= t < |s.tasks| ==> s.tasks[t].phase.Finished?) {
        var t :| 0 <= t < |s.tasks| && !s.tasks[t].phase.Finished?;
        var step := SomeoneCanStep(s, t);
        assert false;
      }
    } else {
      assert steps[0] in steps;
      StepSound(s, steps[0]);
      InternalStepsWork(s, steps[0]);
      EveryoneFinishes(Apply(s, steps[0]).value, steps[1..]);
    }
  }
}
