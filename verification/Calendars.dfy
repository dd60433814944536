/**
  The dashboard's calendars: Google's list shows creations and deletions late, and two
  memories make up for it.
 */
module Calendars {
  import opened Wrappers
  import opened Text

  /** A list of calendars, as `(id, name)`; its order, by name, is left out. */
  type Shown = set<(string, string)>

  function Ids(calendars: Shown): set<string> { set c <- calendars :: c.0 }

  /** What was made under a name and not listed yet, and what was deleted and may still be listed. */
  datatype Memories = Memories(created: map<string, string>, deleted: set<string>)

  /** The list with what was made and is missing from it, and the memory without what is not missing. */
  function WithCreated(calendars: Shown, created: map<string, string>): (Shown, map<string, string>) {
    (calendars + (set name | name in created && created[name] !in Ids(calendars) :: (created[name], name)),
     map name | name in created && created[name] !in Ids(calendars) :: created[name])
  }

  /** The list without what was deleted, and the memory without what the list no longer has. */
  function WithoutDeleted(calendars: Shown, deleted: set<string>): (Shown, set<string>) {
    var still := deleted * Ids(calendars);
    ((set c <- calendars | c.0 !in still), still)
  }

  /** What the page shows for a list, and what is remembered afterwards. */
  function Rendered(calendars: Shown, m: Memories): (Shown, Memories) {
    var (all, created) := WithCreated(calendars, m.created);
    var (shown, deleted) := WithoutDeleted(all, m.deleted);
    (shown, Memories(created, deleted))
  }

  function Forgotten(created: map<string, string>, id: string): map<string, string> {
    map name | name in created && created[name] != id :: created[name]
  }

  // ----- the service and Google, step by step ----------------------------------------------------

  /** How a request ends: answered, refused without effect, or failed although it took effect. */
  datatype Fate = Done | Refused | Unheard

  /**
    `live` are the calendars there are, `listed` those Google's list shows. `shown` are the
    ids it ever showed, `ever` all ids there have been, `made` those Almanac made.
   */
  datatype State = State(
    live: map<string, string>,
    listed: map<string, string>,
    memories: Memories,
    made: set<string>,
    shown: set<string>,
    ever: map<string, string>)

  datatype Step =
    | Create(typed: string, owner: bool, id: string, fate: Fate)
    | Remove(id: string, inUse: set<string>, fate: Fate)
    | Render
    | ListShows(id: string)
    | ListDrops(id: string)
    | PersonCreates(id: string, name: string)
    | Restart

  function Pairs(m: map<string, string>): Shown { set id | id in m :: (id, m[id]) }

  predicate HasName(m: map<string, string>, name: string) { exists id <- m :: m[id] == name }

  /** Creating a calendar: not under a name remembered as just made, nor under one the list shows. */
  function AfterCreate(s: State, typed: string, owner: bool, id: string, fate: Fate): State {
    var name := Trim(typed);
    if name == "" || !owner || name in s.memories.created || HasName(s.listed, name) || fate.Refused? then s
    else s.(
      live := s.live[id := name],
      ever := s.ever[id := name],
      made := s.made + {id},
      memories := if fate.Done? then s.memories.(created := s.memories.created[name := id]) else s.memories)
  }

  function AfterRemove(s: State, id: string, inUse: set<string>, fate: Fate): State {
    if id in inUse || id !in s.live || fate.Refused? then s
    else s.(
      live := s.live - {id},
      memories := if fate.Done?
        then Memories(Forgotten(s.memories.created, id), s.memories.deleted + {id}) else s.memories)
  }

  /** The list catches up on an id. */
  function Showing(s: State, id: string): State
    requires id in s.ever
  {
    s.(listed := s.listed[id := s.ever[id]], shown := s.shown + {id})
  }

  /** The list catches up late, but never goes back: an id appears at most once and leaves only when it is gone. */
  function Apply(s: State, step: Step): Option<State> {
    match step
    case Create(typed, owner, id, fate) => if id in s.ever then None else Some(AfterCreate(s, typed, owner, id, fate))
    case Remove(id, inUse, fate) => Some(AfterRemove(s, id, inUse, fate))
    case Render => Some(s.(memories := Rendered(Pairs(s.listed), s.memories).1))
    case ListShows(id) =>
      if id !in s.ever || id in s.shown then None
      else Some(Showing(s, id))
    case ListDrops(id) => if id in s.listed && id !in s.live then Some(s.(listed := s.listed - {id})) else None
    case PersonCreates(id, name) =>
      if id in s.ever then None else Some(s.(live := s.live[id := name], ever := s.ever[id := name]))
    case Restart => Some(s.(memories := Memories(map[], {})))
  }

  function Run(s: State, steps: seq<Step>): Option<State>
    decreases |steps|
  {
    if steps == [] then Some(s)
    else match Apply(s, steps[0])
      case None => None
      case Some(next) => Run(next, steps[1..])
  }

  const INITIAL := State(map[], map[], Memories(map[], {}), {}, {}, map[])

  // ----- one calendar per name -----------------------------------------------------------------------

  /** The ids there have been, and nothing that is live or listed has another name than it was made with. */
  ghost predicate Coherent(s: State) {
    && (forall id :: id in s.live ==> id in s.ever && s.ever[id] == s.live[id])
    && (forall id :: id in s.listed ==> id in s.ever && s.ever[id] == s.listed[id] && id in s.shown)
    && (forall id :: id in s.live && id in s.shown ==> id in s.listed)
    && s.made <= s.ever.Keys && s.shown <= s.ever.Keys
    && (forall id :: id in s.made ==> IsTrimmed(s.ever[id]) && s.ever[id] != "")
  }

  /** A live calendar Almanac made is remembered under its name, or listed. */
  ghost predicate Accounted(s: State) {
    && (forall name :: name in s.memories.created ==>
          var id := s.memories.created[name];
          id in s.made && id in s.ever && s.ever[id] == name)
    && (forall id :: id in s.live && id in s.made && id !in s.listed ==>
          s.live[id] in s.memories.created && s.memories.created[s.live[id]] == id)
  }

  ghost predicate OnePerName(s: State) {
    forall a, b :: a in s.live && b in s.live && a in s.made && b in s.made && s.live[a] == s.live[b] ==> a == b
  }

  ghost predicate Orderly(s: State) { Coherent(s) && Accounted(s) && OnePerName(s) }

  /** No creation takes effect unheard, and a restart finds the list caught up on what was made and still is. */
  predicate Heard(s: State, step: Step) {
    match step
    case Create(_, _, _, fate) => !fate.Unheard?
    case Restart => forall name :: name in s.memories.created && s.memories.created[name] in s.live ==>
      s.memories.created[name] in s.listed
    case _ => true
  }

  predicate AlwaysHeard(s: State, steps: seq<Step>)
    decreases |steps|
  {
    steps != [] ==>
      && Heard(s, steps[0])
      && (Apply(s, steps[0]).Some? ==> AlwaysHeard(Apply(s, steps[0]).value, steps[1..]))
  }

  lemma CreateOrderly(s: State, typed: string, owner: bool, id: string, fate: Fate)
    requires Orderly(s) && id !in s.ever && !fate.Unheard?
    ensures Orderly(AfterCreate(s, typed, owner, id, fate))
  {
    var _, _ := TrimIsCore(typed);
    hide Trim, IsTrimmed;
    var name := Trim(typed);
    if AfterCreate(s, typed, owner, id, fate) != s {
      NameIsFree(s, name);
      MadeOrderly(s, name, id);
    }
  }

  /** What is neither remembered nor listed is the name of no live calendar Almanac made. */
  lemma NameIsFree(s: State, name: string)
    requires Orderly(s) && name !in s.memories.created && !HasName(s.listed, name)
    ensures forall a :: a in s.live && a in s.made ==> s.live[a] != name
  {
    assert forall a :: a in s.listed ==> s.listed[a] != name;
  }

  lemma MadeOrderly(s: State, name: string, id: string)
    requires Orderly(s) && id !in s.ever && name !in s.memories.created
    requires forall a :: a in s.live && a in s.made ==> s.live[a] != name
    requires IsTrimmed(name) && name != ""
    ensures Orderly(s.(live := s.live[id := name], ever := s.ever[id := name], made := s.made + {id},
                       memories := s.memories.(created := s.memories.created[name := id])))
  {
    assert id !in s.live && id !in s.listed && id !in s.made;
  }

  lemma RemoveOrderly(s: State, id: string, inUse: set<string>, fate: Fate)
    requires Orderly(s)
    ensures Orderly(AfterRemove(s, id, inUse, fate))
  {
  }

  lemma RenderedCreated(listed: map<string, string>, m: Memories)
    ensures var created := Rendered(Pairs(listed), m).1.created;
      && (forall name :: name in created <==> name in m.created && m.created[name] !in listed)
      && (forall name :: name in created ==> created[name] == m.created[name])
  {
    IdsOfPairs(listed);
  }

  lemma IdsOfPairs(m: map<string, string>)
    ensures Ids(Pairs(m)) == m.Keys
  {
    forall id | id in m ensures id in Ids(Pairs(m)) { assert (id, m[id]) in Pairs(m); }
  }

  lemma RenderOrderly(s: State)
    requires Orderly(s)
    ensures Orderly(s.(memories := Rendered(Pairs(s.listed), s.memories).1))
  {
    RenderedCreated(s.listed, s.memories);
    hide Rendered;
  }

  lemma StepOrderly(s: State, step: Step)
    requires Orderly(s) && Apply(s, step).Some? && Heard(s, step)
    ensures Orderly(Apply(s, step).value)
  {
    hide Rendered, AfterCreate, AfterRemove, Orderly;
    match step
    case Create(typed, owner, id, fate) => CreateOrderly(s, typed, owner, id, fate);
    case Remove(id, inUse, fate) => RemoveOrderly(s, id, inUse, fate);
    case Render => RenderOrderly(s);
    case ListShows(id) => ListShowsOrderly(s, id);
    case ListDrops(id) => ListDropsOrderly(s, id);
    case PersonCreates(id, name) => PersonCreatesOrderly(s, id, name);
    case Restart => RestartOrderly(s);
  }

  lemma ListShowsOrderly(s: State, id: string)
    requires Orderly(s) && id in s.ever && id !in s.shown
    ensures Orderly(Showing(s, id))
  {
  }

  lemma ListDropsOrderly(s: State, id: string)
    requires Orderly(s) && id !in s.live
    ensures Orderly(s.(listed := s.listed - {id}))
  {
  }

  lemma PersonCreatesOrderly(s: State, id: string, name: string)
    requires Orderly(s) && id !in s.ever
    ensures Orderly(s.(live := s.live[id := name], ever := s.ever[id := name]))
  {
    hide IsTrimmed;
  }

  lemma RestartOrderly(s: State)
    requires Orderly(s) && Heard(s, Restart)
    ensures Orderly(s.(memories := Memories(map[], {})))
  {
  }

  /**
    There is never more than one live calendar per name made by Almanac, however late the
    list shows creations and deletions.
   */
  lemma {:induction false} OneCalendarPerName(s: State, steps: seq<Step>)
    requires Orderly(s) && Run(s, steps).Some? && AlwaysHeard(s, steps)
    ensures Orderly(Run(s, steps).value)
    decreases |steps|
  {
    hide Orderly, Apply, Heard;
    if steps != [] {
      StepOrderly(s, steps[0]);
      OneCalendarPerName(Apply(s, steps[0]).value, steps[1..]);
    }
  }

  predicate IsMade(s: State, id: string) { id in s.live && id in s.made }

  /** No two live calendars that Almanac made have names that differ, if at all, in outer white space. */
  lemma OneCalendarPerNameFromStart(steps: seq<Step>)
    requires Run(INITIAL, steps).Some? && AlwaysHeard(INITIAL, steps)
    ensures var s := Run(INITIAL, steps).value;
      && OnePerName(s)
      && forall a, b :: IsMade(s, a) && IsMade(s, b) && Trim(s.live[a]) == Trim(s.live[b]) ==> a == b
  {
    OneCalendarPerName(INITIAL, steps);
    hide Trim, Run, AlwaysHeard;
    var s := Run(INITIAL, steps).value;
    forall a | IsMade(s, a) ensures Trim(s.live[a]) == s.live[a] {
      TrimmedStays(s.live[a]);
    }
  }

  lemma TrimmedStays(name: string)
    requires IsTrimmed(name)
    ensures Trim(name) == name
  {
    var i, j := TrimIsCore(name);
    OneCore("", name, "", i, j);
    assert "" + name + "" == name;
  }

  /** White space around the name typed makes no difference to what is created. */
  lemma OuterSpaceIsIgnored(s: State, before: string, typed: string, after: string, owner: bool, id: string, fate: Fate)
    requires IsBlank(before) && IsBlank(after)
    ensures AfterCreate(s, before + typed + after, owner, id, fate) == AfterCreate(s, typed, owner, id, fate)
  {
    TrimIgnoresAround(before, typed, after);
    hide Trim;
  }

  /**
    A calendar is made exactly if the name typed is not blank, there is an owner to share it
    with, the name is neither remembered nor listed, and Google does not refuse; it then has
    the name without outer white space, and no other calendar changes.
   */
  lemma CreatesExactlyWhen(s: State, typed: string, owner: bool, id: string, fate: Fate)
    requires id !in s.ever && id !in s.live
    ensures var after := AfterCreate(s, typed, owner, id, fate);
      && (id in after.live <==>
            && !IsBlank(typed) && owner && !fate.Refused?
            && Trim(typed) !in s.memories.created && !HasName(s.listed, Trim(typed)))
      && (id in after.live ==> after.live == s.live[id := Trim(typed)] && after.made == s.made + {id})
      && (id !in after.live ==> after == s)
      && (Trim(typed) in after.memories.created && Trim(typed) !in s.memories.created <==>
            id in after.live && fate.Done?)
  {
    hide Trim;
  }

  /** A deletion takes away the calendar it names and no other, and none that a source writes to. */
  lemma RemovesExactlyWhen(s: State, id: string, inUse: set<string>, fate: Fate)
    ensures var after := AfterRemove(s, id, inUse, fate);
      && (forall other :: other in after.live <==>
            other in s.live && !(other == id && id !in inUse && !fate.Refused?))
      && (forall other :: other in after.live ==> after.live[other] == s.live[other])
      && (id in inUse ==> after == s)
  {
  }

  /**
    The proviso about creations is exact: after a creation whose share failed, the next click
    makes a second calendar unless the list has caught up in between.
   */
  lemma FailedShareDuplicates(s: State, typed: string, a: string, b: string, caughtUp: bool)
    requires Orderly(s) && Trim(typed) != ""
    requires Trim(typed) !in s.memories.created && !HasName(s.listed, Trim(typed))
    requires a !in s.ever && b !in s.ever && a != b
    ensures var first := AfterCreate(s, typed, true, a, Unheard);
      var mid := if caughtUp then Showing(first, a) else first;
      && (caughtUp ==> Apply(first, ListShows(a)) == Some(mid))
      && (OnePerName(AfterCreate(mid, typed, true, b, Done)) <==> caughtUp)
  {
    hide Trim;
    var name := Trim(typed);
    var first := AfterCreate(s, typed, true, a, Unheard);
    assert forall c :: c in s.listed ==> s.listed[c] != name;
    assert forall c :: c in s.live && c in s.made ==> s.live[c] != name;
    if caughtUp {
      var mid := Showing(first, a);
      assert mid.listed[a] == name && HasName(mid.listed, name);
      assert OnePerName(mid);
    } else {
      var second := AfterCreate(first, typed, true, b, Done);
      assert !HasName(first.listed, name);
      assert second.live[a] == name && second.live[b] == name && a in second.made && b in second.made;
    }
  }

  /**
    The proviso about restarts is exact: a creation after one makes a second calendar of its
    name exactly if a live one was remembered and the list does not show the name yet.
   */
  lemma RestartDuplicates(s: State, typed: string, id: string)
    requires Orderly(s) && id !in s.ever && Trim(typed) != ""
    ensures var name := Trim(typed);
      var restarted := Apply(s, Restart).value;
      OnePerName(AfterCreate(restarted, typed, true, id, Done)) <==>
        !(name in s.memories.created && s.memories.created[name] in s.live && !HasName(s.listed, name))
  {
    hide Trim;
    var name := Trim(typed);
    var after := AfterCreate(Apply(s, Restart).value, typed, true, id, Done);
    if HasName(s.listed, name) {
      assert OnePerName(after);
    } else {
      assert after.live[id] == name && id in after.made;
      assert forall a :: a in s.listed ==> s.listed[a] != name;
      if name in s.memories.created && s.memories.created[name] in s.live {
        var other := s.memories.created[name];
        assert other in after.live && after.live[other] == name && other in after.made && other != id;
      } else {
        assert forall a :: a in s.live && a in s.made ==> s.live[a] != name;
      }
    }
  }

  /**
    A creation that is answered leaves a calendar of that name, with one exact exception:
    none was live, but one that had been deleted was still listed, or remembered as just made
    because its deletion was not heard.
   */
  lemma CreateServesName(s: State, typed: string, id: string)
    requires Orderly(s) && id !in s.ever && Trim(typed) != ""
    ensures var name := Trim(typed);
      HasName(AfterCreate(s, typed, true, id, Done).live, name)
      <==> HasName(s.live, name) || (name !in s.memories.created && !HasName(s.listed, name))
  {
    hide Trim;
    var name := Trim(typed);
    var after := AfterCreate(s, typed, true, id, Done);
    if name !in s.memories.created && !HasName(s.listed, name) { assert after.live[id] == name; }
  }

  // ----- the page tells the truth ----------------------------------------------------------------------

  /** What the list still shows although it is gone is remembered as deleted. */
  ghost predicate Truthful(s: State) {
    && Orderly(s)
    && (forall name :: name in s.memories.created ==> s.memories.created[name] in s.live)
    && (forall id :: id in s.listed && id !in s.live ==> id in s.memories.deleted)
    && (forall id :: id in s.memories.deleted ==> id !in s.live && id in s.ever)
    && (forall id :: id in s.ever && id !in s.live ==> id in s.shown)
  }

  /**
    Besides, no deletion takes effect unheard or before the list has shown the calendar, and
    a restart finds the list caught up on deletions.
   */
  predicate Prompt(s: State, step: Step) {
    && Heard(s, step)
    && match step
       case Remove(id, inUse, fate) => !fate.Unheard? && (fate.Done? && id in s.live && id !in inUse ==> id in s.shown)
       case Restart => forall id :: id in s.listed ==> id in s.live
       case _ => true
  }

  predicate AlwaysPrompt(s: State, steps: seq<Step>)
    decreases |steps|
  {
    steps != [] ==>
      && Prompt(s, steps[0])
      && (Apply(s, steps[0]).Some? ==> AlwaysPrompt(Apply(s, steps[0]).value, steps[1..]))
  }

  lemma RenderedDeleted(listed: map<string, string>, m: Memories)
    ensures var deleted := Rendered(Pairs(listed), m).1.deleted;
      forall id :: id in deleted ==> id in m.deleted
    ensures var deleted := Rendered(Pairs(listed), m).1.deleted;
      forall id :: id in m.deleted && id in listed ==> id in deleted
  {
    IdsOfPairs(listed);
    var all := WithCreated(Pairs(listed), m.created).0;
    forall id | id in listed ensures id in Ids(all) { assert (id, listed[id]) in all; }
  }

  lemma StepTruthful(s: State, step: Step)
    requires Truthful(s) && Apply(s, step).Some? && Prompt(s, step)
    ensures Truthful(Apply(s, step).value)
  {
    hide Orderly, Rendered, AfterCreate, AfterRemove;
    StepOrderly(s, step);
    match step
    case Create(typed, owner, id, fate) => CreateTruthful(s, typed, owner, id, fate);
    case Remove(id, inUse, fate) => RemoveTruthful(s, id, inUse, fate);
    case Render =>
      RenderedDeleted(s.listed, s.memories);
      RenderedCreated(s.listed, s.memories);
    case ListShows(id) =>
    case ListDrops(id) =>
    case PersonCreates(id, name) => FreshId(s, id);
    case Restart =>
  }

  lemma CreateTruthful(s: State, typed: string, owner: bool, id: string, fate: Fate)
    requires Truthful(s) && id !in s.ever && Orderly(AfterCreate(s, typed, owner, id, fate))
    ensures Truthful(AfterCreate(s, typed, owner, id, fate))
  {
    FreshId(s, id);
    hide Trim, Orderly, HasName;
  }

  lemma RemoveTruthful(s: State, id: string, inUse: set<string>, fate: Fate)
    requires Truthful(s) && Prompt(s, Remove(id, inUse, fate)) && Orderly(AfterRemove(s, id, inUse, fate))
    ensures Truthful(AfterRemove(s, id, inUse, fate))
  {
    LiveWasMade(s);
    hide Orderly;
  }

  lemma FreshId(s: State, id: string)
    requires Truthful(s) && id !in s.ever
    ensures id !in s.live && id !in s.listed && id !in s.memories.deleted && id !in s.shown
  {
  }

  lemma LiveWasMade(s: State)
    requires Orderly(s)
    ensures forall id :: id in s.live ==> id in s.ever
  {
  }

  lemma {:induction false} RunTruthful(s: State, steps: seq<Step>)
    requires Truthful(s) && Run(s, steps).Some? && AlwaysPrompt(s, steps)
    ensures Truthful(Run(s, steps).value)
    decreases |steps|
  {
    hide Truthful, Apply, Prompt;
    if steps != [] {
      StepTruthful(s, steps[0]);
      RunTruthful(Apply(s, steps[0]).value, steps[1..]);
    }
  }

  /** The page shows exactly the live calendars that Almanac made or the list has ever shown, under their names. */
  lemma PageIsTruth(s: State)
    requires Truthful(s)
    ensures Rendered(Pairs(s.listed), s.memories).0
         == set id | id in s.live && (id in s.made || id in s.shown) :: (id, s.live[id])
  {
  }

  /** Over any run in which each deletion follows the first listing of its calendar, the page never lies. */
  lemma PageIsTruthInEveryRun(steps: seq<Step>)
    requires Run(INITIAL, steps).Some? && AlwaysPrompt(INITIAL, steps)
    ensures var s := Run(INITIAL, steps).value;
      Rendered(Pairs(s.listed), s.memories).0
      == set id | id in s.live && (id in s.made || id in s.shown) :: (id, s.live[id])
  {
    hide Run, AlwaysPrompt, Rendered, Pairs;
    RunTruthful(INITIAL, steps);
    PageIsTruth(Run(INITIAL, steps).value);
  }

  /**
    The proviso about deletions is exact: a calendar deleted before the list ever showed it
    comes back on the page, once the list shows it late, exactly if a page was rendered in
    between and so its memory was dropped.
   */
  lemma TombstoneDroppedTooEarly(s: State, id: string, rendered: bool)
    requires Truthful(s) && id in s.live && id !in s.shown
    ensures var gone := AfterRemove(s, id, {}, Done);
      var mid := if rendered then Apply(gone, Render).value else gone;
      && Apply(mid, ListShows(id)).Some?
      && var late := Apply(mid, ListShows(id)).value;
         (id in Ids(Rendered(Pairs(late.listed), late.memories).0) <==> rendered)
  {
    var gone := AfterRemove(s, id, {}, Done);
    var mid := if rendered then Apply(gone, Render).value else gone;
    var late := Apply(mid, ListShows(id)).value;
    IdsOfPairs(s.listed);
    IdsOfPairs(late.listed);
    assert id !in s.listed;
    if rendered { DroppedWhenUnlisted(gone, id); }
    var all := WithCreated(Pairs(late.listed), late.memories.created).0;
    assert (id, s.live[id]) in Pairs(late.listed) by { assert late.listed[id] == s.ever[id]; }
    assert (id, s.live[id]) in all;
    assert id in Ids(all);
    if rendered { assert (id, s.live[id]) in Rendered(Pairs(late.listed), late.memories).0; }
  }

  lemma DroppedWhenUnlisted(s: State, id: string)
    requires id !in s.listed && forall name :: name in s.memories.created ==> s.memories.created[name] != id
    ensures id !in Rendered(Pairs(s.listed), s.memories).1.deleted
  {
    IdsOfPairs(s.listed);
  }

  lemma OnlyForgets(before: map<string, string>, after: map<string, string>, id: string)
    requires id !in after.Values
    requires forall name :: name in before && before[name] != id ==> name in after
    requires forall name :: name in after ==> name in before && after[name] == before[name]
    ensures after == Forgotten(before, id)
  {
    forall name | name in after ensures after[name] != id { assert after[name] in after.Values; }
  }

  lemma NothingRemembered(calendars: Shown)
    ensures WithCreated(calendars, map[]) == (calendars, map[])
    ensures WithoutDeleted(calendars, {}) == (calendars, {})
  {
    var (all, created) := WithCreated(calendars, map[]);
    assert all == calendars;
    assert created == map[];
    var (shown, deleted) := WithoutDeleted(calendars, {});
    assert deleted == {};
    assert shown == calendars;
  }

  // ----- the objects -------------------------------------------------------------------------------------

  /** Google's side. */
  class Google {
    var live: map<string, string>
    var listed: map<string, string>
    ghost var made: set<string>
    ghost var shown: set<string>
    ghost var ever: map<string, string>

    constructor ()
      ensures live == map[] && listed == map[] && made == {} && shown == {} && ever == map[]
    {
      live, listed := map[], map[];
      made, shown, ever := {}, {}, map[];
    }

    method ListCalendars() returns (calendars: Shown)
      ensures calendars == Pairs(listed)
    {
      calendars := Pairs(listed);
    }

    /** The calendar of that name that the list shows, or a new one, shared with its owner. */
    method EnsureCalendar(name: string, id: string, fate: Fate) returns (r: Result<bool, ()>)
      modifies this`live, this`made, this`ever
      ensures r == if HasName(listed, name) then Ok(false) else if fate.Done? then Ok(true) else Err(())
      ensures if HasName(listed, name) || fate.Refused? then live == old(live) && ever == old(ever) && made == old(made)
        else live == old(live)[id := name] && ever == old(ever)[id := name] && made == old(made) + {id}
    {
      if HasName(listed, name) { return Ok(false); }
      if !fate.Refused? {
        live := live[id := name];
        made, ever := made + {id}, ever[id := name];
      }
      r := if fate.Done? then Ok(true) else Err(());
    }

    method DeleteCalendar(id: string, fate: Fate) returns (ok: bool)
      modifies this`live
      ensures ok == (fate.Done? && id in old(live))
      ensures live == if fate.Refused? then old(live) else old(live) - {id}
    {
      ok := fate.Done? && id in live;
      if !fate.Refused? { live := live - {id}; }
    }
  }

  /** The memories of the running service, and the dashboard's handlers. */
  class AppState {
    const google: Google
    var created: map<string, string>
    var deleted: set<string>

    constructor (google: Google)
      ensures this.google == google && created == map[] && deleted == {}
    {
      this.google := google;
      created, deleted := map[], {};
    }

    ghost function View(): State
      reads this, google
    {
      State(google.live, google.listed, Memories(created, deleted), google.made, google.shown, google.ever)
    }

    method RememberDeletedCalendar(id: string)
      modifies this`deleted
      ensures deleted == old(deleted) + {id}
    {
      deleted := deleted + {id};
    }

    method RememberCreatedCalendar(name: string, id: string)
      modifies this`created
      ensures created == old(created)[name := id]
    {
      created := created[name := id];
    }

    /** The id is remembered under no name any more, and every other memory stays. */
    method ForgetCreatedCalendar(id: string)
      modifies this`created
      ensures id !in created.Values
      ensures forall name :: name in old(created) && old(created)[name] != id ==> name in created
      ensures forall name :: name in created ==> name in old(created) && created[name] == old(created)[name]
    {
      created := map name | name in created && created[name] != id :: created[name];
    }

    method WithoutDeletedCalendars(calendars: Shown) returns (shown: Shown)
      modifies this`deleted
      ensures (shown, deleted) == WithoutDeleted(calendars, old(deleted))
    {
      if deleted == {} {
        NothingRemembered(calendars);
        return calendars;
      }
      var listed := Ids(calendars);
      deleted := set id | id in deleted && id in listed;
      assert deleted == old(deleted) * Ids(calendars);
      shown := set c <- calendars | c.0 !in deleted;
    }

    method WithCreatedCalendars(calendars: Shown) returns (all: Shown)
      modifies this`created
      ensures (all, created) == WithCreated(calendars, old(created))
    {
      if created == map[] {
        NothingRemembered(calendars);
        return calendars;
      }
      var listed := Ids(calendars);
      var missing := set name | name in created && created[name] !in listed :: (created[name], name);
      created := map name | name in created && created[name] !in listed :: created[name];
      all := calendars + missing;
    }

    method RenderCalendars() returns (shown: Shown)
      modifies this
      ensures shown == Rendered(Pairs(google.listed), Memories(old(created), old(deleted))).0
      ensures Apply(old(View()), Render) == Some(View())
    {
      var calendars := google.ListCalendars();
      calendars := WithCreatedCalendars(calendars);
      shown := WithoutDeletedCalendars(calendars);
    }

    /** `id` is the one Google gives a new calendar; the answer says whether one was made and remembered. */
    method CreateCalendar(typed: string, owner: bool, id: string, fate: Fate) returns (made: bool)
      requires id !in google.ever
      modifies this, google
      ensures Apply(old(View()), Create(typed, owner, id, fate)) == Some(View())
      ensures made <==> View() != old(View()) && fate.Done?
    {
      var name := Trim(typed);
      if name == "" || !owner || name in created { return false; }
      var ensured := google.EnsureCalendar(name, id, fate);
      made := ensured == Ok(true);
      if made { RememberCreatedCalendar(name, id); }
    }

    method RemoveCalendar(id: string, inUse: set<string>, fate: Fate) returns (removed: bool)
      modifies this, google
      ensures Apply(old(View()), Remove(id, inUse, fate)) == Some(View())
      ensures removed <==> id !in inUse && id in old(google.live) && fate.Done?
    {
      if id in inUse { return false; }
      removed := google.DeleteCalendar(id, fate);
      assert id !in old(google.live) ==> google.live == old(google.live);
      if removed {
        RememberDeletedCalendar(id);
        ForgetCreatedCalendar(id);
        OnlyForgets(old(created), created, id);
      }
    }
  }
}
