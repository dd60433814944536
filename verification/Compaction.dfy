/**
  What compaction may not change: the pending entries and the set-aside entries, now and
  after anything that is appended later.
 */
module Compaction {
  import opened Wrappers
  import opened Records

  // ----- how the reading functions distribute over a concatenation ----------

  lemma {:induction false} EntriesAppend(a: seq<Record>, b: seq<Record>)
    ensures Entries(a + b) == Entries(a) + Entries(b)
  {
    if a == [] {
      assert a + b == b;
    } else {
      assert (a + b)[1..] == a[1..] + b && (a + b)[0] == a[0];
      EntriesAppend(a[1..], b);
    }
  }

  lemma MarkedAppend(a: seq<Record>, b: seq<Record>)
    ensures MarkedIds(a + b) == MarkedIds(a) + MarkedIds(b)
    ensures DoneIds(a + b) == DoneIds(a) + DoneIds(b)
  {
  }

  lemma {:induction false} WithoutAppend(a: seq<Entry>, b: seq<Entry>, ids: set<string>)
    ensures Without(a + b, ids) == Without(a, ids) + Without(b, ids)
  {
    if a == [] {
      assert a + b == b;
    } else {
      assert (a + b)[1..] == a[1..] + b;
      WithoutAppend(a[1..], b, ids);
    }
  }

  lemma {:induction false} LettersAppend(a: seq<Entry>, b: seq<Entry>, m: map<string, (string, string)>)
    ensures Letters(a + b, m) == Letters(a, m) + Letters(b, m)
  {
    if a == [] {
      assert a + b == b;
    } else {
      assert (a + b)[1..] == a[1..] + b;
      LettersAppend(a[1..], b, m);
    }
  }

  lemma {:induction false} ReasonsAppend(a: seq<Record>, b: seq<Record>)
    ensures Reasons(a + b) == Reasons(a) + Reasons(b)
  {
    if b == [] {
      assert a + b == a;
    } else {
      var n := |b| - 1;
      assert (a + b)[..|a + b| - 1] == a + b[..n];
      ReasonsAppend(a, b[..n]);
    }
  }

  lemma {:induction false} ReasonsAreMarked(records: seq<Record>)
    ensures Reasons(records).Keys <= MarkedIds(records)
    ensures forall id :: id in Reasons(records).Keys <==> exists r :: r in records && r.Dead? && r.id == id
  {
    if records != [] {
      var n := |records| - 1;
      assert records == records[..n] + [records[n]];
      ReasonsAreMarked(records[..n]);
      MarkedAppend(records[..n], [records[n]]);
      forall id ensures id in Reasons(records).Keys <==> exists r :: r in records && r.Dead? && r.id == id {
        if id in Reasons(records[..n]).Keys {
          var r :| r in records[..n] && r.Dead? && r.id == id;
          assert r in records;
        }
      }
    }
  }

  // ----- which ids matter ----------------------------------------------------

  lemma {:induction false} WithoutSame(es: seq<Entry>, a: set<string>, b: set<string>)
    requires forall e :: e in es ==> (e.id in a <==> e.id in b)
    ensures Without(es, a) == Without(es, b)
  {
    if es != [] { WithoutSame(es[1..], a, b); }
  }

  lemma {:induction false} WithoutTwice(es: seq<Entry>, a: set<string>, b: set<string>)
    ensures Without(Without(es, a), b) == Without(es, a + b)
  {
    if es != [] {
      WithoutTwice(es[1..], a, b);
      WithoutAppend([es[0]], Without(es[1..], a), b);
    }
  }

  /** Exactly the entries whose id is not excluded are left. */
  lemma {:induction false} WithoutMembers(es: seq<Entry>, ids: set<string>)
    ensures forall e :: e in Without(es, ids) <==> e in es && e.id !in ids
  {
    if es != [] {
      WithoutMembers(es[1..], ids);
      assert es == [es[0]] + es[1..];
    }
  }

  lemma {:induction false} EntriesMembers(records: seq<Record>)
    ensures forall e :: e in Entries(records) <==> Accepted(e) in records
  {
    if records != [] {
      EntriesMembers(records[1..]);
      assert records == [records[0]] + records[1..];
    }
  }

  lemma {:induction false} LettersMembers(es: seq<Entry>, m: map<string, (string, string)>)
    ensures forall l :: l in Letters(es, m) <==>
      l.entry in es && l.entry.id in m && m[l.entry.id] == (l.reason, l.at)
  {
    if es != [] {
      LettersMembers(es[1..], m);
      assert es == [es[0]] + es[1..];
    }
  }

  /** The last `Dead` marker of an id is this one. */
  predicate IsLastWord(records: seq<Record>, id: string, reason: string, at: string) {
    exists i :: 0 <= i < |records| && records[i] == Dead(id, reason, at)
      && forall j :: i < j < |records| ==> !(records[j].Dead? && records[j].id == id)
  }

  lemma {:induction false} ReasonsAreLastWords(records: seq<Record>, id: string, reason: string, at: string)
    ensures id in Reasons(records) && Reasons(records)[id] == (reason, at) <==> IsLastWord(records, id, reason, at)
  {
    if records != [] {
      var n := |records| - 1;
      ReasonsAreLastWords(records[..n], id, reason, at);
      assert IsLastWord(records, id, reason, at) <==>
        if records[n].Dead? && records[n].id == id then records[n] == Dead(id, reason, at)
        else IsLastWord(records[..n], id, reason, at);
    }
  }

  /**
    What a log says of an accepted entry: it waits exactly if no marker names it, and it is set
    aside, with that reason and moment, exactly if they are those of the last `Dead` marker of its id.
   */
  lemma WaitingAndSetAside(records: seq<Record>)
    ensures forall e :: e in Pending(records) <==>
      Accepted(e) in records && forall r :: r in records && !r.Accepted? ==> r.id != e.id
    ensures forall l :: l in DeadLetters(records) <==>
      Accepted(l.entry) in records && IsLastWord(records, l.entry.id, l.reason, l.at)
  {
    EntriesMembers(records);
    WithoutMembers(Entries(records), MarkedIds(records));
    LettersMembers(Entries(records), Reasons(records));
    forall l: Letter
      ensures l.entry.id in Reasons(records) && Reasons(records)[l.entry.id] == (l.reason, l.at)
        <==> IsLastWord(records, l.entry.id, l.reason, l.at)
    {
      ReasonsAreLastWords(records, l.entry.id, l.reason, l.at);
    }
    hide IsLastWord, Reasons, Entries, Without, Letters;
  }

  lemma {:induction false} NoLetters(es: seq<Entry>, m: map<string, (string, string)>)
    requires forall e :: e in es ==> e.id !in m
    ensures Letters(es, m) == []
  {
    if es != [] { NoLetters(es[1..], m); }
  }

  lemma {:induction false} LettersSame(es: seq<Entry>, a: map<string, (string, string)>,
                                       b: map<string, (string, string)>)
    requires forall e :: e in es ==> (e.id in a <==> e.id in b) && (e.id in a ==> a[e.id] == b[e.id])
    ensures Letters(es, a) == Letters(es, b)
  {
    if es != [] { LettersSame(es[1..], a, b); }
  }

  /** The entries whose id is in `ids`: the complement of `Without`. */
  function Only(es: seq<Entry>, ids: set<string>): seq<Entry> {
    if es == [] then []
    else if es[0].id in ids then [es[0]] + Only(es[1..], ids)
    else Only(es[1..], ids)
  }

  lemma {:induction false} OnlyMembers(es: seq<Entry>, ids: set<string>)
    ensures forall e :: e in Only(es, ids) <==> e in es && e.id in ids
  {
    if es != [] {
      OnlyMembers(es[1..], ids);
      assert es == [es[0]] + es[1..];
    }
  }

  lemma OnlyFirst(e: Entry, rest: seq<Entry>, ids: set<string>)
    ensures Only([e] + rest, ids) == if e.id in ids then [e] + Only(rest, ids) else Only(rest, ids)
  {
    assert ([e] + rest)[1..] == rest;
  }

  lemma {:induction false} OnlyOnly(es: seq<Entry>, a: set<string>, b: set<string>)
    requires b <= a
    ensures Only(Only(es, a), b) == Only(es, b)
  {
    if es != [] {
      OnlyOnly(es[1..], a, b);
      if es[0].id in a { OnlyFirst(es[0], Only(es[1..], a), b); }
    }
  }

  lemma {:induction false} LettersOfOnly(es: seq<Entry>, m: map<string, (string, string)>)
    ensures Letters(Only(es, m.Keys), m) == Letters(es, m)
  {
    if es != [] {
      LettersOfOnly(es[1..], m);
      if es[0].id in m {
        LettersAppend([es[0]], Only(es[1..], m.Keys), m);
        LettersAppend([es[0]], es[1..], m);
        assert es == [es[0]] + es[1..];
      }
    }
  }

  // ----- the compacted log ----------------------------------------------------

  lemma {:induction false} AsRecordsReads(es: seq<Entry>)
    ensures Entries(AsRecords(es)) == es
    ensures MarkedIds(AsRecords(es)) == {} && Reasons(AsRecords(es)) == map[]
  {
    if es != [] {
      AsRecordsReads(es[1..]);
      EntriesAppend([Accepted(es[0])], AsRecords(es[1..]));
      MarkedAppend([Accepted(es[0])], AsRecords(es[1..]));
      ReasonsAppend([Accepted(es[0])], AsRecords(es[1..]));
    }
  }

  function Pair(e: Entry, reason: string, at: string): seq<Record> {
    [Accepted(e), Dead(e.id, reason, at)]
  }

  lemma PairReads(e: Entry, reason: string, at: string)
    ensures Entries(Pair(e, reason, at)) == [e]
    ensures MarkedIds(Pair(e, reason, at)) == {e.id}
    ensures Reasons(Pair(e, reason, at)) == map[e.id := (reason, at)]
  {
    var two := Pair(e, reason, at);
    var marker := Dead(e.id, reason, at);
    assert two == [Accepted(e)] + [marker];
    EntriesAppend([Accepted(e)], [marker]);
    assert [Accepted(e)][1..] == [] && [marker][1..] == [];
    assert Entries([Accepted(e)]) == [e] + Entries([]) && Entries([marker]) == Entries([]);
    ReasonsAppend([Accepted(e)], [marker]);
    assert [Accepted(e)][..0] == [] && [marker][..0] == [];
    assert Reasons([Accepted(e)]) == Reasons([]) && Reasons([marker]) == Reasons([])[e.id := (reason, at)];
    MarkedAppend([Accepted(e)], [marker]);
    assert MarkedIds([marker]) == {e.id} by { assert marker in [marker]; }
  }

  lemma RepostStep(es: seq<Entry>, m: map<string, (string, string)>)
    requires es != []
    ensures Repost(Letters(es, m)) ==
      if es[0].id in m
      then Pair(es[0], m[es[0].id].0, m[es[0].id].1) + Repost(Letters(es[1..], m))
      else Repost(Letters(es[1..], m))
  {
  }

  /** Reposting the letters of some entries keeps those entries, marked with the same reasons. */
  lemma {:induction false} RepostReads(es: seq<Entry>, m: map<string, (string, string)>)
    ensures Entries(Repost(Letters(es, m))) == Only(es, m.Keys)
    ensures MarkedIds(Repost(Letters(es, m))) == Reasons(Repost(Letters(es, m))).Keys
    ensures forall id :: id in Reasons(Repost(Letters(es, m))).Keys ==>
      id in m && Reasons(Repost(Letters(es, m)))[id] == m[id]
    ensures forall e :: e in es && e.id in m ==> e.id in Reasons(Repost(Letters(es, m)))
  {
    if es != [] {
      RepostStep(es, m);
      hide Reasons, MarkedIds, Entries, Letters, Repost;
      RepostReads(es[1..], m);
      var e := es[0];
      assert es == [e] + es[1..];
      if e.id in m {
        var two, rest := Pair(e, m[e.id].0, m[e.id].1), Repost(Letters(es[1..], m));
        PairReads(e, m[e.id].0, m[e.id].1);
        EntriesAppend(two, rest);
        MarkedAppend(two, rest);
        ReasonsAppend(two, rest);
      }
    }
  }

  /** The entries of `r` that are set aside, in acceptance order. */
  function SetAside(r: seq<Record>): seq<Entry> { Only(Entries(r), Reasons(r).Keys) }

  /** Reading the compacted log: pending entries first, then the set-aside ones. */
  lemma CompactedReads(r: seq<Record>)
    ensures Entries(Compacted(r)) == Pending(r) + SetAside(r)
    ensures MarkedIds(Compacted(r)) == Reasons(Compacted(r)).Keys
    ensures Reasons(Compacted(r)).Keys <= MarkedIds(r)
    ensures forall id :: id in Reasons(Compacted(r)).Keys ==>
      id in Reasons(r) && Reasons(Compacted(r))[id] == Reasons(r)[id]
    ensures forall e :: e in Entries(r) && e.id in Reasons(r) ==> e.id in Reasons(Compacted(r))
  {
    hide Reasons, MarkedIds, Entries, Only;
    var p, d := AsRecords(Pending(r)), Repost(DeadLetters(r));
    EntriesAppend(p, d);
    MarkedAppend(p, d);
    ReasonsAppend(p, d);
    AsRecordsReads(Pending(r));
    RepostReads(Entries(r), Reasons(r));
    ReasonsAreMarked(r);
    assert Reasons(Compacted(r)) == Reasons(d);
  }

  lemma {:induction false} WithoutAll(es: seq<Entry>, ids: set<string>)
    requires forall e :: e in es ==> e.id in ids
    ensures Without(es, ids) == []
  {
    if es != [] { WithoutAll(es[1..], ids); }
  }

  /**
    Compaction is invisible to the queue: whatever is appended later, the same entries are
    pending in the same order, as long as no later entry reuses an id already marked.
   */
  lemma PendingSurvivesCompaction(r: seq<Record>, s: seq<Record>)
    requires forall e :: e in Entries(s) ==> e.id !in MarkedIds(r)
    ensures Pending(Compacted(r) + s) == Pending(r + s)
  {
    hide Reasons, MarkedIds, Entries, Only, Compacted, Without;
    var c := Compacted(r);
    CompactedReads(r);
    EntriesAppend(c, s);
    EntriesAppend(r, s);
    MarkedAppend(c, s);
    MarkedAppend(r, s);
    var kept, all := MarkedIds(c + s), MarkedIds(r + s);
    WithoutAppend(Pending(r) + SetAside(r), Entries(s), kept);
    WithoutAppend(Pending(r), SetAside(r), kept);
    WithoutAppend(Entries(r), Entries(s), all);
    OnlyMembers(Entries(r), Reasons(r).Keys);
    WithoutAll(SetAside(r), kept);
    WithoutTwice(Entries(r), MarkedIds(r), kept);
    WithoutSame(Entries(r), MarkedIds(r) + kept, all);
    WithoutSame(Entries(s), kept, all);
  }

  // ----- the set-aside entries -------------------------------------------------

  /** The delivered entries compaction drops: marked, but not set aside. */
  function Delivered(r: seq<Record>): seq<Entry> {
    Without(Only(Entries(r), MarkedIds(r)), Reasons(r).Keys)
  }

  lemma {:induction false} LettersSplit(es: seq<Entry>, ids: set<string>, m: map<string, (string, string)>)
    ensures multiset(Letters(es, m)) == multiset(Letters(Only(es, ids), m)) + multiset(Letters(Without(es, ids), m))
  {
    if es != [] {
      hide Letters;
      var e, rest := es[0], es[1..];
      assert es == [e] + rest;
      OnlyFirst(e, rest, ids);
      LettersSplit(rest, ids, m);
      LettersAppend([e], rest, m);
      if e.id in ids {
        assert Only(es, ids) == [e] + Only(rest, ids) && Without(es, ids) == Without(rest, ids);
        LettersAppend([e], Only(rest, ids), m);
      } else {
        assert Only(es, ids) == Only(rest, ids) && Without(es, ids) == [e] + Without(rest, ids);
        LettersAppend([e], Without(rest, ids), m);
      }
    }
  }

  /** The letters of a log: those of its pending, set-aside and delivered entries. */
  lemma LettersByFate(r: seq<Record>, m: map<string, (string, string)>)
    ensures multiset(Letters(Entries(r), m))
         == multiset(Letters(Pending(r), m)) + multiset(Letters(SetAside(r), m)) + multiset(Letters(Delivered(r), m))
  {
    hide Entries, Only, Without, Letters, MarkedIds, Reasons;
    ReasonsAreMarked(r);
    LettersSplit(Entries(r), MarkedIds(r), m);
    LettersSplit(Only(Entries(r), MarkedIds(r)), Reasons(r).Keys, m);
    OnlyOnly(Entries(r), MarkedIds(r), Reasons(r).Keys);
  }

  lemma DeadAfterCompaction(r: seq<Record>, s: seq<Record>)
    requires forall e :: e in Entries(s) ==> e.id !in MarkedIds(r)
    ensures multiset(DeadLetters(r + s))
         == multiset(DeadLetters(Compacted(r) + s)) + multiset(Letters(Delivered(r), Reasons(s)))
  {
    hide Entries, Only, Without, Letters, MarkedIds, Reasons, Compacted;
    var c := Compacted(r);
    var m, mc := Reasons(r + s), Reasons(c + s);
    CompactedReads(r);
    EntriesAppend(c, s);
    EntriesAppend(r, s);
    ReasonsAppend(c, s);
    ReasonsAppend(r, s);
    ReasonsAreMarked(r);
    LettersAppend(Entries(r), Entries(s), m);
    LettersAppend(Pending(r) + SetAside(r), Entries(s), mc);
    LettersAppend(Pending(r), SetAside(r), mc);
    LettersByFate(r, m);
    SameReasons(r, m, mc, Reasons(s));
    LettersSame(Entries(s), m, mc);
  }

  lemma SameReasons(r: seq<Record>, m: map<string, (string, string)>, mc: map<string, (string, string)>,
                    later: map<string, (string, string)>)
    requires m == Reasons(r) + later && mc == Reasons(Compacted(r)) + later
    ensures Letters(Pending(r), m) == Letters(Pending(r), mc)
    ensures Letters(SetAside(r), m) == Letters(SetAside(r), mc)
    ensures Letters(Delivered(r), m) == Letters(Delivered(r), later)
  {
    hide Entries, Only, Without, Letters, MarkedIds, Reasons, Compacted;
    CompactedReads(r);
    ReasonsAreMarked(r);
    WithoutMembers(Entries(r), MarkedIds(r));
    OnlyMembers(Entries(r), Reasons(r).Keys);
    WithoutMembers(Only(Entries(r), MarkedIds(r)), Reasons(r).Keys);
    LettersSame(Pending(r), m, mc);
    LettersSame(SetAside(r), m, mc);
    LettersSame(Delivered(r), m, later);
  }

  /**
    Compaction is invisible to the set-aside list exactly when nothing appended later sets
    aside an entry that was already delivered and dropped.
   */
  lemma DeadSurvivesCompaction(r: seq<Record>, s: seq<Record>)
    requires forall e :: e in Entries(s) ==> e.id !in MarkedIds(r)
    ensures multiset(DeadLetters(Compacted(r) + s)) == multiset(DeadLetters(r + s))
       <==> forall e :: e in Delivered(r) ==> e.id !in Reasons(s)
  {
    hide Entries, Without, Only, Letters, MarkedIds, Reasons, Compacted, DeadLetters, Delivered;
    DeadAfterCompaction(r, s);
    LettersMembers(Delivered(r), Reasons(s));
    if forall e :: e in Delivered(r) ==> e.id !in Reasons(s) {
      NoLetters(Delivered(r), Reasons(s));
    } else {
      var e :| e in Delivered(r) && e.id in Reasons(s);
      var l := Letter(e, Reasons(s)[e.id].0, Reasons(s)[e.id].1);
      assert l in Letters(Delivered(r), Reasons(s));
      assert multiset(DeadLetters(r + s))[l] > multiset(DeadLetters(Compacted(r) + s))[l];
    }
  }

  lemma DeadLettersKept(r: seq<Record>)
    ensures DeadLetters(Compacted(r)) == DeadLetters(r)
  {
    hide Entries, Without, Only, Letters, MarkedIds, Reasons, Compacted;
    var c := Compacted(r);
    CompactedReads(r);
    ReasonsAreMarked(r);
    LettersAppend(Pending(r), SetAside(r), Reasons(c));
    WithoutMembers(Entries(r), MarkedIds(r));
    NoLetters(Pending(r), Reasons(c));
    OnlyMembers(Entries(r), Reasons(r).Keys);
    LettersSame(SetAside(r), Reasons(c), Reasons(r));
    LettersOfOnly(Entries(r), Reasons(r));
  }

  /** With nothing appended, both readings are the same sequences, and compacting again changes nothing. */
  lemma CompactionIsIdempotent(r: seq<Record>)
    ensures Pending(Compacted(r)) == Pending(r)
    ensures DeadLetters(Compacted(r)) == DeadLetters(r)
    ensures Compacted(Compacted(r)) == Compacted(r)
  {
    assert Entries([]) == [];
    hide Entries, MarkedIds, Pending, DeadLetters;
    PendingSurvivesCompaction(r, []);
    assert Compacted(r) + [] == Compacted(r) && r + [] == r;
    DeadLettersKept(r);
  }

  // ----- compaction writes no more than it read --------------------------------

  predicate DistinctIds(es: seq<Entry>) {
    forall i, j :: 0 <= i < j < |es| ==> es[i].id != es[j].id
  }

  predicate NoRepeats<T(==)>(s: seq<T>) {
    forall i, j :: 0 <= i < j < |s| ==> s[i] != s[j]
  }

  lemma {:induction false} FiltersDistinct(es: seq<Entry>, ids: set<string>)
    requires DistinctIds(es)
    ensures DistinctIds(Without(es, ids)) && DistinctIds(Only(es, ids))
  {
    if es != [] {
      FiltersDistinct(es[1..], ids);
      WithoutMembers(es[1..], ids);
      OnlyMembers(es[1..], ids);
    }
  }

  lemma {:induction false} AsRecordsNoRepeats(es: seq<Entry>)
    requires DistinctIds(es)
    ensures NoRepeats(AsRecords(es))
    ensures forall r :: r in AsRecords(es) <==> r.Accepted? && r.entry in es
  {
    if es != [] {
      AsRecordsNoRepeats(es[1..]);
      assert es == [es[0]] + es[1..];
    }
  }

  lemma Join<T>(a: seq<T>, b: seq<T>)
    requires NoRepeats(a) && NoRepeats(b)
    requires forall x :: x in b ==> x !in a
    ensures NoRepeats(a + b)
  {
    forall i, j | 0 <= i < j < |a + b| ensures (a + b)[i] != (a + b)[j] {
      if i < |a| <= j { assert b[j - |a|] in b && a[i] in a; }
    }
  }

  lemma {:induction false} RepostNoRepeats(es: seq<Entry>, m: map<string, (string, string)>)
    requires DistinctIds(es)
    ensures NoRepeats(Repost(Letters(es, m)))
    ensures forall r :: r in Repost(Letters(es, m)) ==>
      exists e :: e in es && e.id in m && (r == Accepted(e) || r == Dead(e.id, m[e.id].0, m[e.id].1))
  {
    if es != [] {
      var e, rest := es[0], Repost(Letters(es[1..], m));
      RepostNoRepeats(es[1..], m);
      RepostStep(es, m);
      hide Repost, Letters;
      assert forall x :: x in es[1..] ==> x in es && x.id != e.id;
      if e.id in m {
        var two := Pair(e, m[e.id].0, m[e.id].1);
        assert e in es;
        forall r | r in rest ensures r != two[0] && r != two[1] {
          var x :| x in es[1..] && x.id in m && (r == Accepted(x) || r == Dead(x.id, m[x.id].0, m[x.id].1));
        }
        Join(two, rest);
      }
    }
  }

  /** The compacted log repeats no record and invents none. */
  lemma CompactedIsPart(r: seq<Record>)
    requires DistinctIds(Entries(r))
    ensures NoRepeats(Compacted(r))
    ensures forall x :: x in Compacted(r) ==> x in r
  {
    hide Entries, Without, Only, Letters, MarkedIds, Reasons, Repost, AsRecords;
    var p, d := AsRecords(Pending(r)), Repost(DeadLetters(r));
    FiltersDistinct(Entries(r), MarkedIds(r));
    AsRecordsNoRepeats(Pending(r));
    RepostNoRepeats(Entries(r), Reasons(r));
    WithoutMembers(Entries(r), MarkedIds(r));
    EntriesMembers(r);
    ReasonsAreMarked(r);
    forall x | x in d ensures x in r && x !in p {
      var e :| e in Entries(r) && e.id in Reasons(r)
        && (x == Accepted(e) || x == Dead(e.id, Reasons(r)[e.id].0, Reasons(r)[e.id].1));
      LastReason(r, e.id);
    }
    Join(p, d);
  }

  lemma {:induction false} LastReason(r: seq<Record>, id: string)
    requires id in Reasons(r)
    ensures Dead(id, Reasons(r)[id].0, Reasons(r)[id].1) in r
  {
    var n := |r| - 1;
    assert r == r[..n] + [r[n]];
    if !(r[n].Dead? && r[n].id == id) { LastReason(r[..n], id); }
  }

  /** Distinct ids stay distinct. */
  lemma CompactedKeepsIds(r: seq<Record>)
    requires DistinctIds(Entries(r))
    ensures DistinctIds(Entries(Compacted(r)))
    ensures forall e :: e in Entries(Compacted(r)) ==> e in Entries(r)
  {
    hide Entries, Without, Only, MarkedIds, Reasons, Compacted;
    CompactedReads(r);
    FiltersDistinct(Entries(r), MarkedIds(r));
    FiltersDistinct(Entries(r), Reasons(r).Keys);
    WithoutMembers(Entries(r), MarkedIds(r));
    OnlyMembers(Entries(r), Reasons(r).Keys);
    ReasonsAreMarked(r);
  }
}
