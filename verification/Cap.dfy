/** The size of the journal over any run of writes, power cuts and compactions. */
module Cap {
  import opened Wrappers
  import opened Records
  import opened RecordFile
  import opened Compaction
  import Utf8

  /** A power cut during a write is a `Write` whose disk cuts it short. */
  datatype Step = Write(record: Record, disk: Disk) | Compact(replaced: bool)

  function Run(steps: seq<Step>, cap: nat): seq<Utf8.Byte> {
    if steps == [] then []
    else
      var file := Run(steps[..|steps| - 1], cap);
      match steps[|steps| - 1]
      case Write(r, disk) => AfterAppend(file, r, cap, disk)
      case Compact(replaced) => AfterCompact(file, replaced)
  }

  /** The entries the steps tried to accept, in order. */
  function Offered(steps: seq<Step>): seq<Entry> {
    if steps == [] then []
    else
      var last := steps[|steps| - 1];
      Offered(steps[..|steps| - 1])
        + if last.Write? && last.record.Accepted? then [last.record.entry] else []
  }

  /** What the bytes of the file consist of, or `None` once they can no longer be read. */
  function ShapeAfter(steps: seq<Step>, cap: nat): Option<Shape> {
    if steps == [] then Some(Shape([], []))
    else
      var before := steps[..|steps| - 1];
      match ShapeAfter(before, cap)
      case None => None
      case Some(s) =>
        match steps[|steps| - 1]
        case Write(r, disk) => if Fits(Run(before, cap), r, cap) then Written(s, r, Landed(r, disk)) else Some(s)
        case Compact(replaced) => Some(if replaced then Shape(Compacted(Recorded(s)), []) else s)
  }

  lemma {:induction false} ShapeFollowsRun(steps: seq<Step>, cap: nat)
    ensures match ShapeAfter(steps, cap)
      case Some(s) => HasShape(Run(steps, cap), s)
      case None => Read(Run(steps, cap)).Err?
  {
    if steps == [] {
      RenderReads([]);
      assert Render([]) == [];
    }
    hide Read, HasShape, Compacted, Line, Written, Render;
    if steps != [] {
      var before := steps[..|steps| - 1];
      var file := Run(before, cap);
      ShapeFollowsRun(before, cap);
      match steps[|steps| - 1]
      case Write(r, disk) =>
        match ShapeAfter(before, cap) {
          case Some(s) => WriteLands(file, s, r, Landed(r, disk));
          case None => DamageStays(file, r, Landed(r, disk));
        }
      case Compact(replaced) =>
        match ShapeAfter(before, cap) {
          case Some(s) => ShapeReads(file, s); RenderReads(Compacted(Recorded(s)));
          case None =>
        }
    }
  }

  // ----- sizes ------------------------------------------------------------------

  lemma {:induction false} RenderSplit(a: seq<Record>, x: Record, b: seq<Record>)
    ensures |Render(a + [x] + b)| == |Render(a + b)| + |Line(x)|
  {
    hide Line;
    if a == [] {
      assert a + [x] + b == [x] + b && a + b == b && ([x] + b)[1..] == b;
    } else {
      assert (a + [x] + b)[1..] == a[1..] + [x] + b && (a + b)[1..] == a[1..] + b;
      assert (a + [x] + b)[0] == a[0] == (a + b)[0];
      RenderSplit(a[1..], x, b);
    }
  }

  /** Records that repeat nothing and all come from `r` take no more bytes than `r`. */
  lemma {:induction false} PartIsSmaller(c: seq<Record>, r: seq<Record>)
    requires NoRepeats(c) && forall x :: x in c ==> x in r
    ensures |Render(c)| <= |Render(r)|
  {
    hide Line;
    if c != [] {
      var x := c[0];
      assert x in c;
      var i :| 0 <= i < |r| && r[i] == x;
      var a, b := r[..i], r[i + 1..];
      assert r == a + [x] + b;
      forall y | y in c[1..] ensures y in a + b { assert y in c && y != x; }
      assert NoRepeats(c[1..]);
      PartIsSmaller(c[1..], a + b);
      RenderSplit(a, x, b);
    }
  }

  lemma CompactionIsSmaller(r: seq<Record>)
    requires DistinctIds(Entries(r))
    ensures |Render(Compacted(r))| <= |Render(r)|
  {
    hide Render, Compacted;
    CompactedIsPart(r);
    PartIsSmaller(Compacted(r), r);
  }

  /** Whether a compaction keeps a record: a pending or set-aside entry, or the last reason of one. */
  predicate Survives(log: seq<Record>, r: Record) {
    match r
    case Accepted(e) => e.id !in MarkedIds(log) || e.id in Reasons(log)
    case Done(_) => false
    case Dead(id, reason, at) =>
      id in Reasons(log) && Reasons(log)[id] == (reason, at) && exists e <- Entries(log) :: e.id == id
  }

  lemma {:induction false} AsRecordsMembers(es: seq<Entry>)
    ensures forall r :: r in AsRecords(es) <==> r.Accepted? && r.entry in es
  {
    if es != [] {
      AsRecordsMembers(es[1..]);
      assert es == [es[0]] + es[1..];
    }
  }

  lemma {:induction false} RepostMembers(ls: seq<Letter>)
    ensures forall r :: r in Repost(ls) <==>
      exists l <- ls :: r == Accepted(l.entry) || r == Dead(l.entry.id, l.reason, l.at)
  {
    if ls != [] {
      RepostMembers(ls[1..]);
      assert ls == [ls[0]] + ls[1..];
    }
  }

  /** The compacted log consists of exactly the records that survive. */
  lemma CompactedIsWhatSurvives(log: seq<Record>)
    ensures forall r :: r in Compacted(log) <==> Survives(log, r) && (r.Accepted? ==> r in log)
  {
    hide Entries, Reasons, MarkedIds, Without, Letters, AsRecords, Repost;
    AsRecordsMembers(Pending(log));
    RepostMembers(DeadLetters(log));
    WithoutMembers(Entries(log), MarkedIds(log));
    LettersMembers(Entries(log), Reasons(log));
    EntriesMembers(log);
    ReasonsAreMarked(log);
    forall r ensures r in Compacted(log) <==> Survives(log, r) && (r.Accepted? ==> r in log) {
      SurvivorIsKept(log, r);
    }
  }

  lemma SurvivorIsKept(log: seq<Record>, r: Record)
    requires forall x :: x in AsRecords(Pending(log)) <==> x.Accepted? && x.entry in Pending(log)
    requires forall x :: x in Repost(DeadLetters(log)) <==>
      exists l <- DeadLetters(log) :: x == Accepted(l.entry) || x == Dead(l.entry.id, l.reason, l.at)
    requires forall e :: e in Pending(log) <==> e in Entries(log) && e.id !in MarkedIds(log)
    requires forall l :: l in DeadLetters(log) <==>
      l.entry in Entries(log) && l.entry.id in Reasons(log) && Reasons(log)[l.entry.id] == (l.reason, l.at)
    requires forall e :: e in Entries(log) <==> Accepted(e) in log
    requires Reasons(log).Keys <= MarkedIds(log)
    ensures r in Compacted(log) <==> Survives(log, r) && (r.Accepted? ==> r in log)
  {
    hide Entries, Reasons, MarkedIds, Pending, DeadLetters, AsRecords, Repost;
    if Survives(log, r) && (r.Accepted? ==> r in log) {
      match r
      case Accepted(e) =>
        if e.id in Reasons(log) {
          assert Letter(e, Reasons(log)[e.id].0, Reasons(log)[e.id].1) in DeadLetters(log);
        }
      case Dead(id, reason, at) =>
        var e :| e in Entries(log) && e.id == id;
        assert Letter(e, reason, at) in DeadLetters(log);
    }
  }

  /** Such records take fewer bytes than `r` exactly if something of `r` is missing or `r` repeats something. */
  lemma {:induction false} PartIsStrictlySmaller(c: seq<Record>, r: seq<Record>)
    requires NoRepeats(c) && forall x :: x in c ==> x in r
    ensures |Render(c)| < |Render(r)| <==> !NoRepeats(r) || exists x <- r :: x !in c
  {
    hide Line;
    if c == [] {
      if r != [] { assert r[0] in r && |Render(r)| > 0; }
    } else {
      var x := c[0];
      assert x in c;
      var i :| 0 <= i < |r| && r[i] == x;
      var a, b := r[..i], r[i + 1..];
      assert r == a + [x] + b;
      forall y | y in c[1..] ensures y in a + b { assert y in c && y != x; }
      PartIsStrictlySmaller(c[1..], a + b);
      RenderSplit(a, x, b);
      OneRemoved(c, a, x, b);
    }
  }

  lemma OneRemoved(c: seq<Record>, a: seq<Record>, x: Record, b: seq<Record>)
    requires NoRepeats(c) && c != [] && c[0] == x
    ensures (!NoRepeats(a + b) || exists y <- a + b :: y !in c[1..])
       <==> (!NoRepeats(a + [x] + b) || exists y <- a + [x] + b :: y !in c)
  {
    var r, rest := a + [x] + b, a + b;
    assert c == [x] + c[1..] && x !in c[1..];
    assert forall y :: y in r <==> y in rest || y == x;
    if x in rest {
      var j :| 0 <= j < |rest| && rest[j] == x;
      assert r[if j < |a| then j else j + 1] == x && r[|a|] == x;
      assert !NoRepeats(r) && x !in c[1..];
    } else {
      RepeatsWithout(a, x, b);
      assert forall y :: y in rest ==> (y in c <==> y in c[1..]);
    }
  }

  lemma RepeatsWithout(a: seq<Record>, x: Record, b: seq<Record>)
    requires x !in a + b
    ensures NoRepeats(a + [x] + b) <==> NoRepeats(a + b)
  {
    var r, rest := a + [x] + b, a + b;
    assert r[|a|] == x;
    forall i | 0 <= i < |rest| ensures r[if i < |a| then i else i + 1] == rest[i] && rest[i] != x {
      assert rest[i] in rest;
    }
    if NoRepeats(rest) {
      forall i, j | 0 <= i < j < |r| ensures r[i] != r[j] {
        assert i < |a| ==> r[i] == rest[i];
        assert i > |a| ==> r[i] == rest[i - 1];
        assert j < |a| ==> r[j] == rest[j];
        assert j > |a| ==> r[j] == rest[j - 1];
      }
    }
    if NoRepeats(r) {
      forall i, j | 0 <= i < j < |rest| ensures rest[i] != rest[j] {
        assert r[if i < |a| then i else i + 1] != r[if j < |a| then j else j + 1];
      }
    }
  }

  /**
    A compaction of a journal that ends cleanly frees room exactly when the log holds something
    it does not keep: a delivered entry, a `Done` marker, an outdated reason, a marker without
    its entry, or a record twice. Otherwise the file keeps its size.
   */
  lemma CompactionFreesRoomExactlyWhen(file: seq<Utf8.Byte>, log: seq<Record>)
    requires HasShape(file, Shape(log, [])) && DistinctIds(Entries(log))
    ensures |AfterCompact(file, true)| < |file| <==> !NoRepeats(log) || exists r <- log :: !Survives(log, r)
    ensures |AfterCompact(file, true)| <= |file|
  {
    assert |file| == |Render(log)| by { assert Joined([]) == "" && Utf8.Encode("") == []; }
    ShapeReads(file, Shape(log, []));
    assert log + [] == log;
    hide HasShape, Read, Render, Compacted, Entries, Survives;
    CompactedIsPart(log);
    CompactionIsSmaller(log);
    PartIsStrictlySmaller(Compacted(log), log);
    CompactedIsWhatSurvives(log);
  }

  // ----- the cap ------------------------------------------------------------------

  function PieceRecords(ps: seq<Piece>): seq<Record> {
    if ps == [] then [] else [ps[0].record] + PieceRecords(ps[1..])
  }

  /** Every record the file holds or holds a piece of. */
  function Present(s: Shape): seq<Record> { s.records + PieceRecords(s.pieces) }

  /** What the whole lines take, counting the first unfinished one as if it were whole. */
  function Claimed(s: Shape): nat {
    |Render(s.records)| + if s.pieces == [] then 0 else |Line(s.pieces[0].record)|
  }

  predicate WithinCap(s: Shape, ids: set<string>, cap: nat) {
    Claimed(s) <= cap && DistinctIds(Entries(Present(s))) && forall e :: e in Entries(Present(s)) ==> e.id in ids
  }

  lemma {:induction false} PieceRecordsAppend(ps: seq<Piece>, p: Piece)
    ensures PieceRecords(ps + [p]) == PieceRecords(ps) + [p.record]
  {
    if ps == [] {
      assert ps + [p] == [p] && [p][1..] == [];
    } else {
      assert (ps + [p])[1..] == ps[1..] + [p];
      PieceRecordsAppend(ps[1..], p);
    }
  }

  /** A write keeps the claim within the cap, because the cap was checked for the whole line. */
  lemma WriteWithinCap(file: seq<Utf8.Byte>, s: Shape, r: Record, n: nat, ids: set<string>, cap: nat)
    requires HasShape(file, s) && WithinCap(s, ids, cap) && Fits(file, r, cap) && n <= |Line(r)|
    requires r.Accepted? ==> r.entry.id !in ids
    ensures Written(s, r, n).Some? ==>
      WithinCap(Written(s, r, n).value, ids + (if r.Accepted? then {r.entry.id} else {}), cap)
  {
    if Written(s, r, n).Some? {
      ClaimAfterWrite(file, s, r, n, cap);
      PresentAfterWrite(s, r, n);
      hide Records.Print, Line, Entries, Claimed, Present, HasShape, Written;
      EntriesAppend(Present(s), [r]);
      OneEntry(r);
    }
  }

  lemma ClaimAfterWrite(file: seq<Utf8.Byte>, s: Shape, r: Record, n: nat, cap: nat)
    requires HasShape(file, s) && Claimed(s) <= cap && Fits(file, r, cap) && n <= |Line(r)|
    ensures Written(s, r, n).Some? ==> Claimed(Written(s, r, n).value) <= cap
  {
    hide Records.Print, Line, Render;
    RenderAppend(s.records, r);
  }

  lemma PresentAfterWrite(s: Shape, r: Record, n: nat)
    requires n <= |Line(r)| && Written(s, r, n).Some?
    ensures Present(Written(s, r, n).value) == Present(s) || Present(Written(s, r, n).value) == Present(s) + [r]
  {
    hide Records.Print, Line, Render;
    var after := Written(s, r, n).value;
    if after.pieces != s.pieces { PieceRecordsAppend(s.pieces, after.pieces[|s.pieces|]); }
  }

  lemma OneEntry(r: Record)
    ensures Entries([r]) == if r.Accepted? then [r.entry] else []
  {
    assert [r][1..] == [];
  }

  lemma CompactWithinCap(s: Shape, ids: set<string>, cap: nat)
    requires WithinCap(s, ids, cap)
    ensures WithinCap(Shape(Compacted(Recorded(s)), []), ids, cap)
    ensures |Render(Compacted(Recorded(s)))| <= cap
  {
    hide Records.Print, Line, Render, Entries, Compacted;
    var all := Recorded(s);
    if |s.pieces| == 1 {
      assert PieceRecords(s.pieces) == [s.pieces[0].record] + PieceRecords(s.pieces[1..]);
      assert PieceRecords(s.pieces) == [s.pieces[0].record];
      RenderAppend(s.records, s.pieces[0].record);
    }
    var rest := PieceRecords(s.pieces);
    if Intact(s.pieces) == [] {
      assert all == s.records;
      EntriesAppend(s.records, rest);
    } else {
      assert all == Present(s);
    }
    PrefixDistinct(Entries(s.records), Entries(rest), Entries(Present(s)), Entries(all));
    CompactionIsSmaller(all);
    CompactedKeepsIds(all);
    assert Present(Shape(Compacted(all), [])) == Compacted(all);
  }

  lemma PrefixDistinct(a: seq<Entry>, b: seq<Entry>, whole: seq<Entry>, part: seq<Entry>)
    requires DistinctIds(whole) && (part == whole || (part == a && whole == a + b))
    ensures DistinctIds(part) && forall e :: e in part ==> e in whole
  {
    assert forall i :: 0 <= i < |part| ==> part[i] == whole[i];
  }

  lemma {:induction false} RunWithinCap(steps: seq<Step>, cap: nat)
    requires DistinctIds(Offered(steps))
    ensures |Run(steps, cap)| <= cap
    ensures ShapeAfter(steps, cap).Some? ==>
      WithinCap(ShapeAfter(steps, cap).value, set e <- Offered(steps) :: e.id, cap)
  {
    if steps == [] {
      assert Render([]) == [] && Entries([]) == [];
    } else {
      hide Read, HasShape, Compacted, Line, Written, Render, WithinCap;
      var before, last := steps[..|steps| - 1], steps[|steps| - 1];
      assert DistinctIds(Offered(before)) by {
        assert forall i :: 0 <= i < |Offered(before)| ==> Offered(before)[i] == Offered(steps)[i];
      }
      RunWithinCap(before, cap);
      ShapeFollowsRun(before, cap);
      var ids, all := set e <- Offered(before) :: e.id, set e <- Offered(steps) :: e.id;
      match last
      case Write(r, disk) =>
        assert all == ids + (if r.Accepted? then {r.entry.id} else {}) by { OfferedIds(steps); }
        assert r.Accepted? ==> r.entry.id !in ids by { OfferedIds(steps); }
        WriteRunWithinCap(steps, r, disk, ids, all, cap);
      case Compact(replaced) =>
        assert all == ids;
        match ShapeAfter(before, cap) {
          case Some(s) => ShapeReads(Run(before, cap), s); CompactWithinCap(s, ids, cap);
          case None =>
        }
    }
  }

  lemma OneMoreOffered(steps: seq<Step>)
    requires steps != [] && steps[|steps| - 1].Write?
    ensures var r := steps[|steps| - 1].record;
      var before := Offered(steps[..|steps| - 1]);
      Offered(steps) == if r.Accepted? then before + [r.entry] else before
  {
    var before := Offered(steps[..|steps| - 1]);
    assert before + [] == before;
  }

  lemma OfferedIds(steps: seq<Step>)
    requires steps != [] && steps[|steps| - 1].Write? && DistinctIds(Offered(steps))
    ensures var r := steps[|steps| - 1].record;
      var ids := set e <- Offered(steps[..|steps| - 1]) :: e.id;
      (set e <- Offered(steps) :: e.id) == ids + (if r.Accepted? then {r.entry.id} else {})
      && (r.Accepted? ==> r.entry.id !in ids)
  {
    var r := steps[|steps| - 1].record;
    var o := Offered(steps[..|steps| - 1]);
    OneMoreOffered(steps);
    var all := Offered(steps);
    hide Offered;
    if r.Accepted? {
      forall e | e in o ensures e.id != r.entry.id {
        var i :| 0 <= i < |o| && o[i] == e;
        assert all[i] == e && all[|o|] == r.entry;
      }
      assert forall e :: e in all <==> e in o || e == r.entry;
    }
  }

  lemma WriteRunWithinCap(steps: seq<Step>, r: Record, disk: Disk, ids: set<string>, all: set<string>, cap: nat)
    requires steps != [] && steps[|steps| - 1] == Write(r, disk)
    requires all == ids + (if r.Accepted? then {r.entry.id} else {}) && (r.Accepted? ==> r.entry.id !in ids)
    requires var before := steps[..|steps| - 1];
      |Run(before, cap)| <= cap
      && (ShapeAfter(before, cap).Some? ==>
        HasShape(Run(before, cap), ShapeAfter(before, cap).value) && WithinCap(ShapeAfter(before, cap).value, ids, cap))
    ensures |Run(steps, cap)| <= cap
    ensures ShapeAfter(steps, cap).Some? ==> WithinCap(ShapeAfter(steps, cap).value, all, cap)
  {
    hide HasShape, Line, Written, Claimed, Present;
    var before := steps[..|steps| - 1];
    if Fits(Run(before, cap), r, cap) {
      if ShapeAfter(before, cap).Some? {
        WriteWithinCap(Run(before, cap), ShapeAfter(before, cap).value, r, Landed(r, disk), ids, cap);
      }
    }
  }

  /**
    The journal never exceeds its cap: for any writes with entry ids used once, cut short or
    not, and any compactions among them.
   */
  lemma NeverOverCap(steps: seq<Step>, cap: nat)
    requires DistinctIds(Offered(steps))
    ensures |Run(steps, cap)| <= cap
  {
    RunWithinCap(steps, cap);
  }
}
