/**
  The bytes of the journal file: one printed record per line, what a write that did not
  finish may leave behind, and what reading makes of it.

  A missing file is the empty one: both hold no record and no byte.
 */
module RecordFile {
  import opened Wrappers
  import opened Records
  import opened Text
  import opened Utf8
  import Json

  datatype ReadError = NotUtf8 | BadLine(number: nat)

  type Log = Result<seq<Record>, ReadError>

  // ----- reading --------------------------------------------------------------

  /** Where the first line ends: at its line feed, or at the end of the text. */
  function LineEnd(text: string): (n: nat)
    ensures n <= |text|
    ensures forall i :: 0 <= i < n ==> text[i] != '\n'
    ensures n < |text| ==> text[n] == '\n'
  {
    if text == "" || text[0] == '\n' then 0 else 1 + LineEnd(text[1..])
  }

  /** A terminated line without the carriage return that may stand before its line feed. */
  function WithoutReturn(line: string): string {
    if line != "" && line[|line| - 1] == '\r' then line[..|line| - 1] else line
  }

  function Before(records: seq<Record>, log: Log): Log {
    match log
    case Ok(rest) => Ok(records + rest)
    case Err(e) => Err(e)
  }

  /** The record of one terminated line: blank lines are skipped, anything else must parse. */
  function ReadLine(line: string, number: nat): Log {
    if IsBlank(line) then Ok([])
    else match Parse(line)
      case Some(r) => Ok([r])
      case None => Err(BadLine(number))
  }

  /** The text after the last line feed: a record if it is whole, skipped if it is not. */
  function ReadTail(tail: string): (records: seq<Record>)
    ensures |records| <= 1
  {
    if IsBlank(tail) then []
    else match Parse(tail)
      case Some(r) => [r]
      case None => []
  }

  /** Every record of the text, or the first terminated line that is not one. */
  function ReadText(text: string, number: nat): Log
    decreases |text|
  {
    var n := LineEnd(text);
    if n == |text| then Ok(ReadTail(text))
    else Then(ReadLine(WithoutReturn(text[..n]), number), ReadText(text[n + 1..], number + 1))
  }

  /** Reading goes on after a line only if the line could be read. */
  function Then(line: Log, rest: Log): Log {
    match line
    case Err(e) => Err(e)
    case Ok(rs) => Before(rs, rest)
  }

  function Read(file: seq<Byte>): Log {
    match Decode(file)
    case None => Err(NotUtf8)
    case Some(text) => ReadText(text, 1)
  }

  // ----- writing --------------------------------------------------------------

  function Line(r: Record): (b: seq<Byte>)
    ensures b != []
  {
    Encode(Records.Print(r) + "\n")
  }

  function Render(records: seq<Record>): seq<Byte> {
    if records == [] then [] else Line(records[0]) + Render(records[1..])
  }

  /**
    How a write ends. `Cut(n)` returns an error after the first `n` bytes reached the file:
    a partial write, or the whole line when only the sync failed. A power cut during a write
    leaves the same bytes.
   */
  datatype Disk = Sound | Refused | Cut(n: nat)

  predicate Fits(file: seq<Byte>, r: Record, cap: nat) { |file| + |Line(r)| <= cap }

  function Landed(r: Record, disk: Disk): (n: nat)
    ensures n <= |Line(r)|
  {
    match disk
    case Sound => |Line(r)|
    case Refused => 0
    case Cut(n) => if n < |Line(r)| then n else |Line(r)|
  }

  function AfterAppend(file: seq<Byte>, r: Record, cap: nat, disk: Disk): seq<Byte> {
    if Fits(file, r, cap) then file + Line(r)[..Landed(r, disk)] else file
  }

  /** Whether the caller is told that the record is durable. */
  predicate Acknowledged(file: seq<Byte>, r: Record, cap: nat, disk: Disk) {
    Fits(file, r, cap) && disk.Sound?
  }

  /** Compaction replaces the whole file, or leaves it alone. */
  function AfterCompact(file: seq<Byte>, replaced: bool): seq<Byte> {
    match Read(file)
    case Ok(records) => if replaced then Render(Compacted(records)) else file
    case Err(_) => file
  }

  // ----- lines of text --------------------------------------------------------

  predicate EndsLine(t: string) { t == "" || t[|t| - 1] == '\n' }

  function Breaks(t: string): nat {
    if t == "" then 0 else (if t[0] == '\n' then 1 else 0) + Breaks(t[1..])
  }

  lemma {:induction false} LineEndAt(line: string, rest: string)
    requires forall i :: 0 <= i < |line| ==> line[i] != '\n'
    ensures LineEnd(line + "\n" + rest) == |line|
    ensures LineEnd(line) == |line|
  {
    var text := line + "\n" + rest;
    assert text[|line|] == '\n';
    assert forall i :: 0 <= i < |line| ==> text[i] == line[i];
  }

  lemma LineEndStays(t: string, u: string)
    requires LineEnd(t) < |t|
    ensures LineEnd(t + u) == LineEnd(t)
  {
    assert forall i :: 0 <= i < |t| ==> (t + u)[i] == t[i];
  }

  lemma {:induction false} BreaksAfterLine(t: string)
    requires LineEnd(t) < |t|
    ensures Breaks(t) == 1 + Breaks(t[LineEnd(t) + 1..])
  {
    if t[0] != '\n' {
      assert LineEnd(t[1..]) + 1 == LineEnd(t);
      assert t[1..][LineEnd(t[1..]) + 1..] == t[LineEnd(t) + 1..];
      BreaksAfterLine(t[1..]);
    }
  }

  lemma EmptyReads(k: nat)
    ensures ReadText("", k) == Ok([])
  {
    assert IsBlank("");
  }

  lemma BeforeTwice(a: seq<Record>, b: seq<Record>, log: Log)
    ensures Before(a, Before(b, log)) == Before(a + b, log)
  {
    if log.Ok? { assert a + (b + log.value) == (a + b) + log.value; }
  }

  lemma BeforeNothing(log: Log)
    ensures Before([], log) == log
  {
    if log.Ok? { assert [] + log.value == log.value; }
  }

  lemma ReadStep(t: string, k: nat)
    requires LineEnd(t) < |t|
    ensures ReadText(t, k) == Then(ReadLine(WithoutReturn(t[..LineEnd(t)]), k), ReadText(t[LineEnd(t) + 1..], k + 1))
  {
  }

  lemma StepStays(t: string, u: string)
    requires LineEnd(t) < |t|
    ensures var n := LineEnd(t);
      LineEnd(t + u) == n && (t + u)[..n] == t[..n] && (t + u)[n + 1..] == t[n + 1..] + u
  {
    LineEndStays(t, u);
  }

  /** Whole lines already read are read the same when text is appended. */
  lemma {:induction false} ReadOn(t: string, u: string, k: nat)
    requires EndsLine(t) && ReadText(t, k).Ok?
    ensures ReadText(t + u, k) == Before(ReadText(t, k).value, ReadText(u, k + Breaks(t)))
    decreases |t|
  {
    hide ReadLine, ReadText, WithoutReturn, Before;
    if t == "" {
      assert t + u == u;
      EmptyReads(k);
      BeforeNothing(ReadText(u, k));
    } else {
      var n := LineEnd(t);
      StepStays(t, u);
      ReadStep(t, k);
      ReadStep(t + u, k);
      BreaksAfterLine(t);
      var rs := ReadLine(WithoutReturn(t[..n]), k).value;
      OkAfter(rs, ReadText(t[n + 1..], k + 1));
      ReadOn(t[n + 1..], u, k + 1);
      BeforeTwice(rs, ReadText(t[n + 1..], k + 1).value, ReadText(u, k + Breaks(t)));
    }
  }

  lemma OkAfter(rs: seq<Record>, log: Log)
    ensures Before(rs, log).Ok? <==> log.Ok?
    ensures log.Ok? ==> Before(rs, log).value == rs + log.value
  {
  }

  /** A line that cannot be read stays unreadable whatever is appended. */
  lemma {:induction false} BadLineStays(t: string, u: string, k: nat)
    requires ReadText(t, k).Err?
    ensures ReadText(t + u, k) == ReadText(t, k)
    decreases |t|
  {
    hide ReadLine, ReadTail, WithoutReturn;
    var n := LineEnd(t);
    LineEndStays(t, u);
    assert (t + u)[..n] == t[..n] && (t + u)[n + 1..] == t[n + 1..] + u;
    if ReadLine(WithoutReturn(t[..n]), k).Ok? { BadLineStays(t[n + 1..], u, k + 1); }
  }

  lemma PrintedLine(r: Record, k: nat)
    ensures forall i :: 0 <= i < |Records.Print(r)| ==> Records.Print(r)[i] != '\n'
    ensures ReadLine(WithoutReturn(Records.Print(r)), k) == Ok([r])
    ensures ReadText(Records.Print(r) + "\n", k) == Ok([r])
  {
    hide Records.Print, Parse;
    PrintIsOneLine(r);
    RecordRoundTrip(r);
    var p := Records.Print(r);
    assert !IsWhitespace(p[0]);
    LineEndAt(p, "");
    assert p + "\n" + "" == p + "\n";
    assert (p + "\n")[..|p|] == p && (p + "\n")[|p| + 1..] == "";
    EmptyReads(k + 1);
    assert [r] + [] == [r];
  }

  // ----- pieces at the end of the file ------------------------------------------

  /** The record of a tail, if nothing but its line feed is missing. */
  function Intact(ps: seq<Piece>): seq<Record> {
    if |ps| == 1 && ps[0].length == |Records.Print(ps[0].record)| then [ps[0].record] else []
  }

  predicate ArePieces(ps: seq<Piece>) { forall p :: p in ps ==> IsPiece(p) }

  lemma {:induction false} JoinedIsOneLine(ps: seq<Piece>)
    requires ArePieces(ps)
    ensures forall i :: 0 <= i < |Joined(ps)| ==> Joined(ps)[i] >= ' '
    ensures ps != [] ==> !IsBlank(Joined(ps))
  {
    if ps != [] {
      assert ps[0] in ps;
      PrintIsOneLine(ps[0].record);
      JoinedIsOneLine(ps[1..]);
      hide Records.Print;
      assert Joined(ps)[0] == PieceText(ps[0])[0] == '{';
      assert !IsWhitespace(Joined(ps)[0]);
    }
  }

  /** A torn tail is skipped, unless it is a whole record without its line feed. */
  lemma TailReads(ps: seq<Piece>, k: nat)
    requires ArePieces(ps)
    ensures ReadText(Joined(ps), k) == Ok(Intact(ps))
  {
    hide Records.Print, Parse;
    JoinedIsOneLine(ps);
    LineEndAt(Joined(ps), "");
    if ps != [] { JoinedParses(ps); }
  }

  lemma {:induction false} JoinedAppend(ps: seq<Piece>, p: Piece)
    requires ArePieces(ps) && IsPiece(p)
    ensures ArePieces(ps + [p]) && Joined(ps + [p]) == Joined(ps) + PieceText(p)
  {
    if ps == [] {
      assert ps + [p] == [p] && [p][1..] == [];
      assert Joined([p]) == PieceText(p) + Joined([]);
    } else {
      assert (ps + [p])[1..] == ps[1..] + [p];
      JoinedAppend(ps[1..], p);
    }
  }

  /** A whole record appended to a torn tail makes one line that cannot be read. */
  lemma MergedLine(ps: seq<Piece>, r: Record, k: nat)
    requires ArePieces(ps) && ps != []
    ensures ReadText(Joined(ps) + (Records.Print(r) + "\n"), k) == Err(BadLine(k))
  {
    PrintIsOneLine(r);
    hide Records.Print, Parse;
    var all := ps + [Piece(r, |Records.Print(r)|)];
    JoinedAppend(ps, Piece(r, |Records.Print(r)|));
    JoinedIsOneLine(all);
    JoinedParses(all);
    var line := Joined(all);
    assert Joined(ps) + (Records.Print(r) + "\n") == line + "\n" + "";
    LineEndAt(line, "");
    assert (line + "\n" + "")[..|line|] == line;
    assert WithoutReturn(line) == line;
  }

  // ----- the shape of a journal file ---------------------------------------------

  /** Whole records, one per line, and the pieces unfinished writes left after them. */
  datatype Shape = Shape(records: seq<Record>, pieces: seq<Piece>)

  predicate HasShape(file: seq<Byte>, s: Shape) {
    ArePieces(s.pieces) && file == Render(s.records) + Encode(Joined(s.pieces))
  }

  function Recorded(s: Shape): seq<Record> { s.records + Intact(s.pieces) }

  function PrintAll(records: seq<Record>): string {
    if records == [] then "" else Records.Print(records[0]) + "\n" + PrintAll(records[1..])
  }

  lemma {:induction false} RenderIsText(records: seq<Record>)
    ensures Render(records) == Encode(PrintAll(records)) && EndsLine(PrintAll(records))
  {
    if records != [] {
      RenderIsText(records[1..]);
      EncodeAppend(Records.Print(records[0]) + "\n", PrintAll(records[1..]));
    }
  }

  lemma {:induction false} PrintAllReads(records: seq<Record>, k: nat)
    ensures ReadText(PrintAll(records), k) == Ok(records)
  {
    hide Records.Print, Parse, ReadText;
    if records == [] {
      EmptyReads(k);
    } else {
      var line := Records.Print(records[0]) + "\n";
      PrintedLine(records[0], k);
      PrintAllReads(records[1..], k + Breaks(line));
      ReadOn(line, PrintAll(records[1..]), k);
      assert [records[0]] + records[1..] == records;
    }
  }

  lemma ShapeDecodes(file: seq<Byte>, s: Shape)
    requires HasShape(file, s)
    ensures Decode(file) == Some(PrintAll(s.records) + Joined(s.pieces))
  {
    RenderIsText(s.records);
    EncodeAppend(PrintAll(s.records), Joined(s.pieces));
    RoundTrip(PrintAll(s.records) + Joined(s.pieces));
  }

  /** Reading gives every whole record, and skips whatever unfinished writes left at the end. */
  lemma ShapeReads(file: seq<Byte>, s: Shape)
    requires HasShape(file, s)
    ensures Read(file) == Ok(Recorded(s))
  {
    hide ReadText, Records.Print, Joined, PrintAll, Render, Decode, Encode;
    ShapeDecodes(file, s);
    RenderIsText(s.records);
    PrintAllReads(s.records, 1);
    TailReads(s.pieces, 1 + Breaks(PrintAll(s.records)));
    ReadOn(PrintAll(s.records), Joined(s.pieces), 1);
  }

  lemma RenderReads(records: seq<Record>)
    ensures HasShape(Render(records), Shape(records, []))
    ensures Read(Render(records)) == Ok(records)
  {
    assert Render(records) + Encode(Joined([])) == Render(records);
    ShapeReads(Render(records), Shape(records, []));
    assert Recorded(Shape(records, [])) == records;
  }

  /** What `n` bytes of a record's line make of a file, or `None` when it can no longer be read. */
  function Written(s: Shape, r: Record, n: nat): Option<Shape>
    requires n <= |Line(r)|
  {
    match CharsBefore(Records.Print(r) + "\n", n)
    case None => None
    case Some(j) =>
      if j == 0 then Some(s)
      else if j <= |Records.Print(r)| then Some(s.(pieces := s.pieces + [Piece(r, j)]))
      else if s.pieces == [] then Some(Shape(s.records + [r], []))
      else None
  }

  lemma {:induction false} RenderAppend(records: seq<Record>, r: Record)
    ensures Render(records + [r]) == Render(records) + Line(r)
  {
    if records == [] {
      assert records + [r] == [r] && [r][1..] == [];
      assert Render([r]) == Line(r) + Render([]);
    } else {
      assert (records + [r])[1..] == records[1..] + [r];
      RenderAppend(records[1..], r);
    }
  }

  /**
    The exact effect of a write that lands `n` bytes: the file keeps its shape, or it can no
    longer be read because the line was cut inside a character or merged with a torn tail.
   */
  lemma WriteLands(file: seq<Byte>, s: Shape, r: Record, n: nat)
    requires HasShape(file, s) && n <= |Line(r)|
    ensures match Written(s, r, n)
      case Some(after) => HasShape(file + Line(r)[..n], after)
      case None => Read(file + Line(r)[..n]).Err?
  {
    hide Records.Print, Read, Decode, HasShape;
    var p := Records.Print(r);
    CutText(p + "\n", n);
    match CharsBefore(p + "\n", n)
    case None => CutInsideCharacter(file, s, r, n);
    case Some(j) =>
      if j == 0 {
        assert file + Line(r)[..n] == file;
      } else if j <= |p| {
        assert (p + "\n")[..j] == PieceText(Piece(r, j));
        PieceLands(file, s, Piece(r, j));
      } else {
        assert Line(r)[..n] == Line(r);
        if s.pieces == [] { LineLands(file, s, r); } else { MergeIsUnreadable(file, s, r); }
      }
  }

  lemma PieceLands(file: seq<Byte>, s: Shape, p: Piece)
    requires HasShape(file, s) && IsPiece(p)
    ensures HasShape(file + Encode(PieceText(p)), s.(pieces := s.pieces + [p]))
  {
    hide Records.Print, Joined, Encode, Render;
    JoinedAppend(s.pieces, p);
    EncodeAppend(Joined(s.pieces), PieceText(p));
  }

  lemma LineLands(file: seq<Byte>, s: Shape, r: Record)
    requires HasShape(file, s) && s.pieces == []
    ensures HasShape(file + Line(r), Shape(s.records + [r], []))
  {
    assert Encode(Joined([])) == [];
    hide Records.Print, Encode, Render;
    RenderAppend(s.records, r);
  }

  lemma CutInsideCharacter(file: seq<Byte>, s: Shape, r: Record, n: nat)
    requires HasShape(file, s) && n <= |Line(r)|
    requires Decode(Line(r)[..n]).None?
    ensures Read(file + Line(r)[..n]) == Err(NotUtf8)
  {
    ShapeDecodes(file, s);
    DecodeAppend(file, Line(r)[..n]);
  }

  lemma MergeIsUnreadable(file: seq<Byte>, s: Shape, r: Record)
    requires HasShape(file, s) && s.pieces != []
    ensures Read(file + Line(r)).Err?
  {
    hide Records.Print, ReadText, PrintAll, Joined, Decode, Encode, Render, Breaks;
    var text, line := PrintAll(s.records), Records.Print(r) + "\n";
    var k := 1 + Breaks(text);
    ShapeDecodes(file, s);
    RoundTrip(line);
    DecodeAppend(file, Line(r));
    assert text + Joined(s.pieces) + line == text + (Joined(s.pieces) + line);
    RenderIsText(s.records);
    PrintAllReads(s.records, 1);
    ReadOn(text, Joined(s.pieces) + line, 1);
    MergedLine(s.pieces, r, k);
  }

  /** A file that cannot be read stays so, whatever is appended to it. */
  lemma DamageStays(file: seq<Byte>, r: Record, n: nat)
    requires Read(file).Err? && n <= |Line(r)|
    ensures Read(file + Line(r)[..n]).Err?
  {
    var more := Line(r)[..n];
    PrintIsOneLine(r);
    assert Line(r)[0] == EncodeChar(Records.Print(r)[0])[0] == '{' as int;
    match Decode(file)
    case None => NotTextStays(file, more);
    case Some(text) =>
      DecodeAppend(file, more);
      if Decode(more).Some? { BadLineStays(text, Decode(more).value, 1); }
  }

  // ----- when an acknowledged record can be read ----------------------------------

  predicate EndsCleanly(file: seq<Byte>) { file == [] || file[|file| - 1] == 10 }

  lemma {:induction false} LastByte(t: string)
    requires t != ""
    ensures Encode(t) != []
    ensures Encode(t)[|Encode(t)| - 1] == 10 <==> t[|t| - 1] == '\n'
  {
    if |t| > 1 {
      LastByte(t[1..]);
    } else {
      assert Encode(t) == EncodeChar(t[0]) + Encode(t[1..]) == EncodeChar(t[0]);
    }
  }

  lemma CleanEnd(file: seq<Byte>, s: Shape)
    requires HasShape(file, s)
    ensures EndsCleanly(file) <==> s.pieces == []
  {
    hide Records.Print;
    RenderIsText(s.records);
    JoinedIsOneLine(s.pieces);
    if PrintAll(s.records) != "" { LastByte(PrintAll(s.records)); }
    if s.pieces != [] {
      JoinedFollows(s.pieces);
      LastByte(Joined(s.pieces));
    }
  }

  /**
    A record written and synced can be read back exactly when the file ended with a line
    feed before the write; then reading gives the earlier records and this one.
   */
  lemma AppendIsReadable(file: seq<Byte>, s: Shape, r: Record)
    requires HasShape(file, s)
    ensures Read(file + Line(r)).Ok? <==> EndsCleanly(file)
    ensures EndsCleanly(file) ==> Read(file + Line(r)) == Ok(s.records + [r])
  {
    hide Records.Print, Read, Render, Encode;
    CleanEnd(file, s);
    if s.pieces == [] {
      LineLands(file, s, r);
      ShapeReads(file + Line(r), Shape(s.records + [r], []));
      assert s.records + [r] + [] == s.records + [r];
    } else {
      MergeIsUnreadable(file, s, r);
    }
  }

  /**
    What a power cut during a write leaves of a file that ended cleanly: every earlier
    record, and the new one too when at most its line feed is missing. The one exception is
    a cut inside a character, after which the file is not text.
   */
  lemma TornWriteReads(file: seq<Byte>, s: Shape, r: Record, n: nat)
    requires HasShape(file, s) && EndsCleanly(file) && n <= |Line(r)|
    ensures Read(file + Line(r)[..n]) ==
      if CharsBefore(Records.Print(r) + "\n", n).None? then Err(NotUtf8)
      else if n < |Line(r)| - 1 then Ok(s.records)
      else Ok(s.records + [r])
  {
    hide Records.Print, Read, Render, Decode, HasShape;
    CleanEnd(file, s);
    var text := Records.Print(r) + "\n";
    WriteLands(file, s, r, n);
    CutText(text, n);
    match CharsBefore(text, n)
    case None => CutInsideCharacter(file, s, r, n);
    case Some(j) =>
      var after := Written(s, r, n).value;
      ShapeReads(file + Line(r)[..n], after);
      LineFeedLast(r, n);
      PrintIsOneLine(r);
      assert s.pieces + [Piece(r, j)] == [Piece(r, j)];
      assert s.records + [] == s.records && s.records + [r] + [] == s.records + [r];
  }

  lemma LineFeedLast(r: Record, n: nat)
    requires n <= |Line(r)| && CharsBefore(Records.Print(r) + "\n", n).Some?
    ensures var j := CharsBefore(Records.Print(r) + "\n", n).value;
      (j >= |Records.Print(r)| <==> n >= |Line(r)| - 1) && (j > |Records.Print(r)| <==> n == |Line(r)|)
  {
    hide Records.Print;
    var p := Records.Print(r);
    var j := CharsBefore(p + "\n", n).value;
    CutText(p + "\n", n);
    EncodeAppend(p, "\n");
    assert Encode("\n") == EncodeChar('\n') + Encode(""[..]);
    assert (p + "\n")[..|p|] == p;
    if j == |p| { assert (p + "\n")[..j] == p; }
    if j < |p| {
      assert p == p[..j] + p[j..];
      EncodeAppend(p[..j], p[j..]);
      assert (p + "\n")[..j] == p[..j];
      EncodeLength(p[j..]);
    }
  }
}
