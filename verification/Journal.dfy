/** The journal on disk: appending, reading, marking and compacting it. */
module Journal {
  import opened Wrappers
  import opened Records
  import opened RecordFile
  import opened Compaction
  import opened Text
  import Utf8

  datatype JournalError = OverCap | Io | Unreadable(error: ReadError)

  /** The lines of a text, as the library splits them: a final line feed starts no line. */
  function LinesOf(text: string): seq<string>
    decreases |text|
  {
    if text == "" then []
    else
      var n := LineEnd(text);
      if n == |text| then [text] else [WithoutReturn(text[..n])] + LinesOf(text[n + 1..])
  }

  /** Reading line by line; only the last one of a text without a final line feed may fail. */
  function ReadLines(lines: seq<string>, number: nat, endsCleanly: bool): Log {
    if lines == [] then Ok([])
    else
      var rest := ReadLines(lines[1..], number + 1, endsCleanly);
      if IsBlank(lines[0]) then rest
      else match Parse(lines[0])
        case Some(r) => Before([r], rest)
        case None => if !endsCleanly && |lines| == 1 then rest else Err(BadLine(number))
  }

  /** Splitting into lines and reading them in order is reading the text. */
  lemma {:induction false} LinesRead(text: string, k: nat)
    ensures ReadLines(LinesOf(text), k, EndsLine(text)) == ReadText(text, k)
    decreases |text|
  {
    hide Parse, ReadLines, ReadText, WithoutReturn, ReadLine, Then;
    var n := LineEnd(text);
    if text == "" {
      NoLine(k);
    } else if n == |text| {
      LastLine(text, k);
    } else {
      var line, rest := WithoutReturn(text[..n]), text[n + 1..];
      assert LinesOf(text) == [line] + LinesOf(rest);
      hide LinesOf;
      ReadStep(text, k);
      LinesRead(rest, k + 1);
      RestEnds(text, n);
      OneLine(line, LinesOf(rest), k, EndsLine(text));
    }
  }

  lemma NoLine(k: nat)
    ensures ReadLines([], k, true) == ReadText("", k)
  {
    EmptyReads(k);
  }

  /** What follows a line ends as the whole text does, and is not empty if that is unfinished. */
  lemma RestEnds(text: string, n: nat)
    requires n == LineEnd(text) < |text|
    ensures EndsLine(text[n + 1..]) == EndsLine(text)
    ensures !EndsLine(text) ==> LinesOf(text[n + 1..]) != []
  {
    var rest := text[n + 1..];
    if rest != "" { assert rest[|rest| - 1] == text[|text| - 1]; }
  }

  lemma LastLine(text: string, k: nat)
    requires text != "" && LineEnd(text) == |text|
    ensures !EndsLine(text) && ReadLines([text], k, false) == ReadText(text, k)
  {
    hide Parse;
    assert [text][1..] == [] && ReadLines([], k + 1, false) == Ok([]);
    assert forall r: Record :: [r] + [] == [r];
  }

  lemma OneLine(line: string, rest: seq<string>, k: nat, endsCleanly: bool)
    requires endsCleanly || rest != []
    ensures ReadLines([line] + rest, k, endsCleanly) == Then(ReadLine(line, k), ReadLines(rest, k + 1, endsCleanly))
  {
    assert ([line] + rest)[1..] == rest;
    BeforeNothing(ReadLines(rest, k + 1, endsCleanly));
  }

  /** A line that may not be skipped: it is not blank, is no record, and is not the unfinished last one. */
  predicate IsBad(lines: seq<string>, i: nat, endsCleanly: bool)
    requires i < |lines|
  {
    !IsBlank(lines[i]) && Parse(lines[i]).None? && (endsCleanly || i + 1 < |lines|)
  }

  /** The records of the lines that hold one, in order. */
  function Parsing(lines: seq<string>): seq<Record> {
    if lines == [] then []
    else (if IsBlank(lines[0]) || Parse(lines[0]).None? then [] else [Parse(lines[0]).value]) + Parsing(lines[1..])
  }

  /** Reading gives every record of the file in order, or else the number of its first bad line. */
  lemma {:induction false} ReadExactly(lines: seq<string>, number: nat, endsCleanly: bool)
    ensures var log := ReadLines(lines, number, endsCleanly);
      && (log.Ok? <==> forall i :: 0 <= i < |lines| ==> !IsBad(lines, i, endsCleanly))
      && (log.Ok? ==> log.value == Parsing(lines))
      && (log.Err? ==>
            && log.error.BadLine? && number <= log.error.number < number + |lines|
            && IsBad(lines, log.error.number - number, endsCleanly)
            && forall i :: 0 <= i < log.error.number - number ==> !IsBad(lines, i, endsCleanly))
  {
    hide Parse, IsBlank;
    if lines != [] {
      var rest := lines[1..];
      ReadExactly(rest, number + 1, endsCleanly);
      assert forall i :: 0 < i < |lines| ==> (IsBad(lines, i, endsCleanly) <==> IsBad(rest, i - 1, endsCleanly));
      assert forall i :: 0 <= i < |rest| ==> (IsBad(rest, i, endsCleanly) <==> IsBad(lines, i + 1, endsCleanly));
      assert IsBad(lines, 0, endsCleanly) <==>
        !IsBlank(lines[0]) && Parse(lines[0]).None? && (endsCleanly || |lines| > 1);
      hide ReadLines, IsBad;
      ReadOne(lines, number, endsCleanly);
    }
  }

  /** So a file is read exactly if it is UTF-8 and has no bad line, and then every record of it is read in order. */
  lemma FileReadExactly(file: seq<Utf8.Byte>)
    ensures var text := Utf8.Decode(file);
      if text.None? then Read(file) == Err(NotUtf8)
      else
        var lines, clean := LinesOf(text.value), EndsLine(text.value);
        && (Read(file).Ok? <==> forall i :: 0 <= i < |lines| ==> !IsBad(lines, i, clean))
        && (Read(file).Ok? ==> Read(file).value == Parsing(lines))
        && (Read(file).Err? ==>
              && Read(file).error.BadLine? && 1 <= Read(file).error.number <= |lines|
              && IsBad(lines, Read(file).error.number - 1, clean)
              && forall i :: 0 <= i < Read(file).error.number - 1 ==> !IsBad(lines, i, clean))
  {
    hide Utf8.Decode, ReadText, ReadLines, LinesOf, IsBad, Parsing, EndsLine;
    var text := Utf8.Decode(file);
    if text.Some? {
      LinesRead(text.value, 1);
      ReadExactly(LinesOf(text.value), 1, EndsLine(text.value));
    }
  }

  lemma ReadOne(lines: seq<string>, number: nat, endsCleanly: bool)
    requires lines != []
    ensures var rest := ReadLines(lines[1..], number + 1, endsCleanly);
      ReadLines(lines, number, endsCleanly) ==
        if IsBad(lines, 0, endsCleanly) then Err(BadLine(number))
        else if IsBlank(lines[0]) || Parse(lines[0]).None? then rest
        else Before([Parse(lines[0]).value], rest)
  {
    hide Parse, IsBlank;
  }

  lemma {:induction false} AsRecordsAppend(a: seq<Entry>, e: Entry)
    ensures AsRecords(a + [e]) == AsRecords(a) + [Accepted(e)]
  {
    if a == [] {
      assert a + [e] == [e] && [e][1..] == [];
    } else {
      assert (a + [e])[1..] == a[1..] + [e];
      AsRecordsAppend(a[1..], e);
    }
  }

  lemma {:induction false} RepostAppend(a: seq<Letter>, l: Letter)
    ensures Repost(a + [l]) == Repost(a) + [Accepted(l.entry), Dead(l.entry.id, l.reason, l.at)]
  {
    if a == [] {
      assert a + [l] == [l] && [l][1..] == [];
    } else {
      assert (a + [l])[1..] == a[1..] + [l];
      RepostAppend(a[1..], l);
    }
  }

  class Journal {
    /** What the file holds; a missing file holds nothing. */
    var file: seq<Utf8.Byte>
    const maxBytes: nat

    constructor (maxBytes: nat)
      ensures this.maxBytes == maxBytes && file == []
    {
      this.maxBytes := maxBytes;
      file := [];
    }

    /** Appends one record and syncs it, or refuses it over the cap. */
    method Append(record: Record, disk: Disk) returns (r: Result<(), JournalError>)
      modifies this
      ensures file == AfterAppend(old(file), record, maxBytes, disk)
      ensures r.Ok? <==> Acknowledged(old(file), record, maxBytes, disk)
      ensures r.Err? ==> r.error == if Fits(old(file), record, maxBytes) then Io else OverCap
    {
      var line := Line(record);
      if |file| + |line| > maxBytes { return Err(OverCap); }
      match disk {
        case Sound =>
          assert line[..|line|] == line;
          file := file + line;
          r := Ok(());
        case Refused =>
          assert file + line[..0] == file;
          r := Err(Io);
        case Cut(n) =>
          file := file + line[..if n < |line| then n else |line|];
          r := Err(Io);
      }
    }

    method Accept(entry: Entry, disk: Disk) returns (r: Result<(), JournalError>)
      modifies this
      ensures file == AfterAppend(old(file), Accepted(entry), maxBytes, disk)
      ensures r.Ok? <==> Acknowledged(old(file), Accepted(entry), maxBytes, disk)
    {
      r := Append(Accepted(entry), disk);
    }

    method MarkDone(id: string, disk: Disk) returns (r: Result<(), JournalError>)
      modifies this
      ensures file == AfterAppend(old(file), Done(id), maxBytes, disk)
      ensures r.Ok? <==> Acknowledged(old(file), Done(id), maxBytes, disk)
    {
      r := Append(Done(id), disk);
    }

    method MarkDead(id: string, reason: string, at: string, disk: Disk) returns (r: Result<(), JournalError>)
      modifies this
      ensures file == AfterAppend(old(file), Dead(id, reason, at), maxBytes, disk)
      ensures r.Ok? <==> Acknowledged(old(file), Dead(id, reason, at), maxBytes, disk)
    {
      r := Append(Dead(id, reason, at), disk);
    }

    /** Reads every intact record, skipping a torn last line and reporting any other bad one. */
    method ReadRecords() returns (log: Log)
      ensures log == Read(file)
    {
      var decoded := Utf8.Decode(file);
      if decoded.None? { return Err(NotUtf8); }
      var contents := decoded.value;
      var endsCleanly := contents == "" || contents[|contents| - 1] == '\n';
      var lines := LinesOf(contents);
      var records: seq<Record> := [];
      var i := 0;
      LinesRead(contents, 1);
      BeforeNothing(ReadText(contents, 1));
      assert lines[0..] == lines;
      while i < |lines|
        invariant 0 <= i <= |lines|
        invariant ReadText(contents, 1) == Before(records, ReadLines(lines[i..], i + 1, endsCleanly))
      {
        var line := lines[i];
        assert lines[i..][1..] == lines[i + 1..] && lines[i..][0] == line;
        if !IsBlank(line) {
          var parsed := Parse(line);
          if parsed.Some? {
            BeforeTwice(records, [parsed.value], ReadLines(lines[i + 1..], i + 2, endsCleanly));
            records := records + [parsed.value];
          } else if endsCleanly || i + 1 != |lines| {
            return Err(BadLine(i + 1));
          }
        }
        i := i + 1;
      }
      assert records + [] == records;
      log := Ok(records);
    }

    /** The entries accepted but not yet delivered, in acceptance order. */
    method PendingEntries() returns (r: Result<seq<Entry>, ReadError>)
      ensures match Read(file)
        case Ok(records) => r == Ok(Pending(records))
        case Err(e) => r == Err(e)
    {
      var log := ReadRecords();
      match log {
        case Ok(records) => r := Ok(Pending(records));
        case Err(e) => r := Err(e);
      }
    }

    /** The entries set aside, each with its reason. */
    method DeadEntries() returns (r: Result<seq<Letter>, ReadError>)
      ensures match Read(file)
        case Ok(records) => r == Ok(DeadLetters(records))
        case Err(e) => r == Err(e)
    {
      var log := ReadRecords();
      match log {
        case Ok(records) => r := Ok(DeadLetters(records));
        case Err(e) => r := Err(e);
      }
    }

    /** The records a compaction writes: pending entries, then letters with their markers. */
    static method Keep(entries: seq<Entry>, letters: seq<Letter>) returns (kept: seq<Record>)
      ensures kept == AsRecords(entries) + Repost(letters)
    {
      kept := [];
      var i := 0;
      assert entries[..0] == [];
      while i < |entries|
        invariant 0 <= i <= |entries|
        invariant kept == AsRecords(entries[..i])
      {
        assert entries[..i + 1] == entries[..i] + [entries[i]];
        AsRecordsAppend(entries[..i], entries[i]);
        kept := kept + [Accepted(entries[i])];
        i := i + 1;
      }
      assert entries[..i] == entries && letters[..0] == [] && kept + [] == kept;
      i := 0;
      while i < |letters|
        invariant 0 <= i <= |letters|
        invariant kept == AsRecords(entries) + Repost(letters[..i])
      {
        var l := letters[i];
        assert letters[..i + 1] == letters[..i] + [l];
        RepostAppend(letters[..i], l);
        kept := kept + [Accepted(l.entry)];
        kept := kept + [Dead(l.entry.id, l.reason, l.at)];
        i := i + 1;
      }
      assert letters[..i] == letters;
    }

    static method Body(kept: seq<Record>) returns (body: seq<Utf8.Byte>)
      ensures body == Render(kept)
    {
      hide Line;
      body := [];
      var i := 0;
      assert kept[..0] == [];
      while i < |kept|
        invariant 0 <= i <= |kept|
        invariant body == Render(kept[..i])
      {
        assert kept[..i + 1] == kept[..i] + [kept[i]];
        RenderAppend(kept[..i], kept[i]);
        body := body + Line(kept[i]);
        i := i + 1;
      }
      assert kept[..i] == kept;
    }

    /**
      Rewrites the file with what is pending or set aside. `replaced` is false when any step
      before the rename failed; the old file is then intact.
     */
    method Compact(replaced: bool) returns (r: Result<nat, JournalError>)
      modifies this
      ensures file == AfterCompact(old(file), replaced)
      ensures r.Ok? <==> replaced && Read(old(file)).Ok?
      ensures r.Ok? ==> r.value == |Compacted(Read(old(file)).value)|
    {
      var log := ReadRecords();
      if log.Err? { return Err(Unreadable(log.error)); }
      var kept := Keep(Pending(log.value), DeadLetters(log.value));
      var body := Body(kept);
      if !replaced { return Err(Io); }
      file := body;
      r := Ok(|kept|);
    }
  }
}
