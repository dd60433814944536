/**
  The JSON text of one journal line: the compact printer and the strict parser the
  record format relies on (RFC 8259; section 7 for string escaping).

  A number is kept as its token, so that printing it is the identity.
 */
module Json {
  import opened Wrappers

  datatype List<T> = Nil | Cons(head: T, tail: List<T>)

  type Number = s: string | IsNumber(s) witness NumberWitness()

  datatype Value =
    | Null
    | Bool(b: bool)
    | Num(token: Number)
    | Str(s: string)
    | Arr(items: List<Value>)
    | Obj(members: List<Member>)

  datatype Member = Member(key: string, value: Value)

  /** A parse either fails or yields a value and the text after it. */
  datatype Parsed<+T> = Fail | Got(value: T, rest: string)

  // ----- characters ---------------------------------------------------------

  predicate IsSpace(c: char) { c == ' ' || c == '\t' || c == '\n' || c == '\r' }

  predicate IsDigit(c: char) { '0' <= c <= '9' }

  predicate IsNumberChar(c: char) {
    IsDigit(c) || c == '-' || c == '+' || c == '.' || c == 'e' || c == 'E'
  }

  function SkipSpace(s: string): (r: string)
    ensures |r| <= |s|
    ensures r != "" ==> !IsSpace(r[0])
  {
    if s != "" && IsSpace(s[0]) then SkipSpace(s[1..]) else s
  }

  // ----- numbers ------------------------------------------------------------

  /** How many leading characters of `s` are digits. */
  function DigitRun(s: string): (n: nat)
    ensures n <= |s|
    ensures forall i :: 0 <= i < n ==> IsDigit(s[i])
    ensures n < |s| ==> !IsDigit(s[n])
  {
    if s != "" && IsDigit(s[0]) then 1 + DigitRun(s[1..]) else 0
  }

  /** The length of the integer part: one zero, or digits not starting with zero. */
  function IntegerLength(s: string): (n: Option<nat>)
    ensures n.Some? ==> 0 < n.value <= |s|
    ensures n.Some? ==> forall i :: 0 <= i < n.value ==> IsNumberChar(s[i])
  {
    var minus := if s != "" && s[0] == '-' then 1 else 0;
    var run := DigitRun(s[minus..]);
    if run == 0 || (s[minus] == '0' && run > 1) then None else Some(minus + run)
  }

  /** The length of the fraction: absent is zero, a dot without digits is an error. */
  function FractionLength(s: string): (n: Option<nat>)
    ensures n.Some? ==> n.value <= |s|
    ensures n.Some? ==> forall i :: 0 <= i < n.value ==> IsNumberChar(s[i])
  {
    if s == "" || s[0] != '.' then Some(0)
    else
      var run := DigitRun(s[1..]);
      if run == 0 then None else Some(1 + run)
  }

  /** The length of an exponent's letter and its optional sign. */
  function SignLength(s: string): (n: nat)
    requires s != ""
    ensures n <= |s|
    ensures forall i :: 1 <= i < n ==> IsNumberChar(s[i])
  {
    if |s| > 1 && (s[1] == '+' || s[1] == '-') then 2 else 1
  }

  /** The length of the exponent: absent is zero, `e` without digits is an error. */
  function ExponentLength(s: string): (n: Option<nat>)
    ensures n.Some? ==> n.value <= |s|
    ensures n.Some? ==> forall i :: 0 <= i < n.value ==> IsNumberChar(s[i])
  {
    if s == "" || (s[0] != 'e' && s[0] != 'E') then Some(0)
    else
      var sign := SignLength(s);
      var run := DigitRun(s[sign..]);
      if run == 0 then None else Some(sign + run)
  }

  /** The length of the number token `s` starts with, taken greedily. */
  function NumberLength(s: string): (n: Option<nat>)
    ensures n.Some? ==> 0 < n.value <= |s|
    ensures n.Some? ==> forall i :: 0 <= i < n.value ==> IsNumberChar(s[i])
  {
    match IntegerLength(s)
    case None => None
    case Some(i) =>
      match FractionLength(s[i..])
      case None => None
      case Some(f) =>
        match ExponentLength(s[i + f..])
        case None => None
        case Some(e) =>
          assert forall k :: 0 <= k < i + f + e ==>
            IsNumberChar(if k < i then s[k] else if k < i + f then s[i..][k - i] else s[i + f..][k - i - f]);
          Some(i + f + e)
  }

  predicate IsNumber(s: string) { NumberLength(s) == Some(|s|) }

  function NumberWitness(): string { "0" }

  /** Text that cannot lengthen a number token standing before it. */
  predicate EndsToken(z: string) { z == "" || !IsNumberChar(z[0]) }

  lemma DigitRunExtends(s: string, z: string)
    requires EndsToken(z)
    ensures DigitRun(s + z) == DigitRun(s)
  {
    if s == "" {
      assert s + z == z;
    } else {
      assert (s + z)[1..] == s[1..] + z;
      DigitRunExtends(s[1..], z);
    }
  }

  lemma IntegerExtends(s: string, z: string)
    requires EndsToken(z) && IntegerLength(s).Some?
    ensures IntegerLength(s + z) == IntegerLength(s)
  {
    var minus := if s[0] == '-' then 1 else 0;
    assert (s + z)[minus..] == s[minus..] + z;
    DigitRunExtends(s[minus..], z);
  }

  lemma FractionExtends(s: string, z: string)
    requires EndsToken(z)
    ensures FractionLength(s + z) == FractionLength(s)
  {
    if s == "" {
      assert s + z == z;
    } else {
      assert (s + z)[1..] == s[1..] + z;
      DigitRunExtends(s[1..], z);
    }
  }

  lemma ExponentExtends(s: string, z: string)
    requires EndsToken(z)
    ensures ExponentLength(s + z) == ExponentLength(s)
  {
    if s == "" {
      assert s + z == z;
    } else {
      var sign := SignLength(s);
      assert SignLength(s + z) == sign;
      hide SignLength, IsNumberChar;
      assert (s + z)[sign..] == s[sign..] + z;
      DigitRunExtends(s[sign..], z);
    }
  }

  lemma NumberExtends(s: string, z: string)
    requires IsNumber(s) && EndsToken(z)
    ensures NumberLength(s + z) == Some(|s|)
  {
    hide IntegerLength, FractionLength, ExponentLength;
    var i := IntegerLength(s).value;
    IntegerExtends(s, z);
    assert (s + z)[i..] == s[i..] + z;
    FractionExtends(s[i..], z);
    var f := FractionLength(s[i..]).value;
    assert (s + z)[i + f..] == s[i + f..] + z;
    ExponentExtends(s[i + f..], z);
  }

  /** A token has only number characters and begins with a sign or a digit. */
  lemma NumberStarts(s: string)
    requires IsNumber(s)
    ensures s != "" && (s[0] == '-' || IsDigit(s[0]))
    ensures forall i :: 0 <= i < |s| ==> IsNumberChar(s[i])
  {
    assert s[0..] == s;
  }

  function ParseNumber(s: string): (p: Parsed<Value>)
    ensures p.Got? ==> |p.rest| < |s|
  {
    match NumberLength(s)
    case None => Fail
    case Some(n) => if IsNumber(s[..n]) then Got(Num(s[..n]), s[n..]) else Fail
  }

  lemma NumberRoundTrip(s: Number, z: string)
    requires EndsToken(z)
    ensures ParseNumber(s + z) == Got(Num(s), z)
  {
    NumberExtends(s, z);
    assert (s + z)[..|s|] == s && (s + z)[|s|..] == z;
  }

  // ----- strings ------------------------------------------------------------

  const HEX := "0123456789abcdef"

  /** One character as it stands between the quotes (section 7 of RFC 8259). */
  function Escape(c: char): (e: string)
    ensures e != ""
    ensures forall i :: 0 <= i < |e| ==> e[i] >= ' '
  {
    if c == '"' then "\\\""
    else if c == '\\' then "\\\\"
    else if c == 8 as char then "\\b"
    else if c == '\t' then "\\t"
    else if c == '\n' then "\\n"
    else if c == 12 as char then "\\f"
    else if c == '\r' then "\\r"
    else if c < ' ' then "\\u00" + [HEX[c as int / 16], HEX[c as int % 16]]
    else [c]
  }

  /** The escaped characters of `s` and the closing quote. */
  function PrintChars(s: string): (p: string)
    ensures forall i :: 0 <= i < |p| ==> p[i] >= ' '
    ensures p != ""
  {
    if s == "" then "\"" else Escape(s[0]) + PrintChars(s[1..])
  }

  /** The escapes are the shortest there are: two characters for seven of them, six for other control characters. */
  lemma EscapesAreShort(c: char)
    ensures |Escape(c)| ==
      if c == '"' || c == '\\' || c == '\t' || c == '\n' || c == '\r' || c as int == 8 || c as int == 12 then 2
      else if c < ' ' then 6
      else 1
  {
  }

  function PrintString(s: string): string { "\"" + PrintChars(s) }

  function HexDigit(c: char): Option<nat> {
    if '0' <= c <= '9' then Some(c as int - '0' as int)
    else if 'a' <= c <= 'f' then Some(c as int - 'a' as int + 10)
    else if 'A' <= c <= 'F' then Some(c as int - 'A' as int + 10)
    else None
  }

  /** The code unit written by the four hex digits `s` starts with. */
  function Hex4(s: string): (h: Option<nat>)
    ensures h.Some? ==> |s| >= 4 && h.value < 0x10000
  {
    if |s| < 4 then None
    else match (HexDigit(s[0]), HexDigit(s[1]), HexDigit(s[2]), HexDigit(s[3]))
      case (Some(a), Some(b), Some(c), Some(d)) => Some(((a * 16 + b) * 16 + c) * 16 + d)
      case _ => None
  }

  /** What stands after a backslash: one of eight letters, or `u` and a code point. */
  function ParseEscape(s: string): (p: Parsed<char>)
    ensures p.Got? ==> |p.rest| < |s|
  {
    if s == "" then Fail
    else match s[0]
      case '"' => Got('"', s[1..])
      case '\\' => Got('\\', s[1..])
      case '/' => Got('/', s[1..])
      case 'b' => Got(8 as char, s[1..])
      case 'f' => Got(12 as char, s[1..])
      case 'n' => Got('\n', s[1..])
      case 'r' => Got('\r', s[1..])
      case 't' => Got('\t', s[1..])
      case 'u' => ParseCodePoint(s[1..])
      case _ => Fail
  }

  /** Four hex digits, or a surrogate pair written as two escapes. */
  function ParseCodePoint(s: string): (p: Parsed<char>)
    ensures p.Got? ==> |p.rest| < |s|
  {
    match Hex4(s)
    case None => Fail
    case Some(high) =>
      if high < 0xD800 || 0xE000 <= high then Got(high as char, s[4..])
      else if 0xDC00 <= high || |s| < 10 || s[4] != '\\' || s[5] != 'u' then Fail
      else match Hex4(s[6..])
        case None => Fail
        case Some(low) =>
          if 0xDC00 <= low < 0xE000
          then Got((0x10000 + (high - 0xD800) * 0x400 + (low - 0xDC00)) as char, s[10..])
          else Fail
  }

  /** The characters up to the closing quote, which is consumed. */
  function ParseChars(s: string): (p: Parsed<string>)
    ensures p.Got? ==> |p.rest| < |s|
    decreases |s|
  {
    if s == "" then Fail
    else if s[0] == '"' then Got("", s[1..])
    else if s[0] < ' ' then Fail
    else if s[0] == '\\' then
      match ParseEscape(s[1..])
      case Fail => Fail
      case Got(c, rest) => Prepend(c, ParseChars(rest))
    else Prepend(s[0], ParseChars(s[1..]))
  }

  function Prepend(c: char, p: Parsed<string>): Parsed<string> {
    match p
    case Fail => Fail
    case Got(cs, rest) => Got([c] + cs, rest)
  }

  function ParseString(s: string): (p: Parsed<string>)
    ensures p.Got? ==> |p.rest| < |s|
  {
    if s == "" || s[0] != '"' then Fail else ParseChars(s[1..])
  }

  /** Reading one escaped character gives it back and leaves the rest alone. */
  lemma EscapeParses(c: char, w: string)
    ensures ParseChars(Escape(c) + w) == Prepend(c, ParseChars(w))
  {
    hide Hex4;
    var s := Escape(c) + w;
    if |Escape(c)| == 1 {
      assert s[1..] == w;
    } else if |Escape(c)| == 2 {
      assert s[1..][1..] == w;
    } else {
      var h := s[1..][1..];
      assert h == Escape(c)[2..] + w;
      assert h[4..] == w;
      ControlCharParses(c, h);
    }
  }

  lemma ControlCharParses(c: char, h: string)
    requires c < ' ' && |h| >= 4
    requires h[..4] == ['0', '0', HEX[c as int / 16], HEX[c as int % 16]]
    ensures Hex4(h) == Some(c as int)
  {
  }

  lemma {:induction false} CharsRoundTrip(s: string, w: string)
    ensures ParseChars(PrintChars(s) + w) == Got(s, w)
  {
    if s == "" {
      assert (PrintChars(s) + w)[1..] == w;
    } else {
      assert PrintChars(s) + w == Escape(s[0]) + (PrintChars(s[1..]) + w);
      EscapeParses(s[0], PrintChars(s[1..]) + w);
      hide Escape, ParseCodePoint, ParseEscape;
      CharsRoundTrip(s[1..], w);
      assert [s[0]] + s[1..] == s;
    }
  }

  lemma StringRoundTrip(s: string, w: string)
    ensures ParseString(PrintString(s) + w) == Got(s, w)
  {
    hide PrintChars, ParseChars;
    assert (PrintString(s) + w)[1..] == PrintChars(s) + w;
    CharsRoundTrip(s, w);
  }

  // ----- values -------------------------------------------------------------

  /** The compact text of a value: no space, no line break. */
  function Print(v: Value): string {
    match v
    case Null => "null"
    case Bool(b) => if b then "true" else "false"
    case Num(token) => token
    case Str(s) => PrintString(s)
    case Arr(items) => "[" + PrintItems(items)
    case Obj(members) => "{" + PrintMembers(members)
  }

  /** The items of an array and its closing bracket. */
  function PrintItems(items: List<Value>): string {
    match items
    case Nil => "]"
    case Cons(v, rest) => Print(v) + (if rest.Nil? then "]" else "," + PrintItems(rest))
  }

  function PrintMembers(members: List<Member>): string {
    match members
    case Nil => "}"
    case Cons(m, rest) =>
      PrintString(m.key) + ":" + Print(m.value) + (if rest.Nil? then "}" else "," + PrintMembers(rest))
  }

  function ParseValue(input: string): (p: Parsed<Value>)
    ensures p.Got? ==> |p.rest| < |input|
    decreases |input|, 0
  {
    var s := SkipSpace(input);
    if s == "" then Fail
    else if s[0] == '"' then ParseText(s)
    else if s[0] == '[' then ParseArray(s[1..])
    else if s[0] == '{' then ParseObject(s[1..])
    else if s[0] == '-' || IsDigit(s[0]) then ParseNumber(s)
    else ParseWord(s)
  }

  function ParseText(s: string): (p: Parsed<Value>)
    ensures p.Got? ==> |p.rest| < |s|
  {
    match ParseString(s)
    case Fail => Fail
    case Got(cs, rest) => Got(Str(cs), rest)
  }

  function ParseWord(s: string): (p: Parsed<Value>)
    ensures p.Got? ==> |p.rest| < |s|
  {
    if "null" <= s then Got(Null, s[4..])
    else if "true" <= s then Got(Bool(true), s[4..])
    else if "false" <= s then Got(Bool(false), s[5..])
    else Fail
  }

  /** What follows an opening bracket. */
  function ParseArray(s: string): (p: Parsed<Value>)
    ensures p.Got? ==> |p.rest| < |s|
    decreases |s|, 2
  {
    var t := SkipSpace(s);
    if t != "" && t[0] == ']' then Got(Arr(Nil), t[1..])
    else match ParseItems(t)
      case Fail => Fail
      case Got(items, rest) => Got(Arr(items), rest)
  }

  function ParseObject(s: string): (p: Parsed<Value>)
    ensures p.Got? ==> |p.rest| < |s|
    decreases |s|, 2
  {
    var t := SkipSpace(s);
    if t != "" && t[0] == '}' then Got(Obj(Nil), t[1..])
    else match ParseMembers(t)
      case Fail => Fail
      case Got(members, rest) => Got(Obj(members), rest)
  }

  /** One or more items and the closing bracket; a trailing comma is refused. */
  function ParseItems(s: string): (p: Parsed<List<Value>>)
    ensures p.Got? ==> |p.rest| < |s|
    decreases |s|, 1
  {
    match ParseValue(s)
    case Fail => Fail
    case Got(v, after) =>
      var t := SkipSpace(after);
      if t == "" then Fail
      else if t[0] == ']' then Got(Cons(v, Nil), t[1..])
      else if t[0] != ',' then Fail
      else match ParseItems(t[1..])
        case Fail => Fail
        case Got(items, rest) => Got(Cons(v, items), rest)
  }

  function ParseMembers(s: string): (p: Parsed<List<Member>>)
    ensures p.Got? ==> |p.rest| < |s|
    decreases |s|, 1
  {
    match ParseString(SkipSpace(s))
    case Fail => Fail
    case Got(key, afterKey) =>
      var colon := SkipSpace(afterKey);
      if colon == "" || colon[0] != ':' then Fail
      else match ParseValue(colon[1..])
        case Fail => Fail
        case Got(v, after) =>
          var t := SkipSpace(after);
          if t == "" then Fail
          else if t[0] == '}' then Got(Cons(Member(key, v), Nil), t[1..])
          else if t[0] != ',' then Fail
          else match ParseMembers(t[1..])
            case Fail => Fail
            case Got(members, rest) => Got(Cons(Member(key, v), members), rest)
  }

  /** A whole document: one value and nothing but space after it. */
  function Parse(s: string): Option<Value> {
    match ParseValue(s)
    case Got(v, rest) => if SkipSpace(rest) == "" then Some(v) else None
    case Fail => None
  }

  /** Printed text has no control character, so in particular no line break. */
  lemma {:induction false} PrintIsOneLine(v: Value)
    ensures Print(v) != "" && !IsSpace(Print(v)[0])
    ensures forall i :: 0 <= i < |Print(v)| ==> Print(v)[i] >= ' '
  {
    hide NumberLength;
    match v
    case Null =>
    case Bool(_) =>
    case Num(token) => NumberStarts(token);
    case Str(_) =>
    case Arr(items) => ItemsAreOneLine(items);
    case Obj(members) => MembersAreOneLine(members);
  }

  lemma {:induction false} ItemsAreOneLine(items: List<Value>)
    ensures forall i :: 0 <= i < |PrintItems(items)| ==> PrintItems(items)[i] >= ' '
  {
    hide Print, IsNumber;
    match items
    case Nil =>
    case Cons(v, rest) => PrintIsOneLine(v); ItemsAreOneLine(rest);
  }

  lemma {:induction false} MembersAreOneLine(members: List<Member>)
    ensures forall i :: 0 <= i < |PrintMembers(members)| ==> PrintMembers(members)[i] >= ' '
  {
    hide Print, IsNumber, PrintChars;
    match members
    case Nil =>
    case Cons(m, rest) => PrintIsOneLine(m.value); MembersAreOneLine(rest);
  }

  /** Parsing undoes printing, whatever follows that is not part of a number. */
  lemma {:induction false} ValueRoundTrip(v: Value, w: string)
    requires EndsToken(w)
    ensures ParseValue(Print(v) + w) == Got(v, w)
  {
    hide NumberLength, IsNumber, ParseNumber, ParseText, ParseWord, ParseArray, ParseObject, PrintString, PrintItems,
         PrintMembers;
    PrintIsOneLine(v);
    var s := Print(v) + w;
    assert SkipSpace(s) == s;
    match v
    case Null => WordRoundTrip(v, w);
    case Bool(b) => WordRoundTrip(v, w);
    case Num(token) =>
      NumberStarts(token);
      NumberRoundTrip(token, w);
    case Str(cs) =>
      StringRoundTrip(cs, w);
      TextRoundTrip(cs, w);
    case Arr(items) =>
      assert s[1..] == PrintItems(items) + w;
      ArrayRoundTrip(items, w);
    case Obj(members) =>
      assert s[1..] == PrintMembers(members) + w;
      ObjectRoundTrip(members, w);
  }

  lemma WordRoundTrip(v: Value, w: string)
    requires v.Null? || v.Bool?
    ensures ParseWord(Print(v) + w) == Got(v, w)
  {
    var s := Print(v) + w;
    var word := if v.Null? then "null" else if v.b then "true" else "false";
    assert s == word + w && s[0] == word[0] && s[|word|..] == w && word <= s;
  }

  lemma TextRoundTrip(cs: string, w: string)
    ensures ParseText(PrintString(cs) + w) == Got(Str(cs), w)
    ensures PrintString(cs) != "" && PrintString(cs)[0] == '"'
  {
    StringRoundTrip(cs, w);
  }

  lemma {:induction false} ArrayRoundTrip(items: List<Value>, w: string)
    ensures ParseArray(PrintItems(items) + w) == Got(Arr(items), w)
    decreases items, 1
  {
    if items.Nil? {
      assert ("]" + w)[1..] == w;
    } else {
      ItemsRoundTrip(items, w);
    }
  }

  lemma {:induction false} ObjectRoundTrip(members: List<Member>, w: string)
    ensures ParseObject(PrintMembers(members) + w) == Got(Obj(members), w)
    decreases members, 1
  {
    if members.Nil? {
      assert ("}" + w)[1..] == w;
    } else {
      hide ParseMembers, ParseValue;
      MembersRoundTrip(members, w);
    }
  }

  lemma {:induction false} ItemsRoundTrip(items: List<Value>, w: string)
    requires items.Cons?
    ensures ParseItems(PrintItems(items) + w) == Got(items, w)
    ensures SkipSpace(PrintItems(items) + w) == PrintItems(items) + w
    ensures PrintItems(items) != "" && PrintItems(items)[0] != ']'
    decreases items, 0
  {
    hide ParseValue, Print, IsNumber;
    var Cons(v, rest) := items;
    var more := if rest.Nil? then "]" else "," + PrintItems(rest);
    assert PrintItems(items) + w == Print(v) + (more + w);
    ValueRoundTrip(v, more + w);
    PrintIsOneLine(v);
    ValueIsNotABracket(v);
    assert (more + w)[1..] == (if rest.Nil? then w else PrintItems(rest) + w);
    assert SkipSpace(more + w) == more + w;
    if rest.Cons? { ItemsRoundTrip(rest, w); }
  }

  lemma ValueIsNotABracket(v: Value)
    ensures Print(v) != "" && Print(v)[0] != ']'
  {
    if v.Num? { NumberStarts(v.token); }
  }

  /** A value inside an object, and what the parser meets after it. */
  lemma {:induction false} MembersRoundTrip(members: List<Member>, w: string)
    requires members.Cons?
    ensures ParseMembers(PrintMembers(members) + w) == Got(members, w)
    ensures PrintMembers(members) != "" && PrintMembers(members)[0] == '"'
    decreases members, 0
  {
    hide ParseValue, ParseString, Print, PrintString, IsNumber;
    var Cons(m, rest) := members;
    var more := if rest.Nil? then "}" else "," + PrintMembers(rest);
    var tail := ":" + (Print(m.value) + (more + w));
    var all := PrintMembers(members) + w;
    assert all == PrintString(m.key) + tail;
    TextRoundTrip(m.key, tail);
    StringRoundTrip(m.key, tail);
    assert SkipSpace(all) == all && SkipSpace(tail) == tail;
    assert tail[1..] == Print(m.value) + (more + w);
    ValueRoundTrip(m.value, more + w);
    assert SkipSpace(more + w) == more + w;
    assert (more + w)[1..] == (if rest.Nil? then w else PrintMembers(rest) + w);
    if rest.Cons? { MembersRoundTrip(rest, w); }
  }

  lemma ParseUndoesPrint(v: Value)
    ensures Parse(Print(v)) == Some(v)
  {
    ValueRoundTrip(v, "");
    assert Print(v) + "" == Print(v);
  }

  // ----- text cut short -----------------------------------------------------

  /** Text at which no array, object or document can go on. */
  predicate Stuck(s: string) {
    s == "" || (!IsSpace(s[0]) && s[0] != ',' && s[0] != ':' && s[0] != ']' && s[0] != '}')
  }

  /**
    What may stand after a cut: nothing, or text that begins like an object and that,
    read as a value or as the inside of a string, ends where nothing can go on.
   */
  predicate Follows(z: string) {
    z == "" || (z[0] == '{' && (ParseValue(z).Got? ==> Stuck(ParseValue(z).rest))
                            && (ParseChars(z).Got? ==> Stuck(ParseChars(z).rest)))
  }

  lemma FollowsStart(z: string)
    requires Follows(z)
    ensures z == "" || z[0] == '{'
    ensures ParseValue(z).Got? ==> Stuck(ParseValue(z).rest)
  {
  }

  lemma NoChars(z: string)
    requires Follows(z)
    ensures ParseChars(z).Got? ==> Stuck(ParseChars(z).rest)
  {
    if z == "" { assert ParseChars(z) == Fail; }
  }

  lemma {:induction false} CutChars(s: string, t: string, z: string)
    requires t <= PrintChars(s) && t != PrintChars(s) && Follows(z)
    ensures ParseChars(t + z).Got? ==> Stuck(ParseChars(t + z).rest)
  {
    hide Follows, ParseChars, Escape, Stuck;
    if t == "" {
      assert t + z == z;
      NoChars(z);
    } else if s != "" {
      var e := Escape(s[0]);
      var p := PrintChars(s[1..]);
      assert PrintChars(s) == e + p;
      if |t| >= |e| {
        var u := t[|e|..];
        assert t == e + u;
        assert p == (e + p)[|e|..] && u <= p && u != p;
        assert t + z == e + (u + z);
        EscapeParses(s[0], u + z);
        CutChars(s[1..], u, z);
      } else {
        assert t <= e && t != e;
        FollowsStart(z);
        CutEscape(s[0], t, z);
      }
    }
  }

  /** A cut inside an escape sequence is never a character. */
  lemma CutEscape(c: char, t: string, z: string)
    requires t != "" && t <= Escape(c) && t != Escape(c) && (z != "" ==> z[0] == '{')
    ensures ParseChars(t + z) == Fail
  {
    var s := t + z;
    assert s[0] == '\\';
    if |t| == 1 {
      assert s[1..] == z;
    } else {
      assert s[1..][0] == 'u' && s[1..][1..] == t[2..] + z && |t| < 6;
      CutHex(t[2..], z);
    }
  }

  /** Fewer than four digits before a brace or the end are no code point. */
  lemma CutHex(t: string, z: string)
    requires |t| < 4 && (z != "" ==> z[0] == '{')
    ensures Hex4(t + z) == None
  {
    if |t + z| >= 4 { assert (t + z)[|t|] == '{'; }
  }

  lemma {:induction false} CutValue(v: Value, t: string, z: string)
    requires t <= Print(v) && t != Print(v) && Follows(z)
    ensures ParseValue(t + z).Got? ==> Stuck(ParseValue(t + z).rest)
    ensures t != "" && v.Obj? ==> ParseValue(t + z) == Fail
    decreases v, 0
  {
    hide IsNumber, ParseNumber, ParseArray, ParseObject, PrintString, PrintItems, PrintMembers, PrintChars, ParseChars;
    PrintIsOneLine(v);
    if t == "" {
      assert t + z == z;
    } else {
      var s := t + z;
      assert SkipSpace(s) == s;
      match v
      case Null => CutWord("null", t, z);
      case Bool(b) => CutWord(Print(v), t, z);
      case Num(token) => CutNumber(token, t, z);
      case Str(cs) => CutString(cs, t, z);
      case Arr(items) =>
        assert s[1..] == t[1..] + z;
        CutArray(items, t[1..], z);
      case Obj(members) =>
        assert s[1..] == t[1..] + z;
        CutObject(members, t[1..], z);
    }
  }

  lemma CutString(cs: string, t: string, z: string)
    requires t <= PrintString(cs) && t != PrintString(cs) && Follows(z)
    ensures ParseString(t + z).Got? ==> Stuck(ParseString(t + z).rest)
    ensures t != "" ==> t[0] == '"'
  {
    hide ParseChars, PrintChars, ParseValue;
    if t == "" {
      assert t + z == z;
    } else {
      assert (t + z)[1..] == t[1..] + z;
      assert t[1..] <= PrintChars(cs) && t[1..] != PrintChars(cs);
      CutChars(cs, t[1..], z);
    }
  }

  lemma {:induction false} CutArray(items: List<Value>, t: string, z: string)
    requires t <= PrintItems(items) && t != PrintItems(items) && Follows(z)
    ensures ParseArray(t + z) == Fail
    decreases items, 2
  {
    hide ParseItems, ParseValue, PrintItems;
    CutItems(items, t, z);
  }

  lemma {:induction false} CutObject(members: List<Member>, t: string, z: string)
    requires t <= PrintMembers(members) && t != PrintMembers(members) && Follows(z)
    ensures ParseObject(t + z) == Fail
    decreases members, 2
  {
    hide ParseMembers, ParseValue, PrintMembers;
    CutMembers(members, t, z);
  }

  lemma CutWord(word: string, t: string, z: string)
    requires word == "null" || word == "true" || word == "false"
    requires t != "" && t <= word && t != word && Follows(z)
    ensures ParseValue(t + z) == Fail
  {
    var s := t + z;
    assert SkipSpace(s) == s;
    assert |s| > |t| ==> s[|t|] == '{';
  }

  lemma CutNumber(token: Number, t: string, z: string)
    requires t != "" && t <= token && Follows(z)
    ensures ParseValue(t + z).Got? ==> Stuck(ParseValue(t + z).rest)
  {
    hide IsNumber, NumberLength;
    NumberStarts(token);
    var s := t + z;
    assert SkipSpace(s) == s;
    assert forall i :: 0 <= i < |t| ==> IsNumberChar(s[i]);
    if z != "" { assert s[|t|] == '{'; }
  }

  lemma {:induction false} CutItems(items: List<Value>, t: string, z: string)
    requires t <= PrintItems(items) && t != PrintItems(items) && Follows(z)
    ensures ParseItems(t + z) == Fail
    ensures SkipSpace(t + z) == t + z && (t + z != "" ==> (t + z)[0] != ']')
    decreases items, 1
  {
    hide IsNumber, ParseValue, Print, Follows;
    FollowsStart(z);
    if t == "" {
      assert t + z == z;
    } else {
      var Cons(v, rest) := items;
      PrintIsOneLine(v);
      ValueIsNotABracket(v);
      if |t| < |Print(v)| {
        CutValue(v, t, z);
      } else {
        var u := t[|Print(v)|..];
        assert t + z == Print(v) + (u + z);
        var more := if rest.Nil? then "]" else "," + PrintItems(rest);
        assert PrintItems(items) == Print(v) + more;
        assert u <= more && u != more;
        ValueRoundTrip(v, u + z);
        if u == "" {
          assert u + z == z;
        } else {
          assert (u + z)[1..] == u[1..] + z;
          CutItems(rest, u[1..], z);
        }
      }
    }
  }

  lemma {:induction false} CutMembers(members: List<Member>, t: string, z: string)
    requires t <= PrintMembers(members) && t != PrintMembers(members) && Follows(z)
    ensures ParseMembers(t + z) == Fail
    ensures SkipSpace(t + z) == t + z && (t + z != "" ==> (t + z)[0] != '}')
    decreases members, 1
  {
    hide IsNumber, ParseValue, Print, ParseString, PrintString;
    if t == "" {
      assert t + z == z;
      NoString(z);
    } else {
      var Cons(m, rest) := members;
      var key := PrintString(m.key);
      var more := AfterMember(m, rest);
      assert PrintMembers(members) == key + more;
      TextRoundTrip(m.key, "");
      if |t| < |key| {
        assert t <= key && t != key;
        CutString(m.key, t, z);
      } else {
        var u := t[|key|..];
        assert t + z == key + (u + z);
        assert u <= more && u != more;
        StringRoundTrip(m.key, u + z);
        assert SkipSpace(t + z) == t + z;
        CutMember(members, u, z);
      }
    }
  }

  lemma NoString(z: string)
    requires Follows(z)
    ensures ParseString(z) == Fail && Stuck(z)
  {
  }

  /** The text of an object after its first key. */
  function AfterMember(m: Member, rest: List<Member>): string {
    ":" + (Print(m.value) + (if rest.Nil? then "}" else "," + PrintMembers(rest)))
  }

  lemma {:induction false} CutMember(members: List<Member>, t: string, z: string)
    requires members.Cons? && Follows(z)
    requires t <= AfterMember(members.head, members.tail) && t != AfterMember(members.head, members.tail)
    ensures Stuck(t + z) || NoMore((t + z)[1..])
    decreases members, 0, 1
  {
    hide IsNumber, ParseValue, Print, ParseMembers, NoMore;
    if t == "" {
      NoString(z);
      assert t + z == z;
    } else {
      assert t == ":" + t[1..] && (t + z)[1..] == t[1..] + z;
      CutMemberValue(members, t[1..], z);
    }
  }

  /** Text where a member's value stands, after which the object cannot be completed. */
  predicate NoMore(s: string) {
    match ParseValue(s)
    case Fail => true
    case Got(_, after) => Stuck(after) || (after != "" && after[0] == ',' && ParseMembers(after[1..]) == Fail)
  }

  lemma {:induction false} CutMemberValue(members: List<Member>, s: string, z: string)
    requires members.Cons? && Follows(z)
    requires ":" + s <= AfterMember(members.head, members.tail) && ":" + s != AfterMember(members.head, members.tail)
    ensures NoMore(s + z)
    decreases members, 0, 0
  {
    hide IsNumber, ParseValue, Print, ParseMembers, PrintMembers;
    var Cons(m, rest) := members;
    var v := Print(m.value);
    var more := if rest.Nil? then "}" else "," + PrintMembers(rest);
    assert AfterMember(m, rest)[1..] == v + more && (":" + s)[1..] == s;
    if |s| < |v| {
      CutValue(m.value, s, z);
    } else {
      var u := s[|v|..];
      assert s + z == v + (u + z);
      assert u <= more && u != more;
      ValueRoundTrip(m.value, u + z);
      if u == "" {
        assert u + z == z;
      } else {
        assert (u + z)[1..] == u[1..] + z;
        CutMembers(rest, u[1..], z);
      }
    }
  }

  /** A printed object cut anywhere inside, whatever follows the cut, is not a document. */
  lemma CutObjectIsNoDocument(v: Value, t: string, z: string)
    requires v.Obj? && t != "" && t <= Print(v) && t != Print(v) && Follows(z)
    ensures Parse(t + z) == None
  {
    CutValue(v, t, z);
  }

  /** A piece of a printed object, or all of it, can itself stand after a cut. */
  lemma PieceFollows(v: Value, t: string, z: string)
    requires v.Obj? && v.members.Cons? && v.members.head.key != "" && Escape(v.members.head.key[0]) == "k"
    requires t != "" && t <= Print(v) && Follows(z)
    ensures Follows(t + z)
  {
    hide ParseValue, PrintMembers, IsNumber, Escape;
    var s := t + z;
    assert s[0] == '{';
    if t == Print(v) {
      ValueRoundTrip(v, z);
    } else {
      CutValue(v, t, z);
    }
    PrintStart(v.members);
    assert s[1..] == t[1..] + z;
    assert ParseChars(s) == Prepend('{', ParseChars(s[1..]));
    if |t| == 1 {
      assert s[1..] == z;
    } else {
      assert t[1..] <= PrintMembers(v.members);
      assert s[1..][0] == '"';
      assert |t| == 2 ==> s[1..][1..] == z;
      assert |t| > 2 ==> s[1..][1..][0] == 'k';
    }
  }

  lemma PrintStart(ms: List<Member>)
    requires ms.Cons? && ms.head.key != "" && Escape(ms.head.key[0]) == "k"
    ensures |PrintMembers(ms)| > 1
    ensures PrintMembers(ms)[0] == '"' && PrintMembers(ms)[1] == 'k'
  {
  }
}
