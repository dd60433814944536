/**
  UTF-8, as a file's bytes are turned into text: strict decoding refuses a whole file for
  one sequence that is cut short, overlong or a surrogate (section 3 of RFC 3629).
 */
module Utf8 {
  import opened Wrappers

  type Byte = b: int | 0 <= b < 0x100

  function EncodeChar(c: char): (b: seq<Byte>)
    ensures 1 <= |b| <= 4
  {
    var n := c as int;
    if n < 0x80 then [n]
    else if n < 0x800 then [0xC0 + n / 0x40, 0x80 + n % 0x40]
    else if n < 0x10000 then [0xE0 + n / 0x1000, 0x80 + n / 0x40 % 0x40, 0x80 + n % 0x40]
    else [0xF0 + n / 0x40000, 0x80 + n / 0x1000 % 0x40, 0x80 + n / 0x40 % 0x40, 0x80 + n % 0x40]
  }

  function Encode(s: string): seq<Byte> {
    if s == "" then [] else EncodeChar(s[0]) + Encode(s[1..])
  }

  predicate Continues(b: seq<Byte>, i: nat) { i < |b| && 0x80 <= b[i] < 0xC0 }

  /** The payload bits of a byte whose marker bits are `mark`. */
  function Digits(b: Byte, mark: Byte): int { (b as int) - (mark as int) }

  /** The character `b` starts with and how many bytes it takes. */
  function DecodeChar(b: seq<Byte>): (r: Option<(char, nat)>)
    requires b != []
    ensures r.Some? ==> 1 <= r.value.1 <= |b|
  {
    if b[0] < 0x80 then Some((b[0] as char, 1))
    else if b[0] < 0xC2 || 0xF5 <= b[0] || !Continues(b, 1) then None
    else if b[0] < 0xE0 then Some(((Digits(b[0], 0xC0) * 0x40 + Digits(b[1], 0x80)) as char, 2))
    else if !Continues(b, 2) then None
    else if b[0] < 0xF0 then
      var n := Digits(b[0], 0xE0) * 0x1000 + Digits(b[1], 0x80) * 0x40 + Digits(b[2], 0x80);
      if n < 0x800 || 0xD800 <= n < 0xE000 then None else Some((n as char, 3))
    else if !Continues(b, 3) then None
    else
      var n := Digits(b[0], 0xF0) * 0x40000 + Digits(b[1], 0x80) * 0x1000
        + Digits(b[2], 0x80) * 0x40 + Digits(b[3], 0x80);
      if n < 0x10000 || 0x110000 <= n then None else Some((n as char, 4))
  }

  function Decode(b: seq<Byte>): Option<string> {
    if b == [] then Some("")
    else match DecodeChar(b)
      case None => None
      case Some((c, n)) =>
        match Decode(b[n..])
        case None => None
        case Some(s) => Some([c] + s)
  }

  lemma SplitTwo(n: nat)
    ensures n == (n / 0x40) * 0x40 + n % 0x40
  {
  }

  lemma SplitThree(n: nat)
    ensures n == (n / 0x1000) * 0x1000 + (n / 0x40 % 0x40) * 0x40 + n % 0x40
  {
    assert n / 0x1000 == n / 0x40 / 0x40;
  }

  lemma SplitFour(n: nat)
    ensures n == (n / 0x40000) * 0x40000 + (n / 0x1000 % 0x40) * 0x1000 + (n / 0x40 % 0x40) * 0x40 + n % 0x40
  {
    SplitThree(n);
    assert n / 0x40000 == n / 0x1000 / 0x40;
  }

  lemma CharRoundTrip(c: char, w: seq<Byte>)
    ensures DecodeChar(EncodeChar(c) + w) == Some((c, |EncodeChar(c)|))
  {
    var n := c as int;
    var b := EncodeChar(c) + w;
    if n < 0x80 {
    } else if n < 0x800 {
      SplitTwo(n);
    } else if n < 0x10000 {
      SplitThree(n);
      assert Continues(b, 1) && Continues(b, 2);
      assert Digits(b[0], 0xE0) * 0x1000 + Digits(b[1], 0x80) * 0x40 + Digits(b[2], 0x80) == n;
    } else {
      SplitFour(n);
      assert Continues(b, 1) && Continues(b, 2) && Continues(b, 3);
      assert Digits(b[0], 0xF0) * 0x40000 + Digits(b[1], 0x80) * 0x1000 + Digits(b[2], 0x80) * 0x40
          + Digits(b[3], 0x80) == n;
    }
  }

  lemma DecodeCharExtends(b: seq<Byte>, more: seq<Byte>)
    requires b != [] && DecodeChar(b).Some?
    ensures DecodeChar(b + more) == DecodeChar(b)
  {
  }

  /** Bytes already decoded are decoded the same whatever is appended. */
  lemma {:induction false} DecodeAppend(b: seq<Byte>, more: seq<Byte>)
    requires Decode(b).Some?
    ensures Decode(b + more) ==
      match Decode(more) { case None => None case Some(s) => Some(Decode(b).value + s) }
  {
    hide DecodeChar;
    if b == [] {
      assert b + more == more;
      assert Decode(more).Some? ==> "" + Decode(more).value == Decode(more).value;
    } else {
      var (c, n) := DecodeChar(b).value;
      DecodeCharExtends(b, more);
      assert (b + more)[n..] == b[n..] + more;
      DecodeAppend(b[n..], more);
      if Decode(more).Some? {
        var s, t := Decode(b[n..]).value, Decode(more).value;
        assert ([c] + s) + t == [c] + (s + t);
      }
    }
  }

  /** Bytes that are not text do not become text when an ASCII character follows. */
  lemma {:induction false} NotTextStays(b: seq<Byte>, more: seq<Byte>)
    requires Decode(b).None? && (more != [] ==> more[0] < 0x80)
    ensures Decode(b + more).None?
  {
    assert (b + more)[..|b|] == b;
    if DecodeChar(b).None? {
      assert more != [] ==> (b + more)[|b|] < 0x80;
    } else {
      var n := DecodeChar(b).value.1;
      DecodeCharExtends(b, more);
      assert (b + more)[n..] == b[n..] + more;
      NotTextStays(b[n..], more);
    }
  }

  lemma {:induction false} RoundTrip(s: string)
    ensures Decode(Encode(s)) == Some(s)
  {
    if s != "" {
      CharRoundTrip(s[0], Encode(s[1..]));
      assert Encode(s)[|EncodeChar(s[0])|..] == Encode(s[1..]);
      RoundTrip(s[1..]);
      assert [s[0]] + s[1..] == s;
    }
  }

  lemma {:induction false} EncodeAppend(s: string, t: string)
    ensures Encode(s + t) == Encode(s) + Encode(t)
  {
    if s == "" {
      assert s + t == t;
    } else {
      assert (s + t)[1..] == s[1..] + t;
      EncodeAppend(s[1..], t);
    }
  }

  lemma {:induction false} EncodeLength(s: string)
    ensures |Encode(s)| >= |s|
  {
    if s != "" { EncodeLength(s[1..]); }
  }

  /** How many characters end at byte `k` of the encoded text, if `k` is between two. */
  function CharsBefore(s: string, k: nat): (j: Option<nat>)
    requires k <= |Encode(s)|
    ensures j.Some? ==> j.value <= |s|
  {
    if k == 0 then Some(0)
    else if k < |EncodeChar(s[0])| then None
    else match CharsBefore(s[1..], k - |EncodeChar(s[0])|)
      case None => None
      case Some(j) => Some(j + 1)
  }

  /** A cut between two characters leaves the text before it; a cut inside one leaves no text. */
  lemma {:induction false} CutText(s: string, k: nat)
    requires k <= |Encode(s)|
    ensures match CharsBefore(s, k)
      case Some(j) => Encode(s)[..k] == Encode(s[..j]) && (j == |s| <==> k == |Encode(s)|) && (j == 0 <==> k == 0)
      case None => Decode(Encode(s)[..k]).None?
  {
    if k == 0 {
    } else {
      var e := EncodeChar(s[0]);
      if k < |e| {
        CutChar(s[0], k);
        assert Encode(s)[..k] == e[..k];
      } else {
        CutText(s[1..], k - |e|);
        assert Encode(s)[..k] == e + Encode(s[1..])[..k - |e|];
        match CharsBefore(s[1..], k - |e|)
        case Some(j) =>
          assert s[..j + 1] == [s[0]] + s[1..][..j];
          assert s[..j + 1][1..] == s[1..][..j];
        case None =>
          CharRoundTrip(s[0], Encode(s[1..])[..k - |e|]);
          assert (e + Encode(s[1..])[..k - |e|])[|e|..] == Encode(s[1..])[..k - |e|];
      }
    }
  }

  lemma CutChar(c: char, k: nat)
    requires 0 < k < |EncodeChar(c)|
    ensures Decode(EncodeChar(c)[..k]).None?
  {
    var b := EncodeChar(c)[..k];
    assert b[0] == EncodeChar(c)[0];
  }
}
