/** The few string operations several components share. */
module Text {

  /** The characters `trim` removes: Unicode's White_Space. */
  predicate IsWhitespace(c: char) {
    var n := c as int;
    9 <= n <= 13 || n == 0x20 || n == 0x85 || n == 0xA0 || n == 0x1680 || 0x2000 <= n <= 0x200A
    || n == 0x2028 || n == 0x2029 || n == 0x202F || n == 0x205F || n == 0x3000
  }

  predicate IsBlank(s: string) { forall i :: 0 <= i < |s| ==> IsWhitespace(s[i]) }

  function TrimStart(s: string): (r: string)
    ensures r != "" ==> !IsWhitespace(r[0])
    ensures r == "" <==> IsBlank(s)
  {
    if s != "" && IsWhitespace(s[0]) then
      assert forall i :: 0 < i < |s| ==> s[i] == s[1..][i - 1];
      TrimStart(s[1..])
    else s
  }

  function TrimEnd(s: string): (r: string)
    ensures r <= s
    ensures s != "" && !IsWhitespace(s[0]) ==> r != ""
  {
    if s != "" && IsWhitespace(s[|s| - 1]) then TrimEnd(s[..|s| - 1]) else s
  }

  /** The text without the white space around it. */
  function Trim(s: string): (r: string)
    ensures r == "" <==> IsBlank(s)
  {
    TrimEnd(TrimStart(s))
  }

  function Lower(c: char): char {
    if 'A' <= c <= 'Z' then (c as int + 32) as char else c
  }

  function LowerCase(s: string): (r: string)
    ensures |r| == |s|
  {
    if s == "" then "" else [Lower(s[0])] + LowerCase(s[1..])
  }

  // ----- what trimming means ----------------------------------------------------------

  /** Text without white space at either end. */
  predicate IsTrimmed(s: string) { s != "" ==> !IsWhitespace(s[0]) && !IsWhitespace(s[|s| - 1]) }

  lemma {:induction false} TrimStartCuts(s: string) returns (i: nat)
    ensures i <= |s| && TrimStart(s) == s[i..] && IsBlank(s[..i])
  {
    i := 0;
    if s != "" && IsWhitespace(s[0]) {
      var k := TrimStartCuts(s[1..]);
      i := k + 1;
      assert s[1..][k..] == s[i..] && forall j :: 0 < j < i ==> s[..i][j] == s[1..][..k][j - 1];
    }
  }

  lemma {:induction false} TrimEndCuts(s: string)
    ensures TrimEnd(s) == s[..|TrimEnd(s)|] && IsBlank(s[|TrimEnd(s)|..])
    ensures TrimEnd(s) != "" ==> !IsWhitespace(TrimEnd(s)[|TrimEnd(s)| - 1])
  {
    if s != "" && IsWhitespace(s[|s| - 1]) {
      var init := s[..|s| - 1];
      TrimEndCuts(init);
      var k := |TrimEnd(init)|;
      assert init[..k] == s[..k] && forall j :: 0 <= j < |s| - 1 - k ==> s[k..][j] == init[k..][j];
    }
  }

  /** Trimming removes white space at both ends, all of it, and nothing else. */
  lemma TrimIsCore(s: string) returns (i: nat, j: nat)
    ensures i <= j <= |s| && Trim(s) == s[i..j] && IsBlank(s[..i]) && IsBlank(s[j..]) && IsTrimmed(Trim(s))
  {
    i := TrimStartCuts(s);
    var t := s[i..];
    TrimEndCuts(t);
    j := i + |TrimEnd(t)|;
    assert t[..|TrimEnd(t)|] == s[i..j] && t[|TrimEnd(t)|..] == s[j..];
    if Trim(s) != "" { assert Trim(s)[0] == t[0]; }
  }

  /** There is one way to cut a text into white space, trimmed text and white space. */
  lemma OneCore(a: string, core: string, b: string, i: nat, j: nat)
    requires IsBlank(a) && IsBlank(b) && IsTrimmed(core)
    requires var s := a + core + b; i <= j <= |s| && IsBlank(s[..i]) && IsBlank(s[j..]) && IsTrimmed(s[i..j])
    ensures (a + core + b)[i..j] == core
  {
    var s := a + core + b;
    assert forall k :: 0 <= k < |a| ==> s[k] == a[k];
    assert forall k :: 0 <= k < |core| ==> s[|a| + k] == core[k];
    assert forall k :: 0 <= k < |b| ==> s[|a| + |core| + k] == b[k];
    assert forall k :: 0 <= k < i ==> s[k] == s[..i][k];
    assert forall k :: j <= k < |s| ==> s[k] == s[j..][k - j];
    if core == "" {
      assert forall k :: 0 <= k < |s| ==> IsWhitespace(s[k]);
    } else {
      assert !IsWhitespace(s[|a|]) && !IsWhitespace(s[|a| + |core| - 1]);
      assert i <= |a| && |a| + |core| <= j;
      assert !IsWhitespace(s[i..j][0]) && s[i..j][0] == s[i];
      assert !IsWhitespace(s[i..j][j - i - 1]) && s[i..j][j - i - 1] == s[j - 1];
      assert i == |a| && j == |a| + |core|;
    }
  }

  /** White space around a text makes no difference. */
  lemma TrimIgnoresAround(a: string, s: string, b: string)
    requires IsBlank(a) && IsBlank(b)
    ensures Trim(a + s + b) == Trim(s)
  {
    var i, j := TrimIsCore(s);
    var core := s[i..j];
    var before, after := a + s[..i], s[j..] + b;
    assert a + s + b == before + core + after;
    var k, l := TrimIsCore(a + s + b);
    OneCore(before, core, after, k, l);
  }

  lemma {:induction false} LowerCaseAt(s: string, i: nat)
    requires i < |s|
    ensures LowerCase(s)[i] == if 'A' <= s[i] <= 'Z' then (s[i] as int - 'A' as int + 'a' as int) as char else s[i]
  {
    if i > 0 { LowerCaseAt(s[1..], i - 1); }
  }
}
