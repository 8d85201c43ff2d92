/** The handful of Python `str` operations the core relies on, written out
    over `seq<char>`: whitespace stripping, case mapping, splitting, joining
    and substring search. */
module Strings {

  /** Python's `str.isspace()`: the characters `strip()` removes. */
  predicate IsSpace(c: char) {
    ('\t' <= c <= '\r') || ('\U{1c}' <= c <= '\U{1f}') || c == ' ' || c == '\U{85}' ||
    c == '\U{a0}' || c == '\U{1680}' || ('\U{2000}' <= c <= '\U{200a}') ||
    c == '\U{2028}' || c == '\U{2029}' || c == '\U{202f}' || c == '\U{205f}' || c == '\U{3000}'
  }

  predicate AllSpace(s: string) {
    forall i :: 0 <= i < |s| ==> IsSpace(s[i])
  }

  /** `s.lstrip()` */
  function LStrip(s: string): (r: string)
    ensures |r| <= |s| && r == s[|s| - |r|..]
    ensures AllSpace(s[..|s| - |r|])
    ensures r != [] ==> !IsSpace(r[0])
  {
    if s != [] && IsSpace(s[0]) then LStrip(s[1..]) else s
  }

  /** `s.rstrip()` */
  function RStrip(s: string): (r: string)
    ensures |r| <= |s| && r == s[..|r|]
    ensures AllSpace(s[|r|..])
    ensures r != [] ==> !IsSpace(r[|r| - 1])
  {
    if s != [] && IsSpace(s[|s| - 1]) then
      var r := RStrip(s[..|s| - 1]);
      assert s[|r|..] == s[..|s| - 1][|r|..] + [s[|s| - 1]];
      r
    else s
  }

  /** `s.strip()`: the longest infix that neither starts nor ends with whitespace. */
  function Strip(s: string): (r: string)
    ensures |r| <= |s|
    ensures r != [] ==> !IsSpace(r[0]) && !IsSpace(r[|r| - 1])
    ensures r == [] <==> AllSpace(s)
  {
    var l := LStrip(s);
    assert l == [] ==> AllSpace(s) by {
      if l == [] { assert s[..|s|] == s; }
    }
    assert AllSpace(s) ==> l == [];
    RStrip(l)
  }

  /** Neither end of `s` is whitespace. */
  predicate Trimmed(s: string) {
    s != [] ==> !IsSpace(s[0]) && !IsSpace(s[|s| - 1])
  }

  /** Python's `not s.strip()`: the string is empty or all whitespace. */
  predicate IsBlank(s: string) {
    Strip(s) == []
  }

  function LowerChar(c: char): char {
    if 'A' <= c <= 'Z' then (c as int + 32) as char else c
  }

  function UpperChar(c: char): char {
    if 'a' <= c <= 'z' then (c as int - 32) as char else c
  }

  /** `s.lower()`, restricted to ASCII letters. */
  function Lower(s: string): (r: string)
    ensures |r| == |s|
    ensures forall i :: 0 <= i < |s| ==> r[i] == LowerChar(s[i])
  {
    seq(|s|, i requires 0 <= i < |s| => LowerChar(s[i]))
  }

  /** `s.upper()`, restricted to ASCII letters. */
  function Upper(s: string): (r: string)
    ensures |r| == |s|
    ensures forall i :: 0 <= i < |s| ==> r[i] == UpperChar(s[i])
  {
    seq(|s|, i requires 0 <= i < |s| => UpperChar(s[i]))
  }

  /** `s.replace(a, b)` for single characters. */
  function ReplaceChar(s: string, a: char, b: char): (r: string)
    ensures |r| == |s|
    ensures forall i :: 0 <= i < |s| ==> r[i] == (if s[i] == a then b else s[i])
  {
    seq(|s|, i requires 0 <= i < |s| => if s[i] == a then b else s[i])
  }

  /** `sep.join(parts)` */
  function Join(sep: string, parts: seq<string>): string {
    if parts == [] then []
    else if |parts| == 1 then parts[0]
    else parts[0] + sep + Join(sep, parts[1..])
  }

  /** Index of the first occurrence of `c` in `s`, or `|s|`. */
  function IndexOf(s: string, c: char): (k: nat)
    ensures k <= |s|
    ensures c !in s[..k]
    ensures k < |s| ==> s[k] == c
    ensures k == |s| <==> c !in s
  {
    if s == [] then 0
    else if s[0] == c then 0
    else 1 + IndexOf(s[1..], c)
  }

  /** The first occurrence is unique: any position holding `c` with no `c`
      before it is the one `IndexOf` finds. */
  lemma IndexOfFirst(s: string, c: char, k: nat)
    requires k < |s| && s[k] == c && c !in s[..k]
    ensures IndexOf(s, c) == k
  {
  }

  lemma LowerPrefix(s: string, k: nat)
    requires k <= |s|
    ensures Lower(s)[..k] == Lower(s[..k])
  {
  }

  /** `s.split(c)` for a one-character separator: never empty, and no piece
      contains the separator. */
  function Split(s: string, c: char): (r: seq<string>)
    ensures |r| >= 1
    ensures forall i :: 0 <= i < |r| ==> c !in r[i]
    ensures Join([c], r) == s
    ensures |r| == 1 <==> c !in s
    ensures r[0] == s[..IndexOf(s, c)]
    ensures |r| > 1 ==> Join([c], r[1..]) == s[IndexOf(s, c) + 1..]
    decreases |s|
  {
    var k := IndexOf(s, c);
    if k == |s| then
      assert s[..k] == s;
      [s]
    else
      var rest := Split(s[k + 1..], c);
      assert s == s[..k] + [c] + s[k + 1..];
      [s[..k]] + rest
  }

  /** `s.splitlines()` for text whose only line break is `\n`. */
  function SplitLines(s: string): (r: seq<string>)
    ensures s == [] ==> r == []
    ensures forall i :: 0 <= i < |r| ==> '\n' !in r[i]
  {
    if s == [] then []
    else
      var parts := Split(s, '\n');
      if parts[|parts| - 1] == [] then parts[..|parts| - 1] else parts
  }

  predicate IsPrefix(p: string, s: string) {
    |p| <= |s| && s[..|p|] == p
  }

  /** `sub in s` */
  predicate Contains(s: string, sub: string)
    decreases |s|
  {
    IsPrefix(sub, s) || (s != [] && Contains(s[1..], sub))
  }

  /** An occurrence at any offset is an occurrence. */
  lemma {:induction false} ContainsAt(s: string, k: nat, sub: string)
    requires k <= |s| && IsPrefix(sub, s[k..])
    ensures Contains(s, sub)
    decreases k
  {
    if k > 0 {
      assert s[1..][k - 1..] == s[k..];
      ContainsAt(s[1..], k - 1, sub);
    } else {
      assert s[k..] == s;
    }
  }

  /** Where an occurrence starts. */
  lemma {:induction false} ContainsOffset(s: string, sub: string) returns (k: nat)
    requires Contains(s, sub)
    ensures k <= |s| && IsPrefix(sub, s[k..])
    decreases |s|
  {
    if IsPrefix(sub, s) {
      k := 0;
    } else {
      var k' := ContainsOffset(s[1..], sub);
      k := k' + 1;
      assert s[1..][k'..] == s[k..];
    }
  }

  /** An occurrence in a suffix is an occurrence. */
  lemma ContainsSuffix(a: string, b: string, sub: string)
    requires Contains(b, sub)
    ensures Contains(a + b, sub)
  {
    var k := ContainsOffset(b, sub);
    assert (a + b)[|a| + k..] == b[k..];
    ContainsAt(a + b, |a| + k, sub);
  }

  /** A prefix of an occurrence is an occurrence. */
  lemma ContainsPrefixOf(s: string, m: string, sub: string)
    requires Contains(s, m) && IsPrefix(sub, m)
    ensures Contains(s, sub)
  {
    var k := ContainsOffset(s, m);
    assert s[k..][..|sub|] == m[..|sub|];
    ContainsAt(s, k, sub);
  }

  /** Every part occurs in the joined string. */
  lemma {:induction false} JoinContains(sep: string, parts: seq<string>, i: nat)
    requires i < |parts|
    ensures Contains(Join(sep, parts), parts[i])
    decreases i
  {
    var j := Join(sep, parts);
    if i == 0 {
      if |parts| > 1 {
        assert j == parts[0] + (sep + Join(sep, parts[1..]));
        assert j[..|parts[0]|] == parts[0];
      }
      ContainsAt(j, 0, parts[0]);
    } else {
      var rest := Join(sep, parts[1..]);
      JoinContains(sep, parts[1..], i - 1);
      var k := ContainsOffset(rest, parts[i]);
      var off := |parts[0] + sep|;
      assert j == parts[0] + sep + rest;
      assert j[off..] == rest;
      assert j[off..][k..] == rest[k..];
      ContainsAt(j, off + k, parts[i]);
    }
  }
}
