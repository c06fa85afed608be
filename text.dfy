/**
  The string operations the Python sources lean on: `str.lower()` and `in` on
  strings (substring test), restricted to ASCII case mapping, and `str.strip()`.
*/
module Text {

  /** `c.lower()` for ASCII letters; every other character is unchanged. */
  function Lower(c: char): char {
    if 'A' <= c <= 'Z' then (c as int + 32) as char else c
  }

  /** `s.lower()`, character by character. */
  function LowerString(s: string): (r: string)
    ensures |r| == |s|
    ensures forall i :: 0 <= i < |s| ==> r[i] == Lower(s[i])
  {
    if s == [] then [] else [Lower(s[0])] + LowerString(s[1..])
  }

  /** `t` occurs in `s` starting at position `i`. */
  predicate OccursAt(t: string, s: string, i: int) {
    0 <= i <= |s| - |t| && s[i..i + |t|] == t
  }

  /** `t in s`: `t` occurs in `s` at some position. */
  ghost predicate IsSubstring(t: string, s: string) {
    exists i :: OccursAt(t, s, i)
  }

  /** Whether `t` is a prefix of `s`. */
  predicate IsPrefix(t: string, s: string) {
    |t| <= |s| && s[..|t|] == t
  }

  /** The search Python's `in` performs: try every starting position from the left. */
  function FindFrom(t: string, s: string, from: nat): (r: Search)
    requires from <= |s| + 1
    ensures r.Found? ==> from <= r.at && OccursAt(t, s, r.at)
    ensures r.Found? ==> forall j :: from <= j < r.at ==> !OccursAt(t, s, j)
    ensures r.Missing? ==> forall j :: from <= j ==> !OccursAt(t, s, j)
    decreases |s| + 1 - from
  {
    if from + |t| > |s| then Missing
    else if s[from..from + |t|] == t then Found(from)
    else FindFrom(t, s, from + 1)
  }

  datatype Search = Found(at: nat) | Missing

  /** `s.find(t) >= 0` agrees with the substring predicate. */
  lemma FindIsSubstring(t: string, s: string)
    ensures FindFrom(t, s, 0).Found? <==> IsSubstring(t, s)
  {
    if IsSubstring(t, s) {
      var i :| OccursAt(t, s, i);
      assert FindFrom(t, s, 0).Found?;
    }
  }

  /** `t in s` as Python computes it. */
  function Contains(t: string, s: string): (r: bool)
    ensures r <==> IsSubstring(t, s)
  {
    FindIsSubstring(t, s);
    FindFrom(t, s, 0).Found?
  }

  /** Django's `icontains`: a case-insensitive substring test. */
  predicate IContains(s: string, t: string) {
    Contains(LowerString(t), LowerString(s))
  }

  /** The empty string occurs in every string. */
  lemma EmptyIsSubstring(s: string)
    ensures IsSubstring("", s)
  {
    assert OccursAt("", s, 0);
  }

  /** Python's `str.isspace()` in the ASCII range: tab to carriage return, the four separators, space. */
  predicate IsSpace(c: char) {
    9 <= c as int <= 13 || 28 <= c as int <= 32
  }

  function StripLeft(s: string): (r: string)
    ensures |r| <= |s| && r == s[|s| - |r|..]
    ensures r != [] ==> !IsSpace(r[0])
    ensures forall i :: 0 <= i < |s| - |r| ==> IsSpace(s[i])
  {
    if s != [] && IsSpace(s[0]) then StripLeft(s[1..]) else s
  }

  function StripRight(s: string): (r: string)
    ensures |r| <= |s| && r == s[..|r|]
    ensures r != [] ==> !IsSpace(r[|r| - 1])
    ensures forall i :: |r| <= i < |s| ==> IsSpace(s[i])
  {
    if s != [] && IsSpace(s[|s| - 1]) then StripRight(s[..|s| - 1]) else s
  }

  /** `s.strip()`: leading and trailing whitespace removed. */
  function Strip(s: string): string {
    StripRight(StripLeft(s))
  }

  lemma {:induction false} BlankStripsToEmpty(s: string)
    requires forall i :: 0 <= i < |s| ==> IsSpace(s[i])
    ensures StripLeft(s) == []
  {
    if s != [] {
      BlankStripsToEmpty(s[1..]);
    }
  }

  /** `s.strip()` is empty exactly when `s` is all whitespace. */
  lemma StripEmptyIffBlank(s: string)
    ensures Strip(s) == [] <==> forall i :: 0 <= i < |s| ==> IsSpace(s[i])
  {
    var l := StripLeft(s);
    if Strip(s) == [] {
      assert l == [];
    }
    if forall i :: 0 <= i < |s| ==> IsSpace(s[i]) {
      BlankStripsToEmpty(s);
    }
  }
}
