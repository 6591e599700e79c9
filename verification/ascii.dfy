/** The part of Go's `strings` package the importer and the query runner
    rely on, restricted to ASCII: lower-casing, substring search and the
    byte-wise whitespace scan of `stripExplainAnalyze`. */
module Ascii {

  /** `unicode.ToLower` on an ASCII letter; every other character is left as is. */
  function LowerChar(c: char): char {
    if 'A' <= c <= 'Z' then (c as int + 32) as char else c
  }

  /** `strings.ToLower` for ASCII text: a character-wise map, so lengths and
      positions are preserved. */
  function Lower(s: string): (r: string)
    ensures |r| == |s|
    ensures forall i :: 0 <= i < |s| ==> r[i] == LowerChar(s[i])
  {
    if |s| == 0 then "" else [LowerChar(s[0])] + Lower(s[1..])
  }

  /** `sub` occurs in `s` starting at position `i`. */
  predicate At(s: string, sub: string, i: int) {
    0 <= i && i + |sub| <= |s| && s[i..i + |sub|] == sub
  }

  /** `strings.Contains`. */
  predicate Contains(s: string, sub: string) {
    exists i | 0 <= i <= |s| :: At(s, sub, i)
  }

  /** The first occurrence of `sub` at or after `from`, or -1. */
  function IndexFrom(s: string, sub: string, from: nat): (r: int)
    decreases |s| - from
    ensures r == -1 || (from <= r && At(s, sub, r))
    ensures r == -1 ==> forall j :: from <= j ==> !At(s, sub, j)
    ensures r != -1 ==> forall j :: from <= j < r ==> !At(s, sub, j)
  {
    if from + |sub| > |s| then -1
    else if s[from..from + |sub|] == sub then from
    else IndexFrom(s, sub, from + 1)
  }

  /** `strings.Index`: the position of the first occurrence of `sub`, or -1. */
  function Index(s: string, sub: string): (r: int)
    ensures r == -1 <==> !Contains(s, sub)
    ensures r != -1 ==> 0 <= r <= |s| - |sub| && At(s, sub, r)
    ensures r != -1 ==> forall j :: 0 <= j < r ==> !At(s, sub, j)
  {
    IndexFrom(s, sub, 0)
  }

  /** The four characters the `stripExplainAnalyze` loop skips. */
  predicate IsSpace(c: char) {
    c == ' ' || c == '\n' || c == '\r' || c == '\t'
  }

  /** The first position at or after `from` whose character is not a space,
      or `|s|` when only spaces follow. */
  function SkipSpaces(s: string, from: nat): (r: nat)
    requires from <= |s|
    decreases |s| - from
    ensures from <= r <= |s|
    ensures forall j :: from <= j < r ==> IsSpace(s[j])
    ensures r < |s| ==> !IsSpace(s[r])
  {
    if from < |s| && IsSpace(s[from]) then SkipSpaces(s, from + 1) else from
  }
}
