/** The query-extraction step of `ExecuteQueryFile` in
    internal/database/postgres.go: the file text is split around the exact,
    upper-case `EXPLAIN ANALYZE`, a text without it is an error, and the
    second piece is the query run without the plan. */
module Postgres {
  import opened Wrappers
  import opened Schema
  import Ascii
  import Queries

  /** The separator `ExecuteQueryFile` splits on; the match is case-sensitive. */
  const Separator := "EXPLAIN ANALYZE"

  /** `strings.Split` with a non-empty separator: the pieces between
      successive non-overlapping occurrences, searched left to right. */
  function Split(s: string, sep: string): (parts: seq<string>)
    requires sep != ""
    decreases |s|
    ensures |parts| >= 1
  {
    var m := Ascii.Index(s, sep);
    if m == -1 then [s] else [s[..m]] + Split(s[m + |sep|..], sep)
  }

  /** There is more than one piece exactly when the separator occurs, and
      no piece contains it. */
  lemma SplitPieces(s: string, sep: string)
    requires sep != ""
    ensures |Split(s, sep)| == 1 <==> !Ascii.Contains(s, sep)
    ensures forall i :: 0 <= i < |Split(s, sep)| ==> !Ascii.Contains(Split(s, sep)[i], sep)
  {
    SplitClean(s, sep);
  }

  /** No piece contains the separator. */
  lemma {:induction false} SplitClean(s: string, sep: string)
    requires sep != ""
    ensures forall i :: 0 <= i < |Split(s, sep)| ==> !Ascii.Contains(Split(s, sep)[i], sep)
    decreases |s|
  {
    var m := Ascii.Index(s, sep);
    if m != -1 {
      var tail := s[m + |sep|..];
      var rest := Split(tail, sep);
      var parts := Split(s, sep);
      assert parts == [s[..m]] + rest;
      SplitClean(tail, sep);
      NoEarlierOccurrence(s, sep, m);
      forall i | 0 <= i < |parts|
        ensures !Ascii.Contains(parts[i], sep)
      {
        if i > 0 {
          assert parts[i] == rest[i - 1];
        }
      }
    }
  }

  /** The text before the first occurrence of `sep` does not contain it. */
  lemma NoEarlierOccurrence(s: string, sep: string, m: int)
    requires sep != ""
    requires 0 <= m <= |s| && forall j :: 0 <= j < m ==> !Ascii.At(s, sep, j)
    ensures !Ascii.Contains(s[..m], sep)
  {
    forall j | 0 <= j <= m
      ensures !Ascii.At(s[..m], sep, j)
    {
      if j + |sep| <= m {
        assert !Ascii.At(s, sep, j);
        assert s[..m][j..j + |sep|] == s[j..j + |sep|];
      }
    }
  }

  /** `strings.Join`. */
  function Join(parts: seq<string>, sep: string): string
    requires |parts| >= 1
    decreases |parts|
  {
    if |parts| == 1 then parts[0] else parts[0] + sep + Join(parts[1..], sep)
  }

  /** Joining the pieces with the separator gives the text back. */
  lemma {:induction false} JoinSplit(s: string, sep: string)
    requires sep != ""
    ensures Join(Split(s, sep), sep) == s
    decreases |s|
  {
    var m := Ascii.Index(s, sep);
    if m != -1 {
      var tail := s[m + |sep|..];
      SplitFirst(s, sep, m);
      JoinSplit(tail, sep);
      JoinCons(s[..m], Split(tail, sep), sep);
      Reassemble(s, sep, m);
    }
  }

  /** Past the first separator, the split goes on in the rest of the text. */
  lemma SplitFirst(s: string, sep: string, m: int)
    requires sep != "" && m == Ascii.Index(s, sep) && m != -1
    ensures Split(s, sep) == [s[..m]] + Split(s[m + |sep|..], sep)
  {
  }

  /** `Join` of a piece in front of more pieces. */
  lemma JoinCons(a: string, parts: seq<string>, sep: string)
    requires |parts| >= 1
    ensures Join([a] + parts, sep) == a + sep + Join(parts, sep)
  {
    assert ([a] + parts)[1..] == parts;
  }

  /** A text is the part before an occurrence of `sep`, `sep`, and the rest. */
  lemma Reassemble(s: string, sep: string, m: int)
    requires Ascii.At(s, sep, m)
    ensures s[..m] + sep + s[m + |sep|..] == s
  {
    assert s == s[..m] + s[m..m + |sep|] + s[m + |sep|..];
  }

  /** The extraction step: the second piece, or an error naming the file
      when the text has no upper-case `EXPLAIN ANALYZE`. */
  function ExtractQueryText(path: string, text: string): (r: Result<string, Error>)
    ensures r.Err? <==> !Ascii.Contains(text, Separator)
    ensures r.Err? ==> r.error == MissingExplainMarker(path)
    ensures r.Ok? ==> !Ascii.Contains(r.value, Separator)
  {
    SplitPieces(text, Separator);
    var parts := Split(text, Separator);
    if |parts| < 2 then Err(MissingExplainMarker(path)) else Ok(parts[1])
  }

  /** `q` is the piece that follows the first `sep`, found at `i`, up to
      the next `sep` or the end. */
  predicate SegmentAfter(text: string, sep: string, q: string, i: int) {
    && i != -1
    && i == Ascii.Index(text, sep)
    && i + |sep| + |q| <= |text|
    && text[i + |sep|..i + |sep| + |q|] == q
    && (i + |sep| + |q| == |text| || Ascii.At(text, sep, i + |sep| + |q|))
  }

  /** The text after the first separator, up to the next one or the end. */
  function NextSegment(text: string, sep: string): string
    requires sep != "" && Ascii.Index(text, sep) != -1
  {
    UpToSep(text[Ascii.Index(text, sep) + |sep|..], sep)
  }

  /** The text up to the first separator, or all of it. */
  function UpToSep(s: string, sep: string): (q: string)
    requires sep != ""
    ensures |q| <= |s| && q == s[..|q|]
    ensures |q| == |s| || Ascii.At(s, sep, |q|)
  {
    var m := Ascii.Index(s, sep);
    if m == -1 then s else s[..m]
  }

  /** An occurrence in a suffix is an occurrence in the text. */
  lemma AtShift(text: string, sep: string, n: int, k: int)
    requires 0 <= n <= |text| && Ascii.At(text[n..], sep, k)
    ensures Ascii.At(text, sep, n + k)
  {
    assert text[n + k..n + k + |sep|] == text[n..][k..k + |sep|];
  }

  /** The second piece of a split is the segment after the first separator. */
  lemma SecondPiece(text: string, sep: string)
    requires sep != "" && Ascii.Index(text, sep) != -1
    ensures |Split(text, sep)| >= 2
    ensures Split(text, sep)[1] == NextSegment(text, sep)
  {
  }

  /** The segment after the first separator sits right behind it and ends at
      the end of the text or at the next separator. */
  lemma NextSegmentSpec(text: string, sep: string)
    requires sep != "" && Ascii.Index(text, sep) != -1
    ensures SegmentAfter(text, sep, NextSegment(text, sep), Ascii.Index(text, sep))
  {
    var i := Ascii.Index(text, sep);
    var q := NextSegment(text, sep);
    assert q == UpToSep(text[i + |sep|..], sep);
    SegmentAt(text, sep, i + |sep|);
    assert i + |sep| + |q| <= |text|;
    assert text[i + |sep|..i + |sep| + |q|] == q;
    assert i + |sep| + |q| == |text| || Ascii.At(text, sep, i + |sep| + |q|);
  }

  /** The piece of `text[n..]` up to its first separator sits at `n` and ends
      at the end of the text or at a separator. */
  lemma SegmentAt(text: string, sep: string, n: int)
    requires sep != "" && 0 <= n <= |text|
    ensures n + |UpToSep(text[n..], sep)| <= |text|
    ensures text[n..n + |UpToSep(text[n..], sep)|] == UpToSep(text[n..], sep)
    ensures n + |UpToSep(text[n..], sep)| == |text| || Ascii.At(text, sep, n + |UpToSep(text[n..], sep)|)
  {
    var q := UpToSep(text[n..], sep);
    assert text[n..n + |q|] == q;
    if n + |q| < |text| {
      AtShift(text, sep, n, |q|);
    }
  }

  /** What is extracted: the text between the first separator and the
      second, or to the end when there is no second. */
  lemma ExtractSpec(path: string, text: string)
    requires Ascii.Contains(text, Separator)
    ensures exists i :: SegmentAfter(text, Separator, ExtractQueryText(path, text).value, i)
  {
    SecondPiece(text, Separator);
    NextSegmentSpec(text, Separator);
    assert SegmentAfter(text, Separator, ExtractQueryText(path, text).value, Ascii.Index(text, Separator));
  }

  /** With exactly one separator the query is everything after it. */
  lemma ExtractSingle(path: string, text: string, i: int)
    requires Ascii.At(text, Separator, i)
    requires forall j :: j != i ==> !Ascii.At(text, Separator, j)
    ensures ExtractQueryText(path, text) == Ok(text[i + |Separator|..])
  {
    assert Ascii.Contains(text, Separator);
    ExtractSpec(path, text);
    var q := ExtractQueryText(path, text).value;
    var k :| SegmentAfter(text, Separator, q, k);
    assert k == i;
    assert !Ascii.At(text, Separator, i + |Separator| + |q|);
    assert text[i + |Separator|..] == q;
  }

  /** Unlike the query runner, which looks for the marker in any letter
      case, this step insists on upper case: a file whose only marker is
      not upper-case is stripped by the one and rejected by the other. */
  lemma CaseSensitiveUnlikeRunner(path: string, text: string)
    requires !Ascii.Contains(text, Separator)
    requires Ascii.Contains(Ascii.Lower(text), Queries.Marker)
    ensures ExtractQueryText(path, text) == Err(MissingExplainMarker(path))
    ensures |Queries.StripExplainAnalyze(text)| < |text|
  {
  }
}
