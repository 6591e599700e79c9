/** internal/queries/queries.go: the text helpers the query runner applies
    to a query file before sending it, and the control flow of
    `ExplainQuery` and `RunAnalyticalQueries`. The database and the file
    system are parameters: which statements succeed, which paths exist and
    what each readable file holds. */
module Queries {
  import opened Wrappers
  import Ascii

  // ----- containsTransaction -----

  /** `containsTransaction`: the lower-cased query mentions a transaction or
      schema keyword. `create` and `alter` count only when a space follows. */
  predicate ContainsTransaction(query: string) {
    var lower := Ascii.Lower(query);
    Ascii.Contains(lower, "begin") || Ascii.Contains(lower, "commit")
    || Ascii.Contains(lower, "create ") || Ascii.Contains(lower, "alter ")
  }

  /** Lower-casing distributes over concatenation. */
  lemma {:induction false} LowerConcat(a: string, b: string)
    ensures Ascii.Lower(a + b) == Ascii.Lower(a) + Ascii.Lower(b)
  {
    var l := Ascii.Lower(a + b);
    assert |l| == |Ascii.Lower(a) + Ascii.Lower(b)|;
    forall i | 0 <= i < |l|
      ensures l[i] == (Ascii.Lower(a) + Ascii.Lower(b))[i]
    {
      if i < |a| {
        assert (a + b)[i] == a[i];
      } else {
        assert (a + b)[i] == b[i - |a|];
      }
    }
  }

  /** An occurrence stays an occurrence inside a longer text. */
  lemma ContainsInside(a: string, s: string, b: string, sub: string)
    requires Ascii.Contains(s, sub)
    ensures Ascii.Contains(a + s + b, sub)
  {
    var i :| 0 <= i <= |s| && Ascii.At(s, sub, i);
    var t := a + s + b;
    assert t[|a| + i..|a| + i + |sub|] == s[i..i + |sub|];
    assert Ascii.At(t, sub, |a| + i);
  }

  /** A query that holds a transaction keyword still does with any text
      around it: the check looks at the whole file, wherever the keyword is. */
  lemma TransactionAnywhere(a: string, query: string, b: string)
    requires ContainsTransaction(query)
    ensures ContainsTransaction(a + query + b)
  {
    LowerConcat(a, query);
    LowerConcat(a + query, b);
    var la, lq, lb := Ascii.Lower(a), Ascii.Lower(query), Ascii.Lower(b);
    assert Ascii.Lower(a + query + b) == la + lq + lb;
    if Ascii.Contains(lq, "begin") {
      ContainsInside(la, lq, lb, "begin");
    } else if Ascii.Contains(lq, "commit") {
      ContainsInside(la, lq, lb, "commit");
    } else if Ascii.Contains(lq, "create ") {
      ContainsInside(la, lq, lb, "create ");
    } else {
      ContainsInside(la, lq, lb, "alter ");
    }
  }

  /** Two queries that differ only in letter case are judged alike. */
  lemma TransactionIgnoresCase(q1: string, q2: string)
    requires Ascii.Lower(q1) == Ascii.Lower(q2)
    ensures ContainsTransaction(q1) == ContainsTransaction(q2)
  {
  }

  /** `create` and `alter` need the trailing space: in a query without a
      space only `begin` and `commit` count, so a column such as
      `created_at` or `altered` does not mark a transaction. */
  lemma TransactionWithoutSpaces(query: string)
    requires forall i :: 0 <= i < |query| ==> query[i] != ' '
    ensures ContainsTransaction(query) <==>
      Ascii.Contains(Ascii.Lower(query), "begin") || Ascii.Contains(Ascii.Lower(query), "commit")
  {
    NoSpaceNoKeyword(query, "create ");
    NoSpaceNoKeyword(query, "alter ");
  }

  /** A word that ends in a space does not occur in the lower-cased form of a
      text without spaces. */
  lemma NoSpaceNoKeyword(query: string, word: string)
    requires forall i :: 0 <= i < |query| ==> query[i] != ' '
    requires |word| > 0 && word[|word| - 1] == ' '
    ensures !Ascii.Contains(Ascii.Lower(query), word)
  {
  }

  // ----- stripExplainAnalyze -----

  /** The marker `stripExplainAnalyze` looks for, lower-case. */
  const Marker := "explain analyze"

  /** `stripExplainAnalyze`: everything after the first case-insensitive
      `EXPLAIN ANALYZE` and the spaces, tabs and line breaks that follow it;
      the query itself when it has no such marker. */
  function StripExplainAnalyze(query: string): (r: string)
    ensures !Ascii.Contains(Ascii.Lower(query), Marker) ==> r == query
    ensures Ascii.Contains(Ascii.Lower(query), Marker) ==>
      |r| <= |query| - |Marker| && r == query[|query| - |r|..] && (r == "" || !Ascii.IsSpace(r[0]))
  {
    var lower := Ascii.Lower(query);
    if Ascii.Contains(lower, Marker) then
      var pos := Ascii.Index(lower, Marker);
      var start := Ascii.SkipSpaces(query, pos + |Marker|);
      if start < |query| then query[start..] else ""
    else query
  }

  /** `r` is what remains of `query` once everything up to the first
      case-insensitive `marker`, found at `i`, and the white space after it
      are cut off; it starts with no white space. */
  predicate StrippedAt(query: string, marker: string, r: string, i: int) {
    && Ascii.At(Ascii.Lower(query), marker, i)
    && (forall j :: 0 <= j < i ==> !Ascii.At(Ascii.Lower(query), marker, j))
    && i + |marker| <= |query| - |r|
    && (forall k :: i + |marker| <= k < |query| - |r| ==> Ascii.IsSpace(query[k]))
    && r == query[|query| - |r|..]
    && (r == "" || !Ascii.IsSpace(r[0]))
  }

  /** What is cut off: a stretch without the marker, the first occurrence of
      the marker in any letter case, then only spaces, tabs and line breaks;
      what is kept starts with none of those. */
  lemma StripSpec(query: string)
    requires Ascii.Contains(Ascii.Lower(query), Marker)
    ensures exists i :: StrippedAt(query, Marker, StripExplainAnalyze(query), i)
  {
    var pos := Ascii.Index(Ascii.Lower(query), Marker);
    var start := Ascii.SkipSpaces(query, pos + |Marker|);
    assert StripExplainAnalyze(query) == query[start..];
    CutAfter(query, Marker, pos, start);
  }

  /** Cutting after the first occurrence and the white space behind it. */
  lemma CutAfter(query: string, marker: string, pos: int, start: nat)
    requires pos != -1 && pos == Ascii.Index(Ascii.Lower(query), marker)
    requires pos + |marker| <= |query|
    requires start == Ascii.SkipSpaces(query, pos + |marker|)
    ensures StrippedAt(query, marker, query[start..], pos)
  {
    var r := query[start..];
    assert |query| - |r| == start;
    if r != "" {
      assert r[0] == query[start];
    }
  }

  /** The cut is determined: only one remainder fits the description. */
  lemma StrippedAtUnique(query: string, marker: string, r1: string, i1: int, r2: string, i2: int)
    requires StrippedAt(query, marker, r1, i1) && StrippedAt(query, marker, r2, i2)
    ensures r1 == r2
  {
    assert i1 == i2;
  }

  /** A query that opens with the marker, in any letter case, then white
      space, strips to the rest. */
  lemma StripLeadingMarker(marker: string, space: string, body: string)
    requires Ascii.Lower(marker) == Marker
    requires forall k :: 0 <= k < |space| ==> Ascii.IsSpace(space[k])
    requires body == "" || !Ascii.IsSpace(body[0])
    ensures StripExplainAnalyze(marker + space + body) == body
  {
    var query := marker + space + body;
    assert query == marker + (space + body);
    MarkerLeads(marker, space + body);
    var n := |marker|;
    forall k | n <= k < n + |space|
      ensures Ascii.IsSpace(query[k])
    {
      assert query[k] == space[k - n];
    }
    if body != "" {
      assert query[n + |space|] == body[0];
    }
    SkipOver(query, n, n + |space|);
    assert query[n + |space|..] == body;
  }

  /** A text that opens with the marker, in any letter case, has its first
      occurrence at the start. */
  lemma MarkerLeads(marker: string, rest: string)
    requires Ascii.Lower(marker) == Marker
    ensures Ascii.Contains(Ascii.Lower(marker + rest), Marker)
    ensures Ascii.Index(Ascii.Lower(marker + rest), Marker) == 0
  {
    LowerConcat(marker, rest);
    var lower := Ascii.Lower(marker + rest);
    assert lower[0..|Marker|] == Marker;
    assert Ascii.At(lower, Marker, 0);
  }

  /** `SkipSpaces` stops at the first character after `from` that is not
      white space. */
  lemma SkipOver(s: string, from: nat, to: nat)
    requires from <= to <= |s|
    requires forall k :: from <= k < to ==> Ascii.IsSpace(s[k])
    requires to == |s| || !Ascii.IsSpace(s[to])
    ensures Ascii.SkipSpaces(s, from) == to
  {
  }

  /** Stripping a query whose rest has no further marker a second time
      changes nothing. */
  lemma StripSettles(query: string)
    requires !Ascii.Contains(Ascii.Lower(StripExplainAnalyze(query)), Marker)
    ensures StripExplainAnalyze(StripExplainAnalyze(query)) == StripExplainAnalyze(query)
  {
  }

  // ----- ExplainQuery and RunAnalyticalQueries -----

  /** The query runner's view of the outside world: which statements the
      database runs without error, which paths exist, and the text of each
      readable file. */
  datatype Env = Env(runs: string -> bool, present: set<string>, files: map<string, string>)

  datatype QueryError = ReadFailed(path: string) | QueryFailed(sql: string)

  /** What one call sent to the database, whether it saved a query plan, and
      the error it returned. */
  datatype Sent = Sent(statements: seq<string>, planSaved: bool, err: Option<QueryError>)

  /** `ExecuteQuery`: read the file, strip the marker, run the rest. Writing
      the result file is not modelled. */
  function ExecuteQuery(env: Env, path: string): Sent {
    if path !in env.files then Sent([], false, Some(ReadFailed(path)))
    else
      var sql := StripExplainAnalyze(env.files[path]);
      Sent([sql], false, if env.runs(sql) then None else Some(QueryFailed(sql)))
  }

  /** `ExplainQuery`: a file with a transaction keyword is skipped; otherwise
      the stripped query runs under EXPLAIN ANALYZE, its plan is saved when
      that succeeds, and the query then runs plainly either way. */
  function ExplainQuery(env: Env, path: string): Sent {
    if path !in env.files then Sent([], false, Some(ReadFailed(path)))
    else
      var text := env.files[path];
      if ContainsTransaction(text) then Sent([], false, None)
      else
        var explain := "EXPLAIN ANALYZE " + StripExplainAnalyze(text);
        var run := ExecuteQuery(env, path);
        Sent([explain] + run.statements, env.runs(explain), run.err)
  }

  /** What `ExplainQuery` sends: nothing but a read error for a file that
      cannot be read; nothing for a file with a transaction keyword, which
      counts as success; otherwise the plan request and then the query
      itself, both cut after the first marker in any case, the plan saved
      exactly when the plan request succeeds, and the error of the plain
      run, whatever became of the plan. */
  lemma ExplainQuerySpec(env: Env, path: string)
    ensures path !in env.files ==>
              ExplainQuery(env, path) == Sent([], false, Some(ReadFailed(path)))
    ensures path in env.files ==>
              var s := ExplainQuery(env, path);
              var text := env.files[path];
              var sql := StripExplainAnalyze(text);
              && (ContainsTransaction(text) ==> s == Sent([], false, None))
              && (!ContainsTransaction(text) ==>
                    && s.statements == ["EXPLAIN ANALYZE " + sql, sql]
                    && (s.planSaved <==> env.runs("EXPLAIN ANALYZE " + sql))
                    && (s.err.None? <==> env.runs(sql)))
  {
  }

  /** The two files `RunAnalyticalQueries` looks for. */
  function AnalyticalPaths(dir: string): seq<string> {
    [dir + "/q1.sql", dir + "/q2.sql"]
  }

  /** One file's fate: skipped because missing, or explained. */
  datatype Report = Missing(path: string) | Explained(path: string, sent: Sent)

  /** The loop of `RunAnalyticalQueries` over the remaining paths. */
  function RunEach(env: Env, paths: seq<string>): (reports: seq<Report>)
    decreases |paths|
    ensures |reports| == |paths|
    ensures forall i :: 0 <= i < |paths| ==>
      reports[i] == (if paths[i] in env.present then Explained(paths[i], ExplainQuery(env, paths[i]))
                     else Missing(paths[i]))
  {
    if |paths| == 0 then []
    else
      var head := if paths[0] in env.present then Explained(paths[0], ExplainQuery(env, paths[0]))
                  else Missing(paths[0]);
      var rest := RunEach(env, paths[1..]);
      assert forall i :: 1 <= i < |paths| ==> paths[i] == paths[1..][i - 1];
      [head] + rest
  }

  /** `RunAnalyticalQueries`: explain q1.sql and q2.sql, in that order,
      skipping a missing file; an error of one query is only logged, so the
      run as a whole never fails. */
  function RunAnalyticalQueries(env: Env, dir: string): (out: (seq<Report>, Option<QueryError>))
    ensures out.1 == None
    ensures |out.0| == 2
  {
    (RunEach(env, AnalyticalPaths(dir)), None)
  }

  /** A failing query does not stop the next one: each present file is
      explained on its own, whatever happened to the file before it. */
  lemma AnalyticalQueriesIndependent(env: Env, dir: string)
    ensures var reports := RunAnalyticalQueries(env, dir).0;
      var q1, q2 := dir + "/q1.sql", dir + "/q2.sql";
      && reports[0] == (if q1 in env.present then Explained(q1, ExplainQuery(env, q1)) else Missing(q1))
      && reports[1] == (if q2 in env.present then Explained(q2, ExplainQuery(env, q2)) else Missing(q2))
  {
  }
}
