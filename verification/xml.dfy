/** internal/importer/xml.go: choosing a dump file by name, turning a `row`
    element into an attribute map, and the token loop that feeds every
    `row` element to a row processor. The decoder itself is abstracted as
    the finite token sequence it yields; a `Malformed` token stands for the
    point where `decoder.Token()` returned an error other than EOF. */
module Xml {
  import opened Wrappers
  import opened Schema
  import Ascii
  import Coerce

  datatype Name = Name(space: string, local: string)

  datatype XmlAttr = XmlAttr(name: Name, value: string)

  datatype StartElement = StartElement(name: Name, attrs: seq<XmlAttr>)

  datatype Token =
    | Start(elem: StartElement)
    | End(name: Name)
    | CharData(text: string)
    | CommentToken(text: string)
    | ProcInst(target: string, inst: string)
    | Directive(text: string)
    | Malformed(offset: nat)

  // ----- findXmlFile -----

  /** `filepath.Base` for slash-separated paths: the last element, trailing
      slashes ignored; "." for the empty path and "/" for a path of slashes. */
  function Base(path: string): (b: string)
    ensures |b| > 0
  {
    if path == "" then "."
    else
      var trimmed := TrimTrailingSlashes(path);
      if trimmed == "" then "/" else AfterLastSlash(trimmed)
  }

  function TrimTrailingSlashes(p: string): (r: string)
    ensures |r| <= |p| && r == p[..|r|]
    ensures r == "" || r[|r| - 1] != '/'
  {
    if p != "" && p[|p| - 1] == '/' then TrimTrailingSlashes(p[..|p| - 1]) else p
  }

  /** The part of `p` after its last '/'; `p` itself when it has none. */
  function AfterLastSlash(p: string): (r: string)
    ensures |r| <= |p| && r == p[|p| - |r|..]
    ensures forall i :: 0 <= i < |r| ==> r[i] != '/'
    ensures |r| < |p| ==> p[|p| - |r| - 1] == '/'
  {
    if p == "" then ""
    else if p[|p| - 1] == '/' then ""
    else AfterLastSlash(p[..|p| - 1]) + [p[|p| - 1]]
  }

  predicate NoSlash(name: string) {
    forall i :: 0 <= i < |name| ==> name[i] != '/'
  }

  /** The base name of a path that `filepath.Glob` builds from a directory
      and a file name is that file name. */
  lemma {:induction false} BaseOfJoin(dir: string, name: string)
    requires name != "" && NoSlash(name)
    ensures Base(dir + "/" + name) == name
  {
    var p := dir + "/" + name;
    assert TrimTrailingSlashes(p) == p;
    AfterLastSlashOfJoin(dir + "/", name);
  }

  lemma {:induction false} AfterLastSlashOfJoin(prefix: string, name: string)
    requires prefix != "" && prefix[|prefix| - 1] == '/' && NoSlash(name)
    ensures AfterLastSlash(prefix + name) == name
  {
    if name == "" {
      assert prefix + name == prefix;
    } else {
      var p := prefix + name;
      var init := name[..|name| - 1];
      assert p[..|p| - 1] == prefix + init;
      AfterLastSlashOfJoin(prefix, init);
      assert AfterLastSlash(p) == init + [p[|p| - 1]];
      assert name == init + [name[|name| - 1]];
    }
  }

  /** The file-name test of `findXmlFile`: the lower-cased base name contains
      the lower-cased hint. */
  predicate Matches(file: string, hint: string) {
    Ascii.Contains(Ascii.Lower(Base(file)), Ascii.Lower(hint))
  }

  /** The index of the first file, at or after `from`, that matches. */
  function FirstMatch(files: seq<string>, hint: string, from: nat): (i: nat)
    requires from <= |files|
    decreases |files| - from
    ensures from <= i <= |files|
    ensures i < |files| ==> Matches(files[i], hint)
    ensures forall j :: from <= j < i ==> !Matches(files[j], hint)
  {
    if from == |files| then from
    else
      var found := Ascii.Index(Ascii.Lower(Base(files[from])), Ascii.Lower(hint)) != -1;
      assert found <==> Matches(files[from], hint);
      if found then from else FirstMatch(files, hint, from + 1)
  }

  /** `findXmlFile`, given the sorted result of globbing the directory for `.xml` files. */
  function FindXmlFile(directory: string, files: seq<string>, hint: string): (r: Result<string, Error>)
    ensures r.Ok? ==> r.value in files
  {
    if |files| == 0 then Err(NoXmlFiles(directory))
    else if hint != "" then
      var i := FirstMatch(files, hint, 0);
      if i < |files| then Ok(files[i]) else Err(NoMatchingFile(directory, hint))
    else Ok(files[0])
  }

  /** What `findXmlFile` returns: an error for a directory without `.xml`
      files; the first file for an empty hint; otherwise the first file, in
      the listing's order, whose lower-cased base name contains the
      lower-cased hint, or an error naming the hint when none does. */
  lemma FindXmlFileSpec(directory: string, files: seq<string>, hint: string)
    ensures var r := FindXmlFile(directory, files, hint);
      && (|files| == 0 ==> r == Err(NoXmlFiles(directory)))
      && (|files| > 0 && hint == "" ==> r == Ok(files[0]))
      && (|files| > 0 && hint != "" ==>
            (r.Ok? <==> exists i :: 0 <= i < |files| && Matches(files[i], hint)))
      && (|files| > 0 && hint != "" && r.Err? ==> r.error == NoMatchingFile(directory, hint))
      && (r.Ok? && hint != "" ==>
            exists i :: 0 <= i < |files| && files[i] == r.value && Matches(files[i], hint)
              && forall j :: 0 <= j < i ==> !Matches(files[j], hint))
  {
  }

  // ----- startElementToMap -----

  /** The attribute at position `i` is the last one with its local name. */
  predicate IsLastOf(attrs: seq<XmlAttr>, i: int)
    requires 0 <= i < |attrs|
  {
    forall j :: i < j < |attrs| ==> attrs[j].name.local != attrs[i].name.local
  }

  /** `startElementToMap`: the attributes in document order, each one
      overwriting an earlier one with the same local name. */
  function AttrMap(attrs: seq<XmlAttr>): (m: Coerce.Attrs)
    ensures forall i :: 0 <= i < |attrs| ==> attrs[i].name.local in m
  {
    if |attrs| == 0 then map[]
    else AttrMap(attrs[..|attrs| - 1])[attrs[|attrs| - 1].name.local := attrs[|attrs| - 1].value]
  }

  /** The map holds exactly the attributes' local names, and each name maps
      to the value of the last attribute carrying it. */
  lemma AttrMapSpec(attrs: seq<XmlAttr>)
    ensures AttrMap(attrs).Keys == set i | 0 <= i < |attrs| :: attrs[i].name.local
    ensures forall i :: 0 <= i < |attrs| && IsLastOf(attrs, i) ==> AttrMap(attrs)[attrs[i].name.local] == attrs[i].value
  {
    AttrMapKeys(attrs);
    AttrMapLast(attrs);
  }

  /** The keys are the local names. */
  lemma {:induction false} AttrMapKeys(attrs: seq<XmlAttr>)
    ensures AttrMap(attrs).Keys == set i | 0 <= i < |attrs| :: attrs[i].name.local
  {
    if |attrs| > 0 {
      var init := attrs[..|attrs| - 1];
      AttrMapKeys(init);
      assert (set i | 0 <= i < |attrs| :: attrs[i].name.local)
          == (set i | 0 <= i < |init| :: init[i].name.local) + {attrs[|attrs| - 1].name.local} by {
        assert forall i :: 0 <= i < |init| ==> init[i] == attrs[i];
      }
    }
  }

  /** The last attribute with a given local name wins. */
  lemma {:induction false} AttrMapLast(attrs: seq<XmlAttr>)
    ensures forall i :: 0 <= i < |attrs| && IsLastOf(attrs, i) ==> AttrMap(attrs)[attrs[i].name.local] == attrs[i].value
  {
    if |attrs| > 0 {
      var init := attrs[..|attrs| - 1];
      AttrMapLast(init);
      forall i | 0 <= i < |init| && IsLastOf(attrs, i)
        ensures AttrMap(attrs)[attrs[i].name.local] == attrs[i].value
      {
        assert init[i] == attrs[i];
        assert IsLastOf(init, i);
      }
    }
  }

  // ----- parseXmlFile -----

  /** The outcome of the token loop: the processors' state, the number of
      rows processed (Go's `rowCount`) and the error that ended it. */
  datatype Scan<S> = Scan(state: S, rows: nat, err: Option<Error>)

  predicate IsRow(t: Token) {
    t.Start? && t.elem.name.local == "row"
  }

  /** The loop of `parseXmlFile` from the current token on, `count` rows
      having been processed so far. */
  function ParseTokens<S>(tokens: seq<Token>, process: (S, StartElement) -> Run<S>, s: S, count: nat): Scan<S>
  {
    if |tokens| == 0 then Scan(s, count, None)
    else if tokens[0].Malformed? then Scan(s, count, Some(DecodeFailed(tokens[0].offset)))
    else if IsRow(tokens[0]) then
      var r := process(s, tokens[0].elem);
      if r.err.Some? then Scan(r.state, count, Some(RowFailed(r.err.value)))
      else ParseTokens(tokens[1..], process, r.state, count + 1)
    else ParseTokens(tokens[1..], process, s, count)
  }

  /** `parseXmlFile`: a path that cannot be opened fails before any row. */
  function ParseXmlFile<S>(path: string, contents: map<string, seq<Token>>,
                           process: (S, StartElement) -> Run<S>, s: S): Scan<S> {
    if path !in contents then Scan(s, 0, Some(OpenFailed(path)))
    else ParseTokens(contents[path], process, s, 0)
  }

  // ----- reference semantics of the token loop -----

  /** The `row` elements the decoder reaches, in document order: every row
      element before the first malformed token. */
  function RowsOf(tokens: seq<Token>): seq<StartElement> {
    if |tokens| == 0 || tokens[0].Malformed? then []
    else if IsRow(tokens[0]) then [tokens[0].elem] + RowsOf(tokens[1..])
    else RowsOf(tokens[1..])
  }

  /** The offset of the first malformed token, if any. */
  function DecodeError(tokens: seq<Token>): Option<nat> {
    if |tokens| == 0 then None
    else if tokens[0].Malformed? then Some(tokens[0].offset)
    else DecodeError(tokens[1..])
  }

  /** Feeding rows to a processor one at a time, stopping at its first error. */
  function FoldRows<S>(process: (S, StartElement) -> Run<S>, s: S, rows: seq<StartElement>): Run<S> {
    if |rows| == 0 then Run(s, None)
    else
      var r := process(s, rows[0]);
      if r.err.Some? then r else FoldRows(process, r.state, rows[1..])
  }

  /** The token loop processes exactly the reached `row` elements, once each
      and in order, stopping at the first processor error; other tokens are
      ignored; on a clean end it reports how many rows it processed; a
      decoder error is reported only when every row before it succeeded. */
  lemma {:induction false} ParseTokensIsFold<S>(tokens: seq<Token>, process: (S, StartElement) -> Run<S>, s: S, count: nat)
    ensures var r := ParseTokens(tokens, process, s, count);
            var f := FoldRows(process, s, RowsOf(tokens));
            && r.state == f.state
            && r.err == (if f.err.Some? then Some(RowFailed(f.err.value))
                         else if DecodeError(tokens).Some? then Some(DecodeFailed(DecodeError(tokens).value))
                         else None)
            && (f.err.None? ==> r.rows == count + |RowsOf(tokens)|)
  {
    if |tokens| == 0 || tokens[0].Malformed? {
    } else if IsRow(tokens[0]) {
      var rows := RowsOf(tokens);
      assert rows[0] == tokens[0].elem && rows[1..] == RowsOf(tokens[1..]);
      var r := process(s, tokens[0].elem);
      if r.err.None? {
        ParseTokensIsFold(tokens[1..], process, r.state, count + 1);
      }
    } else {
      ParseTokensIsFold(tokens[1..], process, s, count);
    }
  }

  /** A file whose tokens all decode and whose rows all process succeeds, and
      its row count is the number of `row` elements. */
  lemma ParseXmlFileSucceeds<S>(path: string, contents: map<string, seq<Token>>,
                                process: (S, StartElement) -> Run<S>, s: S)
    requires path in contents
    ensures var r := ParseXmlFile(path, contents, process, s);
            var f := FoldRows(process, s, RowsOf(contents[path]));
            r.err.None? <==> DecodeError(contents[path]).None? && f.err.None?
    ensures var r := ParseXmlFile(path, contents, process, s);
            r.err.None? ==> r.rows == |RowsOf(contents[path])| && r.state == FoldRows(process, s, RowsOf(contents[path])).state
  {
    ParseTokensIsFold(contents[path], process, s, 0);
  }

  /** Fail fast: once the loop has stopped with an error, whatever follows in
      the document is never looked at. */
  lemma {:induction false} ParseTokensStopsAtError<S>(tokens: seq<Token>, rest: seq<Token>,
                                                       process: (S, StartElement) -> Run<S>, s: S, count: nat)
    requires ParseTokens(tokens, process, s, count).err.Some?
    ensures ParseTokens(tokens + rest, process, s, count) == ParseTokens(tokens, process, s, count)
  {
    assert |tokens| > 0;
    assert (tokens + rest)[0] == tokens[0];
    assert (tokens + rest)[1..] == tokens[1..] + rest;
    if tokens[0].Malformed? {
    } else if IsRow(tokens[0]) {
      var r := process(s, tokens[0].elem);
      if r.err.None? {
        ParseTokensStopsAtError(tokens[1..], rest, process, r.state, count + 1);
      }
    } else {
      ParseTokensStopsAtError(tokens[1..], rest, process, s, count);
    }
  }
}
