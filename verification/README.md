# Stack Exchange dump importer — a Dafny model

This project models the core of a Go tool that loads a Stack Exchange data
dump (the `dba.stackexchange.com` site and its meta site) into PostgreSQL, and
of the query runner that explains and runs analytical queries against the
loaded database. All of it is modelled as pure functions over immutable data.

- **Extraction and lookup.** `ImportAll` extracts the two `.7z` archives.
  `findXmlFile` then finds each entity's `.xml` file by a case-insensitive
  hint.
- **The XML token loop.** `parseXmlFile` feeds every `<row>` element to a
  row processor and stops at the first error. `startElementToMap` turns an
  element's attributes into a map, and the last attribute of a name wins.
- **Row processors.** The eight processors coerce the attribute texts:
  - required integers through `strconv.Atoi`, with the error discarded;
  - nullable integers, which are null when the attribute is absent or empty;
  - timestamps in the layout `2006-01-02T15:04:05.000`, required or nullable;
  - the `TagBased` flag.
- **Inserts.** Each row is inserted with the table's `ON CONFLICT (id)`
  policy. Users and posts refresh a few columns (`DO UPDATE SET`). The other
  six tables keep the stored row (`DO NOTHING`).
- **The posts loader.** It drops the posts foreign keys first. After the
  last row it runs a repair batch that clears every reference to a post or
  user that is not there.
- **`importSite`.** It runs the eight loaders in the order users, posts,
  comments, badges, post history, post links, tags, votes. It skips an
  entity whose file is missing and stops at the first loader error.
- **The view refresh.** `refreshMaterializedViews` refreshes the `post_tags`
  view only when the view exists.
- **The query runner.**
  - `containsTransaction` spots transaction and schema keywords.
  - `stripExplainAnalyze` drops everything up to the first `EXPLAIN ANALYZE`
    in any letter case, the marker itself, and the white space after it.
  - `ExecuteQuery`, `ExplainQuery` and `RunAnalyticalQueries` send the
    stripped query.
  - The extraction step of `ExecuteQueryFile` splits the file around the
    exact, upper-case `EXPLAIN ANALYZE` and keeps the second piece.

The database is a parameter (`Loader.Backend`). It says which statements
succeed: dropping constraints, preparing each INSERT, accepting each row,
the repair batch, the view lookup and the refresh. A failed statement changes
nothing. Every statement that succeeded before it stays in effect, because
the importer runs no transaction.

The file system is a parameter too (`Orchestrator.Disk`, `Queries.Env`). It
says which archives extract, the sorted `.xml` paths of each directory, and
the XML tokens or text of each readable file.

The modules follow the program:

| module | models |
|---|---|
| `Wrappers` | `Option` and `Result` |
| `Ascii` | the parts of Go's `strings` package the code uses |
| `Schema` | entities, rows, the database, errors |
| `Coerce` | field coercion |
| `Xml` | `findXmlFile`, `startElementToMap`, `parseXmlFile` |
| `Columns` | the attribute names of the eight row kinds |
| `Records` | the row processors |
| `Upsert` | the conflict policies |
| `Repair` | the repair batch |
| `Loader` | the eight `import<Entity>` methods |
| `Orchestrator` | `importSite`, `ImportAll`, `refreshMaterializedViews` |
| `Queries` | `internal/queries/queries.go` |
| `Postgres` | the extraction step of `ExecuteQueryFile` |

Each operation has a partner:

- the row processors have an encoder they invert;
- the token loop has a fold over its rows;
- `importSite` has a plan-then-execute reference;
- every loader and the repair batch are idempotent;
- `strings.Split` has `strings.Join`;
- `stripExplainAnalyze` has a relational specification of what it cuts.

## Model

| member | source | states |
|---|---|---|
| Ascii.Lower | internal/queries/queries.go:143-149 | `strings.ToLower` keeps the length and lowers each letter in place; every other character is kept |
| Ascii.Index | internal/queries/queries.go:153-154 | `strings.Index` returns -1 exactly when the text does not contain the needle; otherwise it returns the position of the first occurrence, with none earlier |
| Ascii.SkipSpaces | internal/queries/queries.go:155-158 | the scan after the marker stops at the first character that is not a space, tab, CR or LF (or at the end), and everything it passed over is such a character |
| Coerce.Atoi | internal/importer/importer.go:151-156 | `strconv.Atoi` succeeds exactly on an optionally signed run of decimal digits; a failure yields 0; the sign of the value follows the text |
| Coerce.AtoiFormatRoundTrip | internal/importer/importer.go:151-156 | parsing the decimal text of an integer gives that integer without error |
| Coerce.RequiredInt | internal/importer/importer.go:151-156 | a required integer column is 0 when the attribute is missing or malformed, and its parsed value otherwise |
| Coerce.NullableInt | internal/importer/importer.go:208-212 | a nullable integer column is null exactly when the attribute is missing or empty; a malformed text gives 0, not an error |
| Coerce.RequiredIntRoundTrip | internal/importer/importer.go:151-156 | an integer written into an attribute is read back as itself |
| Coerce.NullableIntRoundTrip | internal/importer/importer.go:208-212 | an integer written into a nullable attribute is read back as a non-null value equal to it |
| Coerce.ParseLayout | internal/importer/importer.go:485-490 | whatever the layout `2006-01-02T15:04:05.000` accepts is a valid calendar time |
| Coerce.ParseTime | internal/importer/importer.go:485-490 | `parseTime` fails on the empty string and on any text the layout rejects, and then yields the zero time; it succeeds exactly when the layout accepts the text, and then the result is a valid time |
| Coerce.ParseTimeNullable | internal/importer/importer.go:492-503 | `parseTimeNullable` gives null without error for the empty string; otherwise it succeeds exactly when `parseTime` does; the result is null exactly for the empty or rejected text, and otherwise it is `parseTime`'s value |
| Coerce.RequiredTime | internal/importer/importer.go:158-159 | a required timestamp column is the zero time when the attribute is missing, empty or malformed, and the parsed time otherwise |
| Coerce.NullableTime | internal/importer/importer.go:244-248 | a nullable timestamp column is non-null exactly when the attribute is present and well formed, and then holds the parsed time |
| Coerce.ParseTimeFormatRoundTrip | internal/importer/importer.go:485-490 | parsing the layout text of any valid time gives that time back without error |
| Coerce.TagBased | internal/importer/importer.go:357-360 | the `TagBased` column is true exactly when the attribute is present and equals `true` in any letter case; it is false when the attribute is absent |
| Records.Decode | internal/importer/importer.go:148-167 | the row processor chosen for an entity produces a record of that entity |
| Records.PostValues | internal/importer/importer.go:250-254 | a post has nineteen column texts, one per column of its INSERT |
| Records.IntColumn | internal/importer/importer.go:151-156 | an attribute holding the decimal text of `n` decodes to `n` |
| Records.NullableIntColumn | internal/importer/importer.go:208-212 | an attribute holding the text of a nullable integer (empty for null) decodes to it |
| Records.TimeColumn | internal/importer/importer.go:158-159 | an attribute holding the layout text of a valid time decodes to that time |
| Records.NullableTimeColumn | internal/importer/importer.go:244-248 | an attribute holding the layout text of a nullable valid time (empty for null) decodes to it |
| Records.UserRoundTrip | internal/importer/importer.go:148-167 | the users row processor recovers every column of any user the dump can express |
| Records.UserFromColumns | internal/importer/importer.go:148-167 | any attribute map that carries each user column under its attribute name decodes to that user |
| Records.PostRoundTrip | internal/importer/importer.go:202-257 | the posts row processor recovers all nineteen columns of any post, null or not |
| Records.PostFromColumns | internal/importer/importer.go:202-257 | any attribute map that carries each post column under its attribute name decodes to that post |
| Records.CommentRoundTrip | internal/importer/importer.go:313-332 | the comments row processor recovers every column, including a null user |
| Records.BadgeRoundTrip | internal/importer/importer.go:350-368 | the badges row processor recovers every column, including the `TagBased` flag |
| Records.PostHistoryRoundTrip | internal/importer/importer.go:389-409 | the post-history row processor recovers every column |
| Records.PostHistoryFromColumns | internal/importer/importer.go:389-409 | any attribute map that carries each post-history column decodes to that row |
| Records.PostLinkRoundTrip | internal/importer/importer.go:427-440 | the post-links row processor recovers every column |
| Records.TagRoundTrip | internal/importer/importer.go:458-480 | the tags row processor recovers every column, including the null excerpt and wiki posts |
| Records.VoteRoundTrip | internal/importer/importer.go:518-543 | the votes row processor recovers every column, including a null user and bounty |
| Records.VoteFromColumns | internal/importer/importer.go:518-543 | any attribute map that carries each vote column decodes to that vote |
| Records.DecodeEncode | internal/importer/importer.go:131-546 | for every entity, decoding the dump's attributes of a record gives the record back |
| Records.EmptyRowDecodes | internal/importer/importer.go:148-167 | a `row` element without attributes is not an error: for every entity, it decodes to the record whose key and required integers are 0, nullable columns null, text columns empty, required timestamps the zero time and `TagBased` false, column by column |
| Upsert.Put | internal/importer/importer.go:161-166 | one insert adds the key; a new key stores the row; a taken key stores the policy's merge of the stored and incoming rows; every other key is unchanged |
| Upsert.PutAllFrame | internal/importer/importer.go:161-169 | loading a file adds exactly the keys of its rows and leaves every other stored row alone |
| Upsert.PutAllRefreshes | internal/importer/importer.go:139-141 | when every key is already stored, loading merges each stored row with the last row of its key, as if that row alone had come |
| Upsert.PutAllSettles | internal/importer/importer.go:139-141 | after loading, a further merge of each key's row with its last incoming row changes nothing |
| Upsert.PutAllSettledNoOp | internal/importer/importer.go:139-141 | loading rows into a table they have already settled leaves the table unchanged |
| Upsert.PutAllIdempotent | internal/importer/importer.go:139-141 | under an absorbing, self-stable policy, loading the same rows twice equals loading them once |
| Upsert.PutAllKeep | internal/importer/importer.go:303-307 | under `ON CONFLICT (id) DO NOTHING` every stored row stays as it was, and a key that was not stored holds the first row of the file with that key; later rows with the same key are dropped |
| Upsert.MergeUser | internal/importer/importer.go:139-141 | a user conflict takes reputation and display name from the incoming row and keeps every other stored column |
| Upsert.MergePost | internal/importer/importer.go:192-195 | a post conflict takes score, view count and answer count from the incoming row and keeps every other stored column |
| Upsert.PoliciesAreStable | internal/importer/importer.go:139-141 | all eight conflict policies are absorbing and self-stable, so re-importing is harmless |
| Repair.Keep | internal/importer/importer.go:265-289 | a reference survives exactly when it is set and points at an existing row |
| Repair.Repaired | internal/importer/importer.go:265-289 | a repaired post keeps each reference that points at an existing post or user, clears each other one, and leaves every non-reference column as it is |
| Repair.ClearSteps | internal/importer/importer.go:265-289 | the four UPDATEs applied in turn to a post give the repaired post |
| Repair.RepairIsPointwise | internal/importer/importer.go:265-289 | the batch of four UPDATEs over the table equals repairing each post on its own against the table's keys |
| Repair.RepairedStable | internal/importer/importer.go:265-289 | repairing a repaired post changes nothing |
| Repair.RepairedClosed | internal/importer/importer.go:265-289 | a post whose references all point at existing rows is left alone |
| Repair.RepairSpec | internal/importer/importer.go:265-289 | the repaired table keeps its keys and non-reference columns, and afterwards no reference dangles |
| Repair.RepairIdempotent | internal/importer/importer.go:265-289 | running the repair batch a second time changes nothing |
| Repair.RepairKeepsClosed | internal/importer/importer.go:265-289 | the batch leaves a table without dangling references unchanged |
| Loader.FoldInserts | internal/importer/importer.go:148-169 | feeding rows to the processor upserts, in order, every row before the first rejected one, and stops there with the insert error |
| Loader.LoadTableSpec | internal/importer/importer.go:148-169 | loading one file upserts the rows before the first rejected one; the error is the rejection, else the decoder's error, else none; a clean load counts every row |
| Loader.LoadTableIdempotent | internal/importer/importer.go:139-169 | loading again a file that loaded cleanly gives the same table and row count |
| Loader.UserTableLawful | internal/importer/importer.go:139-141 | the users table is addressed on its own, and its policy makes re-imports harmless |
| Loader.PostTableLawful | internal/importer/importer.go:192-195 | the posts table is addressed on its own, and its policy makes re-imports harmless |
| Loader.CommentTableLawful | internal/importer/importer.go:306 | the comments table is addressed on its own, and its policy makes re-imports harmless |
| Loader.BadgeTableLawful | internal/importer/importer.go:343 | the badges table is addressed on its own, and its policy makes re-imports harmless |
| Loader.PostHistoryTableLawful | internal/importer/importer.go:382 | the post-history table is addressed on its own, and its policy makes re-imports harmless |
| Loader.PostLinkTableLawful | internal/importer/importer.go:420 | the post-links table is addressed on its own, and its policy makes re-imports harmless |
| Loader.TagTableLawful | internal/importer/importer.go:451 | the tags table is addressed on its own, and its policy makes re-imports harmless |
| Loader.VoteTableLawful | internal/importer/importer.go:511 | the votes table is addressed on its own, and its policy makes re-imports harmless |
| Loader.LoadIntoFrame | internal/importer/importer.go:161-169 | loading one file changes only that file's table |
| Loader.LoadEntityFrame | internal/importer/importer.go:131-546 | each loader touches only its own table, whether it succeeds or fails |
| Loader.LoadEntityEarlyErrors | internal/importer/importer.go:172-199 | a failed DROP (posts only), a failed PREPARE, or a file that cannot be opened each return their error with the database unchanged |
| Loader.LoadIntoSpec | internal/importer/importer.go:131-169 | a clean load of a file upserts all its rows in document order into its table |
| Loader.LoadPostsSpec | internal/importer/importer.go:172-298 | a clean posts load upserts all its rows in order and then repairs them against the posts and users present at that point |
| Loader.LoadIntoIdempotent | internal/importer/importer.go:131-169 | reloading a file that loaded cleanly succeeds and changes nothing |
| Loader.RepairKeepsSettled | internal/importer/importer.go:192-195 | the repair batch does not disturb the columns a re-import of posts refreshes |
| Loader.LoadTableSettled | internal/importer/importer.go:139-169 | a file that loaded cleanly once loads cleanly into any table its rows have settled, and changes nothing there |
| Loader.PostsReload | internal/importer/importer.go:172-298 | the posts table after a clean load and repair is a fixed point of both the load and the repair |
| Loader.LoadPostsIdempotent | internal/importer/importer.go:172-298 | running the posts loader again after a clean run, with the drop, load and repair, changes nothing |
| Loader.LoadEntityIdempotent | internal/importer/importer.go:131-546 | every one of the eight loaders, run again after a clean run, succeeds and changes nothing |
| Xml.Base | internal/importer/xml.go:53 | `filepath.Base` of a path is never empty |
| Xml.BaseOfJoin | internal/importer/xml.go:53 | the base name of a directory joined with a file name is that file name |
| Xml.FirstMatch | internal/importer/xml.go:52-57 | the hint search returns the first file, in listing order, whose lower-cased base name contains the lower-cased hint |
| Xml.FindXmlFile | internal/importer/xml.go:39-62 | a found file is one of the listed files |
| Xml.FindXmlFileSpec | internal/importer/xml.go:39-62 | no files is an error naming the directory; an empty hint gives the first file; otherwise the result is the first match, and it is an error naming the hint exactly when nothing matches |
| Xml.AttrMap | internal/importer/xml.go:106-112 | every attribute's local name is a key of the map |
| Xml.AttrMapSpec | internal/importer/xml.go:106-112 | the map's keys are exactly the attributes' local names, and each key holds the value of the last attribute with that name |
| Xml.AttrMapKeys | internal/importer/xml.go:106-112 | the map's keys are exactly the attributes' local names |
| Xml.AttrMapLast | internal/importer/xml.go:106-112 | a repeated attribute name holds the value of its last occurrence |
| Xml.ParseTokensIsFold | internal/importer/xml.go:76-97 | the token loop passes exactly the `row` elements before the first malformed token to the processor, once each, in order; it stops at the first processor error, and reports a decoder error only when every earlier row succeeded |
| Xml.ParseXmlFileSucceeds | internal/importer/xml.go:64-104 | a file loads cleanly exactly when it decodes and every row processes; it then counts every `row` element |
| Xml.ParseTokensStopsAtError | internal/importer/xml.go:81-89 | once the loop has failed, nothing later in the document is looked at |
| Orchestrator.Hint | internal/importer/importer.go:99-111 | every entity is looked up by a non-empty hint |
| Orchestrator.Planned | internal/importer/importer.go:113-120 | the plan holds exactly the entities whose file is found, each with that file |
| Orchestrator.Execute | internal/importer/importer.go:113-125 | loaders run in plan order; the first error stops the run and is wrapped with its entity; without an error every planned loader ran |
| Orchestrator.ImportEachIsExecute | internal/importer/importer.go:113-125 | the `importSite` loop equals looking every file up first and then running the found loaders; a missing file only drops its entity |
| Orchestrator.PlannedKeepsOrder | internal/importer/importer.go:99-120 | the plan keeps the order of the entity list |
| Orchestrator.ImportOrderRanks | internal/importer/importer.go:99-111 | the import order lists every entity, in rank order |
| Orchestrator.ImportSitePlan | internal/importer/importer.go:96-129 | a site loads exactly the entities whose file is found, each with that file, in the order users, posts, comments, badges, post history, post links, tags, votes |
| Orchestrator.ImportSiteRuns | internal/importer/importer.go:113-125 | `importSite` runs a prefix of its plan; the first loader error ends it, wrapped with that entity; a clean run ran the whole plan |
| Orchestrator.LoadersFramed | internal/importer/importer.go:131-546 | each loader touches its own table only |
| Orchestrator.ExecuteFrame | internal/importer/importer.go:113-125 | running a plan changes only the tables of the loaders it ran, and never the view |
| Orchestrator.ImportSiteFrame | internal/importer/importer.go:96-129 | `importSite` leaves the view, and every table whose loader it did not run, as they were |
| Orchestrator.EmptySiteIsNoOp | internal/importer/importer.go:115-120 | a directory without `.xml` files imports nothing and succeeds |
| Orchestrator.RefreshIdempotent | internal/importer/importer.go:67-94 | the refresh succeeds exactly when the lookup succeeds and the view is missing or rebuilds; a failed lookup is reported as such and any other failure as a refresh error, and a failure changes nothing; a clean refresh of an existing view rebuilds it from the posts table; the view is never created or dropped, no table changes, and a second refresh after a clean one changes nothing |
| Orchestrator.ImportAllSpec | internal/importer/importer.go:36-65 | a failed extraction changes nothing and runs no loader; a failed main import is returned before the meta site is looked at; a failed meta import is returned as it stands, without the refresh; after two clean imports the result is the refresh's; a clean run loads every planned file of both sites, main first, and leaves the view refreshed when it exists |
| Queries.TransactionAnywhere | internal/queries/queries.go:143-149 | a query with a transaction keyword is still flagged with any text around it |
| Queries.TransactionIgnoresCase | internal/queries/queries.go:143-149 | two queries that are equal up to letter case are both flagged, or neither is |
| Queries.TransactionWithoutSpaces | internal/queries/queries.go:143-149 | in a query without spaces only `begin` and `commit` count, since `create` and `alter` need a trailing space |
| Queries.StripExplainAnalyze | internal/queries/queries.go:151-165 | a query without the marker, in any letter case, is returned as it is; otherwise the result is a suffix, shorter by at least the marker, that does not start with white space |
| Queries.StripSpec | internal/queries/queries.go:151-165 | what is cut is exactly the text up to the first case-insensitive marker plus the spaces, tabs and line breaks after it |
| Queries.StrippedAtUnique | internal/queries/queries.go:151-165 | the relational description of the cut determines its result uniquely |
| Queries.StripLeadingMarker | internal/queries/queries.go:151-165 | a query made of the marker in any letter case, white space and a body gives back the body |
| Queries.StripSettles | internal/queries/queries.go:151-165 | when the result has no marker left, stripping it again changes nothing |
| Queries.ExplainQuerySpec | internal/queries/queries.go:85-141 | an unreadable file is a read error and nothing is sent; a file with a transaction keyword is skipped successfully; otherwise the explain request and then the query itself are sent; the plan is saved exactly when the explain succeeds, and the result is the plain run's, whatever became of the plan |
| Queries.RunEach | internal/queries/queries.go:175-188 | each path gives one report, in order: skipped when missing, explained otherwise |
| Queries.RunAnalyticalQueries | internal/queries/queries.go:168-192 | the run reports on exactly two files and never returns an error |
| Queries.AnalyticalQueriesIndependent | internal/queries/queries.go:168-192 | `q1.sql` and `q2.sql` are each explained when present and skipped when missing, independently of one another |
| Postgres.Split | internal/database/postgres.go:86 | `strings.Split` with a non-empty separator yields at least one piece |
| Postgres.SplitPieces | internal/database/postgres.go:86-89 | there is a single piece exactly when the separator does not occur, and no piece contains it |
| Postgres.JoinSplit | internal/database/postgres.go:86 | joining the pieces with the separator gives the text back |
| Postgres.ExtractQueryText | internal/database/postgres.go:86-90 | a file without the exact upper-case marker is an error naming the file; otherwise the query contains no marker |
| Postgres.SecondPiece | internal/database/postgres.go:90 | when the separator occurs, there are at least two pieces, and the second is the segment after the first separator |
| Postgres.NextSegmentSpec | internal/database/postgres.go:90 | the segment after the first separator starts right behind it and ends at the end of the text or at the next separator |
| Postgres.ExtractSpec | internal/database/postgres.go:86-90 | the extracted query is the text between the first marker and the second, or the end of the file |
| Postgres.ExtractSingle | internal/database/postgres.go:86-90 | with exactly one marker, the query is everything after it |
| Postgres.CaseSensitiveUnlikeRunner | internal/database/postgres.go:86-89 | a file whose marker is not upper-case is rejected by this step, though `stripExplainAnalyze` would cut it |

## Left out

- Archive extraction (`7z` through `exec.Command`) is a yes/no oracle `Disk.extracts`; the command line and its output are not modelled.
- SQL execution is an oracle. `Backend` says whether each statement succeeds. The effect of an INSERT is the conflict policy over a map keyed by `id`; the effect of the repair batch is `Repair.RepairPosts`; the `post_tags` view is a copy of the posts table. `Backend.accepts` depends on the row alone, so whether a row is accepted never depends on what the tables hold; the idempotence lemmas rely on this.
- The text of the SQL statements, the `extract_tags` expression of the view, and the DROP CONSTRAINT statements' effect on foreign keys are not modelled beyond whether they succeed.
- Coerce.ParseLayout: accepts exactly the fixed 23-character shape of `2006-01-02T15:04:05.000` with range checks. It does not model the extra forms Go's `time.Parse` also accepts, such as a comma before the fraction.
- Coerce.Atoi: parses into unbounded integers. It does not model the 64-bit range limit of `strconv.Atoi`/`ParseInt`, which returns an error and a clamped value on overflow.
- Ascii.Lower: lowers ASCII letters only, while Go's `strings.ToLower` folds Unicode. The keywords compared against are ASCII, but Go also maps some non-ASCII letters to ASCII ones: it lowers `İ` (U+0130) to `i`, so Go's `containsTransaction` flags `BEGİN` and the model does not. Go's lowering can also change the byte length of the text, which shifts the indices `stripExplainAnalyze` cuts at; the model keeps the length.
- Paths are joined with `/` without `filepath.Join`'s cleaning. An error from `filepath.Glob` (a malformed pattern) is not modelled, and the listing is an input.
- Logging, progress counters, configuration, the command-line entry point and the `models` package are not modelled. None of them affects what is stored or returned.
- Queries.ExecuteQuery: result scanning, the JSON result file, the plan file and the output directory are not modelled, so neither are the errors from creating them. A saved plan is a flag.
- Postgres.ExtractQueryText: only the extraction step of `ExecuteQueryFile` is modelled. The run of the full text as a plan, the run of the extracted query, and the file read before the split are not.
- Postgres.CaseSensitiveUnlikeRunner: the lemma holds for every text that meets its two conditions. No concrete such text is exhibited.
- Concurrency: the importer is single-threaded, and the model is sequential.

## Behaviour worth noting

- A malformed nullable integer is stored as 0: the `ParseInt` error is discarded (`Coerce.NullableInt`).
- An absent or malformed required timestamp is stored as the zero time, and the row is still inserted: `parseTime`'s error is discarded (`Coerce.RequiredTime`, `Records.EmptyRowDecodes`).
- A malformed nullable timestamp is stored as null and not reported (`Coerce.NullableTime`).
- The query runner finds `EXPLAIN ANALYZE` in any letter case. `ExecuteQueryFile` requires it in upper case (`Postgres.CaseSensitiveUnlikeRunner`).
