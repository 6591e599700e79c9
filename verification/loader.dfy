/** The eight `import<Entity>` methods of internal/importer/importer.go.
    Each prepares its INSERT, feeds every `row` element of its dump file
    through a row processor that decodes the attributes and executes the
    statement, and returns the first error. The posts loader first drops
    the posts foreign keys and, after the last row, runs the repair batch.

    The database is a parameter: a `Backend` says which statements succeed.
    A failed statement changes nothing, and every statement that succeeded
    before it stays in effect (the importer runs no transaction). */
module Loader {
  import opened Wrappers
  import opened Schema
  import opened Coerce
  import opened Xml
  import opened Records
  import opened Upsert
  import Repair

  /** Which statements the database accepts. An INSERT is accepted or
      rejected on the row alone. */
  datatype Backend = Backend(
    dropOk: bool,
    prepareOk: Entity -> bool,
    accepts: Record -> bool,
    repairOk: bool,
    lookupOk: bool,
    refreshOk: bool)

  /** What one loader needs to know about its table: the row processor's
      decoding, the primary key, the conflict policy, and where the table
      sits in the database. */
  datatype Table<!R> = Table(
    kind: Entity,
    decode: Attrs -> R,
    wrap: R -> Record,
    id: R -> int,
    merge: (R, R) -> R,
    get: Tables -> map<int, R>,
    put: (Tables, map<int, R>) -> Tables)

  /** `get` and `put` address one table of the database and nothing else. */
  ghost predicate Lens<R(!new)>(tb: Table<R>) {
    && (forall t, m :: tb.get(tb.put(t, m)) == m)
    && (forall t :: tb.put(t, tb.get(t)) == t)
    && (forall t, m1, m2 :: tb.put(tb.put(t, m1), m2) == tb.put(t, m2))
  }

  /** A table whose conflict policy makes re-imports harmless. */
  ghost predicate Lawful<R(!new)>(tb: Table<R>) {
    Lens(tb) && Absorbs(tb.merge) && SelfStable(tb.merge)
  }

  // ----- one row -----

  function RowOf<R>(tb: Table<R>, e: StartElement): R {
    tb.decode(AttrMap(e.attrs))
  }

  /** The row processor: decode, then `insertStmt.Exec`. */
  function Insert<R>(tb: Table<R>, b: Backend, m: map<int, R>, e: StartElement): Run<map<int, R>> {
    var row := RowOf(tb, e);
    if b.accepts(tb.wrap(row)) then Run(Put(m, tb.id(row), row, tb.merge), None)
    else Run(m, Some(InsertFailed(tb.kind)))
  }

  function Processor<R>(tb: Table<R>, b: Backend): (map<int, R>, StartElement) -> Run<map<int, R>> {
    (m: map<int, R>, e: StartElement) => Insert(tb, b, m, e)
  }

  // ----- one file -----

  /** The rows a sequence of `row` elements decodes to. */
  function Decoded<R>(tb: Table<R>, rows: seq<StartElement>): (d: seq<R>)
    ensures |d| == |rows|
    ensures forall i :: 0 <= i < |rows| ==> d[i] == RowOf(tb, rows[i])
  {
    if |rows| == 0 then [] else [RowOf(tb, rows[0])] + Decoded(tb, rows[1..])
  }

  /** The position of the first row the database rejects, `|rows|` if none. */
  function FirstRejected<R>(tb: Table<R>, b: Backend, rows: seq<StartElement>): (j: nat)
    ensures j <= |rows|
    ensures forall i :: 0 <= i < j ==> b.accepts(tb.wrap(RowOf(tb, rows[i])))
    ensures j < |rows| ==> !b.accepts(tb.wrap(RowOf(tb, rows[j])))
  {
    if |rows| == 0 || !b.accepts(tb.wrap(RowOf(tb, rows[0]))) then 0
    else 1 + FirstRejected(tb, b, rows[1..])
  }

  /** Feeding rows to the processor inserts every row before the first
      rejected one, in order, and stops there with the INSERT's error. */
  lemma {:induction false} FoldInserts<R>(tb: Table<R>, b: Backend, m: map<int, R>, rows: seq<StartElement>)
    decreases |rows|
    ensures var j := FirstRejected(tb, b, rows);
      FoldRows(Processor(tb, b), m, rows)
        == Run(PutAll(m, Decoded(tb, rows[..j]), tb.id, tb.merge),
               if j < |rows| then Some(InsertFailed(tb.kind)) else None)
  {
    if |rows| > 0 && b.accepts(tb.wrap(RowOf(tb, rows[0]))) {
      var row := RowOf(tb, rows[0]);
      var m1 := Put(m, tb.id(row), row, tb.merge);
      FoldInserts(tb, b, m1, rows[1..]);
      var j := FirstRejected(tb, b, rows);
      assert rows[..j][1..] == rows[1..][..j - 1];
    }
  }

  /** `parseXmlFile` with this table's row processor. */
  function LoadTable<R>(tb: Table<R>, b: Backend, path: string, contents: map<string, seq<Token>>,
                        m: map<int, R>): Scan<map<int, R>> {
    ParseXmlFile(path, contents, Processor(tb, b), m)
  }

  /** What loading one file does to its table: the rows before the first
      rejected one go in; the error is the rejection, else the decoder's
      error, else none. */
  lemma LoadTableSpec<R>(tb: Table<R>, b: Backend, path: string, contents: map<string, seq<Token>>,
                         m: map<int, R>)
    requires path in contents
    ensures var rows := RowsOf(contents[path]);
      var j := FirstRejected(tb, b, rows);
      var r := LoadTable(tb, b, path, contents, m);
      && r.state == PutAll(m, Decoded(tb, rows[..j]), tb.id, tb.merge)
      && r.err == (if j < |rows| then Some(RowFailed(InsertFailed(tb.kind)))
                   else if DecodeError(contents[path]).Some? then Some(DecodeFailed(DecodeError(contents[path]).value))
                   else None)
      && (r.err.None? ==> r.rows == |rows|)
  {
    ParseTokensIsFold(contents[path], Processor(tb, b), m, 0);
    FoldInserts(tb, b, m, RowsOf(contents[path]));
  }

  /** A file that loaded cleanly loads again to the same table. */
  lemma LoadTableIdempotent<R(!new)>(tb: Table<R>, b: Backend, path: string,
                                     contents: map<string, seq<Token>>, m: map<int, R>)
    requires Absorbs(tb.merge) && SelfStable(tb.merge)
    requires LoadTable(tb, b, path, contents, m).err.None?
    ensures var r := LoadTable(tb, b, path, contents, m);
      LoadTable(tb, b, path, contents, r.state) == r
  {
    var r := LoadTable(tb, b, path, contents, m);
    assert path in contents;
    var rows := RowsOf(contents[path]);
    LoadTableSpec(tb, b, path, contents, m);
    LoadTableSpec(tb, b, path, contents, r.state);
    assert rows[..|rows|] == rows;
    PutAllIdempotent(m, Decoded(tb, rows), tb.id, tb.merge);
  }

  /** Loading one file into its table of the database. */
  function LoadInto<R>(tb: Table<R>, b: Backend, path: string, contents: map<string, seq<Token>>,
                       t: Tables): Run<Tables> {
    var s := LoadTable(tb, b, path, contents, tb.get(t));
    Run(tb.put(t, s.state), s.err)
  }

  // ----- the eight tables -----

  const UserTable: Table<UserRow> := Table(Users, DecodeUser, (x: UserRow) => UserRec(x),
    (x: UserRow) => x.id, MergeUser, (t: Tables) => t.users,
    (t: Tables, m: map<int, UserRow>) => t.(users := m))

  const PostTable: Table<PostRow> := Table(Posts, DecodePost, (x: PostRow) => PostRec(x),
    (x: PostRow) => x.id, MergePost, (t: Tables) => t.posts,
    (t: Tables, m: map<int, PostRow>) => t.(posts := m))

  const CommentTable: Table<CommentRow> := Table(Comments, DecodeComment,
    (x: CommentRow) => CommentRec(x), (x: CommentRow) => x.id,
    (s: CommentRow, i: CommentRow) => Keep(s, i), (t: Tables) => t.comments,
    (t: Tables, m: map<int, CommentRow>) => t.(comments := m))

  const BadgeTable: Table<BadgeRow> := Table(Badges, DecodeBadge,
    (x: BadgeRow) => BadgeRec(x), (x: BadgeRow) => x.id,
    (s: BadgeRow, i: BadgeRow) => Keep(s, i), (t: Tables) => t.badges,
    (t: Tables, m: map<int, BadgeRow>) => t.(badges := m))

  const PostHistoryTable: Table<PostHistoryRow> := Table(PostHistory, DecodePostHistory,
    (x: PostHistoryRow) => PostHistoryRec(x), (x: PostHistoryRow) => x.id,
    (s: PostHistoryRow, i: PostHistoryRow) => Keep(s, i), (t: Tables) => t.postHistory,
    (t: Tables, m: map<int, PostHistoryRow>) => t.(postHistory := m))

  const PostLinkTable: Table<PostLinkRow> := Table(PostLinks, DecodePostLink,
    (x: PostLinkRow) => PostLinkRec(x), (x: PostLinkRow) => x.id,
    (s: PostLinkRow, i: PostLinkRow) => Keep(s, i), (t: Tables) => t.postLinks,
    (t: Tables, m: map<int, PostLinkRow>) => t.(postLinks := m))

  const TagTable: Table<TagRow> := Table(Tags, DecodeTag,
    (x: TagRow) => TagRec(x), (x: TagRow) => x.id,
    (s: TagRow, i: TagRow) => Keep(s, i), (t: Tables) => t.tags,
    (t: Tables, m: map<int, TagRow>) => t.(tags := m))

  const VoteTable: Table<VoteRow> := Table(Votes, DecodeVote,
    (x: VoteRow) => VoteRec(x), (x: VoteRow) => x.id,
    (s: VoteRow, i: VoteRow) => Keep(s, i), (t: Tables) => t.votes,
    (t: Tables, m: map<int, VoteRow>) => t.(votes := m))

  /** `put` of a descriptor changes its own table only. */
  ghost predicate PutFrame<R(!new)>(tb: Table<R>) {
    forall t, m :: SameExcept(t, tb.put(t, m), tb.kind)
  }

  /** Every table descriptor is lawful and touches its own table only. */
  lemma UserTableLawful()
    ensures Lawful(UserTable) && PutFrame(UserTable)
  {
    PoliciesAreStable();
  }

  lemma PostTableLawful()
    ensures Lawful(PostTable) && PutFrame(PostTable)
  {
    PoliciesAreStable();
  }

  lemma CommentTableLawful()
    ensures Lawful(CommentTable) && PutFrame(CommentTable)
  {
    PoliciesAreStable();
  }

  lemma BadgeTableLawful()
    ensures Lawful(BadgeTable) && PutFrame(BadgeTable)
  {
    PoliciesAreStable();
  }

  lemma PostHistoryTableLawful()
    ensures Lawful(PostHistoryTable) && PutFrame(PostHistoryTable)
  {
    PoliciesAreStable();
  }

  lemma PostLinkTableLawful()
    ensures Lawful(PostLinkTable) && PutFrame(PostLinkTable)
  {
    PoliciesAreStable();
  }

  lemma TagTableLawful()
    ensures Lawful(TagTable) && PutFrame(TagTable)
  {
    PoliciesAreStable();
  }

  lemma VoteTableLawful()
    ensures Lawful(VoteTable) && PutFrame(VoteTable)
  {
    PoliciesAreStable();
  }

  // ----- the loaders -----

  /** `importUsers`, `importComments`, …: prepare the INSERT, then load the
      file. The posts loader drops the posts foreign keys first and repairs
      dangling references last. */
  function LoadEntity(kind: Entity, b: Backend, path: string, contents: map<string, seq<Token>>,
                      t: Tables): Run<Tables> {
    if kind == Posts then LoadPosts(b, path, contents, t)
    else if !b.prepareOk(kind) then Run(t, Some(PrepareFailed(kind)))
    else match kind
      case Users => LoadInto(UserTable, b, path, contents, t)
      case Comments => LoadInto(CommentTable, b, path, contents, t)
      case Badges => LoadInto(BadgeTable, b, path, contents, t)
      case PostHistory => LoadInto(PostHistoryTable, b, path, contents, t)
      case PostLinks => LoadInto(PostLinkTable, b, path, contents, t)
      case Tags => LoadInto(TagTable, b, path, contents, t)
      case Votes => LoadInto(VoteTable, b, path, contents, t)
  }

  /** `importPosts`: the DROP CONSTRAINT batch, the INSERT, the file, and the
      repair batch, which runs only when every row went in. */
  function LoadPosts(b: Backend, path: string, contents: map<string, seq<Token>>, t: Tables): Run<Tables> {
    if !b.dropOk then Run(t, Some(DropConstraintsFailed))
    else if !b.prepareOk(Posts) then Run(t, Some(PrepareFailed(Posts)))
    else
      var r := LoadInto(PostTable, b, path, contents, t);
      if r.err.Some? then r
      else if !b.repairOk then Run(r.state, Some(RepairFailed))
      else Run(r.state.(posts := Repair.RepairPosts(r.state.posts, r.state.users.Keys)), None)
  }

  /** Two databases that differ at most in the table of `kind`. */
  predicate SameExcept(t: Tables, u: Tables, kind: Entity) {
    && (kind != Users ==> u.users == t.users)
    && (kind != Posts ==> u.posts == t.posts)
    && (kind != Comments ==> u.comments == t.comments)
    && (kind != Badges ==> u.badges == t.badges)
    && (kind != PostHistory ==> u.postHistory == t.postHistory)
    && (kind != PostLinks ==> u.postLinks == t.postLinks)
    && (kind != Tags ==> u.tags == t.tags)
    && (kind != Votes ==> u.votes == t.votes)
    && u.postTags == t.postTags
  }

  /** Loading one file changes the file's table only. */
  lemma LoadIntoFrame<R(!new)>(tb: Table<R>, b: Backend, path: string, contents: map<string, seq<Token>>, t: Tables)
    requires PutFrame(tb)
    ensures SameExcept(t, LoadInto(tb, b, path, contents, t).state, tb.kind)
  {
  }

  /** A loader touches its own table only, whether it succeeds or fails. */
  lemma LoadEntityFrame(kind: Entity, b: Backend, path: string, contents: map<string, seq<Token>>, t: Tables)
    ensures SameExcept(t, LoadEntity(kind, b, path, contents, t).state, kind)
  {
    match kind
    case Users => UserTableLawful(); LoadIntoFrame(UserTable, b, path, contents, t);
    case Posts => PostTableLawful(); LoadIntoFrame(PostTable, b, path, contents, t);
    case Comments => CommentTableLawful(); LoadIntoFrame(CommentTable, b, path, contents, t);
    case Badges => BadgeTableLawful(); LoadIntoFrame(BadgeTable, b, path, contents, t);
    case PostHistory => PostHistoryTableLawful(); LoadIntoFrame(PostHistoryTable, b, path, contents, t);
    case PostLinks => PostLinkTableLawful(); LoadIntoFrame(PostLinkTable, b, path, contents, t);
    case Tags => TagTableLawful(); LoadIntoFrame(TagTable, b, path, contents, t);
    case Votes => VoteTableLawful(); LoadIntoFrame(VoteTable, b, path, contents, t);
  }

  /** The failures that leave the database untouched: a failed DROP or
      PREPARE, and a missing file. */
  lemma LoadEntityEarlyErrors(kind: Entity, b: Backend, path: string, contents: map<string, seq<Token>>, t: Tables)
    ensures kind == Posts && !b.dropOk ==> LoadEntity(kind, b, path, contents, t) == Run(t, Some(DropConstraintsFailed))
    ensures (kind != Posts || b.dropOk) && !b.prepareOk(kind) ==>
      LoadEntity(kind, b, path, contents, t) == Run(t, Some(PrepareFailed(kind)))
    ensures (kind != Posts || b.dropOk) && b.prepareOk(kind) && path !in contents ==>
      LoadEntity(kind, b, path, contents, t) == Run(t, Some(OpenFailed(path)))
  {
    match kind
    case Users => UserTableLawful();
    case Posts => PostTableLawful();
    case Comments => CommentTableLawful();
    case Badges => BadgeTableLawful();
    case PostHistory => PostHistoryTableLawful();
    case PostLinks => PostLinkTableLawful();
    case Tags => TagTableLawful();
    case Votes => VoteTableLawful();
  }

  // ----- successful loads -----

  /** The rows a dump file decodes to, for one table. */
  function FileRows<R>(tb: Table<R>, path: string, contents: map<string, seq<Token>>): seq<R>
    requires path in contents
  {
    Decoded(tb, RowsOf(contents[path]))
  }

  /** A clean load of a table other than posts is its rows upserted in
      document order. */
  lemma LoadIntoSpec<R(!new)>(tb: Table<R>, b: Backend, path: string, contents: map<string, seq<Token>>, t: Tables)
    requires Lens(tb)
    ensures var r := LoadInto(tb, b, path, contents, t);
      r.err.None? ==>
        path in contents && r.state == tb.put(t, PutAll(tb.get(t), FileRows(tb, path, contents), tb.id, tb.merge))
  {
    if path in contents {
      var rows := RowsOf(contents[path]);
      LoadTableSpec(tb, b, path, contents, tb.get(t));
      if LoadInto(tb, b, path, contents, t).err.None? {
        assert rows[..|rows|] == rows;
      }
    }
  }

  /** A clean posts load is its rows upserted in document order, then the
      repair batch run against the users present at that point. */
  lemma LoadPostsSpec(b: Backend, path: string, contents: map<string, seq<Token>>, t: Tables)
    ensures var r := LoadPosts(b, path, contents, t);
      r.err.None? ==>
        path in contents
        && var loaded := PutAll(t.posts, FileRows(PostTable, path, contents), PostTable.id, MergePost);
           r.state == t.(posts := Repair.RepairPosts(loaded, t.users.Keys))
  {
    if b.dropOk && b.prepareOk(Posts) {
      var l := LoadInto(PostTable, b, path, contents, t);
      if l.err.None? {
        PostTableLawful();
        LoadIntoSpec(PostTable, b, path, contents, t);
        assert l.state.users == t.users;
      }
    }
  }

  /** Loading a file that already loaded cleanly leaves the database as it
      is, for the tables with a plain upsert. */
  lemma LoadIntoIdempotent<R(!new)>(tb: Table<R>, b: Backend, path: string, contents: map<string, seq<Token>>, t: Tables)
    requires Lawful(tb)
    requires LoadInto(tb, b, path, contents, t).err.None?
    ensures var u := LoadInto(tb, b, path, contents, t).state;
      LoadInto(tb, b, path, contents, u) == Run(u, None)
  {
    LoadTableIdempotent(tb, b, path, contents, tb.get(t));
  }

  /** Re-importing a post merges in the score, view count and answer count it
      already has: a repaired table stays settled. */
  lemma RepairKeepsSettled(posts: map<int, PostRow>, rows: seq<PostRow>, users: set<int>)
    requires Settled(posts, rows, PostTable.id, PostTable.merge)
    ensures Settled(Repair.RepairPosts(posts, users), rows, PostTable.id, PostTable.merge)
  {
    Repair.RepairIsPointwise(posts, users);
    var r := Repair.RepairPosts(posts, users);
    forall k | k in Ids(rows, PostTable.id)
      ensures MergePost(r[k], Last(rows, PostTable.id, k)) == r[k]
    {
      var last := Last(rows, PostTable.id, k);
      assert MergePost(posts[k], last) == posts[k];
      assert posts[k].score == last.score && posts[k].viewCount == last.viewCount;
      assert r[k] == Repair.Repaired(posts[k], posts.Keys, users);
    }
  }

  /** A file that loaded cleanly once loads cleanly into any table its rows
      have settled, and changes nothing there. */
  lemma LoadTableSettled<R(!new)>(tb: Table<R>, b: Backend, path: string, contents: map<string, seq<Token>>,
                                  m: map<int, R>, m2: map<int, R>)
    requires Absorbs(tb.merge)
    requires LoadTable(tb, b, path, contents, m).err.None?
    requires path in contents && Settled(m2, FileRows(tb, path, contents), tb.id, tb.merge)
    ensures LoadTable(tb, b, path, contents, m2) == Scan(m2, LoadTable(tb, b, path, contents, m).rows, None)
  {
    var all := RowsOf(contents[path]);
    LoadTableSpec(tb, b, path, contents, m);
    LoadTableSpec(tb, b, path, contents, m2);
    assert all[..|all|] == all;
    PutAllSettledNoOp(m2, FileRows(tb, path, contents), tb.id, tb.merge);
  }

  /** Loading the posts file a second time, after a clean first load, leaves
      the database as the first load left it. */
  lemma LoadPostsIdempotent(b: Backend, path: string, contents: map<string, seq<Token>>, t: Tables)
    requires LoadPosts(b, path, contents, t).err.None?
    ensures var u := LoadPosts(b, path, contents, t).state;
      LoadPosts(b, path, contents, u) == Run(u, None)
  {
    var first := LoadTable(PostTable, b, path, contents, t.posts);
    PostsReload(b, path, contents, t.posts, t.users.Keys);
    var u := t.(posts := Repair.RepairPosts(first.state, t.users.Keys));
    LoadPostsAgain(b, path, contents, u, first.rows);
  }

  /** After a load, the posts table is settled by the rows of the file. */
  lemma PostsSettle(posts: map<int, PostRow>, rows: seq<PostRow>)
    ensures Settled(PutAll(posts, rows, PostTable.id, PostTable.merge), rows, PostTable.id, PostTable.merge)
  {
    PostTableLawful();
    PutAllFrame(posts, rows, PostTable.id, PostTable.merge);
    PutAllSettles(posts, rows, PostTable.id, PostTable.merge);
  }

  /** The posts table after a clean load and repair is a fixed point of both. */
  lemma PostsReload(b: Backend, path: string, contents: map<string, seq<Token>>,
                    posts: map<int, PostRow>, users: set<int>)
    requires LoadTable(PostTable, b, path, contents, posts).err.None?
    ensures var first := LoadTable(PostTable, b, path, contents, posts);
      var repaired := Repair.RepairPosts(first.state, users);
      && LoadTable(PostTable, b, path, contents, repaired) == Scan(repaired, first.rows, None)
      && Repair.RepairPosts(repaired, users) == repaired
  {
    var first := LoadTable(PostTable, b, path, contents, posts);
    var loaded := first.state;
    assert path in contents;
    var rows := FileRows(PostTable, path, contents);
    assert loaded == PutAll(posts, rows, PostTable.id, PostTable.merge) by {
      var all := RowsOf(contents[path]);
      LoadTableSpec(PostTable, b, path, contents, posts);
      assert all[..|all|] == all;
    }
    assert Settled(Repair.RepairPosts(loaded, users), rows, PostTable.id, PostTable.merge) by {
      PostsSettle(posts, rows);
      RepairKeepsSettled(loaded, rows, users);
    }
    LoadTableSettled(PostTable, b, path, contents, posts, Repair.RepairPosts(loaded, users));
    Repair.RepairIdempotent(loaded, users);
  }

  /** The second run of the posts loader, given that its file leaves the
      posts table as it is and the repair batch finds nothing to do. */
  lemma LoadPostsAgain(b: Backend, path: string, contents: map<string, seq<Token>>, u: Tables, n: nat)
    requires b.dropOk && b.prepareOk(Posts) && b.repairOk
    requires LoadTable(PostTable, b, path, contents, u.posts) == Scan(u.posts, n, None)
    requires Repair.RepairPosts(u.posts, u.users.Keys) == u.posts
    ensures LoadPosts(b, path, contents, u) == Run(u, None)
  {
  }

  /** Every loader is idempotent: running it again over the same file after
      a clean run changes nothing and succeeds. */
  lemma LoadEntityIdempotent(kind: Entity, b: Backend, path: string, contents: map<string, seq<Token>>, t: Tables)
    requires LoadEntity(kind, b, path, contents, t).err.None?
    ensures var u := LoadEntity(kind, b, path, contents, t).state;
      LoadEntity(kind, b, path, contents, u) == Run(u, None)
  {
    match kind
    case Users => UserTableLawful(); LoadIntoIdempotent(UserTable, b, path, contents, t);
    case Posts => LoadPostsIdempotent(b, path, contents, t);
    case Comments => CommentTableLawful(); LoadIntoIdempotent(CommentTable, b, path, contents, t);
    case Badges => BadgeTableLawful(); LoadIntoIdempotent(BadgeTable, b, path, contents, t);
    case PostHistory => PostHistoryTableLawful(); LoadIntoIdempotent(PostHistoryTable, b, path, contents, t);
    case PostLinks => PostLinkTableLawful(); LoadIntoIdempotent(PostLinkTable, b, path, contents, t);
    case Tags => TagTableLawful(); LoadIntoIdempotent(TagTable, b, path, contents, t);
    case Votes => VoteTableLawful(); LoadIntoIdempotent(VoteTable, b, path, contents, t);
  }
}
