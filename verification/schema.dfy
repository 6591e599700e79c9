/** The relational side of the importer: the eight entity kinds, the typed
    row each loader inserts (one field per column of its INSERT statement,
    in the statement's column order), the in-memory stand-in for the
    database and the errors the import can report. */
module Schema {
  import opened Wrappers

  /** The entity kinds, one per dump file and per table. */
  datatype Entity = Users | Posts | Comments | Badges | PostHistory | PostLinks | Tags | Votes

  /** A timestamp as Go's `time.Time` holds it after parsing the layout
      `2006-01-02T15:04:05.000` (milliseconds precision, no zone). */
  datatype Time = Time(year: int, month: int, day: int, hour: int, minute: int, second: int, milli: int)

  /** Go's zero `time.Time`: January 1 of year 1, 00:00:00.000. */
  const ZeroTime := Time(1, 1, 1, 0, 0, 0, 0)

  datatype UserRow = UserRow(
    id: int, reputation: int, displayName: string, aboutMe: string,
    websiteUrl: string, location: string, creationDate: Time, lastAccessDate: Time,
    views: int, upVotes: int, downVotes: int, accountId: int)

  datatype PostRow = PostRow(
    id: int, postTypeId: int, acceptedAnswerId: Option<int>, creationDate: Time,
    score: int, viewCount: Option<int>, body: string, ownerUserId: Option<int>,
    lastEditorUserId: Option<int>, lastEditDate: Option<Time>, lastActivityDate: Option<Time>,
    title: string, tags: string, answerCount: int, commentCount: int, favoriteCount: int,
    closedDate: Option<Time>, parentId: Option<int>, communityOwnedDate: Option<Time>)

  datatype CommentRow = CommentRow(
    id: int, postId: int, userId: Option<int>, score: int, text: string, creationDate: Time)

  datatype BadgeRow = BadgeRow(
    id: int, userId: int, name: string, date: Time, badgeClass: int, tagBased: bool)

  datatype PostHistoryRow = PostHistoryRow(
    id: int, postId: int, userId: Option<int>, postHistoryTypeId: int,
    revisionGuid: string, creationDate: Time, text: string, comment: string)

  datatype PostLinkRow = PostLinkRow(
    id: int, creationDate: Time, postId: int, relatedPostId: int, linkTypeId: int)

  datatype TagRow = TagRow(
    id: int, tagName: string, count: int, excerptPostId: Option<int>, wikiPostId: Option<int>)

  datatype VoteRow = VoteRow(
    id: int, postId: int, voteTypeId: int, userId: Option<int>,
    creationDate: Time, bountyAmount: Option<int>)

  /** One decoded row of any kind: the argument list of one `insertStmt.Exec`. */
  datatype Record =
    | UserRec(user: UserRow)
    | PostRec(post: PostRow)
    | CommentRec(comment: CommentRow)
    | BadgeRec(badge: BadgeRow)
    | PostHistoryRec(history: PostHistoryRow)
    | PostLinkRec(link: PostLinkRow)
    | TagRec(tag: TagRow)
    | VoteRec(vote: VoteRow)

  /** The entity kind a record belongs to. */
  function KindOf(r: Record): Entity {
    match r
    case UserRec(_) => Users
    case PostRec(_) => Posts
    case CommentRec(_) => Comments
    case BadgeRec(_) => Badges
    case PostHistoryRec(_) => PostHistory
    case PostLinkRec(_) => PostLinks
    case TagRec(_) => Tags
    case VoteRec(_) => Votes
  }

  /** The materialized view `post_tags`: absent until created outside the
      importer; once present it holds the posts table as of its last refresh. */
  datatype View = Absent | Present(source: map<int, PostRow>)

  /** The database: one table per entity, keyed by primary key, plus the view. */
  datatype Tables = Tables(
    users: map<int, UserRow>,
    posts: map<int, PostRow>,
    comments: map<int, CommentRow>,
    badges: map<int, BadgeRow>,
    postHistory: map<int, PostHistoryRow>,
    postLinks: map<int, PostLinkRow>,
    tags: map<int, TagRow>,
    votes: map<int, VoteRow>,
    postTags: View)

  /** The errors the import can report. Go wraps errors with `%w`; the
      wrapping constructors keep the cause. */
  datatype Error =
    | ExtractFailed(archive: string)
    | NoXmlFiles(directory: string)
    | NoMatchingFile(directory: string, hint: string)
    | OpenFailed(path: string)
    | DecodeFailed(offset: nat)
    | RowFailed(cause: Error)
    | InsertFailed(kind: Entity)
    | PrepareFailed(kind: Entity)
    | DropConstraintsFailed
    | RepairFailed
    | EntityFailed(kind: Entity, cause: Error)
    | ViewLookupFailed
    | RefreshFailed
    | MissingExplainMarker(path: string)

  /** The state of a run together with the error that stopped it, if any:
      a failed Go statement leaves everything done before it in place. */
  datatype Run<S> = Run(state: S, err: Option<Error>) {
    predicate Ok() {
      err.None?
    }
  }
}
