/** The `rowProcessor` closures of internal/importer/importer.go, minus the
    `Exec`: each turns the attribute map of one `row` element into the typed
    argument list of its entity's INSERT. Every coercion is total (errors are
    discarded), so decoding a row never fails. `Encode` writes a row back
    as dump text, and the round-trip lemmas show that decoding recovers
    every column. */
module Records {
  import opened Wrappers
  import opened Schema
  import opened Coerce
  import opened Columns

  function DecodeUser(a: Attrs): UserRow {
    UserRow(
      RequiredInt(a, "Id"), RequiredInt(a, "Reputation"), Get(a, "DisplayName"), Get(a, "AboutMe"),
      Get(a, "WebsiteUrl"), Get(a, "Location"), RequiredTime(a, "CreationDate"), RequiredTime(a, "LastAccessDate"),
      RequiredInt(a, "Views"), RequiredInt(a, "UpVotes"), RequiredInt(a, "DownVotes"), RequiredInt(a, "AccountId"))
  }

  function DecodePost(a: Attrs): PostRow {
    PostRow(
      RequiredInt(a, "Id"), RequiredInt(a, "PostTypeId"), NullableInt(a, "AcceptedAnswerId"),
      RequiredTime(a, "CreationDate"), RequiredInt(a, "Score"), NullableInt(a, "ViewCount"),
      Get(a, "Body"), NullableInt(a, "OwnerUserId"), NullableInt(a, "LastEditorUserId"),
      NullableTime(a, "LastEditDate"), NullableTime(a, "LastActivityDate"),
      Get(a, "Title"), Get(a, "Tags"), RequiredInt(a, "AnswerCount"), RequiredInt(a, "CommentCount"),
      RequiredInt(a, "FavoriteCount"), NullableTime(a, "ClosedDate"), NullableInt(a, "ParentId"),
      NullableTime(a, "CommunityOwnedDate"))
  }

  function DecodeComment(a: Attrs): CommentRow {
    CommentRow(
      RequiredInt(a, "Id"), RequiredInt(a, "PostId"), NullableInt(a, "UserId"),
      RequiredInt(a, "Score"), Get(a, "Text"), RequiredTime(a, "CreationDate"))
  }

  function DecodeBadge(a: Attrs): BadgeRow {
    BadgeRow(
      RequiredInt(a, "Id"), RequiredInt(a, "UserId"), Get(a, "Name"),
      RequiredTime(a, "Date"), RequiredInt(a, "Class"), TagBased(a))
  }

  function DecodePostHistory(a: Attrs): PostHistoryRow {
    PostHistoryRow(
      RequiredInt(a, "Id"), RequiredInt(a, "PostId"), NullableInt(a, "UserId"),
      RequiredInt(a, "PostHistoryTypeId"), Get(a, "RevisionGUID"), RequiredTime(a, "CreationDate"),
      Get(a, "Text"), Get(a, "Comment"))
  }

  function DecodePostLink(a: Attrs): PostLinkRow {
    PostLinkRow(
      RequiredInt(a, "Id"), RequiredTime(a, "CreationDate"), RequiredInt(a, "PostId"),
      RequiredInt(a, "RelatedPostId"), RequiredInt(a, "LinkTypeId"))
  }

  function DecodeTag(a: Attrs): TagRow {
    TagRow(
      RequiredInt(a, "Id"), Get(a, "TagName"), RequiredInt(a, "Count"),
      NullableInt(a, "ExcerptPostId"), NullableInt(a, "WikiPostId"))
  }

  function DecodeVote(a: Attrs): VoteRow {
    VoteRow(
      RequiredInt(a, "Id"), RequiredInt(a, "PostId"), RequiredInt(a, "VoteTypeId"),
      NullableInt(a, "UserId"), RequiredTime(a, "CreationDate"), NullableInt(a, "BountyAmount"))
  }

  /** The row processor of the loader for `kind`, up to the `Exec`. */
  function Decode(kind: Entity, a: Attrs): (r: Record)
    ensures KindOf(r) == kind
  {
    match kind
    case Users => UserRec(DecodeUser(a))
    case Posts => PostRec(DecodePost(a))
    case Comments => CommentRec(DecodeComment(a))
    case Badges => BadgeRec(DecodeBadge(a))
    case PostHistory => PostHistoryRec(DecodePostHistory(a))
    case PostLinks => PostLinkRec(DecodePostLink(a))
    case Tags => TagRec(DecodeTag(a))
    case Votes => VoteRec(DecodeVote(a))
  }

  /** The primary key of a record. */
  function IdOf(r: Record): int {
    match r
    case UserRec(x) => x.id
    case PostRec(x) => x.id
    case CommentRec(x) => x.id
    case BadgeRec(x) => x.id
    case PostHistoryRec(x) => x.id
    case PostLinkRec(x) => x.id
    case TagRec(x) => x.id
    case VoteRec(x) => x.id
  }

  // ----- the dump's own encoding of a row -----

  /** The dump's text for a nullable integer: empty for null. */
  function OptInt(o: Option<int>): string {
    if o.Some? then Format(o.value) else ""
  }

  /** The dump's text for a nullable timestamp: empty for null. */
  function OptTime(o: Option<Time>): string
    requires o.Some? ==> ValidTime(o.value)
  {
    if o.Some? then FormatTime(o.value) else ""
  }

  predicate ValidOptTime(o: Option<Time>) {
    o.Some? ==> ValidTime(o.value)
  }

  /** A record the dump can express: every timestamp fits the layout. */
  predicate Encodable(r: Record) {
    match r
    case UserRec(u) => ValidTime(u.creationDate) && ValidTime(u.lastAccessDate)
    case PostRec(p) =>
      && ValidTime(p.creationDate) && ValidOptTime(p.lastEditDate) && ValidOptTime(p.lastActivityDate)
      && ValidOptTime(p.closedDate) && ValidOptTime(p.communityOwnedDate)
    case CommentRec(c) => ValidTime(c.creationDate)
    case BadgeRec(b) => ValidTime(b.date)
    case PostHistoryRec(h) => ValidTime(h.creationDate)
    case PostLinkRec(l) => ValidTime(l.creationDate)
    case TagRec(_) => true
    case VoteRec(v) => ValidTime(v.creationDate)
  }

  /** The text of a post's columns, in the column order of its INSERT. */
  function PostValues(p: PostRow): (v: seq<string>)
    requires Encodable(PostRec(p))
    ensures |v| == 19
  {
    [Format(p.id), Format(p.postTypeId), OptInt(p.acceptedAnswerId),
     FormatTime(p.creationDate), Format(p.score), OptInt(p.viewCount), p.body,
     OptInt(p.ownerUserId), OptInt(p.lastEditorUserId), OptTime(p.lastEditDate),
     OptTime(p.lastActivityDate), p.title, p.tags, Format(p.answerCount),
     Format(p.commentCount), Format(p.favoriteCount), OptTime(p.closedDate), OptInt(p.parentId),
     OptTime(p.communityOwnedDate)]
  }

  /** The attributes the dump writes for a record, each column as text; a
      null column is written as an empty attribute. */
  function Encode(r: Record): Attrs
    requires Encodable(r)
  {
    match r
    case UserRec(u) =>
      UserAttrs(Format(u.id), Format(u.reputation), u.displayName, u.aboutMe, u.websiteUrl,
        u.location, FormatTime(u.creationDate), FormatTime(u.lastAccessDate), Format(u.views),
        Format(u.upVotes), Format(u.downVotes), Format(u.accountId))
    case PostRec(p) =>
      PostAttrs(PostValues(p))
    case CommentRec(c) =>
      CommentAttrs(Format(c.id), Format(c.postId), OptInt(c.userId), Format(c.score), c.text,
        FormatTime(c.creationDate))
    case BadgeRec(b) =>
      BadgeAttrs(Format(b.id), Format(b.userId), b.name, FormatTime(b.date), Format(b.badgeClass),
        if b.tagBased then "True" else "False")
    case PostHistoryRec(h) =>
      PostHistoryAttrs(Format(h.id), Format(h.postId), OptInt(h.userId),
        Format(h.postHistoryTypeId), h.revisionGuid, FormatTime(h.creationDate), h.text, h.comment)
    case PostLinkRec(l) =>
      PostLinkAttrs(Format(l.id), FormatTime(l.creationDate), Format(l.postId),
        Format(l.relatedPostId), Format(l.linkTypeId))
    case TagRec(t) =>
      TagAttrs(Format(t.id), t.tagName, Format(t.count), OptInt(t.excerptPostId),
        OptInt(t.wikiPostId))
    case VoteRec(v) =>
      VoteAttrs(Format(v.id), Format(v.postId), Format(v.voteTypeId), OptInt(v.userId),
        FormatTime(v.creationDate), OptInt(v.bountyAmount))
  }

  // ----- per-column read-back facts -----

  /** The attribute `key` carries the dump's text for the integer `n`. */
  predicate HasInt(a: Attrs, key: string, n: int) {
    key in a && a[key] == Format(n)
  }

  /** The attribute `key` carries `o`, the empty text standing for null. */
  predicate HasOptInt(a: Attrs, key: string, o: Option<int>) {
    key in a && a[key] == OptInt(o)
  }

  predicate HasTime(a: Attrs, key: string, t: Time) {
    ValidTime(t) && key in a && a[key] == FormatTime(t)
  }

  predicate HasOptTime(a: Attrs, key: string, o: Option<Time>) {
    ValidOptTime(o) && key in a && a[key] == OptTime(o)
  }

  predicate HasText(a: Attrs, key: string, s: string) {
    key in a && a[key] == s
  }

  lemma IntColumn(a: Attrs, key: string, n: int)
    requires HasInt(a, key, n)
    ensures RequiredInt(a, key) == n
  {
    AtoiFormatRoundTrip(n);
  }

  lemma NullableIntColumn(a: Attrs, key: string, o: Option<int>)
    requires HasOptInt(a, key, o)
    ensures NullableInt(a, key) == o
  {
    if o.Some? {
      AtoiFormatRoundTrip(o.value);
    }
  }

  lemma TimeColumn(a: Attrs, key: string, t: Time)
    requires HasTime(a, key, t)
    ensures RequiredTime(a, key) == t
  {
    ParseTimeFormatRoundTrip(t);
  }

  lemma NullableTimeColumn(a: Attrs, key: string, o: Option<Time>)
    requires HasOptTime(a, key, o)
    ensures NullableTime(a, key) == o
  {
    if o.Some? {
      ParseTimeFormatRoundTrip(o.value);
    }
  }

  // ----- round trips -----

  lemma UserRoundTrip(u: UserRow)
    requires Encodable(UserRec(u))
    ensures DecodeUser(Encode(UserRec(u))) == u
  {
    var a := Encode(UserRec(u));
    assert HasInt(a, "Id", u.id) && HasInt(a, "Reputation", u.reputation) && HasInt(a, "Views", u.views);
    assert HasInt(a, "UpVotes", u.upVotes) && HasInt(a, "DownVotes", u.downVotes) && HasInt(a, "AccountId", u.accountId);
    assert HasTime(a, "CreationDate", u.creationDate) && HasTime(a, "LastAccessDate", u.lastAccessDate);
    assert HasText(a, "DisplayName", u.displayName) && HasText(a, "AboutMe", u.aboutMe);
    assert HasText(a, "WebsiteUrl", u.websiteUrl) && HasText(a, "Location", u.location);
    UserFromColumns(a, u);
  }

  lemma UserFromColumns(a: Attrs, u: UserRow)
    requires HasInt(a, "Id", u.id) && HasInt(a, "Reputation", u.reputation) && HasInt(a, "Views", u.views)
    requires HasInt(a, "UpVotes", u.upVotes) && HasInt(a, "DownVotes", u.downVotes) && HasInt(a, "AccountId", u.accountId)
    requires HasTime(a, "CreationDate", u.creationDate) && HasTime(a, "LastAccessDate", u.lastAccessDate)
    requires HasText(a, "DisplayName", u.displayName) && HasText(a, "AboutMe", u.aboutMe)
    requires HasText(a, "WebsiteUrl", u.websiteUrl) && HasText(a, "Location", u.location)
    ensures DecodeUser(a) == u
  {
    IntColumn(a, "Id", u.id);
    IntColumn(a, "Reputation", u.reputation);
    IntColumn(a, "Views", u.views);
    IntColumn(a, "UpVotes", u.upVotes);
    IntColumn(a, "DownVotes", u.downVotes);
    IntColumn(a, "AccountId", u.accountId);
    TimeColumn(a, "CreationDate", u.creationDate);
    TimeColumn(a, "LastAccessDate", u.lastAccessDate);
  }

  lemma PostRoundTrip(p: PostRow)
    requires Encodable(PostRec(p))
    ensures DecodePost(Encode(PostRec(p))) == p
  {
    var a := Encode(PostRec(p));
    var v := PostValues(p);
    PostAttrsLookup1(v);
    PostAttrsLookup2(v);
    PostAttrsLookup3(v);
    PostAttrsLookup4(v);
    assert HasInt(a, "Id", p.id) && HasInt(a, "PostTypeId", p.postTypeId) && HasInt(a, "Score", p.score);
    assert HasInt(a, "AnswerCount", p.answerCount) && HasInt(a, "CommentCount", p.commentCount);
    assert HasInt(a, "FavoriteCount", p.favoriteCount) && HasTime(a, "CreationDate", p.creationDate);
    assert HasOptInt(a, "AcceptedAnswerId", p.acceptedAnswerId) && HasOptInt(a, "ViewCount", p.viewCount);
    assert HasOptInt(a, "OwnerUserId", p.ownerUserId) && HasOptInt(a, "LastEditorUserId", p.lastEditorUserId);
    assert HasOptInt(a, "ParentId", p.parentId);
    assert HasOptTime(a, "LastEditDate", p.lastEditDate) && HasOptTime(a, "LastActivityDate", p.lastActivityDate);
    assert HasOptTime(a, "ClosedDate", p.closedDate) && HasOptTime(a, "CommunityOwnedDate", p.communityOwnedDate);
    assert HasText(a, "Body", p.body) && HasText(a, "Title", p.title) && HasText(a, "Tags", p.tags);
    PostFromColumns(a, p);
  }

  lemma PostFromColumns(a: Attrs, p: PostRow)
    requires HasInt(a, "Id", p.id) && HasInt(a, "PostTypeId", p.postTypeId) && HasInt(a, "Score", p.score)
    requires HasInt(a, "AnswerCount", p.answerCount) && HasInt(a, "CommentCount", p.commentCount)
    requires HasInt(a, "FavoriteCount", p.favoriteCount)
    requires HasTime(a, "CreationDate", p.creationDate)
    requires HasOptInt(a, "AcceptedAnswerId", p.acceptedAnswerId) && HasOptInt(a, "ViewCount", p.viewCount)
    requires HasOptInt(a, "OwnerUserId", p.ownerUserId) && HasOptInt(a, "LastEditorUserId", p.lastEditorUserId)
    requires HasOptInt(a, "ParentId", p.parentId)
    requires HasOptTime(a, "LastEditDate", p.lastEditDate) && HasOptTime(a, "LastActivityDate", p.lastActivityDate)
    requires HasOptTime(a, "ClosedDate", p.closedDate) && HasOptTime(a, "CommunityOwnedDate", p.communityOwnedDate)
    requires HasText(a, "Body", p.body) && HasText(a, "Title", p.title) && HasText(a, "Tags", p.tags)
    ensures DecodePost(a) == p
  {
    IntColumn(a, "Id", p.id);
    IntColumn(a, "PostTypeId", p.postTypeId);
    IntColumn(a, "Score", p.score);
    IntColumn(a, "AnswerCount", p.answerCount);
    IntColumn(a, "CommentCount", p.commentCount);
    IntColumn(a, "FavoriteCount", p.favoriteCount);
    TimeColumn(a, "CreationDate", p.creationDate);
    NullableIntColumn(a, "AcceptedAnswerId", p.acceptedAnswerId);
    NullableIntColumn(a, "ViewCount", p.viewCount);
    NullableIntColumn(a, "OwnerUserId", p.ownerUserId);
    NullableIntColumn(a, "LastEditorUserId", p.lastEditorUserId);
    NullableIntColumn(a, "ParentId", p.parentId);
    NullableTimeColumn(a, "LastEditDate", p.lastEditDate);
    NullableTimeColumn(a, "LastActivityDate", p.lastActivityDate);
    NullableTimeColumn(a, "ClosedDate", p.closedDate);
    NullableTimeColumn(a, "CommunityOwnedDate", p.communityOwnedDate);
  }

  lemma CommentRoundTrip(c: CommentRow)
    requires Encodable(CommentRec(c))
    ensures DecodeComment(Encode(CommentRec(c))) == c
  {
    var a := Encode(CommentRec(c));
    assert HasInt(a, "Id", c.id) && HasInt(a, "PostId", c.postId) && HasInt(a, "Score", c.score);
    assert HasOptInt(a, "UserId", c.userId) && HasTime(a, "CreationDate", c.creationDate);
    assert HasText(a, "Text", c.text);
    IntColumn(a, "Id", c.id);
    IntColumn(a, "PostId", c.postId);
    IntColumn(a, "Score", c.score);
    NullableIntColumn(a, "UserId", c.userId);
    TimeColumn(a, "CreationDate", c.creationDate);
  }

  lemma BadgeRoundTrip(b: BadgeRow)
    requires Encodable(BadgeRec(b))
    ensures DecodeBadge(Encode(BadgeRec(b))) == b
  {
    var a := Encode(BadgeRec(b));
    assert HasInt(a, "Id", b.id) && HasInt(a, "UserId", b.userId) && HasInt(a, "Class", b.badgeClass);
    assert HasTime(a, "Date", b.date) && HasText(a, "Name", b.name);
    IntColumn(a, "Id", b.id);
    IntColumn(a, "UserId", b.userId);
    IntColumn(a, "Class", b.badgeClass);
    TimeColumn(a, "Date", b.date);
  }

  lemma PostHistoryRoundTrip(h: PostHistoryRow)
    requires Encodable(PostHistoryRec(h))
    ensures DecodePostHistory(Encode(PostHistoryRec(h))) == h
  {
    var a := Encode(PostHistoryRec(h));
    assert HasInt(a, "Id", h.id) && HasInt(a, "PostId", h.postId) && HasInt(a, "PostHistoryTypeId", h.postHistoryTypeId);
    assert HasOptInt(a, "UserId", h.userId) && HasTime(a, "CreationDate", h.creationDate);
    assert HasText(a, "RevisionGUID", h.revisionGuid) && HasText(a, "Text", h.text) && HasText(a, "Comment", h.comment);
    PostHistoryFromColumns(a, h);
  }

  lemma PostHistoryFromColumns(a: Attrs, h: PostHistoryRow)
    requires HasInt(a, "Id", h.id) && HasInt(a, "PostId", h.postId) && HasInt(a, "PostHistoryTypeId", h.postHistoryTypeId)
    requires HasOptInt(a, "UserId", h.userId) && HasTime(a, "CreationDate", h.creationDate)
    requires HasText(a, "RevisionGUID", h.revisionGuid) && HasText(a, "Text", h.text) && HasText(a, "Comment", h.comment)
    ensures DecodePostHistory(a) == h
  {
    IntColumn(a, "Id", h.id);
    IntColumn(a, "PostId", h.postId);
    IntColumn(a, "PostHistoryTypeId", h.postHistoryTypeId);
    NullableIntColumn(a, "UserId", h.userId);
    TimeColumn(a, "CreationDate", h.creationDate);
  }

  lemma PostLinkRoundTrip(l: PostLinkRow)
    requires Encodable(PostLinkRec(l))
    ensures DecodePostLink(Encode(PostLinkRec(l))) == l
  {
    var a := Encode(PostLinkRec(l));
    assert HasInt(a, "Id", l.id) && HasInt(a, "PostId", l.postId) && HasInt(a, "RelatedPostId", l.relatedPostId);
    assert HasInt(a, "LinkTypeId", l.linkTypeId) && HasTime(a, "CreationDate", l.creationDate);
    IntColumn(a, "Id", l.id);
    IntColumn(a, "PostId", l.postId);
    IntColumn(a, "RelatedPostId", l.relatedPostId);
    IntColumn(a, "LinkTypeId", l.linkTypeId);
    TimeColumn(a, "CreationDate", l.creationDate);
  }

  lemma TagRoundTrip(t: TagRow)
    ensures DecodeTag(Encode(TagRec(t))) == t
  {
    var a := Encode(TagRec(t));
    assert HasInt(a, "Id", t.id) && HasInt(a, "Count", t.count) && HasText(a, "TagName", t.tagName);
    assert HasOptInt(a, "ExcerptPostId", t.excerptPostId) && HasOptInt(a, "WikiPostId", t.wikiPostId);
    IntColumn(a, "Id", t.id);
    IntColumn(a, "Count", t.count);
    NullableIntColumn(a, "ExcerptPostId", t.excerptPostId);
    NullableIntColumn(a, "WikiPostId", t.wikiPostId);
  }

  lemma VoteRoundTrip(v: VoteRow)
    requires Encodable(VoteRec(v))
    ensures DecodeVote(Encode(VoteRec(v))) == v
  {
    var a := Encode(VoteRec(v));
    assert HasInt(a, "Id", v.id) && HasInt(a, "PostId", v.postId) && HasInt(a, "VoteTypeId", v.voteTypeId);
    assert HasOptInt(a, "UserId", v.userId) && HasOptInt(a, "BountyAmount", v.bountyAmount);
    assert HasTime(a, "CreationDate", v.creationDate);
    VoteFromColumns(a, v);
  }

  lemma VoteFromColumns(a: Attrs, v: VoteRow)
    requires HasInt(a, "Id", v.id) && HasInt(a, "PostId", v.postId) && HasInt(a, "VoteTypeId", v.voteTypeId)
    requires HasOptInt(a, "UserId", v.userId) && HasOptInt(a, "BountyAmount", v.bountyAmount)
    requires HasTime(a, "CreationDate", v.creationDate)
    ensures DecodeVote(a) == v
  {
    IntColumn(a, "Id", v.id);
    IntColumn(a, "PostId", v.postId);
    IntColumn(a, "VoteTypeId", v.voteTypeId);
    NullableIntColumn(a, "UserId", v.userId);
    NullableIntColumn(a, "BountyAmount", v.bountyAmount);
    TimeColumn(a, "CreationDate", v.creationDate);
  }

  /** Every column of every entity survives the dump's encoding: the row
      processor stores exactly the row the dump describes. */
  lemma DecodeEncode(r: Record)
    requires Encodable(r)
    ensures Decode(KindOf(r), Encode(r)) == r
  {
    var a := Encode(r);
    match r
    case UserRec(u) => UserRoundTrip(u); DecodeAs(r, a);
    case PostRec(p) => PostRoundTrip(p); DecodeAs(r, a);
    case CommentRec(c) => CommentRoundTrip(c); DecodeAs(r, a);
    case BadgeRec(b) => BadgeRoundTrip(b); DecodeAs(r, a);
    case PostHistoryRec(h) => PostHistoryRoundTrip(h); DecodeAs(r, a);
    case PostLinkRec(l) => PostLinkRoundTrip(l); DecodeAs(r, a);
    case TagRec(t) => TagRoundTrip(t); DecodeAs(r, a);
    case VoteRec(v) => VoteRoundTrip(v); DecodeAs(r, a);
  }

  /** Decoding as the kind of `r` applies that kind's row decoder. */
  lemma DecodeAs(r: Record, a: Attrs)
    ensures r.UserRec? ==> Decode(KindOf(r), a) == UserRec(DecodeUser(a))
    ensures r.PostRec? ==> Decode(KindOf(r), a) == PostRec(DecodePost(a))
    ensures r.CommentRec? ==> Decode(KindOf(r), a) == CommentRec(DecodeComment(a))
    ensures r.BadgeRec? ==> Decode(KindOf(r), a) == BadgeRec(DecodeBadge(a))
    ensures r.PostHistoryRec? ==> Decode(KindOf(r), a) == PostHistoryRec(DecodePostHistory(a))
    ensures r.PostLinkRec? ==> Decode(KindOf(r), a) == PostLinkRec(DecodePostLink(a))
    ensures r.TagRec? ==> Decode(KindOf(r), a) == TagRec(DecodeTag(a))
    ensures r.VoteRec? ==> Decode(KindOf(r), a) == VoteRec(DecodeVote(a))
  {
  }

  /** The record a `row` element without attributes decodes to: key and
      required integers 0, nullable columns null, text columns empty,
      required timestamps the zero time, `TagBased` false. */
  function EmptyRecord(kind: Entity): Record {
    match kind
    case Users => UserRec(UserRow(0, 0, "", "", "", "", ZeroTime, ZeroTime, 0, 0, 0, 0))
    case Posts => PostRec(PostRow(0, 0, None, ZeroTime, 0, None, "", None, None, None, None, "", "", 0, 0, 0, None, None, None))
    case Comments => CommentRec(CommentRow(0, 0, None, 0, "", ZeroTime))
    case Badges => BadgeRec(BadgeRow(0, 0, "", ZeroTime, 0, false))
    case PostHistory => PostHistoryRec(PostHistoryRow(0, 0, None, 0, "", ZeroTime, "", ""))
    case PostLinks => PostLinkRec(PostLinkRow(0, ZeroTime, 0, 0, 0))
    case Tags => TagRec(TagRow(0, "", 0, None, None))
    case Votes => VoteRec(VoteRow(0, 0, 0, None, ZeroTime, None))
  }

  /** Weak coercion: a `row` element without attributes still decodes, for
      every entity, to the record `EmptyRecord` lists. */
  lemma EmptyRowDecodes(kind: Entity)
    ensures Decode(kind, map[]) == EmptyRecord(kind)
  {
    match kind
    case Users => EmptyUserRow();
    case Posts => EmptyPostRow();
    case Comments => EmptyCommentRow();
    case Badges => EmptyBadgeRow();
    case PostHistory => EmptyPostHistoryRow();
    case PostLinks => EmptyPostLinkRow();
    case Tags => EmptyTagRow();
    case Votes => EmptyVoteRow();
  }

  // One entity at a time keeps each record comparison small.
  lemma EmptyUserRow()
    ensures Decode(Users, map[]) == EmptyRecord(Users)
  {
    EmptyColumns();
    assert Decode(Users, map[]) == UserRec(DecodeUser(map[]));
  }

  lemma EmptyPostRow()
    ensures Decode(Posts, map[]) == EmptyRecord(Posts)
  {
    EmptyColumns();
    assert Decode(Posts, map[]) == PostRec(DecodePost(map[]));
  }

  lemma EmptyCommentRow()
    ensures Decode(Comments, map[]) == EmptyRecord(Comments)
  {
    EmptyColumns();
    assert Decode(Comments, map[]) == CommentRec(DecodeComment(map[]));
  }

  lemma EmptyBadgeRow()
    ensures Decode(Badges, map[]) == EmptyRecord(Badges)
  {
    EmptyColumns();
    assert Decode(Badges, map[]) == BadgeRec(DecodeBadge(map[]));
  }

  lemma EmptyPostHistoryRow()
    ensures Decode(PostHistory, map[]) == EmptyRecord(PostHistory)
  {
    EmptyColumns();
    assert Decode(PostHistory, map[]) == PostHistoryRec(DecodePostHistory(map[]));
  }

  lemma EmptyPostLinkRow()
    ensures Decode(PostLinks, map[]) == EmptyRecord(PostLinks)
  {
    EmptyColumns();
    assert Decode(PostLinks, map[]) == PostLinkRec(DecodePostLink(map[]));
  }

  lemma EmptyTagRow()
    ensures Decode(Tags, map[]) == EmptyRecord(Tags)
  {
    EmptyColumns();
    assert Decode(Tags, map[]) == TagRec(DecodeTag(map[]));
  }

  lemma EmptyVoteRow()
    ensures Decode(Votes, map[]) == EmptyRecord(Votes)
  {
    EmptyColumns();
    assert Decode(Votes, map[]) == VoteRec(DecodeVote(map[]));
  }

  /** Every coercion of a missing attribute gives its column's zero value. */
  lemma EmptyColumns()
    ensures forall key :: RequiredInt(map[], key) == 0
    ensures forall key :: NullableInt(map[], key) == None
    ensures forall key :: Get(map[], key) == ""
    ensures forall key :: RequiredTime(map[], key) == ZeroTime
    ensures forall key :: NullableTime(map[], key) == None
    ensures !TagBased(map[])
  {
  }

}
