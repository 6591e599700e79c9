/** The attribute maps of the eight kinds of `row` element in a Stack
    Exchange dump, one attribute per column under the name the loaders of
    internal/importer/importer.go read, each attribute's text given. */
module Columns {

  function UserAttrs(id: string, reputation: string, displayName: string, aboutMe: string,
    websiteUrl: string, location: string, creationDate: string, lastAccessDate: string,
    views: string, upVotes: string, downVotes: string, accountId: string): (a: map<string, string>)
    ensures "Id" in a && a["Id"] == id
    ensures "Reputation" in a && a["Reputation"] == reputation
    ensures "DisplayName" in a && a["DisplayName"] == displayName
    ensures "AboutMe" in a && a["AboutMe"] == aboutMe
    ensures "WebsiteUrl" in a && a["WebsiteUrl"] == websiteUrl
    ensures "Location" in a && a["Location"] == location
    ensures "CreationDate" in a && a["CreationDate"] == creationDate
    ensures "LastAccessDate" in a && a["LastAccessDate"] == lastAccessDate
    ensures "Views" in a && a["Views"] == views
    ensures "UpVotes" in a && a["UpVotes"] == upVotes
    ensures "DownVotes" in a && a["DownVotes"] == downVotes
    ensures "AccountId" in a && a["AccountId"] == accountId
  {
    map["Id" := id, "Reputation" := reputation, "DisplayName" := displayName, "AboutMe" := aboutMe,
        "WebsiteUrl" := websiteUrl, "Location" := location, "CreationDate" := creationDate,
        "LastAccessDate" := lastAccessDate, "Views" := views, "UpVotes" := upVotes,
        "DownVotes" := downVotes, "AccountId" := accountId]
  }

  /** The attribute map of a post, its nineteen values given in the column
      order of the posts INSERT; the lookups are stated by the four lemmas
      that follow. */
  function PostAttrs(v: seq<string>): (a: map<string, string>)
    requires |v| == 19
  {
    map["Id" := v[0], "PostTypeId" := v[1], "AcceptedAnswerId" := v[2], "CreationDate" := v[3],
        "Score" := v[4], "ViewCount" := v[5], "Body" := v[6], "OwnerUserId" := v[7],
        "LastEditorUserId" := v[8], "LastEditDate" := v[9], "LastActivityDate" := v[10],
        "Title" := v[11], "Tags" := v[12], "AnswerCount" := v[13], "CommentCount" := v[14],
        "FavoriteCount" := v[15], "ClosedDate" := v[16], "ParentId" := v[17],
        "CommunityOwnedDate" := v[18]]
  }

  lemma PostAttrsLookup1(v: seq<string>)
    requires |v| == 19
    ensures var a := PostAttrs(v);
      && "Id" in a && a["Id"] == v[0]
      && "PostTypeId" in a && a["PostTypeId"] == v[1]
      && "AcceptedAnswerId" in a && a["AcceptedAnswerId"] == v[2]
      && "CreationDate" in a && a["CreationDate"] == v[3]
  {
  }

  lemma PostAttrsLookup2(v: seq<string>)
    requires |v| == 19
    ensures var a := PostAttrs(v);
      && "Score" in a && a["Score"] == v[4]
      && "ViewCount" in a && a["ViewCount"] == v[5]
      && "Body" in a && a["Body"] == v[6]
      && "OwnerUserId" in a && a["OwnerUserId"] == v[7]
  {
  }

  lemma PostAttrsLookup3(v: seq<string>)
    requires |v| == 19
    ensures var a := PostAttrs(v);
      && "LastEditorUserId" in a && a["LastEditorUserId"] == v[8]
      && "LastEditDate" in a && a["LastEditDate"] == v[9]
      && "LastActivityDate" in a && a["LastActivityDate"] == v[10]
      && "Title" in a && a["Title"] == v[11]
  {
  }

  lemma PostAttrsLookup4(v: seq<string>)
    requires |v| == 19
    ensures var a := PostAttrs(v);
      && "Tags" in a && a["Tags"] == v[12]
      && "AnswerCount" in a && a["AnswerCount"] == v[13]
      && "CommentCount" in a && a["CommentCount"] == v[14]
      && "FavoriteCount" in a && a["FavoriteCount"] == v[15]
      && "ClosedDate" in a && a["ClosedDate"] == v[16]
      && "ParentId" in a && a["ParentId"] == v[17]
      && "CommunityOwnedDate" in a && a["CommunityOwnedDate"] == v[18]
  {
  }

  function CommentAttrs(id: string, postId: string, userId: string, score: string, text: string,
    creationDate: string): (a: map<string, string>)
    ensures "Id" in a && a["Id"] == id
    ensures "PostId" in a && a["PostId"] == postId
    ensures "UserId" in a && a["UserId"] == userId
    ensures "Score" in a && a["Score"] == score
    ensures "Text" in a && a["Text"] == text
    ensures "CreationDate" in a && a["CreationDate"] == creationDate
  {
    map["Id" := id, "PostId" := postId, "UserId" := userId, "Score" := score, "Text" := text,
        "CreationDate" := creationDate]
  }

  function BadgeAttrs(id: string, userId: string, name: string, date: string, badgeClass: string,
    tagBased: string): (a: map<string, string>)
    ensures "Id" in a && a["Id"] == id
    ensures "UserId" in a && a["UserId"] == userId
    ensures "Name" in a && a["Name"] == name
    ensures "Date" in a && a["Date"] == date
    ensures "Class" in a && a["Class"] == badgeClass
    ensures "TagBased" in a && a["TagBased"] == tagBased
  {
    map["Id" := id, "UserId" := userId, "Name" := name, "Date" := date, "Class" := badgeClass,
        "TagBased" := tagBased]
  }

  function PostHistoryAttrs(id: string, postId: string, userId: string, postHistoryTypeId: string,
    revisionGuid: string, creationDate: string, text: string, comment: string): (a: map<string, string>)
    ensures "Id" in a && a["Id"] == id
    ensures "PostId" in a && a["PostId"] == postId
    ensures "UserId" in a && a["UserId"] == userId
    ensures "PostHistoryTypeId" in a && a["PostHistoryTypeId"] == postHistoryTypeId
    ensures "RevisionGUID" in a && a["RevisionGUID"] == revisionGuid
    ensures "CreationDate" in a && a["CreationDate"] == creationDate
    ensures "Text" in a && a["Text"] == text
    ensures "Comment" in a && a["Comment"] == comment
  {
    map["Id" := id, "PostId" := postId, "UserId" := userId,
        "PostHistoryTypeId" := postHistoryTypeId, "RevisionGUID" := revisionGuid,
        "CreationDate" := creationDate, "Text" := text, "Comment" := comment]
  }

  function PostLinkAttrs(id: string, creationDate: string, postId: string, relatedPostId: string,
    linkTypeId: string): (a: map<string, string>)
    ensures "Id" in a && a["Id"] == id
    ensures "CreationDate" in a && a["CreationDate"] == creationDate
    ensures "PostId" in a && a["PostId"] == postId
    ensures "RelatedPostId" in a && a["RelatedPostId"] == relatedPostId
    ensures "LinkTypeId" in a && a["LinkTypeId"] == linkTypeId
  {
    map["Id" := id, "CreationDate" := creationDate, "PostId" := postId,
        "RelatedPostId" := relatedPostId, "LinkTypeId" := linkTypeId]
  }

  function TagAttrs(id: string, tagName: string, count: string, excerptPostId: string,
    wikiPostId: string): (a: map<string, string>)
    ensures "Id" in a && a["Id"] == id
    ensures "TagName" in a && a["TagName"] == tagName
    ensures "Count" in a && a["Count"] == count
    ensures "ExcerptPostId" in a && a["ExcerptPostId"] == excerptPostId
    ensures "WikiPostId" in a && a["WikiPostId"] == wikiPostId
  {
    map["Id" := id, "TagName" := tagName, "Count" := count, "ExcerptPostId" := excerptPostId,
        "WikiPostId" := wikiPostId]
  }

  function VoteAttrs(id: string, postId: string, voteTypeId: string, userId: string,
    creationDate: string, bountyAmount: string): (a: map<string, string>)
    ensures "Id" in a && a["Id"] == id
    ensures "PostId" in a && a["PostId"] == postId
    ensures "VoteTypeId" in a && a["VoteTypeId"] == voteTypeId
    ensures "UserId" in a && a["UserId"] == userId
    ensures "CreationDate" in a && a["CreationDate"] == creationDate
    ensures "BountyAmount" in a && a["BountyAmount"] == bountyAmount
  {
    map["Id" := id, "PostId" := postId, "VoteTypeId" := voteTypeId, "UserId" := userId,
        "CreationDate" := creationDate, "BountyAmount" := bountyAmount]
  }
}
