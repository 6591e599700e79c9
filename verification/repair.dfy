/** The clean-up batch `importPosts` runs once every post is in
    (internal/importer/importer.go): four UPDATE statements, one after the
    other, each setting one reference column of `posts` to NULL wherever it
    names a row that does not exist. Accepted answers and parents must name
    a post; owners and last editors must name a user. */
module Repair {
  import opened Wrappers
  import opened Schema

  /** The four reference columns of a post, in the order the batch clears them. */
  datatype Ref = AcceptedAnswer | Parent | Owner | LastEditor

  function RefOf(p: PostRow, f: Ref): Option<int> {
    match f
    case AcceptedAnswer => p.acceptedAnswerId
    case Parent => p.parentId
    case Owner => p.ownerUserId
    case LastEditor => p.lastEditorUserId
  }

  function SetRef(p: PostRow, f: Ref, v: Option<int>): (q: PostRow)
    ensures RefOf(q, f) == v
    ensures forall g :: g != f ==> RefOf(q, g) == RefOf(p, g)
  {
    match f
    case AcceptedAnswer => p.(acceptedAnswerId := v)
    case Parent => p.(parentId := v)
    case Owner => p.(ownerUserId := v)
    case LastEditor => p.(lastEditorUserId := v)
  }

  /** A post with all four references cleared: what no repair can touch. */
  function Body(p: PostRow): PostRow {
    p.(acceptedAnswerId := None, parentId := None, ownerUserId := None, lastEditorUserId := None)
  }

  /** A reference survives only when it names an existing row. */
  function Keep(r: Option<int>, targets: set<int>): (k: Option<int>)
    ensures k.Some? <==> r.Some? && r.value in targets
    ensures k.Some? ==> k == r
  {
    if r.Some? && r.value !in targets then None else r
  }

  /** One post as one statement of the batch leaves it. */
  function Clear(p: PostRow, f: Ref, targets: set<int>): PostRow {
    SetRef(p, f, Keep(RefOf(p, f), targets))
  }

  /** One statement of the batch: `UPDATE posts SET f = NULL WHERE f IS NOT
      NULL AND NOT EXISTS (a row of the target table with that id)`. */
  function Update(posts: map<int, PostRow>, f: Ref, targets: set<int>): map<int, PostRow> {
    map k | k in posts :: Clear(posts[k], f, targets)
  }

  /** The batch, statement by statement. An UPDATE of `posts` never changes
      its keys, so the two post checks see the same ids as the first. */
  function RepairPosts(posts: map<int, PostRow>, users: set<int>): map<int, PostRow> {
    var p1 := Update(posts, AcceptedAnswer, posts.Keys);
    var p2 := Update(p1, Parent, p1.Keys);
    var p3 := Update(p2, Owner, users);
    Update(p3, LastEditor, users)
  }

  /** Targets of each reference column. */
  function Targets(f: Ref, postIds: set<int>, users: set<int>): set<int> {
    if f == AcceptedAnswer || f == Parent then postIds else users
  }

  /** One post as the whole batch leaves it, stated column by column: each
      reference kept exactly when it names an existing row. */
  function Repaired(p: PostRow, postIds: set<int>, users: set<int>): (q: PostRow)
    ensures forall f :: RefOf(q, f) == Keep(RefOf(p, f), Targets(f, postIds, users))
    ensures Body(q) == Body(p)
  {
    p.(acceptedAnswerId := Keep(p.acceptedAnswerId, postIds),
       parentId := Keep(p.parentId, postIds),
       ownerUserId := Keep(p.ownerUserId, users),
       lastEditorUserId := Keep(p.lastEditorUserId, users))
  }

  /** The four statements, applied to one post in turn, repair it. */
  lemma ClearSteps(p: PostRow, postIds: set<int>, users: set<int>)
    ensures Clear(Clear(Clear(Clear(p, AcceptedAnswer, postIds), Parent, postIds), Owner, users), LastEditor, users)
         == Repaired(p, postIds, users)
  {
  }

  /** The four sequential statements act as one simultaneous repair of
      every post. */
  lemma RepairIsPointwise(posts: map<int, PostRow>, users: set<int>)
    ensures RepairPosts(posts, users) == RepairAll(posts, users)
  {
    var p1 := Update(posts, AcceptedAnswer, posts.Keys);
    var p2 := Update(p1, Parent, p1.Keys);
    var p3 := Update(p2, Owner, users);
    var r := Update(p3, LastEditor, users);
    var a := RepairAll(posts, users);
    forall k | k in posts
      ensures r[k] == a[k]
    {
      ClearSteps(posts[k], posts.Keys, users);
    }
    assert r.Keys == a.Keys;
  }

  /** A second pass over an already repaired post changes nothing. */
  lemma RepairedStable(p: PostRow, postIds: set<int>, users: set<int>)
    ensures Repaired(Repaired(p, postIds, users), postIds, users) == Repaired(p, postIds, users)
  {
  }

  /** A post without dangling references is its own repair. */
  lemma RepairedClosed(p: PostRow, postIds: set<int>, users: set<int>)
    requires forall f :: RefOf(p, f).Some? ==> RefOf(p, f).value in Targets(f, postIds, users)
    ensures Repaired(p, postIds, users) == p
  {
    assert RefOf(p, AcceptedAnswer) == p.acceptedAnswerId;
    assert RefOf(p, Parent) == p.parentId;
    assert RefOf(p, Owner) == p.ownerUserId;
    assert RefOf(p, LastEditor) == p.lastEditorUserId;
  }

  /** No post references a missing row. */
  predicate Closed(posts: map<int, PostRow>, users: set<int>) {
    forall k, f :: k in posts && RefOf(posts[k], f).Some? ==>
      RefOf(posts[k], f).value in Targets(f, posts.Keys, users)
  }

  /** What the batch guarantees: the same posts, no dangling reference,
      references that named an existing row untouched, dangling ones
      cleared, and every other column as it was. */
  lemma RepairSpec(posts: map<int, PostRow>, users: set<int>)
    ensures var r := RepairPosts(posts, users);
      && r.Keys == posts.Keys
      && Closed(r, users)
      && (forall k, f :: k in posts ==>
            (RefOf(r[k], f) == RefOf(posts[k], f)
             <==> RefOf(posts[k], f).None? || RefOf(posts[k], f).value in Targets(f, posts.Keys, users)))
      && (forall k, f :: k in posts && RefOf(r[k], f) != RefOf(posts[k], f) ==> RefOf(r[k], f).None?)
      && (forall k :: k in posts ==> Body(r[k]) == Body(posts[k]))
  {
    RepairIsPointwise(posts, users);
  }

  /** Every post repaired at once, against the table's own keys. */
  function RepairAll(posts: map<int, PostRow>, users: set<int>): (r: map<int, PostRow>)
    ensures r.Keys == posts.Keys
  {
    map k | k in posts :: Repaired(posts[k], posts.Keys, users)
  }

  lemma RepairAllIdempotent(posts: map<int, PostRow>, users: set<int>)
    ensures RepairAll(RepairAll(posts, users), users) == RepairAll(posts, users)
  {
    var r := RepairAll(posts, users);
    forall k | k in r
      ensures RepairAll(r, users)[k] == r[k]
    {
      RepairedStable(posts[k], posts.Keys, users);
    }
  }

  /** Running the batch again changes nothing. */
  lemma RepairIdempotent(posts: map<int, PostRow>, users: set<int>)
    ensures RepairPosts(RepairPosts(posts, users), users) == RepairPosts(posts, users)
  {
    RepairIsPointwise(posts, users);
    RepairIsPointwise(RepairPosts(posts, users), users);
    RepairAllIdempotent(posts, users);
  }

  /** A table with no dangling reference is left exactly as it is. */
  lemma RepairKeepsClosed(posts: map<int, PostRow>, users: set<int>)
    requires Closed(posts, users)
    ensures RepairPosts(posts, users) == posts
  {
    RepairIsPointwise(posts, users);
    forall k | k in posts
      ensures Repaired(posts[k], posts.Keys, users) == posts[k]
    {
      RepairedClosed(posts[k], posts.Keys, users);
    }
  }
}
