/** The `ON CONFLICT (id)` clauses of the eight INSERT statements of
    internal/importer/importer.go. A table is a map from primary key to row;
    inserting a row whose key is new adds it, inserting one whose key is
    taken lets the table's conflict policy merge the stored row with the
    incoming one. Users and posts refresh a few columns (DO UPDATE SET …
    = EXCLUDED.…), every other table keeps the stored row (DO NOTHING).

    The generic part states what makes a re-import harmless: a policy whose
    second merge overrides the first (`Absorbs`) and which leaves a row
    merged with itself unchanged (`SelfStable`) turns loading the same rows
    twice into loading them once. */
module Upsert {
  import opened Schema

  // ----- generic tables -----

  /** One `insertStmt.Exec`: the row goes in under `key`, or is merged with
      the row already stored there. */
  function Put<R>(t: map<int, R>, key: int, row: R, merge: (R, R) -> R): (u: map<int, R>)
    ensures u.Keys == t.Keys + {key}
    ensures key in t ==> u[key] == merge(t[key], row)
    ensures key !in t ==> u[key] == row
    ensures forall k :: k in t && k != key ==> u[k] == t[k]
  {
    if key in t then t[key := merge(t[key], row)] else t[key := row]
  }

  /** The rows of one dump file inserted in document order. */
  function PutAll<R>(t: map<int, R>, rows: seq<R>, id: R -> int, merge: (R, R) -> R): map<int, R>
    decreases |rows|
  {
    if |rows| == 0 then t
    else PutAll(Put(t, id(rows[0]), rows[0], merge), rows[1..], id, merge)
  }

  /** The keys a sequence of rows carries. */
  function Ids<R>(rows: seq<R>, id: R -> int): set<int> {
    if |rows| == 0 then {} else {id(rows[0])} + Ids(rows[1..], id)
  }

  /** The last row carrying key `k`. */
  function Last<R>(rows: seq<R>, id: R -> int, k: int): R
    requires k in Ids(rows, id)
  {
    if k in Ids(rows[1..], id) then Last(rows[1..], id, k) else rows[0]
  }

  /** The first row carrying key `k`. */
  function First<R>(rows: seq<R>, id: R -> int, k: int): R
    requires k in Ids(rows, id)
  {
    if id(rows[0]) == k then rows[0] else First(rows[1..], id, k)
  }

  /** A later merge overrides an earlier one. */
  ghost predicate Absorbs<R(!new)>(merge: (R, R) -> R) {
    forall x, a, b :: merge(merge(x, a), b) == merge(x, b)
  }

  /** Merging a row with itself changes nothing. */
  ghost predicate SelfStable<R(!new)>(merge: (R, R) -> R) {
    forall a :: merge(a, a) == a
  }

  /** Loading adds exactly the rows' keys and leaves every other stored row alone. */
  lemma {:induction false} PutAllFrame<R>(t: map<int, R>, rows: seq<R>, id: R -> int, merge: (R, R) -> R)
    ensures PutAll(t, rows, id, merge).Keys == t.Keys + Ids(rows, id)
    ensures forall k :: k in t && k !in Ids(rows, id) ==> PutAll(t, rows, id, merge)[k] == t[k]
    decreases |rows|
  {
    if |rows| > 0 {
      PutAllFrame(Put(t, id(rows[0]), rows[0], merge), rows[1..], id, merge);
    }
  }

  /** Loading rows whose keys are all stored already refreshes each of them
      with the last row carrying its key, as if that row alone had come. */
  lemma {:induction false} PutAllRefreshes<R(!new)>(t: map<int, R>, rows: seq<R>, id: R -> int, merge: (R, R) -> R)
    requires Absorbs(merge)
    requires Ids(rows, id) <= t.Keys
    ensures PutAll(t, rows, id, merge)
         == map k | k in t :: if k in Ids(rows, id) then merge(t[k], Last(rows, id, k)) else t[k]
    decreases |rows|
  {
    if |rows| > 0 {
      var k0 := id(rows[0]);
      var t1 := Put(t, k0, rows[0], merge);
      PutAllRefreshes(t1, rows[1..], id, merge);
      var lhs := PutAll(t, rows, id, merge);
      var rhs := map k | k in t :: if k in Ids(rows, id) then merge(t[k], Last(rows, id, k)) else t[k];
      assert lhs.Keys == rhs.Keys;
      forall k | k in t
        ensures lhs[k] == rhs[k]
      {
        if k == k0 && k0 in Ids(rows[1..], id) {
          assert merge(merge(t[k0], rows[0]), Last(rows[1..], id, k0)) == merge(t[k0], Last(rows[1..], id, k0));
        }
      }
    }
  }

  /** After loading, each key's stored row is unchanged by one more merge
      with the last row carrying that key. */
  lemma {:induction false} PutAllSettles<R(!new)>(t: map<int, R>, rows: seq<R>, id: R -> int, merge: (R, R) -> R)
    requires Absorbs(merge) && SelfStable(merge)
    ensures forall k :: k in Ids(rows, id) ==>
      k in PutAll(t, rows, id, merge)
      && merge(PutAll(t, rows, id, merge)[k], Last(rows, id, k)) == PutAll(t, rows, id, merge)[k]
    decreases |rows|
  {
    PutAllFrame(t, rows, id, merge);
    if |rows| > 0 {
      var k0 := id(rows[0]);
      var t1 := Put(t, k0, rows[0], merge);
      PutAllSettles(t1, rows[1..], id, merge);
      PutAllFrame(t1, rows[1..], id, merge);
      var u := PutAll(t, rows, id, merge);
      forall k | k in Ids(rows, id)
        ensures merge(u[k], Last(rows, id, k)) == u[k]
      {
        if k !in Ids(rows[1..], id) {
          assert k == k0 && u[k] == t1[k];
          if k0 in t {
            assert merge(merge(t[k0], rows[0]), rows[0]) == merge(t[k0], rows[0]);
          } else {
            assert merge(rows[0], rows[0]) == rows[0];
          }
        }
      }
    }
  }

  /** Every key the rows carry is stored already, and one more merge with
      its last row leaves it as it is. */
  ghost predicate Settled<R>(t: map<int, R>, rows: seq<R>, id: R -> int, merge: (R, R) -> R) {
    && Ids(rows, id) <= t.Keys
    && forall k :: k in Ids(rows, id) ==> merge(t[k], Last(rows, id, k)) == t[k]
  }

  /** Loading rows into a table they have settled changes nothing. */
  lemma PutAllSettledNoOp<R(!new)>(t: map<int, R>, rows: seq<R>, id: R -> int, merge: (R, R) -> R)
    requires Absorbs(merge) && Settled(t, rows, id, merge)
    ensures PutAll(t, rows, id, merge) == t
  {
    PutAllRefreshes(t, rows, id, merge);
  }

  /** Loading the same rows a second time leaves the table as the first
      load left it. */
  lemma PutAllIdempotent<R(!new)>(t: map<int, R>, rows: seq<R>, id: R -> int, merge: (R, R) -> R)
    requires Absorbs(merge) && SelfStable(merge)
    ensures PutAll(PutAll(t, rows, id, merge), rows, id, merge) == PutAll(t, rows, id, merge)
  {
    PutAllFrame(t, rows, id, merge);
    PutAllSettles(t, rows, id, merge);
    PutAllSettledNoOp(PutAll(t, rows, id, merge), rows, id, merge);
  }

  // ----- the eight conflict policies -----

  /** Users: ON CONFLICT (id) DO UPDATE SET reputation, display_name. */
  function MergeUser(stored: UserRow, incoming: UserRow): (m: UserRow)
    ensures m.reputation == incoming.reputation && m.displayName == incoming.displayName
    ensures m.(reputation := stored.reputation, displayName := stored.displayName) == stored
  {
    stored.(reputation := incoming.reputation, displayName := incoming.displayName)
  }

  /** Posts: ON CONFLICT (id) DO UPDATE SET score, view_count, answer_count. */
  function MergePost(stored: PostRow, incoming: PostRow): (m: PostRow)
    ensures m.score == incoming.score && m.viewCount == incoming.viewCount
    ensures m.answerCount == incoming.answerCount
    ensures m.(score := stored.score, viewCount := stored.viewCount, answerCount := stored.answerCount) == stored
  {
    stored.(score := incoming.score, viewCount := incoming.viewCount, answerCount := incoming.answerCount)
  }

  /** ON CONFLICT (id) DO NOTHING: the stored row stays. */
  function Keep<R>(stored: R, incoming: R): R {
    stored
  }

  /** A `DO NOTHING` load: every stored row stays as it was, and a key that
      was not stored holds the FIRST row of the file carrying it; later rows
      with the same key are dropped. */
  lemma {:induction false} PutAllKeep<R>(t: map<int, R>, rows: seq<R>, id: R -> int)
    ensures PutAll(t, rows, id, Keep)
         == map k | k in t.Keys + Ids(rows, id) :: if k in t then t[k] else First(rows, id, k)
    decreases |rows|
  {
    if |rows| > 0 {
      var k0 := id(rows[0]);
      var t1 := Put(t, k0, rows[0], Keep);
      PutAllKeep(t1, rows[1..], id);
      var lhs := PutAll(t, rows, id, Keep);
      var rhs := map k | k in t.Keys + Ids(rows, id) :: if k in t then t[k] else First(rows, id, k);
      assert lhs.Keys == rhs.Keys;
      forall k | k in lhs
        ensures lhs[k] == rhs[k]
      {
        if k !in t && k != k0 {
          assert k in Ids(rows[1..], id);
        }
      }
    }
  }

  /** Every policy of the importer makes a re-import harmless. */
  lemma PoliciesAreStable()
    ensures Absorbs(MergeUser) && SelfStable(MergeUser)
    ensures Absorbs(MergePost) && SelfStable(MergePost)
    ensures Absorbs<CommentRow>(Keep) && SelfStable<CommentRow>(Keep)
    ensures Absorbs<BadgeRow>(Keep) && SelfStable<BadgeRow>(Keep)
    ensures Absorbs<PostHistoryRow>(Keep) && SelfStable<PostHistoryRow>(Keep)
    ensures Absorbs<PostLinkRow>(Keep) && SelfStable<PostLinkRow>(Keep)
    ensures Absorbs<TagRow>(Keep) && SelfStable<TagRow>(Keep)
    ensures Absorbs<VoteRow>(Keep) && SelfStable<VoteRow>(Keep)
  {
  }
}
