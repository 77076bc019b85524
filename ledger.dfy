/** database.js: the table of posts already announced. The SQLite table
    `posted_content` is a map from `post_id` (its UNIQUE column) to the row;
    the AUTOINCREMENT row id is a counter. Times are whole seconds, and the
    clock reading a statement would take is passed in as `now`. */
module Ledger {
  import opened Text
  import opened Posts
  import LinkJson

  /** A row of `posted_content`; the link lists are stored as JSON text. */
  datatype Row = Row(
    rowId: nat,
    postId: string,
    title: string,
    author: string,
    url: string,
    sourceJson: string,
    downloadJson: string,
    postedAt: int,
    createdAt: int)

  /** The whole table: its rows by post id and the last row id handed out. */
  datatype Table = Table(rows: map<string, Row>, lastId: nat)

  const SecondsPerDay: nat := 86400
  const DefaultRecent: int := 50
  const DuplicateError: string := "SQLITE_CONSTRAINT: UNIQUE constraint failed: posted_content.post_id"

  /** Every row is filed under its own post id and has a row id already handed out. */
  predicate WellFormed(t: Table) {
    forall k | k in t.rows :: t.rows[k].postId == k && 0 < t.rows[k].rowId <= t.lastId
  }

  /** The row `savePost` inserts: the link lists as JSON (a missing list is
      the empty one), `posted_at` the post's own time or else the current one,
      `created_at` the current time. */
  function RowOf(post: Post, rowId: nat, now: int): (row: Row)
    ensures row.postId == post.id && row.rowId == rowId && row.createdAt == now
    ensures post.postedAt.Some? ==> row.postedAt == post.postedAt.value
    ensures post.postedAt.None? ==> row.postedAt == now
  {
    Row(rowId, post.id, post.title, post.author, post.url,
        LinkJson.Encode(post.sourceLinks), LinkJson.Encode(post.downloadLinks),
        if post.postedAt.Some? then post.postedAt.value else now, now)
  }

  // ---------------------------------------------------------------- savePost

  /** The INSERT of `savePost`: refused when the post id is already there,
      otherwise one new row with the next row id, which is returned. */
  function Saved(t: Table, post: Post, now: int): (r: (Table, Result<nat>))
    ensures post.id in t.rows ==> r.0 == t && r.1.Failure?
    ensures post.id !in t.rows ==> r.1 == Success(t.lastId + 1) && r.0.lastId == t.lastId + 1
    ensures post.id !in t.rows ==> r.0.rows == t.rows[post.id := RowOf(post, t.lastId + 1, now)]
  {
    if post.id in t.rows then (t, Failure(DuplicateError))
    else (Table(t.rows[post.id := RowOf(post, t.lastId + 1, now)], t.lastId + 1), Success(t.lastId + 1))
  }

  /** Saving keeps the table well formed, adds exactly one row when it
      succeeds and leaves every other row as it was; afterwards the post is
      tracked whether or not the insert succeeded. */
  lemma SaveFacts(t: Table, post: Post, now: int)
    requires WellFormed(t)
    ensures var (t', r) := Saved(t, post, now);
      && WellFormed(t')
      && post.id in t'.rows
      && (r.Success? <==> post.id !in t.rows)
      && (r.Success? ==> |t'.rows| == |t.rows| + 1 && t'.rows.Keys == t.rows.Keys + {post.id})
      && (r.Failure? ==> t' == t)
      && (forall k | k in t.rows && k != post.id :: k in t'.rows && t'.rows[k] == t.rows[k])
      && (forall k | k in t'.rows && t'.rows[k].rowId > t.lastId :: k == post.id)
  {
  }

  /** Saving the same post twice: the second insert is refused and changes nothing. */
  lemma SaveTwice(t: Table, post: Post, now: int, later: int)
    ensures var t' := Saved(t, post, now).0;
      Saved(t', post, later) == (t', Failure(DuplicateError))
  {
  }

  /** What is read back from a stored link list: `JSON.parse(text || '[]')`. */
  function ReadLinks(json: string): Option<seq<RawLink>> {
    LinkJson.Decode(OrElse(json, "[]"))
  }

  /** The link lists of a saved post read back as they were given. */
  lemma StoredLinksRoundTrip(post: Post, rowId: nat, now: int)
    ensures ReadLinks(RowOf(post, rowId, now).sourceJson) == Some(post.sourceLinks)
    ensures ReadLinks(RowOf(post, rowId, now).downloadJson) == Some(post.downloadLinks)
  {
    LinkJson.RoundTrip(post.sourceLinks);
    LinkJson.RoundTrip(post.downloadLinks);
    assert LinkJson.Encode(post.sourceLinks)[0] == '[';
    assert LinkJson.Encode(post.downloadLinks)[0] == '[';
  }

  // ---------------------------------------------------------------- cleanup

  /** The start of the kept period: `now` minus `days` days. */
  function Cutoff(now: int, days: nat): int {
    now - days * SecondsPerDay
  }

  /** The post ids whose rows were created before `cutoff`. */
  function Expired(rows: map<string, Row>, cutoff: int): set<string> {
    set k | k in rows && rows[k].createdAt < cutoff
  }

  /** The rows created at or after `cutoff`. */
  function Pruned(rows: map<string, Row>, cutoff: int): map<string, Row> {
    map k | k in rows && rows[k].createdAt >= cutoff :: rows[k]
  }

  /** Pruning removes exactly the rows created before the cutoff, keeps every
      other row unchanged, and the number removed is the number expired. */
  lemma {:induction false} PruneFacts(rows: map<string, Row>, cutoff: int)
    ensures forall k :: k in Pruned(rows, cutoff) <==> k in rows && rows[k].createdAt >= cutoff
    ensures forall k | k in Pruned(rows, cutoff) :: Pruned(rows, cutoff)[k] == rows[k]
    ensures Expired(rows, cutoff) !! Pruned(rows, cutoff).Keys
    ensures |Pruned(rows, cutoff)| + |Expired(rows, cutoff)| == |rows|
  {
    var kept := Pruned(rows, cutoff).Keys;
    var gone := Expired(rows, cutoff);
    assert kept == rows.Keys - gone;
    assert gone <= rows.Keys;
    SubsetCount(rows.Keys, gone);
  }

  lemma {:induction false} SubsetCount(all: set<string>, part: set<string>)
    requires part <= all
    ensures |all - part| + |part| == |all|
  {
    if part != {} {
      var x :| x in part;
      SubsetCount(all - {x}, part - {x});
      assert all - {x} - (part - {x}) == all - part;
    }
  }

  /** Pruning keeps a well-formed table well formed, and pruning again with the same cutoff removes nothing. */
  lemma PruneAgain(t: Table, cutoff: int)
    requires WellFormed(t)
    ensures WellFormed(Table(Pruned(t.rows, cutoff), t.lastId))
    ensures Pruned(Pruned(t.rows, cutoff), cutoff) == Pruned(t.rows, cutoff)
    ensures Expired(Pruned(t.rows, cutoff), cutoff) == {}
  {
  }

  // ---------------------------------------------------------------- getRecentPosts

  /** A row as `getRecentPosts` returns it: the row with its link lists parsed. */
  datatype Stored = Stored(row: Row, sourceLinks: Option<seq<RawLink>>, downloadLinks: Option<seq<RawLink>>)

  function ReadRow(row: Row): (s: Stored)
    ensures s.row == row
  {
    Stored(row, ReadLinks(row.sourceJson), ReadLinks(row.downloadJson))
  }

  /** How many rows `LIMIT limit` lets through: a negative limit lets all through. */
  function Bound(limit: int, count: nat): (n: nat)
    ensures n <= count
    ensures limit < 0 ==> n == count
    ensures 0 <= limit ==> n == if limit < count then limit else count
  {
    if limit < 0 || count <= limit then count else limit
  }

  /** `ids` are distinct post ids of `rows`, newest first, and no row left out
      is newer than any row chosen. */
  predicate NewestFirst(rows: map<string, Row>, ids: seq<string>) {
    && (forall i | 0 <= i < |ids| :: ids[i] in rows)
    && (forall i, j | 0 <= i < j < |ids| :: ids[i] != ids[j])
    && (forall i, j | 0 <= i < j < |ids| :: rows[ids[i]].createdAt >= rows[ids[j]].createdAt)
    && (forall k, i | k in rows && k !in ids && 0 <= i < |ids| :: rows[k].createdAt <= rows[ids[i]].createdAt)
  }

  // ---------------------------------------------------------------- the table object

  /** The connection's view of the table. */
  class Database {
    var rows: map<string, Row>
    var lastId: nat

    function State(): Table
      reads this
    {
      Table(rows, lastId)
    }

    ghost predicate Valid()
      reads this
    {
      WellFormed(State())
    }

    /** The connection once `init` has opened the database file: the table
        stored there by earlier runs, or the empty one that
        `CREATE TABLE IF NOT EXISTS` makes on a first run. */
    constructor (stored: Table)
      requires WellFormed(stored)
      ensures Valid() && State() == stored
    {
      rows := stored.rows;
      lastId := stored.lastId;
    }

    /** `isPostAlreadyTracked`: whether a row with this post id exists. */
    method IsPostAlreadyTracked(postId: string) returns (tracked: bool)
      ensures tracked <==> postId in rows
    {
      tracked := postId in rows;
    }

    /** `savePost`: the INSERT, refused for a post id already in the table. */
    method SavePost(post: Post, now: int) returns (r: Result<nat>)
      requires Valid()
      modifies this
      ensures Valid()
      ensures (State(), r) == Saved(old(State()), post, now)
    {
      if post.id in rows {
        r := Failure(DuplicateError);
      } else {
        lastId := lastId + 1;
        rows := rows[post.id := RowOf(post, lastId, now)];
        r := Success(lastId);
      }
    }

    /** `getPostCount`: the number of rows. */
    method GetPostCount() returns (count: nat)
      ensures count == |rows|
    {
      count := |rows|;
    }

    /** `cleanup(days)`: deletes the rows created more than `days` days
        before `now` and returns how many were deleted. */
    method Cleanup(days: nat, now: int) returns (deleted: nat)
      requires Valid()
      modifies this
      ensures Valid() && lastId == old(lastId)
      ensures rows == Pruned(old(rows), Cutoff(now, days))
      ensures deleted == |Expired(old(rows), Cutoff(now, days))|
      ensures |rows| + deleted == |old(rows)|
    {
      var cutoff := Cutoff(now, days);
      PruneFacts(rows, cutoff);
      deleted := |Expired(rows, cutoff)|;
      rows := Pruned(rows, cutoff);
    }

    /** `getRecentPosts(limit)`: at most `limit` rows (50 when no limit is
        given, all of them when it is negative), newest first, each with its
        link lists parsed back. */
    method GetRecentPosts(limit: Option<int>) returns (recent: seq<Stored>)
      ensures var n := Bound(if limit.Some? then limit.value else DefaultRecent, |rows|);
        |recent| == n
      ensures exists ids :: (|ids| == |recent| && NewestFirst(rows, ids)
        && forall i | 0 <= i < |ids| :: recent[i] == ReadRow(rows[ids[i]]))
    {
      var n := Bound(if limit.Some? then limit.value else DefaultRecent, |rows|);
      var ids := NewestIds(n);
      var table := rows;
      recent := seq(|ids|, i requires 0 <= i < |ids| => ReadRow(table[ids[i]]));
      assert forall i | 0 <= i < |ids| :: recent[i] == ReadRow(rows[ids[i]]);
    }

    /** The selection behind `ORDER BY created_at DESC LIMIT n`: the newest
        remaining row, `n` times over. */
    method NewestIds(n: nat) returns (ids: seq<string>)
      requires n <= |rows|
      ensures |ids| == n && NewestFirst(rows, ids)
    {
      ids := [];
      var remaining := rows.Keys;
      while |ids| < n
        invariant |ids| <= n && remaining <= rows.Keys
        invariant |remaining| + |ids| == |rows|
        invariant forall k | k in rows :: k in remaining <==> k !in ids
        invariant NewestFirst(rows, ids)
        decreases n - |ids|
      {
        var best :| best in remaining;
        var todo := remaining - {best};
        while todo != {}
          invariant todo <= remaining && best in remaining
          invariant forall k | k in remaining - todo :: rows[k].createdAt <= rows[best].createdAt
          decreases |todo|
        {
          var k :| k in todo;
          if rows[k].createdAt > rows[best].createdAt {
            best := k;
          }
          todo := todo - {k};
        }
        ids := ids + [best];
        remaining := remaining - {best};
      }
    }
  }
}
