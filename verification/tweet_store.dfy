/**
 * The Cassandra tweet repository.
 *
 * The three tables timeline_by_user, feed_by_user and likes are immutable
 * values; every repository operation is a function from the tables, plus the
 * storage faults it meets, to the new tables and the error the Go code
 * reports. Write statements of one operation are numbered in the order they
 * are executed, and the set `failing` names the ones that fail; a failed
 * statement writes nothing.
 */
module TweetStore {
  import opened Results
  import Clustering

  type Username = string

  /** A time-UUID: a smaller id was created earlier. */
  type TweetId = nat

  /** The columns of a timeline or feed row besides its primary key. */
  datatype Post = Post(postedBy: Username, text: string, retweet: bool, originalPostedBy: Username)

  /** A tweet as the tables store it. */
  datatype Tweet = Tweet(id: TweetId, post: Post)

  /** The rows of one partition, by clustering key. */
  type Partition = map<TweetId, Post>

  /**
   * A table from partition key to partition: timeline_by_user is keyed by
   * `posted_by`, feed_by_user by the username of the feed's owner.
   */
  type Table = map<Username, Partition>

  /** A row of the likes table; the pair is its primary key. */
  datatype Like = Like(username: Username, tweetId: TweetId)

  datatype Db = Db(timeline: Table, feed: Table, likes: set<Like>)

  datatype TableName = TimelineByUser | FeedByUser | Likes

  datatype DbError =
    | WriteFailed(table: TableName, partition: Username, id: TweetId)
    | ReadFailed(table: TableName)
    | NotFound(id: TweetId)
      /** COUNT(*) is scanned into an int16, and gocql refuses a value that does not fit. */
    | OutOfRange(count: nat)

  /** The outcome of a write operation: the new tables and the error returned. */
  datatype Written = Written(db: Db, err: Option<DbError>)

  /** A table after a loop of inserts, and the error left in the loop's `err` variable. */
  datatype Inserted = Inserted(table: Table, err: Option<DbError>)

  function Rows(t: Table, key: Username): Partition
  {
    if key in t then t[key] else map[]
  }

  function Lookup(t: Table, key: Username, id: TweetId): Option<Post>
  {
    if id in Rows(t, key) then Some(Rows(t, key)[id]) else None
  }

  /** A CQL INSERT, which overwrites the row with the same primary key. */
  function Upsert(t: Table, key: Username, tw: Tweet): (t': Table)
    ensures forall k, id :: Lookup(t', k, id) ==
              (if k == key && id == tw.id then Some(tw.post) else Lookup(t, k, id))
  {
    t[key := Rows(t, key)[tw.id := tw.post]]
  }

  /** Every timeline row sits in the partition of its own author. */
  ghost predicate TimelineKeyed(db: Db)
  {
    forall a, id :: Lookup(db.timeline, a, id).Some? ==> Lookup(db.timeline, a, id).value.postedBy == a
  }

  // ---------------------------------------------------------------------------
  // SaveTweet: fan-out on write
  // ---------------------------------------------------------------------------

  /** Some insert for `u` among `recipients`, numbered from `next`, does not fail. */
  predicate Delivered(recipients: seq<Username>, failing: set<nat>, next: nat, u: Username)
  {
    exists i :: 0 <= i < |recipients| && recipients[i] == u && next + i !in failing
  }

  lemma DeliveredCons(recipients: seq<Username>, failing: set<nat>, next: nat)
    requires recipients != []
    ensures forall u :: Delivered(recipients, failing, next, u) <==>
              (recipients[0] == u && next !in failing) || Delivered(recipients[1..], failing, next + 1, u)
  {
    forall u
      ensures Delivered(recipients, failing, next, u) <==>
        (recipients[0] == u && next !in failing) || Delivered(recipients[1..], failing, next + 1, u)
    {
      if Delivered(recipients[1..], failing, next + 1, u) {
        var i :| 0 <= i < |recipients[1..]| && recipients[1..][i] == u && next + 1 + i !in failing;
        assert recipients[i + 1] == u;
      }
      if Delivered(recipients, failing, next, u) {
        var i :| 0 <= i < |recipients| && recipients[i] == u && next + i !in failing;
        if i > 0 {
          assert recipients[1..][i - 1] == u;
        }
      }
    }
  }

  /**
   * The loop of feed inserts in SaveTweet: statement `next + i` writes the
   * tweet into the feed of `recipients[i]`, and `err` ends up holding the
   * outcome of the last statement.
   */
  function FanOut(feed: Table, tw: Tweet, recipients: seq<Username>, failing: set<nat>, next: nat, err: Option<DbError>): (r: Inserted)
    ensures forall u, id :: Lookup(r.table, u, id) ==
              (if id == tw.id && Delivered(recipients, failing, next, u) then Some(tw.post) else Lookup(feed, u, id))
    ensures recipients == [] ==> r.err == err
    ensures recipients != [] ==>
              r.err == (if next + |recipients| - 1 in failing
                        then Some(WriteFailed(FeedByUser, recipients[|recipients| - 1], tw.id))
                        else None)
    decreases |recipients|
  {
    if recipients == [] then Inserted(feed, err)
    else
      DeliveredCons(recipients, failing, next);
      var written := if next in failing then feed else Upsert(feed, recipients[0], tw);
      var stepErr := if next in failing then Some(WriteFailed(FeedByUser, recipients[0], tw.id)) else None;
      FanOut(written, tw, recipients[1..], failing, next + 1, stepErr)
  }

  /**
   * SaveTweet: statement 0 inserts the timeline row of the author; statements
   * 1 .. |followers| insert a feed row for each follower, and the last one a
   * feed row for the author. The error returned is the outcome of that last
   * statement.
   */
  function SaveTweet(db: Db, tw: Tweet, followers: seq<Username>, failing: set<nat>): (w: Written)
    ensures w.db.likes == db.likes
    ensures forall a, id :: Lookup(w.db.timeline, a, id) ==
              (if a == tw.post.postedBy && id == tw.id && 0 !in failing then Some(tw.post) else Lookup(db.timeline, a, id))
    ensures forall u, id :: Lookup(w.db.feed, u, id) ==
              (if id == tw.id && Delivered(followers + [tw.post.postedBy], failing, 1, u) then Some(tw.post) else Lookup(db.feed, u, id))
    ensures w.err ==
              (if 1 + |followers| in failing then Some(WriteFailed(FeedByUser, tw.post.postedBy, tw.id)) else None)
  {
    var author := tw.post.postedBy;
    var timelineErr := if 0 in failing then Some(WriteFailed(TimelineByUser, author, tw.id)) else None;
    var timeline := if 0 in failing then db.timeline else Upsert(db.timeline, author, tw);
    var fanned := FanOut(db.feed, tw, followers + [author], failing, 1, timelineErr);
    Written(Db(timeline, fanned.table, db.likes), fanned.err)
  }

  // ---------------------------------------------------------------------------
  // Likes
  // ---------------------------------------------------------------------------

  /** SaveLike: an INSERT into likes, an upsert of the pair. */
  function SaveLike(db: Db, like: Like, fails: bool): (w: Written)
    ensures w.db.timeline == db.timeline && w.db.feed == db.feed
    ensures fails ==> w.db == db && w.err == Some(WriteFailed(Likes, like.username, like.tweetId))
    ensures !fails ==> w.err == None && like in w.db.likes
    ensures forall l :: l != like ==> (l in w.db.likes <==> l in db.likes)
  {
    if fails then Written(db, Some(WriteFailed(Likes, like.username, like.tweetId)))
    else Written(db.(likes := db.likes + {like}), None)
  }

  /** DeleteLike: a DELETE of the row keyed by (username, id). */
  function DeleteLike(db: Db, id: TweetId, username: Username, fails: bool): (w: Written)
    ensures w.db.timeline == db.timeline && w.db.feed == db.feed
    ensures fails ==> w.db == db && w.err == Some(WriteFailed(Likes, username, id))
    ensures !fails ==> w.err == None && Like(username, id) !in w.db.likes
    ensures forall l :: l != Like(username, id) ==> (l in w.db.likes <==> l in db.likes)
  {
    if fails then Written(db, Some(WriteFailed(Likes, username, id)))
    else Written(db.(likes := db.likes - {Like(username, id)}), None)
  }

  /** The like rows of one tweet. */
  function LikesOf(likes: set<Like>, id: TweetId): set<Like>
  {
    set l | l in likes && l.tweetId == id
  }

  const MaxInt16: nat := 32767

  lemma NoLikesIff(likes: set<Like>, id: TweetId)
    ensures |LikesOf(likes, id)| == 0 <==> forall u :: Like(u, id) !in likes
  {
    if |LikesOf(likes, id)| != 0 {
      var l :| l in LikesOf(likes, id);
      assert Like(l.username, id) == l;
    }
    if exists u :: Like(u, id) in likes {
      var u :| Like(u, id) in likes;
      assert Like(u, id) in LikesOf(likes, id);
    }
  }

  /** CountLikes: SELECT COUNT(*) of the tweet's like rows, scanned into an int16. */
  function CountLikes(db: Db, id: TweetId, fails: bool): (r: Result<nat, DbError>)
    ensures r.Ok? <==> !fails && |LikesOf(db.likes, id)| <= MaxInt16
    ensures r.Ok? ==> r.value == |LikesOf(db.likes, id)|
    ensures r.Ok? ==> (r.value == 0 <==> forall u :: Like(u, id) !in db.likes)
  {
    if fails then Err(ReadFailed(Likes))
    else
      NoLikesIff(db.likes, id);
      var n := |LikesOf(db.likes, id)|;
      if n > MaxInt16 then Err(OutOfRange(n)) else Ok(n)
  }

  /**
   * LikedByMe: counts the rows of (me, id) and reports whether there is at
   * least one. On a failed read the Go code reports false with the error.
   */
  function LikedByMe(db: Db, me: Username, id: TweetId, fails: bool): (r: Result<bool, DbError>)
    ensures fails ==> r == Err(ReadFailed(Likes))
    ensures !fails ==> r == Ok(Like(me, id) in db.likes)
  {
    if fails then Err(ReadFailed(Likes))
    else
      var mine := set l | l in db.likes && l == Like(me, id);
      assert mine == if Like(me, id) in db.likes then {Like(me, id)} else {};
      Ok(|mine| >= 1)
  }

  /** GetLikesByTweet: the like rows of a tweet; a failed query yields none. */
  function GetLikesByTweet(db: Db, id: TweetId, queryFails: bool): (r: set<Like>)
    ensures r <= db.likes
    ensures forall l :: l in r ==> l.tweetId == id
    ensures !queryFails ==> forall u :: Like(u, id) in db.likes ==> Like(u, id) in r
    ensures queryFails ==> r == {}
  {
    if queryFails then {} else LikesOf(db.likes, id)
  }

  // ---------------------------------------------------------------------------
  // Paged reads
  // ---------------------------------------------------------------------------

  /**
   * The `lastTweetId` query parameter: empty means no bound; otherwise the
   * time-UUID it parses to, or none when gocql cannot bind it.
   */
  datatype Cursor = FromStart | Below(id: TweetId) | Unbindable

  function CursorOf(lastTweetId: string, parsed: Option<TweetId>): (c: Cursor)
    ensures c.FromStart? <==> |lastTweetId| == 0
    ensures c.Below? <==> |lastTweetId| > 0 && parsed.Some?
    ensures c.Below? ==> c.id == parsed.value
    ensures c.Unbindable? <==> |lastTweetId| > 0 && parsed.None?
  {
    if |lastTweetId| > 0 then
      match parsed
      case Some(id) => Below(id)
      case None => Unbindable
    else FromStart
  }

  /**
   * Whether the query issued for `c` can return the row `id`. A cursor that
   * cannot be bound makes the query fail, and the read loop then sees no rows.
   */
  predicate Admits(c: Cursor, id: TweetId): (admitted: bool)
    ensures c.FromStart? ==> admitted
    ensures c.Below? ==> (admitted <==> id < c.id)
    ensures c.Unbindable? ==> !admitted
  {
    match c
    case FromStart => true
    case Below(bound) => id < bound
    case Unbindable => false
  }

  /** The LIMIT of both paged reads. */
  const PageSize: nat := 20

  /** Which reads of one paged read fail: the page query itself, or a per-row lookup. */
  datatype ReadFaults = ReadFaults(query: bool, countLikes: set<TweetId>, likedByMe: set<TweetId>)

  /** A paged read in which every read succeeds. */
  const NoReadFaults := ReadFaults(false, {}, {})

  /** model.TweetDTO: a row with its like count and whether the reader liked it. */
  datatype TweetView = TweetView(id: TweetId, post: Post, likesCount: nat, likedByMe: bool)

  datatype Page = Page(views: seq<TweetView>, err: Option<DbError>)

  /** One scanned row, with a failed like lookup defaulting to 0 or false. */
  function ViewOf(db: Db, me: Username, id: TweetId, post: Post, faults: ReadFaults): (v: TweetView)
    ensures v.id == id && v.post == post
    ensures v.likesCount ==
              (if id in faults.countLikes || |LikesOf(db.likes, id)| > MaxInt16 then 0 else |LikesOf(db.likes, id)|)
    ensures v.likedByMe <==> id !in faults.likedByMe && Like(me, id) in db.likes
  {
    var count := match CountLikes(db, id, id in faults.countLikes)
      case Ok(n) => n
      case Err(_) => 0;
    var liked := match LikedByMe(db, me, id, id in faults.likedByMe)
      case Ok(b) => b
      case Err(_) => false;
    TweetView(id, post, count, liked)
  }

  /** The ids of `p` the query for `c` admits. */
  function Candidates(p: Partition, c: Cursor): (ids: set<TweetId>)
    ensures forall id :: id in ids <==> id in p && Admits(c, id)
  {
    set id | id in p && Admits(c, id)
  }

  /** The scanned rows `ids` of `p`, each with its like lookups. */
  function Views(db: Db, me: Username, p: Partition, ids: seq<TweetId>, faults: ReadFaults): (vs: seq<TweetView>)
    requires forall i :: 0 <= i < |ids| ==> ids[i] in p
    ensures |vs| == |ids|
    ensures forall i :: 0 <= i < |vs| ==> vs[i].id == ids[i] && vs[i] == ViewOf(db, me, ids[i], p[ids[i]], faults)
  {
    seq(|ids|, i requires 0 <= i < |ids| => ViewOf(db, me, ids[i], p[ids[i]], faults))
  }

  /**
   * The read loop shared by GetTimelineTweets and GetFeedTweets over one
   * partition: at most PageSize admitted rows, in scan order, each with its
   * like count and liked-by-me flag. The error returned is always nil.
   */
  function ReadPage(db: Db, me: Username, p: Partition, c: Cursor, order: Clustering.Order, faults: ReadFaults): (r: Page)
    ensures r.err == None
    ensures |r.views| <= PageSize
    ensures faults.query ==> r.views == []
    ensures forall i :: 0 <= i < |r.views| ==>
              && r.views[i].id in p
              && r.views[i].post == p[r.views[i].id]
              && Admits(c, r.views[i].id)
              && r.views[i] == ViewOf(db, me, r.views[i].id, r.views[i].post, faults)
    ensures forall i, j :: 0 <= i < j < |r.views| ==> Clustering.Precedes(order, r.views[i].id, r.views[j].id)
    ensures !faults.query ==>
              forall id :: id in p && Admits(c, id) && (forall i :: 0 <= i < |r.views| ==> r.views[i].id != id) ==>
                |r.views| == PageSize && forall i :: 0 <= i < |r.views| ==> Clustering.Precedes(order, r.views[i].id, id)
  {
    if faults.query then Page([], None)
    else
      var shown := Clustering.Limit(order, Candidates(p, c), PageSize);
      Page(Views(db, me, p, shown, faults), None)
  }

  /**
   * GetTimelineTweets: a page of the author's timeline partition, below the row
   * `lastTweetId` names when it is not empty; `parsed` is the time-UUID it
   * denotes, if any.
   */
  function GetTimelineTweets(db: Db, me: Username, username: Username, lastTweetId: string, parsed: Option<TweetId>, order: Clustering.Order, faults: ReadFaults): (r: Page)
    ensures r.err == None
    ensures |r.views| <= PageSize
    ensures faults.query ==> r.views == []
    ensures forall i :: 0 <= i < |r.views| ==>
              && Lookup(db.timeline, username, r.views[i].id) == Some(r.views[i].post)
              && Admits(CursorOf(lastTweetId, parsed), r.views[i].id)
              && r.views[i] == ViewOf(db, me, r.views[i].id, r.views[i].post, faults)
    ensures forall i, j :: 0 <= i < j < |r.views| ==> Clustering.Precedes(order, r.views[i].id, r.views[j].id)
    ensures !faults.query ==>
              forall id :: Lookup(db.timeline, username, id).Some? && Admits(CursorOf(lastTweetId, parsed), id)
                           && (forall i :: 0 <= i < |r.views| ==> r.views[i].id != id) ==>
                |r.views| == PageSize && forall i :: 0 <= i < |r.views| ==> Clustering.Precedes(order, r.views[i].id, id)
  {
    ReadPage(db, me, Rows(db.timeline, username), CursorOf(lastTweetId, parsed), order, faults)
  }

  /**
   * GetFeedTweets: a page of the reader's feed partition, below the row
   * `lastTweetId` names when it is not empty; `parsed` is the time-UUID it
   * denotes, if any.
   */
  function GetFeedTweets(db: Db, me: Username, username: Username, lastTweetId: string, parsed: Option<TweetId>, order: Clustering.Order, faults: ReadFaults): (r: Page)
    ensures r.err == None
    ensures |r.views| <= PageSize
    ensures faults.query ==> r.views == []
    ensures forall i :: 0 <= i < |r.views| ==>
              && Lookup(db.feed, username, r.views[i].id) == Some(r.views[i].post)
              && Admits(CursorOf(lastTweetId, parsed), r.views[i].id)
              && r.views[i] == ViewOf(db, me, r.views[i].id, r.views[i].post, faults)
    ensures forall i, j :: 0 <= i < j < |r.views| ==> Clustering.Precedes(order, r.views[i].id, r.views[j].id)
    ensures !faults.query ==>
              forall id :: Lookup(db.feed, username, id).Some? && Admits(CursorOf(lastTweetId, parsed), id)
                           && (forall i :: 0 <= i < |r.views| ==> r.views[i].id != id) ==>
                |r.views| == PageSize && forall i :: 0 <= i < |r.views| ==> Clustering.Precedes(order, r.views[i].id, id)
  {
    ReadPage(db, me, Rows(db.feed, username), CursorOf(lastTweetId, parsed), order, faults)
  }

  // ---------------------------------------------------------------------------
  // Single-tweet and whole-timeline reads, and the feed backfill
  // ---------------------------------------------------------------------------

  /**
   * FindTweet: the timeline row with the given id, from whichever partition
   * holds it; gocql reports not-found when there is none.
   */
  ghost function FindTweet(db: Db, id: TweetId, fails: bool): (r: Result<Tweet, DbError>)
    ensures fails ==> r == Err(ReadFailed(TimelineByUser))
    ensures !fails ==> (r.Ok? <==> exists a :: Lookup(db.timeline, a, id).Some?)
    ensures r.Ok? ==> r.value.id == id && exists a :: Lookup(db.timeline, a, id) == Some(r.value.post)
    ensures r.Err? && !fails ==> r.error == NotFound(id)
  {
    if fails then Err(ReadFailed(TimelineByUser))
    else if exists a :: Lookup(db.timeline, a, id).Some? then
      var a :| Lookup(db.timeline, a, id).Some?;
      Ok(Tweet(id, Lookup(db.timeline, a, id).value))
    else Err(NotFound(id))
  }

  /** The rows `ids` of `p`, as tweets, in the order given. */
  function RowsOf(p: Partition, ids: seq<TweetId>): (r: seq<Tweet>)
    requires forall i :: 0 <= i < |ids| ==> ids[i] in p
    ensures |r| == |ids|
    ensures forall i :: 0 <= i < |r| ==> r[i].id == ids[i] && r[i].post == p[ids[i]]
  {
    seq(|ids|, i requires 0 <= i < |ids| => Tweet(ids[i], p[ids[i]]))
  }

  /** gocql's page size for a query that sets none: an unbounded SELECT arrives in fetches of this many rows. */
  const FetchSize: nat := 5000

  /**
   * How many of `total` rows an unbounded read delivers when fetch `m` (the
   * one for the rows from m * FetchSize on) fails: the rows of the fetches
   * before it. The read loop stops there and the iterator's error is dropped.
   */
  function RowsBeforeFault(total: nat, failedFetch: Option<nat>): (k: nat)
    ensures k <= total
    ensures failedFetch.None? ==> k == total
    ensures failedFetch.Some? ==> k <= failedFetch.value * FetchSize && (k < total ==> k == failedFetch.value * FetchSize)
  {
    match failedFetch
    case None => total
    case Some(m) => if m * FetchSize < total then m * FetchSize else total
  }

  /** The whole timeline partition of `username`, in scan order: what FindUserTweets reads when no fetch fails. */
  function AllUserTweets(db: Db, username: Username, order: Clustering.Order): (r: seq<Tweet>)
    ensures |r| == |Rows(db.timeline, username)|
    ensures forall i :: 0 <= i < |r| ==> Lookup(db.timeline, username, r[i].id) == Some(r[i].post)
    ensures forall id :: Lookup(db.timeline, username, id).Some? ==> exists i :: 0 <= i < |r| && r[i].id == id
    ensures forall i, j :: 0 <= i < j < |r| ==> Clustering.Precedes(order, r[i].id, r[j].id)
  {
    var p := Rows(db.timeline, username);
    var ids := Clustering.Scan(order, p.Keys);
    assert |p.Keys| == |p|;
    RowsOf(p, ids)
  }

  /**
   * FindUserTweets: the timeline partition of `username` in scan order, cut
   * off at the fetch that fails, if one does.
   */
  function FindUserTweets(db: Db, username: Username, order: Clustering.Order, failedFetch: Option<nat>): (r: seq<Tweet>)
    ensures |r| == RowsBeforeFault(|Rows(db.timeline, username)|, failedFetch)
    ensures r == AllUserTweets(db, username, order)[..|r|]
    ensures forall i :: 0 <= i < |r| ==> Lookup(db.timeline, username, r[i].id) == Some(r[i].post)
    ensures forall i, j :: 0 <= i < j < |r| ==> Clustering.Precedes(order, r[i].id, r[j].id)
    ensures failedFetch.None? ==> forall id :: Lookup(db.timeline, username, id).Some? ==> exists i :: 0 <= i < |r| && r[i].id == id
  {
    var all := AllUserTweets(db, username, order);
    var r := all[..RowsBeforeFault(|Rows(db.timeline, username)|, failedFetch)];
    assert failedFetch.None? ==> r == all;
    r
  }

  /** Some insert of `id` among `tweets`, numbered from `next`, does not fail. */
  predicate Copied(tweets: seq<Tweet>, failing: set<nat>, next: nat, id: TweetId)
  {
    exists k :: 0 <= k < |tweets| && next + k !in failing && tweets[k].id == id
  }

  /**
   * An id the inserts after the first copy is copied by the whole loop, and
   * with distinct ids the first tweet is not among them.
   */
  lemma CopiedFromTail(tweets: seq<Tweet>, failing: set<nat>, next: nat)
    requires |tweets| > 0
    requires forall i, j :: 0 <= i < j < |tweets| ==> tweets[i].id != tweets[j].id
    ensures forall id :: Copied(tweets[1..], failing, next + 1, id) ==> Copied(tweets, failing, next, id)
    ensures !Copied(tweets[1..], failing, next + 1, tweets[0].id)
  {
    forall id | Copied(tweets[1..], failing, next + 1, id)
      ensures Copied(tweets, failing, next, id)
    {
      var k :| 0 <= k < |tweets[1..]| && next + 1 + k !in failing && tweets[1..][k].id == id;
      assert tweets[k + 1].id == id;
    }
  }

  /**
   * The loop of feed inserts in UpdateFeed: statement `next + k` copies
   * `tweets[k]` into the feed of `recipient`.
   */
  function CopyInto(feed: Table, recipient: Username, tweets: seq<Tweet>, failing: set<nat>, next: nat, err: Option<DbError>): (r: Inserted)
    requires forall i, j :: 0 <= i < j < |tweets| ==> tweets[i].id != tweets[j].id
    ensures forall u, id :: u != recipient ==> Lookup(r.table, u, id) == Lookup(feed, u, id)
    ensures forall k :: 0 <= k < |tweets| && next + k !in failing ==>
              Lookup(r.table, recipient, tweets[k].id) == Some(tweets[k].post)
    ensures forall id :: !Copied(tweets, failing, next, id) ==>
              Lookup(r.table, recipient, id) == Lookup(feed, recipient, id)
    ensures tweets == [] ==> r.err == err
    ensures tweets != [] ==>
              r.err == (if next + |tweets| - 1 in failing
                        then Some(WriteFailed(FeedByUser, recipient, tweets[|tweets| - 1].id))
                        else None)
    decreases |tweets|
  {
    if tweets == [] then Inserted(feed, err)
    else
      var written := if next in failing then feed else Upsert(feed, recipient, tweets[0]);
      var stepErr := if next in failing then Some(WriteFailed(FeedByUser, recipient, tweets[0].id)) else None;
      var r := CopyInto(written, recipient, tweets[1..], failing, next + 1, stepErr);
      CopiedFromTail(tweets, failing, next);
      assert forall k :: 1 <= k < |tweets| ==> tweets[k] == tweets[1..][k - 1];
      r
  }

  /** The inserts of CopyInto only add or overwrite rows: no row of the recipient's feed disappears. */
  lemma CopyIntoKeepsRows(feed: Table, recipient: Username, tweets: seq<Tweet>, failing: set<nat>, next: nat, err: Option<DbError>)
    requires forall i, j :: 0 <= i < j < |tweets| ==> tweets[i].id != tweets[j].id
    ensures forall id :: Lookup(feed, recipient, id).Some? ==>
              Lookup(CopyInto(feed, recipient, tweets, failing, next, err).table, recipient, id).Some?
  {
    var r := CopyInto(feed, recipient, tweets, failing, next, err);
    forall id | Lookup(feed, recipient, id).Some?
      ensures Lookup(r.table, recipient, id).Some?
    {
      if Copied(tweets, failing, next, id) {
        var k :| 0 <= k < |tweets| && next + k !in failing && tweets[k].id == id;
      }
    }
  }

  /**
   * When `tweets` are rows of `owner`'s partition of `source`, every id the
   * inserts copy holds that row afterwards; when `tweets` cover the partition
   * and no insert fails, every row of it is copied.
   */
  lemma CopiesSourceRows(feed: Table, recipient: Username, tweets: seq<Tweet>, failing: set<nat>, source: Table, owner: Username)
    requires forall i, j :: 0 <= i < j < |tweets| ==> tweets[i].id != tweets[j].id
    requires forall i :: 0 <= i < |tweets| ==> Lookup(source, owner, tweets[i].id) == Some(tweets[i].post)
    ensures forall id :: Copied(tweets, failing, 0, id) ==>
              Lookup(CopyInto(feed, recipient, tweets, failing, 0, None).table, recipient, id) == Lookup(source, owner, id)
    ensures failing == {} && (forall id :: Lookup(source, owner, id).Some? ==> exists i :: 0 <= i < |tweets| && tweets[i].id == id) ==>
              forall id :: Lookup(source, owner, id).Some? ==> Copied(tweets, failing, 0, id)
  {
    var copied := CopyInto(feed, recipient, tweets, failing, 0, None);
    forall id | Copied(tweets, failing, 0, id)
      ensures Lookup(copied.table, recipient, id) == Lookup(source, owner, id)
    {
      var k :| 0 <= k < |tweets| && k !in failing && tweets[k].id == id;
    }
    if failing == {} && (forall id :: Lookup(source, owner, id).Some? ==> exists i :: 0 <= i < |tweets| && tweets[i].id == id) {
      forall id | Lookup(source, owner, id).Some?
        ensures Copied(tweets, failing, 0, id)
      {
        var k :| 0 <= k < |tweets| && tweets[k].id == id;
      }
    }
  }

  /**
   * The backfill reports an error exactly when there was something to copy and
   * the last insert failed, and the error names a row of the followee's timeline.
   */
  lemma BackfillError(db: Db, authUsername: Username, username: Username, order: Clustering.Order, failedFetch: Option<nat>, failing: set<nat>)
    ensures var tweets := FindUserTweets(db, username, order, failedFetch);
            var copied := CopyInto(db.feed, authUsername, tweets, failing, 0, None);
            var read := RowsBeforeFault(|Rows(db.timeline, username)|, failedFetch);
            && (copied.err.Some? <==> read > 0 && read - 1 in failing)
            && (copied.err.Some? ==> exists id :: copied.err == Some(WriteFailed(FeedByUser, authUsername, id)) && id in Rows(db.timeline, username))
  {
    var tweets := FindUserTweets(db, username, order, failedFetch);
    if tweets != [] {
      var last := tweets[|tweets| - 1];
      assert Lookup(db.timeline, username, last.id).Some?;
    }
  }

  /**
   * UpdateFeed(authUsername, username): copies the timeline rows of
   * `username` that FindUserTweets delivers into the feed of `authUsername`.
   * The error returned is the outcome of the last insert, or nil when there
   * was nothing to copy; a failed fetch of the timeline is never reported.
   */
  function UpdateFeed(db: Db, authUsername: Username, username: Username, order: Clustering.Order, failedFetch: Option<nat>, failing: set<nat>): (w: Written)
    ensures w.db.timeline == db.timeline && w.db.likes == db.likes
    ensures forall u, id :: u != authUsername ==> Lookup(w.db.feed, u, id) == Lookup(db.feed, u, id)
    ensures forall id :: Lookup(w.db.feed, authUsername, id) == Lookup(db.feed, authUsername, id)
                      || Lookup(w.db.feed, authUsername, id) == Lookup(db.timeline, username, id)
    ensures failedFetch.None? && failing == {} ==> forall id :: Lookup(db.timeline, username, id).Some? ==>
              Lookup(w.db.feed, authUsername, id) == Lookup(db.timeline, username, id)
    ensures var read := RowsBeforeFault(|Rows(db.timeline, username)|, failedFetch);
            w.err.Some? <==> read > 0 && read - 1 in failing
    ensures w.err.Some? ==> exists id :: w.err == Some(WriteFailed(FeedByUser, authUsername, id)) && id in Rows(db.timeline, username)
    ensures failedFetch == Some(0) ==> w == Written(db, None)
    ensures forall id :: Lookup(db.feed, authUsername, id).Some? ==> Lookup(w.db.feed, authUsername, id).Some?
    ensures var tweets := FindUserTweets(db, username, order, failedFetch);
            && (forall k :: 0 <= k < |tweets| && k !in failing ==>
                  Lookup(w.db.feed, authUsername, tweets[k].id) == Some(tweets[k].post))
            && (forall id :: !Copied(tweets, failing, 0, id) ==>
                  Lookup(w.db.feed, authUsername, id) == Lookup(db.feed, authUsername, id))
  {
    var tweets := FindUserTweets(db, username, order, failedFetch);
    var copied := CopyInto(db.feed, authUsername, tweets, failing, 0, None);
    CopiesSourceRows(db.feed, authUsername, tweets, failing, db.timeline, username);
    BackfillError(db, authUsername, username, order, failedFetch, failing);
    CopyIntoKeepsRows(db.feed, authUsername, tweets, failing, 0, None);
    assert failedFetch == Some(0) ==> copied == Inserted(db.feed, None);
    Written(db.(feed := copied.table), copied.err)
  }
}
