/**
 * Properties of the tweet repository that relate several operations, or that
 * follow from an operation's contract only with a proof.
 */
module TweetStoreProperties {
  import opened Results
  import Clustering
  import opened TweetStore

  /** Two tables hold the same rows (CQL cannot tell an empty partition from a missing one). */
  ghost predicate SameRows(t1: Table, t2: Table)
  {
    forall k, id :: Lookup(t1, k, id) == Lookup(t2, k, id)
  }

  // ---------------------------------------------------------------------------
  // SaveTweet
  // ---------------------------------------------------------------------------

  /**
   * Without faults, SaveTweet gives the tweet a feed row in the feed of every
   * follower and of the author, and touches no other feed row.
   */
  lemma {:induction false} SaveTweetRecipients(db: Db, tw: Tweet, followers: seq<Username>)
    ensures var w := SaveTweet(db, tw, followers, {});
            && w.err == None
            && Lookup(w.db.timeline, tw.post.postedBy, tw.id) == Some(tw.post)
            && (forall u :: u in followers || u == tw.post.postedBy ==> Lookup(w.db.feed, u, tw.id) == Some(tw.post))
            && (forall u, id :: !(u in followers || u == tw.post.postedBy) ==> Lookup(w.db.feed, u, id) == Lookup(db.feed, u, id))
  {
    var recipients := followers + [tw.post.postedBy];
    forall u | u in followers || u == tw.post.postedBy
      ensures Delivered(recipients, {}, 1, u)
    {
      if u == tw.post.postedBy {
        assert recipients[|followers|] == u;
      } else {
        var i :| 0 <= i < |followers| && followers[i] == u;
        assert recipients[i] == u;
      }
    }
    forall u | Delivered(recipients, {}, 1, u)
      ensures u in followers || u == tw.post.postedBy
    {
      var i :| 0 <= i < |recipients| && recipients[i] == u && 1 + i !in {};
      if i < |followers| {
        assert followers[i] == u;
      }
    }
  }

  /**
   * The author's own feed insert is the last statement; unless it fails the
   * author sees the tweet, even with no followers.
   */
  lemma {:induction false} SaveTweetAuthorSeesOwnTweet(db: Db, tw: Tweet, followers: seq<Username>, failing: set<nat>)
    requires 1 + |followers| !in failing
    ensures Lookup(SaveTweet(db, tw, followers, failing).db.feed, tw.post.postedBy, tw.id) == Some(tw.post)
    ensures SaveTweet(db, tw, followers, failing).err == None
  {
    var recipients := followers + [tw.post.postedBy];
    assert recipients[|followers|] == tw.post.postedBy;
    assert Delivered(recipients, failing, 1, tw.post.postedBy);
  }

  /**
   * A failed timeline insert is never reported: when the author's feed
   * insert succeeds the result is nil, though the timeline row is missing.
   */
  lemma TimelineErrorIsOverwritten(db: Db, tw: Tweet, followers: seq<Username>, failing: set<nat>)
    requires 0 in failing && 1 + |followers| !in failing
    requires Lookup(db.timeline, tw.post.postedBy, tw.id).None?
    ensures SaveTweet(db, tw, followers, failing).err == None
    ensures Lookup(SaveTweet(db, tw, followers, failing).db.timeline, tw.post.postedBy, tw.id).None?
  {
  }

  /** Inserts are upserts: saving the same tweet twice leaves the rows of saving it once. */
  lemma SaveTweetIdempotent(db: Db, tw: Tweet, followers: seq<Username>)
    ensures var once := SaveTweet(db, tw, followers, {});
            var twice := SaveTweet(once.db, tw, followers, {});
            && SameRows(twice.db.timeline, once.db.timeline)
            && SameRows(twice.db.feed, once.db.feed)
            && twice.db.likes == once.db.likes
            && twice.err == once.err
  {
  }

  /** SaveTweet keeps every timeline row in its author's partition. */
  lemma SaveTweetKeepsTimelineKeyed(db: Db, tw: Tweet, followers: seq<Username>, failing: set<nat>)
    requires TimelineKeyed(db)
    ensures TimelineKeyed(SaveTweet(db, tw, followers, failing).db)
  {
  }

  /**
   * FindTweet, on a timeline keyed by author, returns the row from the
   * author's own partition; after a fault-free SaveTweet of a fresh id it
   * returns exactly the saved tweet.
   */
  lemma {:induction false} FindTweetAfterSave(db: Db, tw: Tweet, followers: seq<Username>)
    requires forall a :: Lookup(db.timeline, a, tw.id).None?
    ensures FindTweet(SaveTweet(db, tw, followers, {}).db, tw.id, false) == Ok(tw)
  {
    var db' := SaveTweet(db, tw, followers, {}).db;
    assert Lookup(db'.timeline, tw.post.postedBy, tw.id).Some?;
    var r := FindTweet(db', tw.id, false);
    var a :| Lookup(db'.timeline, a, tw.id) == Some(r.value.post);
    assert a == tw.post.postedBy;
  }

  /**
   * On a timeline keyed by author, FindTweet's result is the row at its own
   * author and id.
   */
  lemma {:induction false} FindTweetKeyed(db: Db, id: TweetId)
    requires TimelineKeyed(db)
    ensures var r := FindTweet(db, id, false);
            r.Ok? ==> Lookup(db.timeline, r.value.post.postedBy, id) == Some(r.value.post)
  {
    var r := FindTweet(db, id, false);
    if r.Ok? {
      var a :| Lookup(db.timeline, a, id) == Some(r.value.post);
      assert Lookup(db.timeline, a, id).value.postedBy == a;
    }
  }

  // ---------------------------------------------------------------------------
  // Likes
  // ---------------------------------------------------------------------------

  lemma SaveLikeIdempotent(db: Db, like: Like)
    ensures SaveLike(SaveLike(db, like, false).db, like, false) == SaveLike(db, like, false)
  {
  }

  /** DeleteLike undoes a SaveLike of a pair that was not liked before. */
  lemma DeleteUndoesSave(db: Db, like: Like)
    requires like !in db.likes
    ensures DeleteLike(SaveLike(db, like, false).db, like.tweetId, like.username, false).db == db
  {
    assert db.likes + {like} - {Like(like.username, like.tweetId)} == db.likes;
  }

  /** SaveLike adds one to the tweet's like count exactly when the pair was new. */
  lemma {:induction false} CountAfterSaveLike(db: Db, like: Like)
    ensures var n := |LikesOf(db.likes, like.tweetId)|;
            var n' := |LikesOf(SaveLike(db, like, false).db.likes, like.tweetId)|;
            n' == if like in db.likes then n else n + 1
  {
    var db' := SaveLike(db, like, false).db;
    if like in db.likes {
      assert LikesOf(db'.likes, like.tweetId) == LikesOf(db.likes, like.tweetId);
    } else {
      assert LikesOf(db'.likes, like.tweetId) == LikesOf(db.likes, like.tweetId) + {like};
    }
  }

  /** DeleteLike takes one off the tweet's like count exactly when the pair was liked. */
  lemma {:induction false} CountAfterDeleteLike(db: Db, id: TweetId, username: Username)
    ensures var n := |LikesOf(db.likes, id)|;
            var n' := |LikesOf(DeleteLike(db, id, username, false).db.likes, id)|;
            n' == if Like(username, id) in db.likes then n - 1 else n
  {
    var db' := DeleteLike(db, id, username, false).db;
    if Like(username, id) in db.likes {
      assert LikesOf(db'.likes, id) == LikesOf(db.likes, id) - {Like(username, id)};
    } else {
      assert LikesOf(db'.likes, id) == LikesOf(db.likes, id);
    }
  }

  /** A tweet the reader liked has a like count of at least one. */
  lemma {:induction false} LikedByMeIsCounted(db: Db, me: Username, id: TweetId)
    requires LikedByMe(db, me, id, false) == Ok(true)
    ensures CountLikes(db, id, false).Ok? ==> CountLikes(db, id, false).value >= 1
  {
    assert Like(me, id) in LikesOf(db.likes, id);
  }

  /** GetLikesByTweet and CountLikes agree when both succeed. */
  lemma {:induction false} LikesListMatchesCount(db: Db, id: TweetId)
    requires CountLikes(db, id, false).Ok?
    ensures |GetLikesByTweet(db, id, false)| == CountLikes(db, id, false).value
  {
    assert GetLikesByTweet(db, id, false) == LikesOf(db.likes, id);
  }

  // ---------------------------------------------------------------------------
  // Paged reads
  // ---------------------------------------------------------------------------

  /**
   * A full page listed newest first, which shows every admitted row it does
   * not precede, splits the admitted rows at its last row: the shown rows are
   * not below it, and the rows left out are.
   */
  lemma {:induction false} LastRowSplitsPartition(p: Partition, c: Cursor, page: seq<TweetView>)
    requires |page| == PageSize
    requires forall i, j :: 0 <= i < j < |page| ==> Clustering.Precedes(Clustering.Descending, page[i].id, page[j].id)
    requires forall id :: id in p && Admits(c, id) && (forall i :: 0 <= i < |page| ==> page[i].id != id) ==>
               forall i :: 0 <= i < |page| ==> Clustering.Precedes(Clustering.Descending, page[i].id, id)
    ensures forall i :: 0 <= i < |page| ==> !Admits(Below(page[PageSize - 1].id), page[i].id)
    ensures forall id :: id in p && Admits(c, id) && (forall i :: 0 <= i < |page| ==> page[i].id != id) ==>
              Admits(Below(page[PageSize - 1].id), id)
  {
    var last := page[PageSize - 1].id;
    forall i | 0 <= i < |page|
      ensures last <= page[i].id
    {
      if i < PageSize - 1 {
        assert Clustering.Precedes(Clustering.Descending, page[i].id, last);
      }
    }
    forall id | id in p && Admits(c, id) && (forall i :: 0 <= i < |page| ==> page[i].id != id)
      ensures id < last
    {
      assert Clustering.Precedes(Clustering.Descending, last, id);
    }
  }

  /**
   * Paging newest first with the id of the last row shown as the next cursor
   * neither skips nor repeats a row: the rows the first page left out are
   * exactly the rows below the cursor.
   */
  lemma {:induction false} NextPageContinues(db: Db, me: Username, p: Partition, c: Cursor, faults: ReadFaults)
    requires !faults.query
    requires |ReadPage(db, me, p, c, Clustering.Descending, faults).views| == PageSize
    ensures var page := ReadPage(db, me, p, c, Clustering.Descending, faults).views;
            var next := Below(page[PageSize - 1].id);
            && (forall i :: 0 <= i < |page| ==> !Admits(next, page[i].id))
            && (forall id :: id in p && Admits(c, id) && (forall i :: 0 <= i < |page| ==> page[i].id != id) ==> Admits(next, id))
  {
    LastRowSplitsPartition(p, c, ReadPage(db, me, p, c, Clustering.Descending, faults).views);
  }

  /**
   * A page listed newest first that leaves out a row of `p` only when it is
   * full and every row shown precedes that row starts with the newest row of `p`.
   */
  lemma {:induction false} NewestListedFirst(p: Partition, newest: TweetId, page: seq<TweetView>)
    requires newest in p
    requires forall id :: id in p ==> id <= newest
    requires forall i :: 0 <= i < |page| ==> page[i].id in p
    requires forall i, j :: 0 <= i < j < |page| ==> Clustering.Precedes(Clustering.Descending, page[i].id, page[j].id)
    requires forall id :: id in p && Admits(FromStart, id) && (forall i :: 0 <= i < |page| ==> page[i].id != id) ==>
               |page| == PageSize && forall i :: 0 <= i < |page| ==> Clustering.Precedes(Clustering.Descending, page[i].id, id)
    ensures |page| > 0 && page[0].id == newest
  {
    assert exists i :: 0 <= i < |page| && page[i].id == newest by {
      if |page| > 0 {
        assert page[0].id <= newest;
      }
    }
    var i :| 0 <= i < |page| && page[i].id == newest;
    assert page[0].id in p;
  }

  /**
   * Newest first, a fault-free read from the start shows the partition's
   * newest row first.
   */
  lemma {:induction false} NewestRowTopsFirstPage(db: Db, me: Username, p: Partition, newest: TweetId, faults: ReadFaults)
    requires !faults.query
    requires newest in p
    requires forall id :: id in p ==> id <= newest
    ensures var page := ReadPage(db, me, p, FromStart, Clustering.Descending, faults).views;
            |page| > 0 && page[0].id == newest && page[0].post == p[newest]
  {
    NewestListedFirst(p, newest, ReadPage(db, me, p, FromStart, Clustering.Descending, faults).views);
  }

  /**
   * Under a newest-first clustering order, a fault-free SaveTweet of an id
   * newer than every row of the author's feed puts the tweet at the top of
   * the author's first feed page.
   */
  lemma {:induction false} NewTweetTopsAuthorsFeed(db: Db, tw: Tweet, followers: seq<Username>)
    requires forall id :: id in Rows(db.feed, tw.post.postedBy) ==> id < tw.id
    ensures var w := SaveTweet(db, tw, followers, {});
            var page := GetFeedTweets(w.db, tw.post.postedBy, tw.post.postedBy, "", None, Clustering.Descending, NoReadFaults).views;
            |page| > 0 && page[0].id == tw.id && page[0].post == tw.post
  {
    var author := tw.post.postedBy;
    var w := SaveTweet(db, tw, followers, {});
    SaveTweetAuthorSeesOwnTweet(db, tw, followers, {});
    var p := Rows(w.db.feed, author);
    assert Lookup(w.db.feed, author, tw.id) == Some(tw.post);
    assert tw.id in p;
    forall id | id in p
      ensures id <= tw.id
    {
      assert Lookup(w.db.feed, author, id).Some?;
      if id != tw.id {
        assert Lookup(db.feed, author, id) == Lookup(w.db.feed, author, id);
      }
    }
    NewestRowTopsFirstPage(w.db, author, p, tw.id, NoReadFaults);
  }

  // ---------------------------------------------------------------------------
  // FindUserTweets and UpdateFeed
  // ---------------------------------------------------------------------------

  /**
   * A prefix `r` of a scan `all` of `owner`'s partition of `t`: each row of
   * the partition not in `r` comes after every row of `r`, and a row is
   * missing when `r` is shorter than the scan.
   */
  lemma {:induction false} PrefixMissesLaterRows(t: Table, owner: Username, order: Clustering.Order, all: seq<Tweet>, r: seq<Tweet>)
    requires forall i :: 0 <= i < |all| ==> Lookup(t, owner, all[i].id) == Some(all[i].post)
    requires forall id :: Lookup(t, owner, id).Some? ==> exists i :: 0 <= i < |all| && all[i].id == id
    requires forall i, j :: 0 <= i < j < |all| ==> Clustering.Precedes(order, all[i].id, all[j].id)
    requires |r| <= |all| && r == all[..|r|]
    ensures forall id :: Lookup(t, owner, id).Some? && (forall i :: 0 <= i < |r| ==> r[i].id != id) ==>
              forall i :: 0 <= i < |r| ==> Clustering.Precedes(order, r[i].id, id)
    ensures |r| < |all| ==> exists id :: Lookup(t, owner, id).Some? && forall i :: 0 <= i < |r| ==> r[i].id != id
  {
    assert forall i :: 0 <= i < |r| ==> r[i] == all[i];
    forall id | Lookup(t, owner, id).Some? && (forall i :: 0 <= i < |r| ==> r[i].id != id)
      ensures forall i :: 0 <= i < |r| ==> Clustering.Precedes(order, r[i].id, id)
    {
      var j :| 0 <= j < |all| && all[j].id == id;
      assert |r| <= j;
    }
    if |r| < |all| {
      var missed := all[|r|];
      forall i | 0 <= i < |r|
        ensures r[i].id != missed.id
      {
        assert Clustering.Precedes(order, all[i].id, missed.id);
      }
      assert Lookup(t, owner, missed.id).Some?;
    }
  }

  /**
   * A timeline read cut off by a failed fetch keeps the rows a scan visits
   * first: each row it misses comes after every row it returns.
   */
  lemma {:induction false} InterruptedReadIsScanPrefix(db: Db, username: Username, order: Clustering.Order, failedFetch: Option<nat>)
    ensures var r := FindUserTweets(db, username, order, failedFetch);
            forall id :: Lookup(db.timeline, username, id).Some? && (forall i :: 0 <= i < |r| ==> r[i].id != id) ==>
              forall i :: 0 <= i < |r| ==> Clustering.Precedes(order, r[i].id, id)
  {
    var all := AllUserTweets(db, username, order);
    var r := FindUserTweets(db, username, order, failedFetch);
    PrefixMissesLaterRows(db.timeline, username, order, all, r);
  }

  /** A timeline read cut off before the end of the partition misses a row of it. */
  lemma {:induction false} ShortReadMissesRow(db: Db, username: Username, order: Clustering.Order, failedFetch: Option<nat>)
    ensures var r := FindUserTweets(db, username, order, failedFetch);
            |r| < |Rows(db.timeline, username)| ==>
              exists id :: Lookup(db.timeline, username, id).Some? && forall i :: 0 <= i < |r| ==> r[i].id != id
  {
    var all := AllUserTweets(db, username, order);
    var r := FindUserTweets(db, username, order, failedFetch);
    PrefixMissesLaterRows(db.timeline, username, order, all, r);
  }

  /**
   * When a fetch after the first fails on a followee with more rows than the
   * fetches before it delivered, a follower whose feed was empty misses a
   * timeline row, and UpdateFeed still reports nil.
   */
  lemma {:induction false} InterruptedBackfillReportsNil(db: Db, authUsername: Username, username: Username, order: Clustering.Order, m: nat)
    requires Rows(db.feed, authUsername) == map[]
    requires m * FetchSize < |Rows(db.timeline, username)|
    ensures var w := UpdateFeed(db, authUsername, username, order, Some(m), {});
            && w.err == None
            && exists id :: Lookup(db.timeline, username, id).Some? && Lookup(w.db.feed, authUsername, id).None?
  {
    var tweets := FindUserTweets(db, username, order, Some(m));
    var w := UpdateFeed(db, authUsername, username, order, Some(m), {});
    ShortReadMissesRow(db, username, order, Some(m));
    var id :| Lookup(db.timeline, username, id).Some? && forall i :: 0 <= i < |tweets| ==> tweets[i].id != id;
    assert !Copied(tweets, {}, 0, id);
  }

  /** Backfilling from a user without tweets changes nothing and reports nil. */
  lemma UpdateFeedFromEmptyTimeline(db: Db, authUsername: Username, username: Username, order: Clustering.Order, failing: set<nat>)
    requires Rows(db.timeline, username) == map[]
    ensures var w := UpdateFeed(db, authUsername, username, order, None, failing);
            w.err == None && SameRows(w.db.feed, db.feed)
  {
  }

  /**
   * After a fault-free backfill the reader's feed holds every row of the
   * followee's timeline, so a second backfill changes no row.
   */
  lemma UpdateFeedIdempotent(db: Db, authUsername: Username, username: Username, order: Clustering.Order)
    ensures var once := UpdateFeed(db, authUsername, username, order, None, {});
            var twice := UpdateFeed(once.db, authUsername, username, order, None, {});
            SameRows(twice.db.feed, once.db.feed)
  {
    var once := UpdateFeed(db, authUsername, username, order, None, {});
    var twice := UpdateFeed(once.db, authUsername, username, order, None, {});
    forall k, id
      ensures Lookup(twice.db.feed, k, id) == Lookup(once.db.feed, k, id)
    {
      if k == authUsername && Lookup(db.timeline, username, id).Some? {
        assert Lookup(twice.db.feed, k, id) == Lookup(db.timeline, username, id);
      }
    }
  }
}
