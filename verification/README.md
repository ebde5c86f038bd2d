# Tweet service core, modelled in Dafny

This project models the core of the FTN-TwitterClone tweet service. It covers three parts:

- **The Cassandra tweet repository.** Three tables are involved:
  - `timeline_by_user` is keyed by author;
  - `feed_by_user` is keyed by the owner of the feed;
  - `likes` is keyed by (username, tweet id).

  The operations are:
  - SaveTweet, which writes the tweet to the author's timeline and fans it out to the feeds of the followers and of the author;
  - SaveLike and DeleteLike;
  - CountLikes, LikedByMe and GetLikesByTweet;
  - the two paged reads, GetTimelineTweets and GetFeedTweets. They read 20 rows per page below an optional `lastTweetId` cursor. A failed like lookup defaults to 0 or false;
  - FindTweet and FindUserTweets;
  - UpdateFeed, which backfills a follower's feed from a followee's timeline.
- **The social-graph circuit breaker**, in both versions:
  - the three-operation client under `service/circuit_breaker`;
  - the earlier CheckVisibility-only client under `circuit_breaker`.

  Both configure sony/gobreaker in the same way:
  - one consecutive failure trips the breaker;
  - one half-open probe is allowed;
  - the breaker stays open for 5 seconds;
  - the counts are never cleared while the breaker is closed;
  - every state change is logged.

  The wrapper turns every error Execute returns into a 503. The request's own error is a 500 inside that 503.
- **The Redis image cache.** Image bytes are stored under `images:<id>` with a 30-second expiry. `Exists` reports any backend error as `false`.

All operations are pure functions over immutable values. The repository tables are maps from partition key to partition, and a partition maps a clustering key to a row. Storage and RPC faults, the clock and RPC replies are all parameters:

- Write statements are numbered in the order they are executed. A set `failing` names the statements that fail.
- A paged read is given the set of per-row lookups that fail.
- The breaker takes `now` in nanoseconds.
- Each RPC takes its `reply`. Each operation's result records the request it sent, if it sent one.

The clustering order of a partition is set by migrations that are not part of this model, so it is a parameter (`Clustering.Order`).

gobreaker is modelled from its published algorithm, because its source is not part of this model:

- `beforeRequest` and `afterRequest` are the two critical sections, and generation tickets make a late result from an older generation be ignored;
- `currentState` moves an open breaker to half-open once its expiry is strictly before `now`;
- `setState` starts a new generation;
- a `MaxRequests` of 0 becomes 1, and a `Timeout` of 0 becomes 60 s.

| file | module | models |
|---|---|---|
| results.dfy | Results, Clock | Option/Result; nanoseconds |
| clustering.dfy | Clustering | the order of a partition scan, and LIMIT |
| tweet_store.dfy | TweetStore | cassandra_tweet_repository.go |
| tweet_store_properties.dfy | TweetStoreProperties | properties relating several repository calls |
| circuit_breaker.dfy | CircuitBreaker | gobreaker with the social-graph settings |
| circuit_breaker_properties.dfy | CircuitBreakerProperties | trip, refuse, probe, stale generations |
| social_graph_client.dfy | SocialGraphClient | service/circuit_breaker/social_graph_circuit_breaker.go |
| social_graph_client_properties.dfy | SocialGraphClientProperties | error codes; the shared breaker |
| legacy_social_graph_client.dfy | LegacySocialGraphClient | circuit_breaker/social_graph_circuit_breaker.go |
| image_cache.dfy | ImageCache | redis_tweet_repository.go |
| image_cache_properties.dfy | ImageCacheProperties | key round trip; TTL behaviour |

SaveTweet returns the outcome of the last feed insert, which is the author's own feed row. A failed timeline insert is overwritten and never reported: see `TweetStore.SaveTweet` and `TweetStoreProperties.TimelineErrorIsOverwritten`.

## Model

| member | source | states |
|---|---|---|
| TweetStore.Upsert | repository/cassandra/cassandra_tweet_repository.go:100-102 | A CQL INSERT replaces the row with the same primary key and leaves every other row as it was. |
| TweetStore.FanOut | repository/cassandra/cassandra_tweet_repository.go:107-111 | After the fan-out loop, a recipient's feed holds the tweet exactly when one of that recipient's inserts succeeded. Other rows are unchanged. `err` is the outcome of the last insert. |
| TweetStore.SaveTweet | repository/cassandra/cassandra_tweet_repository.go:96-114 | The timeline row is written unless statement 0 fails. Each of the followers and the author gets a feed row unless their insert fails. Likes are untouched. The error returned is the failure of the author's own feed insert, or nil. |
| TweetStore.SaveLike | repository/cassandra/cassandra_tweet_repository.go:116-125 | On success the pair is liked and no other like changes. On failure nothing changes and the error names the pair. |
| TweetStore.DeleteLike | repository/cassandra/cassandra_tweet_repository.go:127-136 | On success the pair is no longer liked and no other like changes. On failure nothing changes. |
| TweetStore.CountLikes | repository/cassandra/cassandra_tweet_repository.go:138-147 | The count is returned exactly when the read succeeds and the count fits an int16. It equals the number of the tweet's like rows, and it is zero exactly when no one liked the tweet. |
| TweetStore.LikedByMe | repository/cassandra/cassandra_tweet_repository.go:149-160 | The result is true exactly when the reader's like row exists. A failed read gives an error. |
| TweetStore.GetLikesByTweet | repository/cassandra/cassandra_tweet_repository.go:198-215 | Only like rows of this tweet are returned. Without a fault every like of the tweet is returned. When the first fetch fails, no likes are returned and no error is reported. |
| TweetStore.CursorOf | repository/cassandra/cassandra_tweet_repository.go:172-177 | An empty `lastTweetId` means no lower bound. A non-empty one bounds the query by the id it parses to, or cannot be bound when it does not parse. |
| TweetStore.Admits | repository/cassandra/cassandra_tweet_repository.go:172-177 | With no bound every row is admitted. With a bound, exactly the rows with a smaller id (`tweet_id < ?`) are admitted. A cursor that cannot be bound admits nothing. |
| TweetStore.ViewOf | repository/cassandra/cassandra_tweet_repository.go:180-192 | A row's like count falls back to 0 when CountLikes fails. Its liked-by-me flag falls back to false when LikedByMe fails. |
| TweetStore.ReadPage | repository/cassandra/cassandra_tweet_repository.go:172-195 | A page has at most 20 rows of the partition, each admitted by the cursor and in scan order, and the error is always nil. If an admitted row is missing, the page is full and every row shown comes before it in scan order. A failed query gives an empty page. |
| TweetStore.GetTimelineTweets | repository/cassandra/cassandra_tweet_repository.go:162-196 | Every row shown is a row of the user's timeline admitted by `lastTweetId`, with its like count and liked-by-me flag (0 or false when that lookup fails). There are at most 20, in scan order, and the error is nil. If an admitted row is left out, the page is full and every row shown comes before it. A failed query gives an empty page. |
| TweetStore.GetFeedTweets | repository/cassandra/cassandra_tweet_repository.go:217-251 | Every row shown is a row of the reader's feed admitted by `lastTweetId`, with its like count and liked-by-me flag (0 or false when that lookup fails). There are at most 20, in scan order, and the error is nil. If an admitted row is left out, the page is full and every row shown comes before it. A failed query gives an empty page. |
| TweetStore.FindTweet | repository/cassandra/cassandra_tweet_repository.go:253-263 | A tweet is found exactly when some timeline partition holds its id, and the result is that row. Otherwise the result is not-found, or the read error. |
| TweetStore.AllUserTweets | repository/cassandra/cassandra_tweet_repository.go:265-280 | With no failed fetch, the read returns every row of the user's timeline, each exactly once and in scan order. |
| TweetStore.RowsBeforeFault | repository/cassandra/cassandra_tweet_repository.go:34-37 | The session sets no page size, so rows arrive in fetches of 5000. When fetch m fails, the loop has the rows of the fetches before it: all rows, or exactly m times 5000 when that is fewer. |
| TweetStore.FindUserTweets | repository/cassandra/cassandra_tweet_repository.go:265-280 | The result is the complete timeline scan cut off at the failed fetch: its first RowsBeforeFault rows, in scan order, with no error. A failure of the first fetch gives none. Without a fault it is every row. |
| TweetStore.CopyInto | repository/cassandra/cassandra_tweet_repository.go:289-293 | Each tweet whose insert succeeds lands in the recipient's feed. Feed rows not copied, and every other feed, are unchanged. `err` is the last insert's outcome. |
| TweetStore.CopyIntoKeepsRows | repository/cassandra/cassandra_tweet_repository.go:289-293 | The backfill loop only inserts: no row of the recipient's feed disappears, whatever inserts fail. |
| TweetStore.CopiesSourceRows | repository/cassandra/cassandra_tweet_repository.go:286-293 | Each id the backfill copies holds the followee's timeline row afterwards. Without failing inserts, a scan that lists every timeline row copies all of them. |
| TweetStore.BackfillError | repository/cassandra/cassandra_tweet_repository.go:286-295 | The backfill reports an error exactly when the read delivered at least one row and the insert of the last delivered row failed. The error names a row of the followee's timeline. |
| TweetStore.UpdateFeed | repository/cassandra/cassandra_tweet_repository.go:282-296 | Only the follower's feed changes, and none of its existing rows is removed. Each insert that succeeds leaves the followee's timeline row in the follower's feed. A row that no successful insert touches keeps its old value. Only the timeline rows delivered before a failed fetch are copied, and a failure of the first fetch copies nothing and returns nil. Without faults, every timeline row is copied. An error is returned exactly when the insert of the last delivered row fails, and it names a tweet of the followee's timeline in the follower's feed. |
| Clustering.Scan | repository/cassandra/cassandra_tweet_repository.go:272-277 | A scan visits each key of the partition once, in clustering order. |
| Clustering.Limit | repository/cassandra/cassandra_tweet_repository.go:173-176 | LIMIT keeps at most that many keys, in order. Any key left out comes after all the kept keys, and then the limit is reached. |
| TweetStoreProperties.SaveTweetRecipients | repository/cassandra/cassandra_tweet_repository.go:104-111 | Without faults, the tweet reaches exactly the feeds of the followers and of the author, and no other feed row changes. |
| TweetStoreProperties.SaveTweetAuthorSeesOwnTweet | repository/cassandra/cassandra_tweet_repository.go:104-105 | Unless the author's own insert fails, the author's feed has the tweet and the error is nil, even with no followers. |
| TweetStoreProperties.TimelineErrorIsOverwritten | repository/cassandra/cassandra_tweet_repository.go:100-113 | A failed timeline insert is reported as nil once the author's feed insert succeeds, though the timeline row is missing. |
| TweetStoreProperties.SaveTweetIdempotent | repository/cassandra/cassandra_tweet_repository.go:100-111 | Saving the same tweet twice leaves the same rows as saving it once. |
| TweetStoreProperties.SaveTweetKeepsTimelineKeyed | repository/cassandra/cassandra_tweet_repository.go:100-102 | Every timeline row stays in its author's partition. |
| TweetStoreProperties.FindTweetAfterSave | repository/cassandra/cassandra_tweet_repository.go:253-263 | After a fault-free save of a new id, FindTweet returns exactly that tweet. |
| TweetStoreProperties.FindTweetKeyed | repository/cassandra/cassandra_tweet_repository.go:258-260 | On an author-keyed timeline, a found row sits in its own author's partition. |
| TweetStoreProperties.SaveLikeIdempotent | repository/cassandra/cassandra_tweet_repository.go:120-122 | Liking twice is the same as liking once. |
| TweetStoreProperties.DeleteUndoesSave | repository/cassandra/cassandra_tweet_repository.go:131-133 | Deleting a new like restores the tables. |
| TweetStoreProperties.CountAfterSaveLike | repository/cassandra/cassandra_tweet_repository.go:116-147 | SaveLike raises the count by one exactly when the pair is new. |
| TweetStoreProperties.CountAfterDeleteLike | repository/cassandra/cassandra_tweet_repository.go:127-147 | DeleteLike lowers the count by one exactly when the pair was liked. |
| TweetStoreProperties.LikedByMeIsCounted | repository/cassandra/cassandra_tweet_repository.go:138-160 | A tweet the reader liked has a like count of at least one. |
| TweetStoreProperties.LikesListMatchesCount | repository/cassandra/cassandra_tweet_repository.go:198-215 | The list of likes is as long as CountLikes says. |
| TweetStoreProperties.LastRowSplitsPartition | repository/cassandra/cassandra_tweet_repository.go:172-178 | For a full page listed newest first that shows every admitted row it does not precede, the cursor `Below(last row)` admits none of the rows shown and every admitted row left out. |
| TweetStoreProperties.NextPageContinues | repository/cassandra/cassandra_tweet_repository.go:172-178 | Newest first, with the last row's id as the next cursor: no row shown is admitted again, and every admitted row left out is admitted by the next cursor. |
| TweetStoreProperties.NewestListedFirst | repository/cassandra/cassandra_tweet_repository.go:172-178 | A page listed newest first, which leaves out a row only when it is full and every row shown precedes that row, starts with the partition's newest row. |
| TweetStoreProperties.NewestRowTopsFirstPage | repository/cassandra/cassandra_tweet_repository.go:172-195 | Newest first, a fault-free read from the start shows the partition's newest row first, with its post. |
| TweetStoreProperties.NewTweetTopsAuthorsFeed | repository/cassandra/cassandra_tweet_repository.go:227-233 | Newest first, a new tweet newer than every feed row is the first row of the author's first feed page. |
| TweetStoreProperties.PrefixMissesLaterRows | repository/cassandra/cassandra_tweet_repository.go:272-277 | For any prefix of a complete scan, each row left out comes after every row kept. A prefix shorter than the scan leaves a row out. |
| TweetStoreProperties.InterruptedReadIsScanPrefix | repository/cassandra/cassandra_tweet_repository.go:265-280 | After a failed fetch, each timeline row FindUserTweets misses comes after every row it returned, in scan order. |
| TweetStoreProperties.ShortReadMissesRow | repository/cassandra/cassandra_tweet_repository.go:265-280 | A read that stops before the end of the partition misses a timeline row. |
| TweetStoreProperties.InterruptedBackfillReportsNil | repository/cassandra/cassandra_tweet_repository.go:282-296 | Suppose fetch m fails on a followee with more than m times 5000 tweets. Then a follower with an empty feed misses a timeline row, and UpdateFeed returns nil. |
| TweetStoreProperties.UpdateFeedFromEmptyTimeline | repository/cassandra/cassandra_tweet_repository.go:286-295 | Backfilling from a user with no tweets changes no row and reports nil. |
| TweetStoreProperties.UpdateFeedIdempotent | repository/cassandra/cassandra_tweet_repository.go:282-296 | A second fault-free backfill changes no row. |
| CircuitBreaker.New | service/circuit_breaker/social_graph_circuit_breaker.go:30-45 | A new breaker is closed with zeroed counts. MaxRequests 0 becomes 1 and Timeout 0 becomes 60 s. The social-graph settings satisfy the breaker invariant. |
| CircuitBreaker.NewGeneration | service/circuit_breaker/social_graph_circuit_breaker.go:34-36 | A new generation has a larger number and cleared counts. Its state and settings are kept. An open breaker expires `timeout` after now, a closed one `interval` after now when the interval is positive, and otherwise there is no expiry. |
| CircuitBreaker.SetState | service/circuit_breaker/social_graph_circuit_breaker.go:40-42 | The breaker reaches the new state, and each real change is logged once. Setting the current state changes nothing. A real change starts a new generation with cleared counts; entering open sets the expiry to `timeout` after now. |
| CircuitBreaker.CurrentState | service/circuit_breaker/social_graph_circuit_breaker.go:35 | An open breaker stays open and unchanged until its timeout has passed. After that it becomes half-open in a new generation with cleared counts, and logs open to half-open. A closed or half-open breaker is unchanged, because Interval is 0. The invariant is kept. |
| CircuitBreaker.BeforeRequest | service/circuit_breaker/social_graph_circuit_breaker.go:34 | A request is refused with ErrOpenState exactly when the breaker is open. It is admitted exactly when the breaker is closed, or half-open with no request admitted yet (MaxRequests 1). Otherwise it gets ErrTooManyRequests. An admitted request gets the current generation as its ticket, and the breaker is the current one with that request counted. The log is the current state's log. The invariant is kept. |
| CircuitBreaker.Succeeded | service/circuit_breaker/social_graph_circuit_breaker.go:34 | A success leaves a closed breaker closed, and closes a half-open one, because one success reaches MaxRequests 1. An open breaker is untouched. Every change is logged. |
| CircuitBreaker.ReadyToTrip | service/circuit_breaker/social_graph_circuit_breaker.go:37-39 | The breaker trips exactly when there is a consecutive failure. Fresh counts never trip. |
| CircuitBreaker.ReadyToTripAfterAnyFailure | service/circuit_breaker/social_graph_circuit_breaker.go:37-39 | Counts that have just recorded a failure always trip. Counts that have just recorded a success never do. |
| CircuitBreaker.Failed | service/circuit_breaker/social_graph_circuit_breaker.go:37-39 | A failure opens a closed or half-open breaker for one timeout from now, and logs that change once. An open breaker is untouched. |
| CircuitBreaker.AfterRequest | service/circuit_breaker/social_graph_circuit_breaker.go:63-71 | The outcome of a request from an older generation is ignored. For a request of the current generation while not open, a success closes the breaker and a failure opens it until `timeout` after now. The invariant is kept, and every change is logged. |
| CircuitBreaker.Execute | service/circuit_breaker/social_graph_circuit_breaker.go:63-71 | The request runs exactly when beforeRequest admits it, and then its reply is returned unchanged. On a valid breaker, a success leaves it closed and a failure opens it for one timeout. A refused call returns the refusal and changes only what currentState changes. The invariant is kept. |
| CircuitBreaker.StateName | service/circuit_breaker/social_graph_circuit_breaker.go:40-42 | The names of the states in the message are "closed", "half-open" and "open", one name per state. |
| CircuitBreaker.LogLine | service/circuit_breaker/social_graph_circuit_breaker.go:40-42 | The OnStateChange message is `Circuit Breaker '`, the breaker's name, then `' changed from '`, the old state's name, `' to '`, the new state's name, `'` and a newline. |
| CircuitBreakerProperties.TripsOnFirstFailure | service/circuit_breaker/social_graph_circuit_breaker.go:37-39 | A single failure while closed opens the breaker for one timeout and logs closed-to-open once. |
| CircuitBreakerProperties.ClosedSuccessStaysClosed | service/circuit_breaker/social_graph_circuit_breaker.go:37-39 | A success while closed returns the reply and changes no state. |
| CircuitBreakerProperties.OpenRejectsUntilTimeout | service/circuit_breaker/social_graph_circuit_breaker.go:35 | Until the timeout has passed, every call is refused without running and nothing changes. |
| CircuitBreakerProperties.ProbeAfterTimeout | service/circuit_breaker/social_graph_circuit_breaker.go:34-35 | After the timeout, one probe runs. Its success closes the breaker and its failure reopens it for a new timeout, with both changes logged. |
| CircuitBreakerProperties.SingleHalfOpenProbe | service/circuit_breaker/social_graph_circuit_breaker.go:34 | While the half-open probe runs, every other call gets ErrTooManyRequests. |
| CircuitBreakerProperties.LateSuccessDoesNotReclose | service/circuit_breaker/social_graph_circuit_breaker.go:63-71 | A success reported after another call tripped the breaker leaves it open. |
| CircuitBreakerProperties.AtMostTwoChangesPerCall | service/circuit_breaker/social_graph_circuit_breaker.go:40-42 | One call logs at most two state changes. |
| SocialGraphClient.RequestError | service/circuit_breaker/social_graph_circuit_breaker.go:66-70 | The request closure returns the reply's value. A failed RPC becomes a 500 carrying the RPC's message. |
| SocialGraphClient.FatalLine | tls/tls_config.go:104 | The fatal line is `Failed to start gRPC connection: ` followed by the dial error. |
| SocialGraphClient.Answer | service/circuit_breaker/social_graph_circuit_breaker.go:72-77 | Once the request ran, the caller gets the reply's value, or a 503 wrapping the request's 500. |
| SocialGraphClient.GuardedAsWritten | tls/tls_config.go:103-105 | A dial error ends the process with the log.Fatalf line. A running client returns only 503 errors. |
| SocialGraphClient.Guarded | service/circuit_breaker/social_graph_circuit_breaker.go:63-75 | With dial errors handled as 500, a dial error leaves the breaker alone. Once connected, the request is sent exactly when the breaker admits it. A sent request's reply is answered as its value, or as a 503 wrapping the 500. An unsent one is a 503 carrying the refusal, and the breaker is the current one. After a sent request on a valid breaker, the shared breaker is closed if the reply succeeded. If the reply failed, it is open until the timeout has passed. The breaker invariant and the log chain are kept. |
| SocialGraphClient.CheckVisibility | service/circuit_breaker/social_graph_circuit_breaker.go:47-78 | The request carries the target and the caller as `authUsername` metadata. The request is sent exactly when the breaker admits it. A sent request answers the reply's visibility or a 503 wrapping the 500. An unsent one is a 503 refusal. After a sent request on a valid breaker, the shared breaker is closed on success, or open until the timeout on failure. After a refusal it is the current breaker. |
| SocialGraphClient.GetMyFollowers | service/circuit_breaker/social_graph_circuit_breaker.go:80-111 | The request carries the caller as `authUsername` metadata. It is sent exactly when the breaker admits it. A sent request answers the reply's usernames or a 503 wrapping the 500. An unsent one is a 503 refusal. After a sent request on a valid breaker, the shared breaker is closed on success, or open until the timeout on failure. After a refusal it is the current breaker. |
| SocialGraphClient.GetTargetGroupUsers | service/circuit_breaker/social_graph_circuit_breaker.go:113-148 | The request carries the four target-group fields and no metadata. The request is sent exactly when the breaker admits it. A sent request answers the reply's usernames or a 503 wrapping the 500. An unsent one is a 503 refusal. After a sent request on a valid breaker, the shared breaker is closed on success, or open until the timeout on failure. After a refusal it is the current breaker. |
| SocialGraphClientProperties.ServiceBreakerIsValid | service/circuit_breaker/social_graph_circuit_breaker.go:30-45 | The client's breaker starts in a state that satisfies the invariant. |
| SocialGraphClientProperties.RpcFailureIsReportedAs503 | service/circuit_breaker/social_graph_circuit_breaker.go:66-75 | A failed RPC reaches the caller as a 503 wrapping the request's 500, and trips the breaker. |
| SocialGraphClientProperties.FailureOpensBreakerForAll | service/circuit_breaker/social_graph_circuit_breaker.go:18-28 | A failure of any operation makes every operation refuse with 503, without sending, until the timeout has passed. |
| SocialGraphClientProperties.FollowersFailureBlocksVisibility | service/circuit_breaker/social_graph_circuit_breaker.go:96-108 | A failed GetMyFollowers makes the next CheckVisibility within 5 s fail fast. |
| SocialGraphClientProperties.ServiceTripIsLogged | service/circuit_breaker/social_graph_circuit_breaker.go:33 | The first failure logs one change, closed to open, under the name "SocialGraph". The message is `Circuit Breaker 'SocialGraph' changed from 'closed' to 'open'`. |
| SocialGraphClientProperties.DialFailureExitsInsteadOf500 | service/circuit_breaker/social_graph_circuit_breaker.go:51-56 | As written, a dial error exits the process, where the handler meant a 500. |
| SocialGraphClientProperties.DialFailureLeavesBreakerClosed | service/circuit_breaker/social_graph_circuit_breaker.go:51-56 | A 500 for a dial error does not open the breaker, so the next call goes through. |
| LegacySocialGraphClient.NewLegacyBreaker | circuit_breaker/social_graph_circuit_breaker.go:32-47 | The earlier breaker starts closed and valid, with its own settings. |
| LegacySocialGraphClient.LegacyFirstFailureTrips | circuit_breaker/social_graph_circuit_breaker.go:49-79 | A failed CheckVisibility is a 503 and sends the authUsername metadata. It trips the breaker, and the change is logged as "SocialGraphCircuitBreaker". |
| LegacySocialGraphClient.LegacyOpenForFiveSeconds | circuit_breaker/social_graph_circuit_breaker.go:37 | After the trip, calls are refused for 5 s. After that a probe runs, its reply is returned, and the breaker closes. |
| LegacySocialGraphClient.LegacyDialErrorExits | circuit_breaker/social_graph_circuit_breaker.go:91-93 | As written, a dial error exits the process. |
| LegacySocialGraphClient.LegacyDialErrorIs500 | circuit_breaker/social_graph_circuit_breaker.go:55-58 | As the handler intends, a dial error is a 500 and the breaker is untouched. |
| ImageCache.ConstructKey | repository/redis/redis_tweet_repository.go:69-71 | A key is the prefix `images:` followed by the id. |
| ImageCache.ImageIdOf | repository/redis/redis_tweet_repository.go:65 | A key names an image exactly when it starts with `images:`, and the id is the rest of the key. |
| ImageCache.Post | repository/redis/redis_tweet_repository.go:32-39 | On success the image's key holds the bytes with a deadline 30 s away, and every other key is unchanged. On failure nothing changes. |
| ImageCache.Get | repository/redis/redis_tweet_repository.go:41-51 | The bytes are returned exactly when the key is live. Otherwise the result is redis.Nil or the backend error, and no bytes. |
| ImageCache.ExistsCount | repository/redis/redis_tweet_repository.go:57 | EXISTS answers 1 for a live key and 0 otherwise. |
| ImageCache.Exists | repository/redis/redis_tweet_repository.go:53-62 | The result is true exactly when the read succeeds and the key is live. An error gives false. |
| ImageCacheProperties.KeyRoundTrip | repository/redis/redis_tweet_repository.go:69-71 | The id can be read back from its key. |
| ImageCacheProperties.KeyFromId | repository/redis/redis_tweet_repository.go:65 | Every cache key is built from the id it names. |
| ImageCacheProperties.KeysAreInjective | repository/redis/redis_tweet_repository.go:69-71 | Distinct ids have distinct keys. |
| ImageCacheProperties.PostThenGet | repository/redis/redis_tweet_repository.go:36 | A posted image is returned by Get and reported by Exists for 30 s, and by neither afterwards. |
| ImageCacheProperties.PostIsolatesOtherImages | repository/redis/redis_tweet_repository.go:36 | Posting one image changes no other image's Get or Exists. |
| ImageCacheProperties.PostReplaces | repository/redis/redis_tweet_repository.go:36 | A second Post replaces the first value and its expiry. |
| ImageCacheProperties.ExistsAgreesWithGet | repository/redis/redis_tweet_repository.go:45-61 | Exists is true exactly when Get at the same instant returns bytes. |

## Left out

- main.go, tls/tls_config.go (apart from the dial failure), controller/ and the JWT middleware: these are server wiring, TLS, HTTP routing and authentication, and are I/O. The same holds for the business-role check in the controller.
- tracing/ and every span: spans are telemetry and have no effect on results.
- service/grpc_tweet_service.go: it only forwards to UpdateFeed, with the caller in metadata.
- Keyspace creation and migrations (repository/cassandra/cassandra_tweet_repository.go:53-94): the schema and the clustering order are not visible. The order is therefore a parameter.
- The `toTimestamp(tweet_id)` column of the paged reads and of FindTweet: it is derived from the time-UUID, and no property depends on it.
- gobreaker's mutex and the wall clock: each critical section is one function, and time is the parameter `now`. Overlapping calls are sequences of BeforeRequest and AfterRequest steps.
- The gobreaker source is not part of this model. Its algorithm is modelled from its published behaviour.
- CircuitBreaker.Execute: the request completes at the instant it starts. Calls that overlap in time are expressed with BeforeRequest and AfterRequest directly.
- CircuitBreaker.Counts: gobreaker's counts are uint32 and wrap after 2^32 requests. The model uses unbounded naturals. Wrapping cannot change any comparison gobreaker makes under these settings:
  - ConsecutiveFailures > 0 is tested right after a failure has been counted, so it is at least 1;
  - `Requests >= MaxRequests` and `ConsecutiveSuccesses >= MaxRequests` are compared only while half-open, where both stay at most 1;
  - Interval is 0, so the closed-state counts are never reset, but they are also never compared against MaxRequests.
- TweetStore.SaveTweet: a failed write writes nothing. A write that times out after Cassandra applied it is not modelled. The same holds for SaveLike, DeleteLike, UpdateFeed and ImageCache.Post.
- TweetStore.CountLikes: it assumes gocql refuses a COUNT(*) above 32767 when scanning into an int16, rather than truncating it.
- TweetStore.GetLikesByTweet: the result is a set, and the likes table's clustering order is not visible. A failure of the first fetch is modelled as an empty result. A failure of a later 5000-row fetch returns only the likes of the earlier fetches, and which likes those are depends on the unknown scan order. The model does not state that case.
- TweetStore.RowsBeforeFault: gocql's default page size of 5000 is assumed, because the session at repository/cassandra/cassandra_tweet_repository.go:34-37 sets none. A failed fetch stops the loop, and the iterator's error is never read, because the iterator is never closed.
- TweetStore.FindTweet: `WHERE tweet_id = ?` on timeline_by_user restricts only a clustering column. Cassandra accepts that query only with a secondary index on tweet_id, or with ALLOW FILTERING. The migrations are not visible, so the model assumes such an index exists; without one, every call is the `fails` case. When several partitions hold the id, the model chooses one of them. It is ghost for that reason.
- TweetStore.ReadPage: a non-empty cursor that does not parse as a time-UUID is modelled as a failed bind. The read loop then sees no rows and the error is nil.
- `cacheAll` (repository/redis/redis_tweet_repository.go:66) is declared but never used.
- ImageCache: a key is live up to and including its deadline. This follows Redis's expiry rule at nanosecond resolution, although Redis keeps milliseconds.
- CircuitBreaker.LogLine: Go's standard logger puts the date and time before each message, and no file of the service changes its flags. The model states only the message.
- Dialling the social-graph service and the RPCs themselves are parameters (`dial`, `reply`).
- Retweet handling, ad targeting beyond the RPC, and the ads ledger are not present in the code modelled.

## Findings

| source | as written | input that shows it | evidently intended | confidence | as-written member | corrected member |
|---|---|---|---|---|---|---|
| service/circuit_breaker/social_graph_circuit_breaker.go:51-56 | tls.GetgRPCConnection calls log.Fatalf on a dial error, so the process exits before the 500 branch runs | any dial error, e.g. `DialError("bad target")` | the operation answers 500 and leaves the breaker alone; the `defer conn.Close()` at lines 52, 85 and 118 must also move below the error check, because conn is nil after a dial error | medium, not executed | SocialGraphClientProperties.DialFailureExitsInsteadOf500 | SocialGraphClient.Guarded |
| circuit_breaker/social_graph_circuit_breaker.go:53-58 | getgRPCConnection (lines 91-93) calls log.Fatalf on a dial error, so CheckVisibility never returns its 500 | any dial error, e.g. `DialError("bad target")` | CheckVisibility answers 500 and leaves the breaker alone; the `defer conn.Close()` at line 54 must also move below the error check, because conn is nil after a dial error | medium, not executed | LegacySocialGraphClient.LegacyDialErrorExits | LegacySocialGraphClient.LegacyDialErrorIs500 |
