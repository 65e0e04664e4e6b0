# Verified model of the short-video backend

A Dafny model of the parts of the backend where several processes share Redis,
a stream and a database, with proofs that what they do together is right.

* **Like pipeline** (`LikeKeys`, `LikeEvents`, `LikeCounters`, `LikeService`, `LikeMachine`,
  `LikePairs`, `Reconcile`, `LikeRepo`, `StreamBus`, `LikeWorker`, `LikeReplays`). The service, the aggregator, Redis, the
  repository, the consumer and the stream bus are classes whose methods are proved against
  functions of the old state. `LikeMachine` and `LikeWorker` are state machines in which any
  number of calls, flushes, deliveries, retries and failures interleave command by command;
  conservation, convergence and exactly-once counting are proved for every run.
* **Push/pull feed** (`Decimal`, `RankedSet`, `Paging`, `FeedStore`, `FeedService`, `Followers`,
  `Fanout`, `FeedRefinement`, `FeedWrites`, `FeedMirror`). Bounded timelines are proved to hold the newest 2000 deliveries
  under any interleaving of adds and trims, a merged page of truncated reads is proved to be the
  page of the full lists, and the pages that a reader chains by `NextCursor`, with publishing going
  on between and during the reads, are proved to be the pages of `Store.FollowingFeed`; what
  this assumes of the two contents is met by some run for every history of the store in which follows
  come before the followee's videos (`FeedMirror`).
* **In-memory store** (`Store`). Every operation keeps the redundant counters and indices
  consistent, and cursor paging neither skips nor repeats while videos are added.
* **Ranking** and **rate limiting** (`Ranking`, `RateLimit`).

One module per file. `Collections` and `Sorting` hold facts about sets, maps, sequences and orders. A class
method is one call running alone; interleavings are the business of the machines, and
the `Run...` methods of `LikeService.Service` and `FeedWrites`,
`StreamBus.RedisStreamBus.HandleMessage` and `FeedRefinement.UninterruptedRead` connect the two: a
method does to the shared state, or reads from it, exactly what the machine's steps do.

Reading conventions: a Boolean parameter such as `execFails`, `rollbackFails` or `appendFails` is
the outcome of a command whose server is not modelled; a clock reading is a parameter (`now`).
Each Redis command and each `Exec` is one atomic step.

## What turned out not to hold

* `syncVideo` computes its correction from the clamped count, so one call does not always reach
  the database count. `Reconcile.SyncReachesDb` gives the exact condition (raw sum not negative,
  or a database count of 0), `Reconcile.VisitsConverge` the number of visits that always suffices.
* In direct mode (no aggregator) overlapping calls on one (user, video) pair lose count:
  `LikeMachine.OverlapMiscounts` shows it from every drained state whose count is right and for
  every pair, `LikeMachine.DrainedCount` says exactly when a drained count is right, and
  `LikeMachine.DirectCountsExactly` that non-overlapping calls suffice.
* The stored snapshot is not the sum of the deltas: `LikeRepo.SnapshotBound` says when it is.
* Of several events with the same, latest timestamp the first to arrive stays, so order matters;
  `LikeRepo.OrderIrrelevantIff` says exactly when it does not. For the same reason the record can
  disagree with the gate (`LikeReplays.EqualStampsDisagree`: like and unlike within a millisecond);
  `LikeReplays.RecordMatchesGateIff` says exactly when no order of handling can make it.
* `Count` reads shards 0 to 15, but Go's remainder sends most negative video IDs to a negative
  shard (`LikeKeys.HomeShardIsRead`), and `parseVidFromKey` drops the sign
  (`LikeKeys.ParseRoundTrip`).
* A cursor read skips entries whose score equals the cursor: `RankedSet.ResumeExact`.
* Bucket keys of the limiter are unambiguous only if no rule prefix continues another with a colon
  and none is "fallback" or begins with "fallback:", the word under which unmatched paths are
  counted (`RateLimit.BucketsDistinctIff`); its rule choice is independent of the map order only if
  no prefix extends another (`RateLimit.ChoiceUniqueIff`). The smallest int64 formats as a lone
  minus sign; the text is still injective.
* `FreshInjection` is documented as replacing low-scored items and as inserting in front; the code
  appends behind the page, and the model follows the code.

## Model

| member | source | states |
|---|---|---|
| LikeMachine.RunConserves | internal/like/aggregator.go:54-82 | In every reachable state, in either mode, of any number of interleaved like and unlike calls and flushes (failed ones included): users holding v = Redis counter + pending + in flight + calls past the gate not yet counted + what ineffective rollbacks left; and the counted total = net published events + counted but unpublished + failed publishes |
| LikeMachine.ExecErrConserves | internal/like/aggregator.go:74-81 | Putting a failed batch back into deltas that have meanwhile changed keeps the balance |
| LikeMachine.AggregatorCountsExactly | internal/like/aggregator.go:32-82 | With the aggregator, once drained, the 16-shard sum is the number of users holding the video, whatever the interleaving and however many flushes failed; the clamp is idle |
| LikeMachine.DrainedCount | internal/like/service.go:63-115 | In either mode a drained sum equals the holders exactly when the balance of ineffective rollbacks is zero, and equals the net of published and dropped events |
| LikeMachine.RollbackRestores | internal/like/service.go:77-81 | When calls on one pair do not overlap, a failed call's rollback puts the gate back to what the call found and touches no other pair and no counter |
| LikeMachine.DirectCountsExactly | internal/like/service.go:63-115 | Direct mode, calls on one pair not overlapping, rollbacks succeeding: whenever no call of the video is between gate and counter, the shard sum is the number of holders, while other videos' calls are anywhere |
| LikeMachine.OverlapMiscounts | internal/like/service.go:63-115 | From every drained direct-mode state with a right count and for every pair, two overlapping opposite calls drain to the same gate and holders with the shard sum off by one |
| LikePairs.GateFollowsEvents | internal/like/service.go:63-115 | In either mode, in every run whose calls on one pair do not overlap and whose rollbacks and publishes for it get through, whatever goes on elsewhere: with none of its calls past the gate, the gate holds the pair exactly when its last event is a like |
| LikeService.Service.Like | internal/like/service.go:63-89 | Errors, result, gate, counter, pending deltas and event of one like under every failure; a call that reports an error leaves gate and counter as they were if its rollback got through |
| LikeService.Service.Unlike | internal/like/service.go:92-115 | The same for an unlike |
| LikeService.Service.RunCall | internal/like/service.go:63-115 | A call of the service simulates the machine's run of its commands from any state that shows the same Redis, aggregator and events |
| LikeService.Service.RunSwap | internal/like/aggregator.go:55-63 | Taking the deltas away is the machine's swap, also with calls and other flushes in between |
| LikeService.Service.RunSend | internal/like/aggregator.go:65-74 | Sending any batch in flight is the machine's successful exec; a failing one changes nothing yet |
| LikeService.Service.RunPutBack | internal/like/aggregator.go:74-81 | Returning an unsent batch is the machine's failed exec |
| LikeService.Service.RunFlush | internal/like/aggregator.go:54-82 | A whole tick is the machine's swap followed by the exec, successful or failed |
| LikeCounters.CounterAggregator.Send | internal/like/aggregator.go:65-74 | The pipeline built key by key in the map's order leaves each video's delta on its home shard and nothing elsewhere; on a failure nothing changes |
| LikeCounters.CounterAggregator.PutBack | internal/like/aggregator.go:76-80 | Every video's pending delta grows by its share of the returned batch |
| LikeCounters.CounterAggregator.Flush | internal/like/aggregator.go:54-82 | One tick without interleaved requests conserves counter + pending for every video; nothing is pending after a success, Redis is unchanged after a failure |
| LikeCounters.Redis.Count | internal/like/read.go:12-33 | The sum of the sixteen shards, clamped at zero |
| LikeCounters.CountIsHomeCounter | internal/like/read.go:12-33 | For non-negative IDs the 16-way sum is the one home counter and the count is that counter clamped |
| LikeMachine.RunHomeOnly | internal/like/service.go:77-78 | Every write of every run hits the shard vid mod 16 |
| LikeKeys.HomeShardIsRead | internal/like/read.go:12-16 | The written shard is vid % 16 for non-negative IDs, and among the sixteen read shards exactly for these and for negative multiples of 16; a negative ID goes to the congruent shard in -15..0 |
| LikeKeys.KeysDistinct | internal/like/service.go:56-58 | Different (video, shard) counters never share a Redis key |
| LikeKeys.ParseVidFromKey | internal/like/reconcile.go:127-143 | The digit loop with its break and its 64-bit wrap-around computes VidOfKey |
| LikeKeys.ParseRoundTrip | internal/like/reconcile.go:127-143 | A scanned counter key yields the video it counts exactly for non-negative IDs (and the least int64), for every shard |
| LikeKeys.KeyLayout | internal/like/reconcile.go:126-143 | Video 123 and shard 5 give "likecnt:123:5", from which 123 is parsed |
| LikeKeys.WrapIsModular | internal/like/reconcile.go:139 | The parsed number is kept in int64, congruent modulo 2^64 |
| Reconcile.Reconciler.SyncVideo | internal/like/reconcile.go:104-117 | One correction, from the clamped count, on the home shard; it errs exactly when there was something to correct and the command failed |
| Reconcile.SyncReachesDb | internal/like/reconcile.go:104-117 | One syncVideo makes the count equal the database count if and only if the raw sum was not negative or the database count is 0 |
| Reconcile.VisitsConverge | internal/like/reconcile.go:83-92 | From any raw counter, max(0, -raw) + 1 visits bring the count within the threshold, and it stays there |
| Reconcile.PendingShiftsRepair | internal/like/reconcile.go:104-117 | Deltas pending during a successful repair shift the repaired counter by exactly themselves when flushed later |
| Reconcile.ScanVisits | internal/like/reconcile.go:61-98 | Whatever keys a scan returns, in any order and with repetitions, and whichever single commands fail, each video is visited as often as its keys come up with working commands and no video disturbs another |
| Reconcile.ReconcileConverges | internal/like/reconcile.go:53-101 | Enough scans of a video's key bring Count to within the threshold of its like_count column, or of 0 when it has no row |
| Reconcile.Reconciler.ReconcileKey | internal/like/reconcile.go:67-93 | A key without a video is skipped, one whose reads fail is an error, one whose count is within the threshold of its like_count column (of 0 without a row) is in order, any other is repaired unless the command fails; only a repair changes counters, and it makes the count equal the column when the raw sum was not negative |
| Reconcile.Reconciler.ReconcileAll | internal/like/reconcile.go:53-101 | One pass over the scanned pages is the fold of the single repairs, the reported counts are the numbers of repaired and of failed keys, and every video whose keys came up often enough ends within the threshold of the database |
| Reconcile.OutcomesAt | internal/like/reconcile.go:61-98 | The i-th outcome of a pass is that of the i-th key on the counters left by the keys before it |
| LikeRepo.UpsertSql | internal/like/mysql_repo.go:25-32 | The left-to-right conditional assignments compute the same row as the in-memory upsert |
| LikeRepo.MemLikeRepo.UpsertLike | cmd/likeworker/main.go:98-113 | Only the keyed row changes, to the newer of the two, the stored one on a tie |
| LikeRepo.LatestWins | cmd/likeworker/main.go:107-111 | The final record is the first arrival with the greatest timestamp |
| LikeRepo.OrderIrrelevantIff | internal/like/mysql_repo.go:20-34 | Order and duplication of the writes to a record are irrelevant exactly when its latest writes agree, as they do for distinct timestamps |
| LikeRepo.LastSticksIff | cmd/likeworker/main.go:107-111 | In every order of arrival the record tells what the last write said, if and only if all writes with the greatest timestamp say it |
| LikeRepo.MemLikeRepo.ApplyCountDeltas | cmd/likeworker/main.go:115-125 | Each video's count moves by its delta and is clamped at zero; an error writes nothing |
| LikeRepo.SqlKeepsStored | internal/like/mysql_repo.go:42-49 | After any sequence of deltas the INSERT ... ON DUPLICATE KEY UPDATE row holds the same snapshot as the in-memory repository |
| LikeRepo.StoredIsReflectedSum | cmd/likeworker/main.go:115-125 | After deltas with prefix sums S_k the stored count is S_n - min(0, min S_k) |
| LikeRepo.SnapshotBound | cmd/likeworker/main.go:115-125 | The snapshot is never below the true sum and equals it if and only if no prefix sum is negative |
| LikeRepo.BatchingNeverStoresMore | internal/like/consumer.go:24-41 | Grouping consecutive events into batches never gives a larger snapshot than applying them one by one |
| LikeRepo.Consumer.HandleBatch | internal/like/consumer.go:24-41 | Records are written in order up to the first failing one, which stops the batch before any count; on success every video's count moves by its net likes, clamped |
| StreamBus.RunKeepsInv | pkg/mq/mq.go:118-171 | In every run: entries behind the read position were read, each lineage has one current entry, handler runs equal attempts used, dead letters match dead entries, successes match handled entries |
| StreamBus.OnePlace | pkg/mq/mq.go:144-171 | Every published message is in exactly one place, its handler has run at most maxRetry times, and a dead letter carries its payload and exactly maxRetry attempts |
| StreamBus.DrainedSettlesAll | pkg/mq/mq.go:144-171 | With appends succeeding and a handler subscribed, a drained queue has handled every message or else dead-lettered it after exactly maxRetry attempts |
| StreamBus.StepUsesWork | pkg/mq/mq.go:144-171 | Every step other than a publish lowers the remaining work strictly |
| StreamBus.WorkProceeds | pkg/mq/mq.go:118-171 | While work remains some step is possible |
| StreamBus.QueueDrains | pkg/mq/mq.go:118-171 | Without publishes a run has at most as many steps as there was work, and a bus that can do no more has acknowledged every entry |
| StreamBus.RedisStreamBus.PublishMessage | pkg/mq/mq.go:83-88 | One new unread entry at the end, with the payload, zero attempts and a new lineage, and nothing else; or an error and no change |
| StreamBus.RedisStreamBus.HandleMessage | pkg/mq/mq.go:144-171 | Without a handler the acknowledgement alone; otherwise handler, then re-append or dead letter after a failure, then acknowledgement, as the machine's steps |
| StreamBus.HandledMeans | pkg/mq/mq.go:144-171 | Field by field, what handling one message changes: one more run; a recorded success; after a failure a dead letter with all attempts when they are used up, else the payload appended again with one more attempt; the acknowledgement |
| StreamBus.HandledUsesWork | pkg/mq/mq.go:144-171 | Handling a message, whatever its outcome, acknowledges it, keeps the stream well formed and lowers the remaining work |
| StreamBus.RedisStreamBus.PollTopic | pkg/mq/mq.go:118-142 | One round reads up to ten new entries, settles each by its handler's outcome and its attempts, acknowledges all of them, keeps the stream well formed and uses up work |
| LikeWorker.HandlePayload | cmd/likeworker/main.go:54-65 | The single-event handler: result, record and count afterwards for every payload and failure; unreadable payloads are acknowledged without effect |
| LikeWorker.RunConsistent | cmd/likeworker/main.go:54-65 | In every run of the worker on the bus the snapshots are the clamped sums of the handled messages' deltas and each record is the fold of the writes that went through |
| LikeWorker.SnapshotOfRun | internal/like/consumer.go:24-41 | Each message's delta is applied once if its handler succeeded and not at all otherwise, however often it was retried and in whatever order |
| LikeWorker.AppliedOrDead | internal/like/consumer.go:24-41 | Once the queue has drained with appends succeeding, every message's delta was applied exactly once or the message is dead-lettered after exactly maxRetry attempts |
| LikeWorker.AppliedSum | internal/like/consumer.go:24-41 | The sum of what was applied depends only on which messages succeeded, not on the order |
| LikeWorker.SnapshotCoversHolders | internal/like/service.go:83-88 | From the gate to the database: drained aggregator, all publishes through, all messages handled: the snapshot is at least the number of holders, and exactly that if and only if no prefix of the applied deltas was negative |
| LikeWorker.RecordsConverge | internal/like/consumer.go:24-41 | Once all messages are handled, each record whose latest events agree is what the published events determine |
| LikeWorker.RecordMatchesGate | internal/like/service.go:63-115 | From the gate to the record: calls on the pair not overlapping, rollbacks and publishes through, all messages handled in whatever order, and the newest events saying what the last one says: the record is liked exactly when the user's set holds the video |
| LikeReplays.RecordTellsLastIff | internal/like/mysql_repo.go:20-34 | In all runs of the worker that handle given events, whatever the retries and the order, the record says what the pair's last event says, if and only if its newest timestamps all belong to events saying that; otherwise a run without any retry disagrees |
| LikeReplays.RecordMatchesGateIff | internal/like/service.go:63-115 | For a pair whose calls do not overlap the record agrees with the gate in all such runs under exactly that condition |
| LikeReplays.EqualStampsDisagree | cmd/likeworker/main.go:107-111 | A run of the likes and a run of the worker in which a like and a later unlike with one timestamp leave the gate without the pair and the record liked |
| FeedStore.TrimKeepsTop | internal/feed/store.go:39-40 | Removing ascending ranks 0 to -(max+1) keeps exactly the max highest-ranked members |
| FeedStore.TimelineHoldsNewest | internal/feed/store.go:46-57 | With one fixed score per video and adds and trims of many workers in any interleaving, newest 2000 delivered <= box <= all delivered, and equality with the former right after a trim |
| FeedStore.DeliveryOrderIrrelevant | internal/feed/store.go:46-57 | The trimmed box depends only on the set of delivered videos: order, repetition and interleaving leave no trace |
| FeedStore.PushIntoTop | internal/feed/store.go:35-43 | Pushing into a trimmed list gives the newest 2000 of everything ever pushed |
| FeedStore.PushIdempotent | internal/feed/fanout.go:33-34 | Repeating a push changes nothing |
| FeedStore.Store.AppendToOutbox | internal/feed/store.go:35-43 | Add and trim of the author's outbox in one transaction, or no change |
| FeedStore.Store.BatchPushToInbox | internal/feed/store.go:46-57 | Exactly the listed followers' inboxes are pushed to, also when an ID is repeated, or nothing changes |
| FeedStore.ReadByScore | internal/feed/read.go:18-39 | The first `limit` entries below an open cursor, in descending rank order, ties by member text |
| RankedSet.Sandwich | internal/feed/store.go:39-40 | Any list between the top n of a list and the whole list has the same top n |
| RankedSet.ResumeExact | internal/feed/read.go:19-23 | A cursor read continues exactly behind the previous page if and only if no equal score follows |
| RankedSet.PageIs | internal/feed/read.go:17-39 | A page holds at most `limit` members scored below the cursor, highest score first, on equal scores the bytewise greater member first; whatever it leaves out scores no higher and did not fit |
| RankedSet.TextLessIff | internal/feed/read.go:24-28 | Member texts are compared at the first differing character, a proper beginning being smaller |
| FeedService.MergeDedupe | internal/feed/service.go:107-124 | The result is in score order, holds each video once, as the entry that came first, has min(limit, distinct videos) entries, and leaves out nothing that scores higher |
| FeedService.FirstScoresAreFirst | internal/feed/service.go:110-118 | Deduplication keeps every video, with the score of its first entry |
| FeedService.MergedIsTop | internal/feed/service.go:107-124 | With distinct scores the merged page is the top of the deduplicated entries, in order |
| FeedService.ReadBigVOutboxesConcurrently | internal/feed/pull.go:10-40 | The appended reads of all reachable outboxes, each author once, in some completion order |
| FeedService.PageExact | internal/feed/service.go:60-77 | Merging the first `fetch` entries of every list gives the page of the union of the full lists, whatever the completion order |
| FeedService.GetFollowingFeed | internal/feed/service.go:60-103 | When the call fails; otherwise the merged entries, and a page whose videos stand for exactly the visible ones among them, from left to right, with author and the reader's like state, and whose next cursor is the tenth score or 0 |
| FeedService.ShownInOrder | internal/feed/service.go:85-100 | The returned videos are distinct, their scores never rise, every visible entry is shown, and when all are visible each video stands at its entry's place |
| FeedService.BatchGetVisible | cmd/server/main.go:456-470 | The views of the entries found in the catalogue, in their order |
| FeedRefinement.RunKeepsInv | internal/feed/store.go:35-57 | In every interleaving of publishing, outbox appends, inbox pushes and trims every inbox lies between the newest 2000 and all of its deliveries and every outbox is the newest 2000 of its author |
| FeedRefinement.UninterruptedRead | internal/feed/service.go:60-83 | What GetFollowingFeed merges in one reachable state is a page read of the model |
| FeedRefinement.SeenIsUnion | internal/feed/service.go:60-77 | In any run a read, its inbox and outboxes fetched at different moments, finds lists that agree on every score and hold followees' videos only |
| FeedRefinement.ReaderPage | internal/feed/service.go:60-83 | The page merged from such a read is the page of everything it saw, whatever the completion order, and the next cursor is 0 exactly for a short page, else the last score |
| FeedRefinement.SeenHolds | internal/feed/service.go:60-77 | From a state in which all tasks are handled on, every read sees the newest n followees' videos of that state as long as at most 2000 - n have come on top, whatever the big-V classification, and everything else it sees is newer than these or older |
| FeedRefinement.FeedKeepsOrder | internal/feed/service.go:60-103 | In any run, whatever is published between and during the reads, the pages chained by NextCursor from 0 give followees' videos only, each once, strictly newest first, none published after the first page; the service stops once it has returned as many full pages as those videos fill |
| FeedRefinement.FeedShowsNewest | internal/feed/service.go:60-103 | The newest n videos that the followees had when paging began come out complete and in order by the time NextCursor is 0, as long as at most 2000 - n new ones arrive meanwhile, with publishing and reclassification between and during the reads |
| FeedRefinement.FeedIsPullModel | internal/feed/service.go:60-103 | With at most 2000 followees' videos and nothing published during the first read, the pages chained by NextCursor from 0 until it is 0 are exactly the followees' videos at the start, each once, newest first |
| FeedRefinement.FeedRefinesFollowingFeed | internal/store/store.go:732-778 | The pages of the push/pull feed until NextCursor is 0 and the pages of Store.FollowingFeed until one is short hold the same videos in the same order, for any big-V sets and page limits, each side with publishing going on |
| FeedMirror.MirrorStore | cmd/server/main.go:422-439 | For every history of the store in which follows come before the followee's videos and unfollows remove nothing there is a run of the feed machine that ends settled and with the same videos and follows, as the comparison with Store.FollowingFeed assumes |
| FeedWrites.RunPublish | cmd/server/main.go:422-439 | The publisher's outbox write is the machine's append, and the task carries the video's publish time |
| FeedWrites.RunHandle | internal/feed/fanout.go:34-53 | A fan-out run is the machine's run of pushes and trims for the followers it reached, also when it fails midway; without an error the video is settled |
| FeedWrites.TasksDoneSettle | internal/feed/fanout.go:33-53 | In any interleaving of publishers and workers, with retries, once every video's outbox write and its push to each follower have been done, the state is settled |
| Fanout.FanoutPublisher.PublishFanout | cmd/server/main.go:422-439 | Outbox entry and fan-out task carry one timestamp; a failed outbox append publishes no task |
| Fanout.PageCovers | internal/feed/fanout.go:36-51 | One follower page extends the set of reached users up to its next cursor, or to everybody on the last page, and the cursor rises |
| Fanout.FanoutWorker.Handle | internal/feed/fanout.go:34-53 | With follows and unfollows between pages a run pushes strictly ascending follower IDs, reaches everybody who follows throughout, terminates, and has pushed exactly to those it lists even when it fails midway |
| Followers.ListFollowers | internal/store/store.go:820-851 | The `limit` smallest followers behind the cursor, ascending, and next = 0 exactly when none remain |
| Paging.PagesHold | internal/feed/read.go:17-23 | If every state behind the cursor holds certain entries unmixed with others, paging by last score lists them in order, without gap or repetition, all of them once a page is short, for any page sizes |
| Paging.PagesAreListing | internal/feed/read.go:17-23 | Paging while members arrive on top returns exactly the listing of the first state |
| Store.RunKeepsInv | internal/store/store.go:460-506 | After every operation sequence: like counts are the sizes of the liker sets, following and followers are transposes without self edges, comment counts and increasing comment lists match the comments, IDs are within their counters |
| Store.LikedIsCounted | internal/store/store.go:501-504 | A liked video has a positive count, so the guard before the decrement never blocks it |
| Store.LikesKept | internal/store/store.go:460-506 | Every operation keeps like counts equal to the number of likers |
| Store.FollowsKept | internal/store/store.go:680-730 | Every operation keeps following and followers transposed, without self edges |
| Store.CommentsKept | internal/store/store.go:581-602 | Every operation keeps comment counts, lists and comments consistent |
| Store.PagesUnderGrowth | internal/store/store.go:378-455 | The pages returned one after the other, each with the last ID of the page before and any operations in between (the reader's follow set fixed), concatenate to exactly the matching videos of the first read, strictly descending, for every limit after clamping; a short page ends them, after at most one page per video and one more |
| Store.Store.CreateUser | internal/store/store.go:81-114 | Empty names and passwords, passwords under six bytes and failing hashes rejected in order without a change, otherwise the next ID is added; the invariant kept |
| Store.Store.CreateVideo | internal/store/store.go:202-252 | Error cases in order without a change, otherwise the next ID is stored with zero counts and nothing else moves; the invariant kept |
| Store.Store.Like | internal/store/store.go:460-481 | Not found, already liked, or changed: then the video joins the user's set, its like count rises by one and nothing else moves; the invariant kept |
| Store.Store.Unlike | internal/store/store.go:484-506 | Not found, not liked, or changed: then the video leaves the user's set, its like count falls by one and nothing else moves; the invariant kept |
| Store.Store.AddComment | internal/store/store.go:540-602 | Error cases in order without a change, otherwise the next ID is stored, appended to the video's list and counted, and nothing else moves; the invariant kept |
| Store.Store.ListComments | internal/store/store.go:631-643 | All comments of the video in list order, as stored; the lookup never drops one |
| Store.Store.Follow | internal/store/store.go:649-697 | Error cases in order without a change, otherwise the edge is in both indices and no other set moves; the invariant kept |
| Store.Store.Unfollow | internal/store/store.go:700-730 | The edge is in neither index, every other edge stays in both, and the invariant is kept |
| Store.Store.ListVideos | internal/store/store.go:399-409 | Of all videos, those with the highest IDs below the cursor, strictly descending, as stored, complete or as many as the limit (10 for limits outside 1..50) |
| Store.Store.ListUserVideos | internal/store/store.go:438-454 | The same of the videos whose author is the given user, or NotFound |
| Store.Store.FollowingFeed | internal/store/store.go:760-777 | The same of the videos whose author is in the user's follow set, or NotFound |
| Store.Store.ListFollowers | internal/store/store.go:820-851 | A follower page of the stored set |
| Ranking.MergeAndRank | internal/rec/scorer.go:31-67 | Best first, distinct IDs, nothing left out beats anything kept; every video is the first entry of the first source that recalled it, with that source's weight 1.0, 0.7, 1.2 or 0.9 |
| Ranking.FirstsAreFirst | internal/rec/scorer.go:42-54 | The candidates hold every recalled video once, with the weight of the first source it came from |
| Ranking.DiversityRerank | internal/rec/scorer.go:70-85 | The counting loop computes Capped, or returns the input for a non-positive cap |
| Ranking.CappedKeepsFirst | internal/rec/scorer.go:77-83 | A video is kept exactly when fewer than the cap of its author's videos come before it |
| Ranking.DiversityIsMaximal | internal/rec/scorer.go:70-85 | The rerank is a subsequence within the cap, and no subsequence within the cap is longer |
| Ranking.FreshInjection | internal/rec/scorer.go:89-137 | The page followed by the first needed fresh videos that it does not hold |
| Ranking.FreshTargetIs | internal/rec/scorer.go:95-98 | The target is the page length times the ratio, rounded down, but at least one |
| Ranking.OutsideIsPool | internal/rec/scorer.go:118-135 | The candidates for injection are exactly the fresh videos that the page lacks, in their order |
| Ranking.InjectionReachesTarget | internal/rec/scorer.go:95-116 | With distinct IDs the result holds exactly max(current, min(target, pool)) fresh videos, the target counted on the input page |
| RateLimit.FormatInt | pkg/ratelimit/limiter.go:301-321 | The 20-character buffer suffices for every int64, and the text is the decimal one except for the least int64 |
| RateLimit.FormatTextDistinct | pkg/ratelimit/limiter.go:301-321 | Different int64 values have different texts |
| RateLimit.BucketsDistinctIff | pkg/ratelimit/limiter.go:172-221 | Over all requests as the rules classify them, bucket keys tell rule or fallback, key and second apart if and only if no rule prefix continues another with a colon and, unless the empty prefix is a rule, none is "fallback" or begins with "fallback:" |
| RateLimit.ChoiceUniqueIff | pkg/ratelimit/limiter.go:214-221 | No path has two possible choices if and only if no rule prefix extends another |
| RateLimit.RedisPathLimiter.RuleFor | pkg/ratelimit/limiter.go:214-221 | A rule whose prefix the path has, with its limits, or the fallback exactly when there is none |
| RateLimit.RedisPathLimiter.Allow | pkg/ratelimit/limiter.go:172-190 | Rejection without counting when qps + burst of the chosen rule or the fallback is not positive, admission on a failing INCR, otherwise one more in the bucket and admission up to qps + burst; the call and its answer extend the log that the next three rows speak of |
| RateLimit.AtMostLimitPerSecond | pkg/ratelimit/limiter.go:172-190 | In every log of calls, at most qps + burst of the calls that are counted pass per rule or fallback, key and clock second |
| RateLimit.ExactlyLimitPerSecond | pkg/ratelimit/limiter.go:172-190 | Under rules that keep apart, exactly min(arrived, qps + burst) of the counted calls of a rule or the fallback pass, none when qps + burst is not positive |
| RateLimit.AtMostTwicePerWindow | pkg/ratelimit/limiter.go:172-190 | At most 2 (qps + burst) in any half-open second |

## Left out

- Redis key expiry: inbox TTL of 30 days, limiter bucket expiry and the big-V cache's ten minutes are not modelled; keys live forever.
- Partially applied pipelines and cluster behaviour: each `Exec` and each command is all or nothing, which is what `flush` itself takes for granted.
- LikeRepo.MemLikeRepo.ApplyCountDeltas: an error means that no count was written; the MySQL loop may stop after some videos of a batch of several, but the workers send batches of one event.
- Crashes between the read of a stream entry and its acknowledgement: the entry stays in its place and redelivery is not claimed.
- The timer of `CounterAggregator.Run` and the ticker of the reconciler: flushes and passes happen at any time in the machine or one at a time in the classes.
- LikeService.Service.Like: the class method runs alone; interleaved calls are the machine's, with the same commands.
- FeedStore.Store.BatchPushToInbox: the class pushes a whole page as one call; the interleaving of the single adds and trims is the timeline's and the feed machine's.
- FeedWrites.RunHandle: nobody follows or unfollows the author during the run, as in the feed machine; Fanout.FanoutWorker.Handle itself allows it.
- FeedRefinement.FeedRefinesFollowingFeed: needs follows before publishes, IDs and times growing together, all tasks handled when paging begins, nothing published during the first page read, reads that succeed, and at most 2000 followees' videos; beyond 2000, FeedShowsNewest says how many still come out.
- RateLimit.RedisPathLimiter.Allow: all pods share one set of rules, so that one log holds the calls of all of them.
- FeedService.GetFollowingFeed: video texts, addresses and counts of a view are not modelled, nor is the semaphore of twenty readers.
- The handler of GET /api/feed may cut a page to a smaller limit without moving the cursor back; paging is proved for the service.
- Who counts as a big V (internal/relation): the classification is an arbitrary subset of the followees at every read.
- Store.Store.CreateVideo: titles and addresses are reduced to one flag for their checks; status changes, playback URLs and the index of user names are not modelled.
- The MySQL branches of the store and all SQL text beyond the row updates of likes and counts.
- Ranking.MergeAndRank: scores are exact rationals and sorting keeps the order of equal scores open; float rounding and `HeatScore` are not modelled, nor is the recommender that calls the stages.
- int64 overflow of counters, scores and ID sequences; key parsing and number formatting do model 64 bits.
- A negative reconciliation threshold, and repair while other writers are at work.
- The process-local token bucket, login protection and the limiter's middleware.
- ChanBus, the development replacement for the stream.
- HTTP handlers, authentication, uploads, transcoding, configuration, metrics and tracing.
