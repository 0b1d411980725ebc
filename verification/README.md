# Block feed: a verified model

A Dafny model of the block feed: the webhook scheduler on Redis, the write-behind block store, and three smaller
state machines of the same repository (checkout sessions, webhook pagination, the LRU cache) together with the Flow
block source. `dafny verify dfyconfig.toml` checks all of it.

## What is modelled

**The scheduler.** Blocks come from a stream, in batches, to the block router. It stores them, runs the Flush script on
every shard and acknowledges the batch. A shard holds the latest height, a sorted set of waiting webhook jobs, a stream
with one consumer group, and the set of active webhooks. Relays take one job at a time from the stream, read blocks from
the store, POST them, and put the job back with XAckDel at the height behind the last block.

- `RedisGroup`, `PendingSet`, `WebhookShard`: Redis streams with a consumer group, sorted sets, and the scripts as
  functions on the state of a shard, with what each of them does exactly. `WebhookStream` is the object whose methods
  run the scripts in place, loops included.
- `OrderedStream`: the router's consumer loop, one consumer with a fixed batch size. That its batches come in order, and
  that a replay is exactly the last batch (`BlockRouters.FlushHeightsNeverFall`), is how `Scheduler` lets the router act;
  `RouterSimulation` proves that this loop with the handler in it is simulated by the scheduler's router.
- `BlockRouter`, `BlockRelay`: the two services as objects, with the router's retries and the relay's backlog loop.
- `Scheduler`: the whole feed as a step relation, in which consumers, router, flusher, activations, failures and crashes
  interleave one atomic step at a time. A crash loses what a process knew and nothing else. `SchedulerOwnership`,
  `SchedulerDelivery` and `SchedulerRetries` prove what holds over all of its runs, `SchedulerProgress` that jobs only
  move on, `SchedulerBeginning` what happens while a webhook's first request is made again and again, and
  `SchedulerPromises` draws the conclusions.
  `BlockRelays.HandlerIsSteps` ties the relay object to it.

**The block store.** `BlockTables` and `SortedBlocks` are tables by height and their ordered form, `CachedStore` and
`LatestBlocks` the cached store as a state machine over its puts and the three flusher steps, with the queries over two
moments in time, and `BlockStores` the three stores as objects.

**The rest.** `Checkout` is the protocol of concurrent checkout handlers with its session cache, `CheckoutSafety` the
exact condition under which it keeps its promise, `CheckoutRenewals` what is renewed and when, `Pagination` the webhook
list, `LruCache` the in-memory cache, `FlowSource` the Flow subscription.

`LostBlock`, `FirstSendGap`, `CheckoutRace` and `CacheRace` are concrete runs that show where a promise ends.

## Assumptions

- Consumer names are unique. Each script call runs once and atomically, and go-redis does not repeat commands by itself.
- There is one document for each height; heights lie in 1..2^53, because scores and Lua numbers are doubles.
- A webhook's MaxBlocks lies in 1..2^31 - 1.
- Blocks reach the router in consecutive height order, and a block stays stored; the chain is not reorganised.
- Webhook ids are UUIDs of one length, so that their byte order is the order of the numbers they stand for.
- A run is disciplined when no batch that is stored already is stored again, during a flush cycle, such that a block comes
  back at or below what the flusher is about to delete. This restricts replayed batches alone
  (`SchedulerDelivery.FirstStoreIsSafe`), and there it is needed (`CachedStore.ReplayIsHarmlessIff`,
  `LostBlock.ReplayedBatchLosesBlocks`).
- A Stripe session that has expired or is complete never opens again, and UUIDs are fresh. A checkout handler that commits
  also answers.
- A Flow subscription delivers consecutive heights from the requested one.

## Where code and documentation differ

- The comment on Flush says that a score is the height of the last block that was sent. The relay schedules at that
  height + 1, so an idle job trails by at most one stored block (`SchedulerPromises.NoLostWakeUp`).
- The repository's README says that a webhook may get more retries than configured. The code raises the delivery count
  before each attempt, which gives at most max(1, MaxRetries - 1) POSTs for one stream message
  (`SchedulerRetries.PostsAreBounded`).
- `max(0, ...)` in GetLatestBlocks is taken over uint64 values and cannot clamp
  (`LatestBlocks.LatestBlocksExactIff`, `LatestBlocks.WrapAroundLosesBlocks`).
- The activate script says that it skips active webhooks; when all of them are active it ends with an error of ZADD.
- The comment on the checkout handler promises that a user never sees two open sessions. There are two places where the
  code does not keep that, and no others (`CheckoutSafety.HarmlessIff`). It deletes a row by the id that it has read
  earlier, or by the customer id on an event, and a replaced row keeps both; this does harm exactly when the row's session
  is open at that time (`CheckoutRace.DeletionBreaksOneOpenSession`). And it caches sessions under the user's id and keeps
  the copy when the row is replaced; a lookup that finds an old copy does harm exactly when the copy is over and the
  session of the row is open (`CacheRace.CacheBreaksOneOpenSession`, `Checkout.OwnCopyIsHarmless`).
- A webhook's first request may be made again with newer blocks when its acknowledgement is lost. Blocks between the two
  are then passed over exactly when the new request begins higher than one above the last block delivered, which is when
  more than MaxBlocks blocks are newer, unless the query wraps around (`SchedulerPromises.RepeatLeavesNoGapIff`,
  `SchedulerPromises.FewNewBlocksIff`, `FirstSendGap.FirstDeliveryIsNoBeginning`).
- The webhook list takes a filter for inactive webhooks and ignores it (`Pagination.InactiveIsIgnored`).
- An LRU cache of capacity 0 holds one entry (`LruCaches.SmallerIsIncluded`).

## Model

| member | source | states |
|---|---|---|
| `SchedulerPromises.NoBlockIsPassedOver` | packages/go/services/blockrelay/main.go:92-209 | in every state of every disciplined run with activations, router batches, relays, the flusher, handler failures and crashes, every height from the lowest block of a webhook's first acknowledged request up to its established job was POSTed as the stored document or given up at the retry limit |
| `SchedulerPromises.NoBlockIsPassedOverFromTheFirst` | packages/go/services/blockrelay/main.go:92-209 | in every disciplined run in which no handler fails and no consumer crashes between the delivery of a first request and its acknowledgement, every height from the lowest block of the first delivered request up to the established job was POSTed or given up |
| `SchedulerPromises.DoneSinceFirstDeliveryIff` | packages/go/services/blockrelay/main.go:192-209 | in every disciplined run, with any failures: everything from the first delivered request up to the established job is done if, and for a webhook that was never dropped only if, the deliveries of the first request leave no gap between them |
| `SchedulerPromises.RepeatLeavesNoGapIff` | packages/go/services/blockrelay/main.go:118-126 | when a first request is delivered once more, the deliveries leave no gap if and only if the new one begins no more than one height above the highest block delivered before |
| `SchedulerPromises.FewNewBlocksIff` | packages/go/services/blockrelay/main.go:118-126 | on consecutive heights the MaxBlocks latest blocks reach down that far if and only if at most MaxBlocks blocks are newer than the highest one delivered before |
| `SchedulerPromises.ThereIsAlwaysSomethingToSend` | packages/go/services/blockrelay/main.go:114-163 | the "0 blocks" panic is out of reach in every disciplined run: whenever a request has been put together it has at least one block, the blocks are stored ones and leave no gap |
| `SchedulerPromises.NoLostWakeUp` | packages/go/streams/webhook-stream.go:88-118 | in every state of every disciplined run every pending job that is not freshly activated has a score at or above the latest flushed height, and once the router has finished a batch a waiting job trails by at most one block |
| `SchedulerPromises.RequestIsFull` | packages/go/services/blockrelay/main.go:122-129 | in every disciplined run a request for an established job holds nothing back: it has MaxBlocks blocks, or all from the job's height on that were stored when the cache was read |
| `SchedulerProgress.GivenUpIsBehind` | packages/go/services/blockrelay/main.go:99-111 | over every run, disciplined or not: a height that was given up lies below the webhook's established job, unless the webhook was dropped since, so the retry limit gets the webhook past the block |
| `SchedulerProgress.AcknowledgedIsBehind` | packages/go/services/blockrelay/main.go:187-209 | after any run: an acknowledged request of an established job leaves the one job of its webhook strictly above every height it sent |
| `SchedulerProgress.JobsNeverGoBack` | packages/go/services/blockrelay/main.go:92-209 | after any run: no step moves an established job back or makes it new, and giving up or acknowledging a request moves it strictly on |
| `SchedulerProgress.RowKeepsWebhook` | packages/go/services/blockrelay/main.go:80-90 | over every run: as long as its row is not deleted, no webhook of the set is dropped, whatever fails or crashes |
| `SchedulerProgress.RequestIsShort` | packages/go/services/blockrelay/main.go:114-129 | after any run: a request has at most MaxBlocks blocks, with the wrap-around of the uint64 arithmetic included |
| `SchedulerProgress.RequestFits` | packages/go/services/blockrelay/main.go:122-129 | after any run: a request for an established job is ascending and lies within MaxBlocks heights from the job's height on |
| `SchedulerProgress.GiveUpMovesOn` | packages/go/services/blockrelay/main.go:99-111 | giving up leaves the webhook with exactly one job, one height further and new exactly if it was new; all other webhooks keep theirs |
| `SchedulerProgress.FinishMovesOn` | packages/go/services/blockrelay/main.go:187-209 | acknowledging a request leaves the webhook with exactly one job, an established one right behind the last block; all other webhooks keep theirs |
| `SchedulerProgress.ReschedulePutsNext` | packages/go/streams/webhook-stream.go:187-200 | rescheduling replaces the job of the message by the next one and touches no other job |
| `SchedulerProgress.StepKeeps` | packages/go/services/blockrelay/main.go:66-210 | every step keeps: established jobs have begun and stand above what was given up, and what their handlers have put together goes upwards |
| `SchedulerOwnership.OneLiveJobEach` | packages/go/streams/webhook-stream.go:146-201 | over every run with any number of consumers and crashes: exactly one job, waiting or in the stream, for each id of the webhook set and none for any other id; no two handlers hold the same message; no consumer has two pending messages |
| `SchedulerRetries.PostsAreBounded` | packages/go/services/blockrelay/main.go:92-112 | however often handlers fail and consumers crash, one stream message causes at most max(1, MaxRetries - 1) POSTs |
| `FirstSendGap.FirstDeliveryIsNoBeginning` | packages/go/services/blockrelay/main.go:192-209 | a concrete run of a new webhook in which a crash between the first POST and its acknowledgement leaves a gap: the condition of DoneSinceFirstDeliveryIff can fail |
| `LostBlock.ReplayedBatchLosesBlocks` | packages/go/services/blockrouter/main.go:71-90 | a concrete run of the whole system in which the router stores its batch again in the middle of a flush cycle: the established job of a webhook stands at height 6, and blocks 3 and 4, which are stored, were neither sent to it nor given up |
| `SchedulerDelivery.StepKeepsInv` | packages/go/services/blockrelay/main.go:66-210 | every disciplined step of the whole system keeps the delivery invariant (store, router, latest height, jobs, requests under way) |
| `SchedulerDelivery.ConsumerStepKeepsInv` | packages/go/services/blockrelay/main.go:66-210 | every step of a relay consumer keeps the delivery invariant, whoever else is active |
| `SchedulerDelivery.RunKeepsInv` | packages/go/streams/redis-stream.go:124-218 | the delivery and ownership invariants hold after every disciplined run |
| `SchedulerDelivery.StoreBatchKeeps` | packages/go/services/blockrouter/main.go:71-74 | storing a batch, for the first time or again, keeps the delivery invariant when it is safe for the flusher |
| `SchedulerDelivery.FirstStoreIsSafe` | packages/go/services/blockrouter/main.go:71-74 | a batch that is stored for the first time is always safe for the flusher: the discipline restricts replayed batches alone |
| `SchedulerBeginning.StepKeeps` | packages/go/services/blockrelay/main.go:192-209 | every step keeps the account of what the deliveries of first requests have reached: a webhook has heard of every height from where its established job began up to the highest one, and each further first request reaches at least as high |
| `SchedulerBeginning.StepKeepsOne` | packages/go/services/blockrelay/main.go:192-209 | as long as no delivered first request is left unacknowledged, every step keeps: what a webhook has heard of is one request, or begins where its established job began |
| `SchedulerDelivery.FlusherStore` | packages/go/block-stores/cachedstore/main.go:54-73 | each of the three flusher steps leaves the union of cache and database as it is and only lets it evolve |
| `SchedulerDelivery.FlushJobs` | packages/go/streams/webhook-stream.go:88-118 | after a flush every established job in the stream stands below the latest height, and all jobs are still covered |
| `SchedulerDelivery.RequestIsGood` | packages/go/services/blockrelay/main.go:114-129 | a request whose blocks were read from the cache at one moment and from the database at a later one is not empty, has only stored blocks, and runs without a gap from the job's height upwards, or downwards for a new job |
| `SchedulerDelivery.NextEstablishedJobOk` | packages/go/services/blockrelay/main.go:196-209 | after a delivery the job at the last height + 1 is covered up to that height |
| `SchedulerDelivery.NextNewJobOk` | packages/go/services/blockrelay/main.go:196-209 | after the first delivery, which is in descending order, the job goes on behind its lowest block |
| `SchedulerDelivery.SkipJobOk` | packages/go/services/blockrelay/main.go:99-111 | giving up at the retry limit counts the one height as done, and the job, covered up to there, goes on at the next height |
| `SchedulerOwnership.StepKeepsOwnInv` | packages/go/streams/redis-stream.go:124-355 | every step keeps ownership: a message in a handler's hands is in the stream and pending for that consumer alone |
| `SchedulerOwnership.BacklogOwned` | packages/go/streams/redis-stream.go:294-325 | a backlog read returns a message of the reader's own, and an empty answer from the start means that it has none |
| `SchedulerOwnership.NewOwned` | packages/go/streams/redis-stream.go:220-264 | a new message becomes pending for its reader alone, and nobody else's entries change |
| `SchedulerRetries.StepKeepsInv` | packages/go/services/blockrelay/main.go:92-112 | every step keeps the account of POSTs against the delivery count of each message |
| `SchedulerRetries.BacklogCounts` | packages/go/streams/redis-stream.go:298-304 | a backlog read raises the delivery count of the returned message by one before the handler runs, and no other count |
| `WebhookStreams.WebhookStream.Flush` | packages/go/streams/webhook-stream.go:81-119 | the script with its pop-everything path and its one-by-one loop equals the specified flush on either path |
| `WebhookStreams.WebhookStream.XAckDel` | packages/go/streams/webhook-stream.go:138-223 | both scripts: without a new message the webhook is dropped, with one it is rescheduled |
| `WebhookStreams.WebhookStream.Activate` | packages/node/providers/redis/src/scripts/activate.ts:29-53 | the script's loop builds one fresh job for each argument that is not active yet, and reports an error exactly when there is none |
| `WebhookStreams.WebhookStream.GetPendingMsg` | packages/go/streams/redis-stream.go:88-122 | the delivery count of an entry, or an error exactly when it is not pending for the consumer |
| `WebhookStreams.PopMinStep` | packages/go/streams/webhook-stream.go:95-118 | popping the least entry below the height and appending it leaves the rest of the flush to be done, on either path |
| `WebhookShard.FlushExact` | packages/go/streams/webhook-stream.go:88-118 | exactly the pending jobs below the height are appended, in ascending order of score and then member and behind everything else; exactly the others stay |
| `WebhookShard.FlushSources` | packages/go/streams/webhook-stream.go:106-118 | a message in the stream after a flush was there before or is a job that waited below the height |
| `WebhookShard.FlushValid` | packages/go/streams/webhook-stream.go:88-118 | a flush keeps the shard well formed |
| `WebhookShard.FlushKeepsLive` | packages/go/streams/webhook-stream.go:88-118 | a flush neither loses nor copies a job |
| `WebhookShard.FlushAbsorbs` | packages/go/streams/webhook-stream.go:77-119 | Flush(h1); Flush(h2) equals Flush(h2) whenever h1 <= h2, so flushing is idempotent |
| `WebhookShard.FlushOnceForBatch` | packages/go/services/blockrouter/main.go:58-90 | one flush at the last height of an ascending list equals a flush at each height in turn |
| `WebhookShard.FlushWakes` | packages/go/streams/webhook-stream.go:95-118 | the first flush above a job's score moves it to the stream |
| `WebhookShard.AwaitsKept` | packages/go/streams/webhook-stream.go:88-118 | every script keeps "no pending job but a fresh one below the latest height", and a flush above height 0 leaves no fresh job behind |
| `WebhookShard.ReplayedFlushMovesOnlyFresh` | packages/go/services/blockrouter/main.go:76-90 | flushing again at the latest height moves freshly activated jobs only |
| `WebhookShard.ActivateExact` | packages/node/providers/redis/src/scripts/activate.ts:35-53 | a job at height 0 for exactly the given webhooks that have none; nothing else changes |
| `WebhookShard.ActivateErrs` | packages/node/providers/redis/src/scripts/activate.ts:51-53 | the script reports an error exactly when every given webhook is active (ZADD without members), and has changed nothing then |
| `WebhookShard.DropExact` | packages/go/streams/webhook-stream.go:153-155 | dropping removes exactly the message and its webhook, and keeps one job for every other webhook |
| `WebhookShard.RescheduleExact` | packages/go/streams/webhook-stream.go:187-200 | the message is replaced by the new job, which waits when its height is not below the latest one or no height is known, and is appended otherwise; one job per webhook is kept |
| `WebhookShard.RescheduleForksUnlessPresent` | packages/go/streams/webhook-stream.go:187-200 | the script never checks that XACK removed anything: it keeps one job per webhook if and only if the message is still in the stream, and leaves two jobs otherwise |
| `WebhookShard.StreamJobIsAlone` | packages/go/streams/webhook-stream.go:187-200 | while a webhook's job is in the stream it has no other job anywhere |
| `WebhookShard.ReadsKeepValid` | packages/go/streams/redis-stream.go:220-355 | reads change no job |
| `PendingSet.ZAddExact` | packages/go/streams/webhook-stream.go:190-197 | ZADD adds or moves exactly one member and keeps the order by score and member |
| `RedisGroup.NewBatchExact` | packages/go/streams/redis-stream.go:231-250 | a read of new messages returns the oldest undelivered ones, in order, and as many as it may |
| `RedisGroup.ReadNewExact` | packages/go/streams/redis-stream.go:231-250 | the batch becomes pending for its reader with delivery count 1, nothing else changes |
| `RedisGroup.BacklogBatchExact` | packages/go/streams/redis-stream.go:297-325 | a backlog read returns the reader's own pending entries past the cursor, oldest first; it misses none but those behind a full batch |
| `RedisGroup.ReadBacklogExact` | packages/go/streams/redis-stream.go:297-304 | a backlog read raises exactly the delivery counts of what it returns, by one |
| `RedisGroup.AckDelValid` | packages/go/streams/redis-stream.go:62-86 | acknowledging and deleting removes exactly the given ids |
| `RedisGroup.XAddAllAppends` | packages/go/streams/webhook-stream.go:95-118 | messages are appended in order under fresh ids and leave the pending list alone |
| `OrderedStream.BatchesAreHandledInOrder` | packages/go/streams/redis-stream.go:124-173 | with one consumer and a fixed batch size, over every run with crashes and handler failures: the handler gets consecutive messages in order, each batch right behind the one before it or exactly that one again; the acknowledged ids are a prefix; new messages are awaited only while nothing is pending |
| `OrderedStream.BacklogIsLastBatch` | packages/go/streams/redis-stream.go:282-355 | a scan from the start returns the whole last batch, or nothing if that is acknowledged; a scan from behind it returns nothing |
| `OrderedStream.NewBatchIsNext` | packages/go/streams/redis-stream.go:220-280 | new messages come right behind the last batch, without a hole |
| `OrderedStream.FailedBatchComesAgain` | packages/go/streams/redis-stream.go:282-355 | a failed batch from the backlog comes again only after the scan has reached the end and started over |
| `OrderedStream.StepKeepsInv` | packages/go/streams/redis-stream.go:124-355 | every step keeps the pending entries equal to the last batch or empty |
| `OrderedStream.StepKeepsOrder` | packages/go/streams/redis-stream.go:282-355 | every step keeps the handler's batches in order |
| `BlockRouters.BlockRouter.HandleMessages` | packages/go/services/blockrouter/main.go:52-91 | the batch is stored, then every shard that can be reached is flushed at the batch's largest height whatever becomes of the others, and the batch is acknowledged exactly when all of it succeeded |
| `BlockRouters.BlockRouter.FlushAll` | packages/go/services/blockrouter/main.go:76-90 | all flushes are started and awaited; success means that all shards were reached |
| `BlockRouters.ParseMessages` | packages/go/services/blockrouter/main.go:58-69 | one pass yields the largest height, the documents and the ids |
| `BlockRouters.RetriesConverge` | packages/go/services/blockrouter/main.go:71-90 | however many calls fail and wherever they fail, after the call that succeeds the cache and all shards are as if the batch had been handled once |
| `BlockRouters.FlushHeightsNeverFall` | packages/go/services/blockrouter/main.go:42-90 | over every run of the router's consumer on a stream of consecutive heights, with crashes and failures anywhere: each batch has consecutive heights, is the batch before it again or begins one height above it, and the heights of the flushes never fall |
| `BlockRouters.OneFlushPerBatch` | packages/go/services/blockrouter/main.go:58-90 | one flush at the batch's largest height equals one flush per message |
| `BlockRouters.ReplayMovesOnlyFresh` | packages/go/services/blockrouter/main.go:71-90 | a replayed batch, after any acknowledgements, reschedulings, activations and reads in between, moves no established job |
| `RouterSimulation.StepSimulated` | packages/go/streams/redis-stream.go:124-355 | every step of the consumer on the block stream (publishing, backlog and new reads, failures, crashes) and of the router's handler (store, flush, acknowledge) is one of the scheduler's router steps or changes nothing that the scheduler sees |
| `RouterSimulation.RouterIsSimulated` | packages/go/services/blockrouter/main.go:42-91 | every run of consumer, handler and the rest of the feed is a run of the scheduler that ends in the same state |
| `BlockRelays.BlockRelay.HandleMessages` | packages/go/services/blockrelay/main.go:66-210 | outcome, shard and requests are those of the decision for the message |
| `BlockRelays.DecisionDid` | packages/go/services/blockrelay/main.go:66-210 | the decision branch by branch: without a row the webhook is dropped; an entry that is not pending is an error; at the retry limit the job moves on by one height; otherwise exactly one request with stored blocks is made for the webhook, and when it is delivered the job goes on as an established one behind the last block |
| `BlockRelays.BlockRelay.SendBlocks` | packages/go/services/blockrelay/main.go:161-209 | panic without blocks, error after a failed POST, otherwise the job goes on behind the last block as an established one; one request in either case that has blocks |
| `BlockRelays.BlockRelay.ReadBlocks` | packages/go/services/blockrelay/main.go:114-129 | the latest blocks for a new job, the range from the job's height for any other, with uint64 arithmetic |
| `BlockRelays.HandlerIsSteps` | packages/go/services/blockrelay/main.go:66-210 | a call of the handler is a run of the scheduler's atomic steps with the same effect on the shard, the same delivered requests and attempts, and the same cursor afterwards |
| `BlockRelays.BlockRelay.ProcessBacklogMsgs` | packages/go/streams/redis-stream.go:282-355 | when only POSTs fail, the backlog loop with its wrapping cursor ends with nothing pending for the consumer, and every message that had attempts left got a request with stored blocks; no webhook with a row is dropped; no more requests than the attempts that were left are sent, nobody else's entries are touched, and only a panic ends it early |
| `BlockRelays.BlockRelay.ProcessBacklogMsg` | packages/go/streams/redis-stream.go:297-353 | one round claims the next message and handles it: with a row and attempts left it gets exactly one request for its webhook with stored blocks, without a row the webhook is dropped, at the limit the job moves on by one height; less work is left; an empty answer from the start means that nothing is pending |
| `BlockRelays.RoundExact` | packages/go/streams/redis-stream.go:297-353 | a round strictly reduces the remaining attempts whether its POST fails or not |
| `BlockRelays.ReadCosts` | packages/go/services/blockrelay/main.go:92-112 | reading a message uses up one of its attempts |
| `BlockRelays.AckCosts` | packages/go/streams/webhook-stream.go:187-200 | an acknowledged message costs nothing any more, and neither does the job that is added for it |
| `CachedStore.GetBlocksDuringRun` | packages/go/block-stores/cachedstore/main.go:114-157 | a GetBlocks that reads the cache, then sees any puts and flusher steps, then reads the database, returns every block of the range that was stored in the beginning and a prefix without a hole of those stored in the end |
| `CachedStore.GetBlocksSandwich` | packages/go/block-stores/cachedstore/main.go:114-157 | the same for any two states of which the second has evolved from the first |
| `CachedStore.GetBlocksExact` | packages/go/block-stores/cachedstore/main.go:114-157 | with nothing in between, GetBlocks is the range query on the union of cache and database |
| `CachedStore.StepKeepsInv` | packages/go/block-stores/cachedstore/main.go:54-73 | every put and every flusher step, crashes included, keeps the cache upward closed in the union; the database and the union only grow |
| `CachedStore.RunKeepsInv` | packages/go/block-stores/cachedstore/main.go:43-112 | the same over every run |
| `CachedStore.PutKeepsInvIff` | packages/go/block-stores/cachedstore/main.go:108-112 | an in-order put keeps the invariant if and only if it brings no block back at or below what the flusher is about to delete |
| `CachedStore.NewerPutsAreDisciplined` | packages/go/block-stores/cachedstore/main.go:108-112 | puts of blocks newer than all stored ones may interleave with the flusher freely |
| `CachedStore.InsertKeepsInv` | packages/go/block-stores/cachedstore/main.go:60-63 | inserting the earliest blocks keeps the invariant and the union |
| `CachedStore.DeleteKeepsInv` | packages/go/block-stores/cachedstore/main.go:64-66 | deleting what was inserted keeps the invariant and the union |
| `CachedStore.DeleteKeepsClosedIff` | packages/go/block-stores/cachedstore/main.go:64-66 | the delete leaves the cache upward closed if and only if no other cached block lies below a deleted one |
| `CachedStore.ReplayIsHarmlessIff` | packages/go/services/blockrouter/main.go:71-90 | a batch stored again during a flush cycle leaves all range queries exact if and only if no block of it came back at or below a block of the cycle |
| `CachedStore.ReplayLeavesHole` | packages/go/block-stores/cachedstore/main.go:137-156 | otherwise a stored block is missing from a range that covers it, in an answer that is not empty |
| `LatestBlocks.LatestBlocksExactIff` | packages/go/block-stores/cachedstore/main.go:159-200 | on consecutive heights GetLatestBlocks is the top `limit` of the union if and only if the cache answers alone, or is empty, or the uint64 subtraction does not wrap around, or nothing older exists; max(0, ...) never clamps |
| `LatestBlocks.WrapAroundLosesBlocks` | packages/go/block-stores/cachedstore/main.go:186-189 | a concrete store with block 3 cached and blocks 1 and 2 in the database, where the ten latest blocks are answered with block 3 alone |
| `LatestBlocks.LatestBlocksSnapshot` | packages/go/block-stores/cachedstore/main.go:159-200 | with the database read later than the cache, the answer is a descending run of stored blocks without a gap that is not empty |
| `LatestBlocks.StartHeight` | packages/go/block-stores/cachedstore/main.go:186-189 | the start height in uint64 arithmetic, and when it wraps around |
| `LatestBlocks.MergedRun` | packages/go/block-stores/cachedstore/main.go:194-199 | appending and sorting the two answers gives one descending run |
| `LatestBlocks.GetLatestBlockExact` | packages/go/block-stores/cachedstore/main.go:202-216 | GetLatestBlock is the latest block of the union |
| `BlockTables.SortDescendingExact` | packages/go/block-stores/cachedstore/main.go:196-198 | sorting keeps exactly the elements and puts distinct heights in descending order |
| `BlockTables.RangeExact` | packages/go/block-stores/timescalestore/main.go:114-119 | the range query returns exactly the stored blocks between two heights, in ascending order |
| `BlockTables.InsertIfAbsentExact` | packages/go/block-stores/timescalestore/main.go:97-106 | a stored height keeps its document, the other blocks are added |
| `BlockStores.ParseBlocks` | packages/go/block-stores/redistore/main.go:124-139 | filling the slice by index gives the answer as it is or reversed |
| `BlockStores.RedisBlockStore.PutBlocks` | packages/go/block-stores/redistore/main.go:29-41 | ZADD NX is insert-if-absent by height when there is one document per height |
| `BlockStores.RedisBlockStore.GetBlocks` | packages/go/block-stores/redistore/main.go:43-66 | the stored blocks of the range, ascending; nothing for an invalid range |
| `BlockStores.RedisBlockStore.GetLatestBlocks` | packages/go/block-stores/redistore/main.go:79-93 | the last `limit` members, descending; nothing for a limit below 1 |
| `BlockStores.RedisBlockStore.GetLatestBlock` | packages/go/block-stores/redistore/main.go:68-77 | the latest block, if any |
| `BlockStores.RedisBlockStore.GetEarliestBlocks` | packages/go/block-stores/redistore/main.go:95-109 | the first `limit` members, ascending; nothing for a limit below 1 |
| `BlockStores.RedisBlockStore.DeleteBlocks` | packages/go/block-stores/redistore/main.go:111-122 | exactly the given blocks are removed |
| `BlockStores.WrappedStore.PutBlocks` | packages/go/block-stores/timescalestore/main.go:74-107 | insert on conflict do nothing |
| `BlockStores.WrappedStore.GetBlocks` | packages/go/block-stores/timescalestore/main.go:109-132 | the stored blocks of the range, ascending |
| `BlockStores.WrappedStore.GetLatestBlocks` | packages/go/block-stores/timescalestore/main.go:134-158 | the `limit` latest blocks, descending |
| `BlockStores.WrappedStore.GetLatestBlock` | packages/go/block-stores/timescalestore/main.go:160-169 | the latest block, if any |
| `BlockStores.RedisOptimizedBlockStore.FlushCache` | packages/go/block-stores/cachedstore/main.go:55-73 | one call without interruption is a whole flush cycle, or nothing below the threshold |
| `BlockStores.RedisOptimizedBlockStore.StartFlushing` | packages/go/block-stores/cachedstore/main.go:43-106 | the immediate cycle and any number of rounds take t blocks each, t being the threshold or 100, for as long as there are t: |cache| - t * min(rounds + 1, |cache| / t) blocks stay cached; what left is the low end of the cache, and the database has exactly that in addition; the union is the same |
| `BlockStores.CyclesMove` | packages/go/block-stores/cachedstore/main.go:54-73 | the same for any number of whole cycles on any two tables |
| `BlockStores.RedisOptimizedBlockStore.PutBlocks` | packages/go/block-stores/cachedstore/main.go:108-112 | a put goes to the cache alone |
| `BlockStores.RedisOptimizedBlockStore.GetBlocks` | packages/go/block-stores/cachedstore/main.go:114-157 | the query with its early exits equals the specified one |
| `BlockStores.RedisOptimizedBlockStore.GetLatestBlocks` | packages/go/block-stores/cachedstore/main.go:159-200 | the query with its early exits, wrap-around and sort equals the specified one |
| `BlockStores.RedisOptimizedBlockStore.GetLatestBlock` | packages/go/block-stores/cachedstore/main.go:202-216 | the cache's latest block, or the database's |
| `SortedBlocks.LastIsLatest` | packages/go/block-stores/redistore/main.go:86-92 | reading a sorted set from its end and reversing it yields the n latest blocks |
| `SortedBlocks.FirstIsEarliest` | packages/go/block-stores/redistore/main.go:102-108 | reading a sorted set from its start yields the n earliest blocks |
| `Checkout.OneOpenSession` | apps/dashboard/src/server/schema/stripe/handlers/create-checkout-session.ts:159-319 | in every interleaving of handlers, with aborts anywhere and any contents of the session cache, as long as deletions and cached lookups are harmless: of all sessions whose URL was returned to a user at most one is open, and each client reference is replaced by at most one handler |
| `CheckoutSafety.HarmlessIff` | apps/dashboard/src/server/schema/stripe/handlers/create-checkout-session.ts:344-391 | from every state of the invariant and for every step: no harmless continuation ever shows a user two open sessions if and only if the step is harmless, that is, it does not delete a row whose session is open, and is no lookup that replaces the row's open session because of a cached copy |
| `CacheRace.CacheBreaksOneOpenSession` | apps/dashboard/src/server/schema/stripe/handlers/create-checkout-session.ts:346-363 | a concrete run of two requests one after the other: the second one finds the expired session of the first one in the cache, which is keyed by the user, and replaces the new session; both are open and returned |
| `Checkout.OwnCopyIsHarmless` | packages/node/caching/src/core/redis.cache.ts:27-38 | a lookup is harmless when nothing is cached for the user, or what is cached is a copy of the session that was read |
| `Checkout.StepKeepsCacheInv` | packages/node/caching/src/core/redis.cache.ts:40-51 | every step keeps: a cached copy is an earlier state of a session that was stored for that user |
| `Checkout.StepKeepsInv` | apps/dashboard/src/server/schema/stripe/handlers/create-checkout-session.ts:78-400 | every step keeps: a stored session that is still open is the one in its user's row |
| `Checkout.RemoveKeepsIff` | packages/node/services/stripe-webhook/consumer/src/index.ts:293-301 | deleting an unlocked row keeps the invariant if and only if the session that is in it now is not open |
| `CheckoutRace.DeletionBreaksOneOpenSession` | apps/dashboard/src/server/schema/stripe/handlers/create-checkout-session.ts:371-376 | a concrete run in which a row is deleted by the id read earlier although its session has been replaced: two returned sessions are open |
| `Checkout.CommitWriteKeeps` | apps/dashboard/src/server/schema/stripe/handlers/create-checkout-session.ts:202-228 | a committed compare-and-replace leaves the new session as the only open stored one and the old reference in no row |
| `Checkout.LockRowKeeps` | apps/dashboard/src/server/schema/stripe/handlers/create-checkout-session.ts:276-303 | locking with SKIP LOCKED by reference either finds the row with that reference unlocked or writes nothing |
| `Checkout.InsertKeeps` | apps/dashboard/src/server/schema/stripe/handlers/create-checkout-session.ts:268-275 | INSERT IGNORE adds a row only when the user has none |
| `Checkout.LookUpKeeps` | apps/dashboard/src/server/schema/stripe/handlers/create-checkout-session.ts:344-394 | a harmless lookup keeps the invariant, and the handler goes on exactly when the session it goes by has expired, is canceled, or its customer is deleted |
| `CheckoutRenewals.OnlyOverIsReplaced` | apps/dashboard/src/server/schema/stripe/handlers/create-checkout-session.ts:351-393 | in every run whose lookups go by Stripe's answers or copies of the row's own session, deletions and aborts anywhere: each replaced reference belongs to a session that has expired, or was paid and is canceled |
| `CheckoutRenewals.CommitReplacesOver` | apps/dashboard/src/server/schema/stripe/handlers/create-checkout-session.ts:202-228 | after every such run a commit that changes a user's row replaces one whose session has expired or is canceled |
| `CheckoutRenewals.OneRequestAnswers` | apps/dashboard/src/server/schema/stripe/handlers/create-checkout-session.ts:78-400 | from every state of the invariant with nothing locked or cached for the user, a request on its own ends with an open session whose URL is returned and that is in the user's row, or leaves everything as it is when the user has a subscription |
| `CheckoutRenewals.ActiveStays` | apps/dashboard/src/server/schema/stripe/handlers/create-checkout-session.ts:381-393 | a lookup of a session that is complete, neither canceled nor deleted, ends the handler and changes no row, session, lock or returned URL |
| `CheckoutRenewals.OverGoesOn` | apps/dashboard/src/server/schema/stripe/handlers/create-checkout-session.ts:356-388 | a lookup of an expired or canceled session goes on to a new session for the row's reference, one with a deleted customer to the deletion of the row |
| `CheckoutRenewals.OpenIsReturned` | apps/dashboard/src/server/schema/stripe/handlers/create-checkout-session.ts:351-354 | a lookup of an open session returns the row's URL and changes nothing else |
| `Checkout.SessionChanges` | apps/dashboard/src/server/schema/stripe/handlers/create-checkout-session.ts:344-394 | what Stripe does to a session, which never opens again, keeps the invariant |
| `Pagination.FindMany` | apps/dashboard/src/server/schema/webhooks/handlers/find-many.ts:54-140 | the page is a slice of the matching rows: at most `limit` rows of the customer, latest first by (createdAt, id), each with the blockchain, url and activity asked for, all on one side of the cursor's row; a cursor without a row of the customer counts for nothing |
| `Pagination.FollowNext` | apps/dashboard/src/app/page.tsx:96-113 | following the next pages from the first one ends and visits exactly once, in order, every row of the customer with the attributes asked for, all of them without filters, and no other row |
| `Pagination.ForwardThenBack` | apps/dashboard/src/app/page.tsx:96-131 | stepping forward and back returns the same rows; its flags come back if and only if the first page's hasPrev was right |
| `Pagination.FlagsExactIff` | apps/dashboard/src/server/schema/webhooks/handlers/find-many.ts:117-138 | both flags are exact if and only if there is no cursor row or some matching row lies on its far side, in particular when the cursor row matches the filters |
| `Pagination.NextPageFollows` | apps/dashboard/src/server/schema/webhooks/handlers/find-many.ts:94-112 | the page behind the last row's cursor begins where the page ended |
| `Pagination.InactiveIsIgnored` | apps/dashboard/src/server/schema/webhooks/handlers/find-many.ts:91-93 | asking for inactive webhooks filters nothing |
| `Pagination.SelectExact` | apps/dashboard/src/server/schema/webhooks/handlers/find-many.ts:82-115 | what the query leaves is a front or a rest of the matching rows |
| `Pagination.CutOff` | apps/dashboard/src/server/schema/webhooks/handlers/find-many.ts:112-129 | reading in the cursor's direction, dropping the additional row and reversing leaves the near end |
| `LruCaches.SmallerIsIncluded` | packages/node/caching/src/core/lru.cache.ts:16-49 | on the same trace of get, set, getOrSet and invalidate a cache of smaller capacity holds a subsequence, in order of last use, of what one of larger capacity holds; the size never exceeds max(1, capacity) |
| `LruCaches.HoldsLastKeys` | packages/node/caching/src/core/lru.cache.ts:24-49 | after set and getOrSet calls only, the cache holds exactly the last max(1, capacity) distinct keys in order of last use |
| `LruCaches.RecencyExact` | packages/node/caching/src/core/lru.cache.ts:6-10 | the reference order lists each used key once, by its last use |
| `LruCaches.StepExact` | packages/node/caching/src/core/lru.cache.ts:6-49 | each operation changes the keys as the order of last use asks for and keeps them distinct |
| `LruCaches.ValuesKept` | packages/node/caching/src/core/lru.cache.ts:16-49 | what is written is found, and what is not written keeps its value while it stays |
| `LruCaches.LruCache.Get` | packages/node/caching/src/core/lru.cache.ts:16-22 | the value; a key that is found moves to the recent end, a missing one changes nothing, and no value changes |
| `LruCaches.LruCache.Set` | packages/node/caching/src/core/lru.cache.ts:34-49 | the value is found under the key, which is the most recent one; the least recent key goes when a new one comes to a full cache, and all others keep value and order |
| `LruCaches.LruCache.GetOrSet` | packages/node/caching/src/core/lru.cache.ts:25-32 | a present value other than null is returned and kept, anything else is computed, returned and stored; the key is the most recent one |
| `LruCaches.LruCache.Invalidate` | packages/node/caching/src/core/lru.cache.ts:12-14 | afterwards the key is not found, every other key is found with its value and in its place, and the answer is the number of entries that are gone |
| `LruCaches.LruCache.Reinsert` | packages/node/caching/src/core/lru.cache.ts:6-10 | delete and set move the entry to the end of the Map |
| `FlowSources.FlowBlockSource.Subscribe` | packages/go/block-sources/flowsrc/main.go:60-159 | over any number of subscription errors and reconnects every block from the start height on is handed on once and in order; the source stands behind the last accepted block; once the context is done nothing more is handed on |
| `FlowSources.FlowBlockSource.Process` | packages/go/block-sources/flowsrc/main.go:116-158 | the main loop: exactly the consecutive blocks from the current height, until the context is done or something fails |
| `FlowSources.FlowBlockSource.Reconnect` | packages/go/block-sources/flowsrc/main.go:79-114 | the missing block is read from the node and the height raised only when the handler accepted it |
| `FlowSources.FlowBlockSource.Receive` | packages/go/block-sources/flowsrc/main.go:138-155 | a delivered block raises the height only when the handler accepted it |
| `FlowSources.RunsJoin` | packages/go/block-sources/flowsrc/main.go:60-159 | a source that is subscribed again after a failure goes on without a gap; at most one block per run is refused and comes again |
| `FlowSources.NothingAfterDone` | packages/go/block-sources/flowsrc/main.go:116-124 | what comes after the context is done does not matter: emitted is what the events before made, at most one block each, and the loop has ended |

## Left out

- Clients, SQL text, reflection and schema setup of Redis, Timescale, MongoDB and MySQL: the wrapped store is a table
  with insert-if-absent, range and top-n queries.
- JSON encoding and message parsing: jobs and documents are opaque values.
- HTTP, timers, contexts, logging, environment loading: a POST fails in transport or counts as delivered, and the status
  code is ignored as in the code.
- Eviction from Redis, chain reorganisations, heights 0 and beyond 2^53.
- Forwarder restarts that add heights to the block stream again; they break the order that the store relies on.
- Several shards in one system: the scheduler follows one shard, since shards share nothing but the block store; the
  router object flushes a list of them.
- The order in which the router's concurrent flushes reach the shards: they are independent of each other.
- SchedulerPromises.NoBlockIsPassedOver: counts from the first acknowledged request, since from the first delivered one it
  is false in general; `SchedulerPromises.DoneSinceFirstDeliveryIff` says when it holds from there, and
  `SchedulerPromises.NoBlockIsPassedOverFromTheFirst` that only a lost acknowledgement can prevent it.
- BlockRouters.BlockRouter.HandleMessages: keeps the shards as values in one list instead of objects, so it does not
  capture the aliasing of shard clients; the batch agrees with the documents that are stored.
- BlockStores.RedisBlockStore.PutBlocks: expects one document for each height; ZADD NX would take a second document for a
  height as another member.
- BlockStores.RedisBlockStore.DeleteBlocks: expects the documents that are stored; ZREM would leave a different one alone.
- BlockStores.RedisOptimizedBlockStore.PutBlocks: expects blocks that agree with the documents that are stored.
- BlockStores.RedisOptimizedBlockStore.StartFlushing: runs a finite number of rounds without puts in between;
  interleavings of puts and single flusher steps are the matter of `CachedStore`.
- BlockRelays.BlockRelay.ProcessBacklogMsgs: looks at one consumer alone, with rows and blocks that do not change
  meanwhile; interleavings are the matter of the scheduler.
- Reads of new messages answer with nothing where XREADGROUP would block.
- Checkout.OneOpenSession: leaves out the customer id and e-mail that a new session is created with; row locks are kept for
  each user; when the cache is written and what it forgets is up to the environment.
- Pagination.FindMany: takes the table in index order, a limit of at least 0 (the schema lets a negative one through to the
  database), and the meaning of LIKE as a parameter.
- LruCaches.LruCache.Get: values are never `undefined`; `null` values are covered.
- FlowSources.FlowBlockSource.Subscribe: the delays of the backoff are left out, its outcome is an input.
- Ethereum source, exponential backoff, Stripe event handling besides its row deletion, grouping in the activation
  service: they would add only easy members.
- The dashboard's user interface, authentication, GraphQL wiring, generated code, Terraform and test containers.
