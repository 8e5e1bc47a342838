# Owlet backend: models and proofs

A Dafny model of the caches, leases, queues and algorithms of Owlet's Go backend, with proofs of what they
guarantee. `dafny verify dfyconfig.toml` checks everything.

Each module models one component:

- `SessionLease`: the session cache and the lease a revoker waits out when its Redis write fails.
- `VideoLease`: the value and the token lease of a video in Redis, with the three scripts.
- `VideoMemory`, `LocalFence`: the in-process video cache (a map and a list), its epoch and the bounded flight group.
- `Limiter`: the in-process rate limiter.
- `OutboxPipeline`: outbox rows, publisher confirms, consumers, retries and the dead-letter queue.
- `Interaction`, `Relation`: the SQL transactions behind likes, favourites, comments and follows.
- `ActionFastPath`: optimistic Redis state with sharded counters, the event queue and its replay.
- `RankedSets`, `FollowingIndex`: capped sorted sets and the merged following page.
- `WholePage`: the whole-page cache and its reverse index.
- `Similarity`: cosine similarity, normalisation and the interest vector.
- `CoreMigration`, `DigestFraming`: the legacy migration, its views and the digest that verifies it.
- `Recommendation`: ranking, cursors and author interleaving.
- `FeedAssembly`: cards and counts from cache and repository.
- `LoginFence`: logins against password changes and bans.
- `Options`, `Sets`, `Counters`: an option type, two facts about finite sets, and the clamp of stored counts.

Concurrent protocols are state machines: a `Step` for every atomic action of any number of processes, a total
function `Next` (a step that is not enabled changes nothing) and `Run` over any sequence of steps, so a theorem
about `Run` is about every interleaving, crash and failure. Components that work in place are classes or methods
with loops, proved against functions on values. Lemmas named `...Alone` say exactly what one undisturbed call
does, so that safety is not had by doing nothing; numbers that matter are written out in the statements.

Assumptions about the environment:

- There is one clock that never goes back, shared by all processes and Redis. Only `WholePage` lets the client's
  clock be arbitrary.
- Lease tokens, process ids, session ids and delivery tags are never used twice.
- A Redis command or script, a MULTI/EXEC transaction, a database transaction and a queue operation are atomic;
  each may fail, and where it matters may be carried out without an answer or late. When a command of a
  transaction fails Redis still carries out the others (`WholePage`). In `VideoLease` a command is carried out at
  most once.
- Redis does not lose an acknowledged "revoked" mark in the five seconds after the revocation (`SessionLease`);
  later, and cached values always, it may vanish.
- The broker keeps what it has accepted (`OutboxPipeline`).
- Numbers are exact: reals for scores and vectors, unbounded integers otherwise, except where 64-bit conversion is
  the point (`CoreMigration`).

Where the code does less than its comments or callers may expect, the code is modelled as it is, a lemma shows a
failing run, and another gives exactly when it works:

- `OutboxPipeline`: a retry confirmation is taken without looking at its delivery tag, and returns of unroutable
  retries are not read (`LostByLateConfirm`, `LostByUnroutableRetry`; exactly when: `StepKeepsIff`, `RunKeepsIff`).
- `ActionFastPath`: publications and fallbacks may overtake each other, and a stored change may be forgotten
  (`OvertakingDisagrees`, `DeathInFlightDisagrees`, `HiddenStoreDisagrees`; exactly when: `StepAgreesIff`,
  `RunAgreesIff`, `PublicationOrderDecides`).
- `FollowingIndex`: scores ignore fractions of a second and all but six digits of an id (`FractionsInvert`; exactly
  when: `ScoreAgreesIff`, `InvertsIff`, `CutsAreNaiveIff`).
- `Recommendation`: the cursor's tolerance confuses near scores, and scores fall between pages (`NearTiesLoop`;
  exactly when: `PagingIsExactIff`, `ShownAgainIff`).
- `CoreMigration`: NULL in a verified column, keys zero, ids from 2^63 on and unset creation times do not come
  through (`NullAndKeyZeroFail`; exactly when: `ViewsGiveBackTheSource`).
- `WholePage`: a transaction whose DEL fails and whose ZREM does not strands a page (`HalfAnInvalidationStrands`;
  exactly when: `GoneIffDeleted`, `InvalidatingKeepsIff`).
- `LoginFence`: a registration or change of name may create its session after a reset
  (`UnlockedSessionSurvivesReset`; exactly when: `SurvivesResetIff`, `OnlyALateCreationSurvives`).

## Model

| member | source | states |
|---|---|---|
| SessionLease.NoLateAcceptance | backend/session_cache.go:27-76 | Over all runs: once `retireSessions` has returned for a session, no `loadSession` that begins later accepts it, whatever Redis loses, delays or expires, a "revoked" mark in its first five seconds apart. |
| SessionLease.RetiredIsShielded | backend/session_cache.go:16-76 | A retired session is revoked in the database, and its key says "revoked" or every lease under the key or in flight to it has ended. |
| SessionLease.StepKeeps | backend/session_cache.go:27-76 | Every atomic step of loads, retirements, Redis and the clock keeps the invariant behind the lease argument. |
| SessionLease.RunKeeps | backend/session_cache.go:27-76 | The invariant holds along every run, and revocations are never undone. |
| SessionLease.AcceptedDuringTheWait | backend/session_cache.go:61-76 | The wait is needed: a run in which a revoked session is accepted after all keys have been written but before the lease is waited out. |
| SessionLease.AcceptedIsChecked | backend/session_cache.go:29-60 | In every run an accepted call has judged a cached value before its lease ended, or has read an unrevoked row from the database and looked at it before the row expired. |
| SessionLease.CachedIsNotLongExpired | backend/session_cache.go:41-59 | In every run a call served from the cache goes by an unrevoked row that expired less than five seconds ago, if at all. |
| SessionLease.LoadAloneIff | backend/session_cache.go:29-60 | An undisturbed load is accepted exactly when Redis has a cached value within its lease, or does not say "revoked" and the database has the row, unrevoked and not expired; only what it read from the database is sent to the cache, under a lease of five seconds. |
| SessionLease.FilledKeyAnswers | backend/session_cache.go:55-58 | What is sent to an empty key is what loads find there until the lease ends. |
| SessionLease.RetireAloneIff | backend/session_cache.go:61-76 | A retirement returns at once when its write is acknowledged and otherwise after exactly five seconds; an acknowledged mark answers for seven days and fifteen minutes. |
| VideoLease.ValueReadAfterLastEviction | backend/cache.go:26-28 | In every interleaving the value under a video key was read from the database after the last executed eviction, and is the current row when nothing was committed since. |
| VideoLease.LostLeaseForever | backend/cache.go:72-80 | A load whose lease was evicted, expired or taken over never holds it again and never changes the value, late commands included. |
| VideoLease.LostLeaseNeverPublishes | backend/cache.go:144-158 | The same from any state that satisfies the invariant, over any further steps. |
| VideoLease.StepKeeps | backend/cache.go:54-180 | Every step of loads, the three scripts, lease expiry and invalidation keeps the lease invariant. |
| VideoLease.AnswersAreReadAfterEviction | backend/cache.go:54-180 | A load that begins after an eviction never answers a row read before it. |
| VideoLease.PublicationFills | backend/cache.go:27 | A publication by the holder stores the copy it read and frees the lock; until an eviction or the end of the value every load is then answered from Redis, with that copy until another is published. |
| VideoLease.LockIsLostIff | backend/cache.go:26-28 | A holder loses the lock exactly by an eviction, its expiry, or its own publication or release. |
| VideoLease.LoadAloneIff | backend/cache.go:63-168 | An undisturbed load answers from Redis exactly when it is up and has a value, gives up when another holds the lock, and otherwise answers the row, which it leaves in Redis exactly when Redis is up; the lock is as before. |
| VideoLease.PollAlone | backend/cache.go:88-106 | A waiting load takes a value as soon as it sees one, and goes on to the database without the lock when Redis is down. |
| VideoLease.LostReplyMayFill | backend/cache.go:144-158 | A publication whose reply was lost still fills the cache when it is carried out while the lock is held. |
| VideoLease.DeadHolderBlocks | backend/cache.go:72-107 | The lock of a load that dies makes others wait until it expires, and then the next one has it. |
| VideoLease.VersionsCountCommits | backend/cache.go:130-139 | The versions the other laws speak of count the commits, so a copy of the present version misses none. |
| VideoMemory.VideoMemory.Get | backend/resilience.go:117-136 | A lookup answers and changes the contents as the sequence specification says: a hit moves to the front, a video past its stale time goes. |
| VideoMemory.VideoMemory.Put | backend/resilience.go:138-163 | A put under the current epoch refreshes or pushes to the front and cuts the last; under an older epoch it changes nothing. |
| VideoMemory.VideoMemory.Invalidate | backend/resilience.go:164-172 | Removes the id and bumps the epoch. |
| VideoMemory.OverflowEvictsLeastRecent | backend/resilience.go:117-172 | In every reachable state ids are distinct, at most 512 and in order of last put or hit, and an overflow drops exactly the least recent. |
| VideoMemory.HitsIff | backend/resilience.go:117-163 | In every reachable state a lookup hits exactly when the id is held and was put less than a second ago, or for a stale lookup less than a minute (a second if it was missing), and answers the value of the last put. |
| VideoMemory.LetGoIff | backend/resilience.go:117-136 | A lookup lets go of a video exactly when it misses and the video is past its stale time when that is looked at. |
| VideoMemory.RunKeeps | backend/resilience.go:117-172 | Distinctness, capacity and recency order hold after any operations. |
| VideoMemory.WithoutLast | backend/resilience.go:152-162 | Removing the id at the back of a list of distinct ids cuts off exactly the last element. |
| Limiter.MemoryLimiter.Take | backend/resilience.go:183-206 | The map after a call and its answer, with the sweep only when a new key finds the map full. |
| Limiter.MemoryLimiter.Sweep | backend/resilience.go:186-196 | The loop removes exactly the windows that have ended. |
| Limiter.RefinesUnbounded | backend/resilience.go:183-206 | On all calls that are not busy the limiter answers exactly as an unbounded, never swept map would. |
| Limiter.NeverOverfull | backend/resilience.go:183-206 | At most 10000 keys are ever stored. |
| Limiter.BusyIff | backend/resilience.go:186-196 | A call is turned away exactly when its key is new and 10000 stored windows have not ended. |
| Limiter.GrantedIff | backend/resilience.go:197-206 | Any other call opens a window or counts one more in the open one, and is granted exactly when the count is within the allowance; open windows of other keys stay. |
| Limiter.LessThanTwiceTheAllowance | backend/resilience.go:183-206 | In any half-open interval as long as the window a key is granted at most 2 * max - 1 calls, which is sharper than 2 * max. |
| Limiter.BoundIsReached | backend/resilience.go:183-206 | The bound 2 * max - 1 is attained for every key with an allowance of at least one and a window of at least two instants. |
| Limiter.InstantWindowsDoNotMeet | backend/resilience.go:183-206 | With a window of a single instant the bound is the allowance itself. |
| LocalFence.FlightGroup.Do | backend/resilience.go:31-48 | Joins the flight of the key, starts one, or is busy at 1024 flights. |
| LocalFence.OneLoadPerKey | backend/resilience.go:31-59 | In every run no key has two unfinished loads, and at most 1024 flights are held. |
| LocalFence.NoResultFromBeforeInvalidation | backend/cache.go:54-66 | A `detail` call that starts after a local invalidation of its id never answers with a load that took its generation earlier, through the local cache, the stale fallback or a shared flight. |
| LocalFence.StepKeeps | backend/cache.go:54-175 | Every step of calls, flights, the local cache and invalidations keeps the fence invariant. |
| LocalFence.OneLoadServesBoth | backend/resilience.go:31-59 | Two calls for a video that is not held locally are answered with the value of one load, and later calls find it for just a second if it is kept. |
| LocalFence.JoinNowAlone | backend/resilience.go:31-48 | A call that has missed joins the load of the present generation, leads a new one, or is turned away at 1024 flights. |
| LocalFence.FailsAlone | backend/resilience.go:42-59 | A load that fails answers those who wait with a failure and leaves the group. |
| LocalFence.CancelsAlone | backend/resilience.go:54-56 | A caller that gives up is answered at once; the load and all others go on. |
| LocalFence.StaleAnswers | backend/cache.go:63-66 | The stale fallback answers exactly a video within its stale time that was not missing. |
| OutboxPipeline.NothingIsLost | backend/worker.go:157-292 | With crashes at any step, every published event is processed or a copy is in the events, retry or dead queue, ready or unacknowledged, as long as no positive retry confirmation acknowledges a last copy. |
| OutboxPipeline.AttemptsStayLimited | backend/worker.go:256-272 | In every run, whatever is lost, no attempt header of a message anywhere exceeds the literal 3. |
| OutboxPipeline.DeadLettersWereRetried | backend/worker.go:243-272 | In every run a dead letter cannot be parsed, or came with header 3 after retries with headers 1, 2 and 3 that each reached the retry queue. |
| OutboxPipeline.OneMessageAlone | backend/worker.go:235-292 | What an idle session makes of one message: dead when it cannot be parsed, handled when marker and relay succeed, otherwise retried with the next header, back in the queue, or dead after header 3. |
| OutboxPipeline.FourFailuresKill | backend/worker.go:256-272 | Four failures in a row turn a new message into one dead letter with header 3 and leave nothing else behind. |
| OutboxPipeline.OneBatchAlone | backend/worker.go:157-221 | A batch of at most 128 unpublished events whose messages are routed: each is queued once more without a header, exactly these rows are marked, and the session is ready for the next. |
| OutboxPipeline.ReturnsEndTheSession | backend/worker.go:202-219 | A returned message ends the session without marking its batch, whether it is noticed during the confirmations or after them. |
| OutboxPipeline.NoMoreThanAllowed | backend/worker.go:164-231 | In every run no batch has more than 128 events and no session more than four messages to acknowledge. |
| OutboxPipeline.RunKeepsIff | backend/worker.go:157-292 | A run loses no event at any step exactly when no step acknowledges the last copy of an unprocessed one. |
| OutboxPipeline.TrustingRunsKeep | backend/worker.go:272-291 | No last copy is acknowledged when every positive confirmation is taken while the awaited retry itself has been routed. |
| OutboxPipeline.NothingIsLostWhenPrompt | backend/worker.go:272-291 | Nothing is lost when no confirmation arrives after its five-second wait and no retry is unroutable. |
| OutboxPipeline.PromptConfirmsAreRouted | backend/worker.go:272-283 | Then every positive confirmation taken is that of the awaited retry, and it was routed. |
| OutboxPipeline.LostByLateConfirm | backend/worker.go:272-291 | A reachable state in which a session awaits one retry and takes the confirmation of another: that acknowledges the last copy of a published, unprocessed event, and once the awaited retry is refused the event is nowhere. |
| OutboxPipeline.UnroutableRetryLosesLastCopy | backend/worker.go:272-291 | Whoever waits with the last copy loses it when its retry is unroutable, since a returned message is still confirmed. |
| OutboxPipeline.LostByUnroutableRetry | backend/worker.go:272-291 | A reachable state in which the awaited retry was unroutable and confirmed, and taking that confirmation loses a published, unprocessed event. |
| OutboxPipeline.MarkedOnlyAfterOwnConfirm | backend/worker.go:190-221 | In every run a row becomes published only by a session that had its own copy of it routed: confirmed in order and never returned. |
| OutboxPipeline.StepKeepsIff | backend/worker.go:157-331 | Every step of publishers, consumers and broker keeps every event exactly when it is not the acknowledgement of a last copy on a positive confirmation; and then keeps the invariant. |
| OutboxPipeline.TransmitKeeps | backend/worker.go:216-220 | Returns keep arriving before the confirmations of the same message. |
| Interaction.Repository.SetAction | backend/internal/infra/persistence/interaction/gorm.go:99-188 | One transaction: new row, retry under the same key, or change of state, with the count moved by the change, or no effect and an error. |
| Interaction.Repository.CreateComment | backend/internal/infra/persistence/interaction/gorm.go:199-245 | Creates the comment and counts it; a repeated key gives the first comment and changes nothing; errors roll back. |
| Interaction.Repository.DeleteComment | backend/internal/infra/persistence/interaction/gorm.go:326-388 | Author, video author or admin deletes a live comment once and uncounts once; anyone else gets PermissionDenied; errors change nothing. |
| Interaction.Repository.UpdateCounter | backend/internal/infra/persistence/interaction/gorm.go:430-451 | Adds to one counter of one video, never below zero. |
| Interaction.CountsAreExact | backend/internal/infra/persistence/interaction/gorm.go:99-388 | After any operations, publications and changes of status the fields likes, favorites and comments of each video are the numbers of its active likes, active favourites and live comments. |
| Interaction.OperationKeepsExact | backend/internal/infra/persistence/interaction/gorm.go:430-481 | From exact counts every operation keeps the three fields exact. |
| Interaction.NeverNegative | backend/internal/infra/persistence/interaction/gorm.go:430-451 | So in every run no operation would have made a count negative: the clamp at zero changes nothing. |
| Interaction.SetActionTallies | backend/internal/infra/persistence/interaction/gorm.go:99-188 | Counts stay what was there before plus the number of new active rows. |
| ActionFastPath.RedisStore.Update | backend/internal/infra/cache/feed_cache.go:455-513 | The watched transaction: effective state, change, base set once, one shard moved. |
| ActionFastPath.RedisStore.ActionStat | backend/internal/infra/cache/feed_cache.go:542-571 | Likes are the base likes plus the sixteen like shards and favourites the base favourites plus the sixteen favourite shards, never below zero. |
| ActionFastPath.RedisStore.SetActionState | backend/internal/infra/cache/feed_cache.go:437-525 | The new Redis state, the effective state, the change and both counts shown. |
| ActionFastPath.OneActionAlone | backend/internal/application/interaction/service.go:301-338 | A new like or favourite, undisturbed: Redis counts one more at once, and when the worker is done so does the field of that kind in the database, with both rows active and the queue empty. |
| ActionFastPath.HiddenVideoIsRefused | backend/internal/application/interaction/service.go:301-312 | A request for a video that is not published, or has no statistics, changes nothing. |
| ActionFastPath.ReplayAgrees | backend/internal/application/interaction/service.go:301-338 | Replaying the queue in order through the SQL transaction gives each settled target the state Redis shows, with any number of requests for it under way, in every run whose steps meet their conditions; keys keep one meaning and the targets had no rows. |
| ActionFastPath.StepAgreesIff | backend/internal/application/interaction/service.go:301-338 | Every step of requests, queue and worker keeps the database heading where Redis is exactly when its condition holds: what would overtake or be forgotten is told before the step. |
| ActionFastPath.RunAgreesIff | backend/internal/application/interaction/service.go:301-338 | A run agrees at every moment exactly when all its steps meet their conditions. |
| ActionFastPath.StoreOrderKeeps | backend/internal/application/interaction/service.go:314-318 | Publishing the oldest unsent request of a target first always meets the condition. |
| ActionFastPath.PublicationOrderDecides | backend/internal/application/interaction/service.go:301-338 | Whatever order the unsent requests of a target are published in, replay agrees exactly when the one published last asks for the state stored last. |
| ActionFastPath.ReplayedCountsAgree | backend/internal/infra/cache/feed_cache.go:542-644 | The replayed count then equals the base counter plus the sixteen shards. |
| ActionFastPath.CountsAlwaysTally | backend/internal/infra/cache/feed_cache.go:437-525 | In every run, whatever fails, is delivered twice or overtakes, both counts are the count at the start plus the number of active actions, and the clamps change nothing. |
| ActionFastPath.LastWriteWins | backend/internal/infra/persistence/interaction/gorm.go:99-188 | When each key keeps one meaning an idempotent retry is harmless: the last write decides the state. |
| ActionFastPath.FallBackAgreesIffNothingQueued | backend/internal/application/interaction/service.go:314-318 | After a stored change, a failed publication and the synchronous fallback the two agree exactly when no event for the target was queued or unsent. |
| ActionFastPath.LeavingAgreesIff | backend/internal/application/interaction/service.go:314-318 | The same decision for any fallback or death of a request, in any state in agreement. |
| ActionFastPath.DeathInFlightDisagrees | backend/internal/application/interaction/service.go:309-318 | A request that dies between its two writes leaves Redis and the database apart. |
| ActionFastPath.AboutToFlipIsReached | backend/internal/application/interaction/service.go:301-313 | From any start one request for a new target leads to the state these failures are about. |
| ActionFastPath.HiddenStoreDisagrees | backend/internal/application/interaction/service.go:310-312 | So does a change that Redis carried out and reported as failed. |
| ActionFastPath.WrittenFailureAgreesIff | backend/internal/application/interaction/service.go:310-312 | A store that is carried out and reported as failed keeps the agreement exactly when it changed nothing. |
| ActionFastPath.OvertakingDisagrees | backend/internal/application/interaction/service.go:301-338 | Two opposite requests for one target: published in store order replay agrees, published the other way round it does not. |
| Relation.Repository.SetFollow | backend/internal/infra/persistence/relation/gorm.go:41-136 | One transaction over the follow row and both statistics, created if missing; nothing when an account is not normal. |
| Relation.Repository.UpdateStat | backend/internal/infra/persistence/relation/gorm.go:242-253 | Moves both counts of one user, never below zero. |
| Relation.SetFollowKeepsExact | backend/internal/infra/persistence/relation/gorm.go:41-136 | Keeps every count equal to the degree, and the clamp at zero changes nothing. |
| Relation.CountsAreDegrees | backend/internal/infra/persistence/relation/gorm.go:41-136 | After any requests and changes of account status each following and follower count is the degree in the graph of active follows. |
| Relation.TotalsAreEdges | backend/internal/infra/persistence/relation/gorm.go:41-136 | Summed over all users both counts are the number of active follows. |
| RankedSets.TopAfterAdd | backend/internal/infra/cache/feed_cache.go:252-258 | Cutting a set to its k highest before adding a member changes nothing of the k highest afterwards. |
| RankedSets.TopOfPart | backend/internal/infra/cache/feed_cache.go:304-356 | A part that keeps the k highest has them as its own k highest. |
| FollowingIndex.Index.Capped | backend/internal/infra/cache/feed_cache.go:255 | ZREMRANGEBYRANK leaves exactly the cap highest. |
| FollowingIndex.Index.AddInboxItems | backend/internal/infra/cache/feed_cache.go:241-262 | Each listed user gets the item once, cut to the cap; all other inboxes stay. |
| FollowingIndex.Index.AddAuthorOutboxItem | backend/internal/infra/cache/feed_cache.go:264-280 | The author's outbox gets the item, cut to the cap. |
| FollowingIndex.CappedIndexIsTop | backend/internal/infra/cache/feed_cache.go:241-280 | After any additions a capped index is exactly the cap highest of everything ever added. |
| FollowingIndex.Index.ListFollowingIndexPage | backend/internal/infra/cache/feed_cache.go:282-358 | Lists at most limit distinct videos, newest first, from the sources below the cursor; wherever scores compare as the timeline does and each video has one member, it is the first limit of the whole union after the cursor. |
| FollowingIndex.PageIsNaive | backend/internal/infra/cache/feed_cache.go:304-356 | Cut per key, merge, dedup, sort and cut give the naive page of the union, wherever scores follow the timeline. |
| FollowingIndex.CutsAreNaiveIff | backend/internal/infra/cache/feed_cache.go:304-356 | Cutting one index shows the newest for every limit exactly when the set's own order is the timeline on it. |
| FollowingIndex.RegularFollows | backend/internal/infra/cache/feed_cache.go:720-722 | Whole seconds and ids below a million follow the timeline, cursors included. |
| FollowingIndex.NextPageContinues | backend/internal/infra/cache/feed_cache.go:296-298 | The cursor of a page's last item leaves exactly what the page left out, and follows the timeline wherever the members do. |
| FollowingIndex.ScoreIsLexicographic | backend/internal/infra/cache/feed_cache.go:720-722 | For whole seconds and ids below a million the score orders by time, then id. |
| FollowingIndex.ScoreAgreesIff | backend/internal/infra/cache/feed_cache.go:720-722 | For any times and positive ids the scores of two members agree with the timeline exactly when their seconds differ or the last six digits of their ids compare as the timeline does. |
| FollowingIndex.InvertsIff | backend/internal/infra/cache/feed_cache.go:720-722 | The member ahead has the lower score exactly when both are of one second and its last six digits are lower. |
| FollowingIndex.FractionsInvert | backend/internal/infra/cache/feed_cache.go:720-722 | That happens for ids below a million too, since the score forgets fractions of a second. |
| FollowingIndex.Collect | backend/internal/infra/cache/feed_cache.go:326-351 | Keeps of every video the first member read that passes the filter, and nothing else. |
| WholePage.WholeReader.Cached | backend/tools/cachevalidation/cache.go:194-207 | Answers exactly the pages that exist and are not refused. |
| WholePage.WholeReader.Read | backend/tools/cachevalidation/cache.go:170-192 | A served page changes nothing; a miss gives what was loaded and fills the cache. |
| WholePage.WholeReader.Store | backend/tools/cachevalidation/cache.go:209-253 | Prunes, then fills; a fill that fails leaves the page refused, and nothing else changes but indexes that live longer. |
| WholePage.WholeReader.PruneIndexes | backend/tools/cachevalidation/cache.go:255-314 | Drops only listings of pages that no longer exist, whatever the client clock, pauses and partial failures; without failures all that are old enough. |
| WholePage.WholeReader.Invalidate | backend/tools/cachevalidation/cache.go:316-379 | Carries out any part of the removals of its transaction, or none when it fails before; when it reports success no served page contains the video and every served page is still listed. |
| WholePage.WholePageTtl | backend/tools/cachevalidation/cache.go:431-443 | A page lives at most fifteen seconds, a first page five and a half to six. |
| WholePage.HistoryIsIndexed | backend/tools/cachevalidation/cache.go:194-379 | In every history in which no invalidation strands a page every served page is listed under each of its videos by an index that outlives it. |
| WholePage.ServedUntilExpiry | backend/tools/cachevalidation/cache.go:209-253 | A stored page is served until exactly its time has passed and is listed under its videos for fifteen seconds. |
| WholePage.InvalidatedStaysGone | backend/tools/cachevalidation/cache.go:316-379 | Once an invalidation has deleted every page it had to, whatever else of it failed, no page with the video is served until one that contains it is stored. |
| WholePage.GoneIffDeleted | backend/tools/cachevalidation/cache.go:358-368 | After an invalidation, complete or not, no served page contains the video exactly when the DEL of every such page was carried out. |
| WholePage.InvalidatingKeepsIff | backend/tools/cachevalidation/cache.go:358-368 | It keeps every served page listed exactly when no page whose DEL failed lost a listing. |
| WholePage.StrandedIsNotFoundAgain | backend/tools/cachevalidation/cache.go:316-379 | A page whose DEL failed while its listing was removed is still served, and no later invalidation of the video can delete it. |
| WholePage.HalfAnInvalidationStrands | backend/tools/cachevalidation/cache.go:358-368 | Such a transaction exists: not even a complete invalidation afterwards removes the page. |
| Similarity.CosineSimilarity | backend/internal/domain/embedding/hash_ngram.go:70-86 | An error exactly for different dimensions; otherwise the cosine, between minus one and one. |
| Similarity.CauchySchwarz | backend/internal/domain/embedding/hash_ngram.go:70-86 | The squared dot product is at most the product of the squared norms. |
| Similarity.CosineIsBounded | backend/internal/domain/embedding/hash_ngram.go:70-86 | The cosine lies between minus one and one. |
| Similarity.NormalizeVector | backend/internal/domain/embedding/hash_ngram.go:127-139 | Divides the vector in place by its norm, or leaves a zero vector. |
| Similarity.NormalizedHasNormOne | backend/internal/domain/embedding/hash_ngram.go:127-139 | A vector that is not zero gets norm one. |
| Similarity.NormalizedDotIsCosine | backend/internal/domain/embedding/hash_ngram.go:58-86 | After normalising, the plain dot product is the cosine similarity. |
| Similarity.LoadUserInterestVector | backend/internal/infra/persistence/recommendation/gorm.go:97-132 | The loop computes the weighted mean of the usable vectors, or none. |
| Similarity.InterestIsBounded | backend/internal/infra/persistence/recommendation/gorm.go:97-132 | There is an interest vector exactly when some vector is not empty, and its norm is at most one. |
| Similarity.InterestIsWeightedMean | backend/internal/infra/persistence/recommendation/gorm.go:97-132 | Each coordinate times the whole weight is the weighted sum of that coordinate over the vectors of the first vector's dimension. |
| Similarity.WeightBounds | backend/internal/infra/persistence/recommendation/gorm.go:259-275 | The weight lies between one and three exactly when the watched time is not below zero (or not below minus thirty seconds of a completed play). |
| Similarity.CompletionWeighsMost | backend/internal/infra/persistence/recommendation/gorm.go:259-275 | A completion weighs three and no play weighs more; a completed play of thirty seconds weighs as much. |
| Similarity.PlaysGrow | backend/internal/infra/persistence/recommendation/gorm.go:263-271 | A play weighs from one to two, more the longer it was watched up to thirty seconds, and one more when completed. |
| CoreMigration.TransformRows | backend/core_migration.go:269-281 | Batches of 200 give the conversion of every row in order. |
| CoreMigration.CopyCoreData | backend/core_migration.go:283-318 | The core tables are the conversions of the legacy tables, where NULL reads as the zero value and an unset key or creation time is supplied by the insertion. |
| CoreMigration.ColumnsNotShown | backend/core_migration.go:283-323 | The columns the views do not show: role "user", nickname, statuses, media addresses, no favourites, titles and what was read. |
| CoreMigration.ViewsHide | backend/core_migration.go:43-50 | The views show published videos, active likes, live comments and active follows only. |
| CoreMigration.ViewsGiveBackTheSource | backend/core_migration.go:43-50 | The views over the migrated tables, read in order of id, give back the source rows on the verified columns exactly when no such column is NULL, all keys are set, all ids fit signed columns and all creation times are set. |
| CoreMigration.VideosRoundTrip | backend/core_migration.go:294-303 | The same for videos, whose counts come back through the join with their own statistics. |
| CoreMigration.UsersRoundTrip | backend/core_migration.go:284-288 | The same for users. |
| CoreMigration.LikesRoundTrip | backend/core_migration.go:304-308 | The same for likes. |
| CoreMigration.CommentsRoundTrip | backend/core_migration.go:309-313 | The same for comments. |
| CoreMigration.FollowsRoundTrip | backend/core_migration.go:314-318 | The same for follows. |
| CoreMigration.NotificationsRoundTrip | backend/core_migration.go:319-323 | The same for notifications. |
| CoreMigration.VerificationIsExact | backend/core_migration.go:385-414 | The content verification (before hashing) succeeds exactly when every row came through. |
| CoreMigration.NullAndKeyZeroFail | backend/core_migration.go:430-460 | One user without a biography, or one row with key zero, makes the verification fail. |
| CoreMigration.ReadBack | backend/core_migration.go:416-419 | Reading rows back in order of id gives what is expected exactly when each row does, even if ids have changed. |
| DigestFraming.MigrationDigest | backend/core_migration.go:416-465 | The nested loops feed the hash exactly the framing of the rows. |
| DigestFraming.FramingIsInjective | backend/core_migration.go:439-460 | With a fixed number of columns two row sequences are fed alike only if they are equal. |
| DigestFraming.DecodesToCells | backend/core_migration.go:439-460 | A decoder reads every cell back from what the hash is fed. |
| DigestFraming.WidthMatters | backend/core_migration.go:426-460 | Without a fixed number of columns different rows may be fed alike. |
| Recommendation.RankCandidates | backend/internal/application/recommendation/service.go:226-270 | Scores every candidate that is not nil and sorts them; nothing is loaded for an empty pool. |
| Recommendation.FreshnessFalls | backend/internal/application/recommendation/service.go:301-310 | Freshness lies between zero and one and falls exactly while the video gets older. |
| Recommendation.FreshnessInDays | backend/internal/application/recommendation/service.go:301-310 | Freshness is 72 hours over 72 hours plus the age: one when new, a half after three days, zero without a time. |
| Recommendation.LeadInScore | backend/internal/application/recommendation/service.go:293-299 | The difference of two scores: 0.70 of nearness, 0.02 of the logarithm and 0.10 of freshness with an interest vector, otherwise 0.065 and 0.35 and no nearness. |
| Recommendation.AheadByOneSignal | backend/internal/application/recommendation/service.go:293-299 | Of two videos alike otherwise the nearer (only with an interest vector), the hotter or the later one is ahead, exactly. |
| Recommendation.ShownAgainIff | backend/internal/application/recommendation/service.go:374-394 | The candidate a cursor was made from passes that cursor again exactly when its video has grown older since. |
| Recommendation.SortedIsRanked | backend/internal/application/recommendation/service.go:322-334 | For distinct videos sorting gives a permutation of the pool in descending order of score, then time, then id. |
| Recommendation.FilterByCursor | backend/internal/application/recommendation/service.go:374-390 | Keeps exactly the candidates that pass, in order. |
| Recommendation.FilterKeepsTheRest | backend/internal/application/recommendation/service.go:374-394 | Filtering a ranking by a member's cursor never loses a later member. |
| Recommendation.FilterIsExactIff | backend/internal/application/recommendation/service.go:374-394 | It gives exactly what follows if and only if no earlier member is inverted with that member: score within the tolerance but later time or id. |
| Recommendation.PagingIsExactIff | backend/internal/application/recommendation/service.go:99-145 | For a fixed pool scored at one moment, following the cursor ends having shown exactly the ranking if and only if every member that ends a page has a valid cursor and no inverted member before it. |
| Recommendation.PagingGivesTheRanking | backend/internal/application/recommendation/service.go:99-145 | Under that condition the pages together are the ranking, a permutation of the scored pool. |
| Recommendation.SeparatedScoresPage | backend/internal/application/recommendation/service.go:392-394 | Valid cursors and scores that differ by at least the tolerance, if at all, are enough for the pages to show exactly the ranking. |
| Recommendation.NearTiesLoop | backend/internal/application/recommendation/service.go:374-394 | Otherwise paging can go back and forth for ever and never show a candidate. |
| Recommendation.Recommend | backend/internal/application/recommendation/service.go:99-145 | An error exactly for a bad cursor, a bad request or a failed load; otherwise the page is an interleaving of the first candidates after the cursor, more exactly when there are more than the limit, and the cursor of the last, or none when invalid. |
| Recommendation.InterleaveByAuthor | backend/internal/application/recommendation/service.go:336-372 | Terminates with a permutation: a prefix without neighbours by one author, then a tail by the author who ends the prefix. First come those that do not follow one by the same author, then the others in greedy rounds; a list that needs no change gets none. |
| Recommendation.NormalizeLimit | backend/internal/application/recommendation/service.go:272-280 | The limit itself between 1 and 100, otherwise 10 or 100. |
| Recommendation.CandidatePoolLimit | backend/internal/application/recommendation/service.go:282-291 | Eight times the page, between 50 and 500, always larger than the page. |
| FeedAssembly.AssembleFeedItems | backend/internal/application/feed/service.go:617-706 | With any consistent cache the answer is the page the repository alone determines, unless a needed read fails; the cache stays consistent. |
| FeedAssembly.ShownOf | backend/internal/application/feed/service.go:665-704 | What is shown of one entry: its card, stored counts or zeros, the viewer's own like and favourite, and its own time or the card's. |
| FeedAssembly.CacheOnlyHelps | backend/internal/application/feed/service.go:624-655 | The cache never makes a page fail, and it saves one exactly when it holds everything the failing reads were needed for and the viewer's actions can be read. |
| FeedAssembly.FeedPageVideoIds | backend/internal/application/feed/service.go:708-722 | The positive ids of the page, each once. |
| FeedAssembly.MissingIds | backend/internal/application/feed/service.go:724-742 | Exactly the ids with nothing to show. |
| FeedAssembly.Merge | backend/internal/application/feed/service.go:744-758 | The target with every present entry of the source over it. |
| FeedAssembly.BuildItems | backend/internal/application/feed/service.go:665-704 | With complete cards and counts the loop builds the naive page. |
| LoginFence.LoginSessionsAreCurrent | backend/auth.go:176-219 | In every interleaving a live login session was created under the present hash of a normal account, with no password change, reset or disabling since. |
| LoginFence.Database.CommitLogin | backend/auth.go:190-206 | The locked transaction creates the session exactly when status and hash still fit. |
| LoginFence.Database.CommitChange | backend/auth.go:395-403 | Replaces the hash and revokes every session, in one transaction. |
| LoginFence.Database.AdminPassword | backend/admin.go:233-246 | The same for a reset by an administrator, if the account exists. |
| LoginFence.Database.AdminUpdateUser | backend/admin.go:188-206 | Changes the status unless the account is a protected administrator; a rename or disabling revokes every session. |
| LoginFence.Database.RevokeSessions | backend/session_cache.go:77-90 | Revokes exactly the user's sessions that were not revoked, and returns their ids. |
| LoginFence.StepKeeps | backend/admin.go:188-249 | Every transaction keeps that invariant. |
| LoginFence.OvertakenLoginIsRefused | backend/auth.go:188-206 | A login that checked its password before a reset gets no session, however late it commits and whatever happens in between, unless the account is given the same hash again. |
| LoginFence.NoLoginWhileDisabled | backend/admin.go:188-206 | After an account is disabled and until it is enabled again no login to it succeeds and none of its logins is live. |
| LoginFence.EarlierSessionsStayDead | backend/admin.go:188-206 | No session from before a password change, a disabling or a change of name is ever live again. |
| LoginFence.RevokesIff | backend/admin.go:188-246 | A live session is revoked exactly by its logout or by such a step on its own user. |
| LoginFence.AccountAfter | backend/admin.go:188-246 | The new hash or status is what the account then has; disabling an administrator changes nothing. |
| LoginFence.LoginAloneIff | backend/auth.go:176-219 | An undisturbed login creates a live session exactly when the password matches and the account is in use. |
| LoginFence.ChangeAloneIff | backend/auth.go:375-409 | An undisturbed change of password takes effect exactly when the old one matches, and leaves no session of the user live. |
| LoginFence.SurvivesResetIff | backend/auth.go:366-373 | A live session created outside the lock has survived a reset exactly when one committed between the request's transaction and the session. |
| LoginFence.OnlyALateCreationSurvives | backend/auth.go:366-373 | Exactly one step makes such a session: creating one for a request whose account has been reset since. |
| LoginFence.UnlockedSessionSurvivesReset | backend/auth.go:366-373 | Such a session does come about. |

## Left out

- HTTP handlers, routing, cookies, JWT, bcrypt, UUIDs, hashing functions, TTL jitter, metrics and logs: plumbing or libraries; a checked password is the hash that was read.
- The circuit breaker around Redis: a Redis failure is a nondeterministic step.
- The calls in session_cache.go, cache.go, worker.go and `setActionAsync` are sequences of atomic steps of a state machine, not methods with loops, because what they promise is about interleavings.
- `VideoLease` follows one video; keys of different videos do not interact. Values expire only by explicit steps.
- No claim is made that the local video cache is current once `invalidateVideo` has returned: a load may refill it from Redis between the two evictions.
- OutboxPipeline.NothingIsLost: assumes that no last copy is acknowledged, because `LostByLateConfirm` and `LostByUnroutableRetry` show that the code needs it; queues are bags, so the order of delivery is not used.
- ActionFastPath.ReplayAgrees: excludes counters and actions that expire (24 hours, 30 days), videos that are taken offline with events queued, and comments, because the source promises nothing for them.
- ActionFastPath.ReplayedCountsAgree: is for runs whose steps meet their conditions; a later change of the same target may also repair a difference.
- FollowingIndex.Index.ListFollowingIndexPage: the naive page is stated where each video has one member; the keys' expiry and the float rounding of scores above 2^53 are not modelled.
- FollowingIndex.CappedIndexIsTop: is for one cap per index, as the callers use it.
- WholePage.WholeReader.Invalidate: the list of removed keys it returns is not modelled; pages that do not parse are never written here.
- WholePage.HistoryIsIndexed: leaves out histories in which an invalidation strands a page, because `InvalidatingKeepsIff` shows that these are exactly the ones that break it.
- `WholePage` has one reader, whose refusals are local to it; operations run one at a time.
- Recommendation.Recommend: the logarithm, the similarities and the text of cursors are parameters, and the reason shown with a candidate is not modelled.
- Recommendation.PagingIsExactIff: is for a fixed pool scored at one moment, because `ShownAgainIff` shows what the clock does to it.
- CoreMigration.VerificationIsExact: compares what is fed to SHA-256, not the hashes; upload paths, the tables that are copied unchanged, and insertions that the target database refuses are left out.
- `FeedAssembly` does not model the trimming of texts; stale cache entries are excluded by the consistency of the cache.
- Registration, change of name and logout appear in `LoginFence` only as far as they touch sessions; a refresh keeps its session and is not a step.
- The feed's page caches, hot ranking, exposure decisions, uploads, media, the user interface and the load tools: input and output, or easier repeats.
