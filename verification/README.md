# Verified models of the Omnivore backend

Dafny models of the parts of the Go backend (and two SQL routines) whose behaviour spans many calls, with proofs of what
they promise. `dafny verify dfyconfig.toml` checks everything.

## What is modelled

**The job queue** (`internal/bullmq/bullmq.go`). `JobQueue` holds the BullMQ structures as a value (the lists `wait` and
`active`, the sorted sets `prioritized` and `delayed`, the finished sets, the job hashes with their time to live, the id
counter and a clock) and one function per atomic Redis step. `RedisQueue.Queue` is the same code on mutable fields; each
method is proved to take the queue to the state that `JobQueue` says. `QueueInvariant` and `QueueRuns` prove
conservation and deduplication over all runs, `QueueEffects` what each call leaves where and that workers get what
producers gave, `QueueRetries` the backoff delays and a termination measure, `QueueOrder` that the sorted set and the
list form one line of jobs, `QueueScores` what rounding does to the scores, and `QueueCuts` at which commands a pipeline
may break off and which custom ids are safe.

**The workers** (`internal/queue/worker.go`, `internal/queueprocessor/worker.go`). `WorkerPool` is the poll loop with its
semaphore channel, WaitGroup, goroutines and drain as a state machine whose steps are the single channel and WaitGroup
operations. `Cluster` puts any number of pools, producers and the promoting scheduler on one queue, and `ClusterSettles`
says what polls and settles do there.

**RSS refresh** (`internal/jobs/refresh_feed.go`, `internal/jobs/refresh_all_feeds.go`). `RefreshFeed` is
`processSubscription`, `RefreshRuns` sequences of refreshes of one subscription, `FeedGrouping` the column-wise grouping
of subscriptions and the grouping of fetch tasks by URL, `RefreshJob` the whole job from the columns to the tasks,
`JobIds` the two deterministic job id functions.

**Bulk actions** (`internal/jobs/bulk_action.go`). `BulkFilter` parses the query and compiles it to a WHERE clause with
placeholders, `BulkQuery` says what its words ask of a row, `LikePattern` says what a pattern finds, `BulkAction`
composes the statements and runs them in batch loops with a LIMIT that may choose any rows, `BulkSweeps` says what such
loops can do, `BulkJobs` adds labels and dispatches.

**Four small protocols.** `ReadingProgress` and `ProgressRuns` (the flush of buffered reading progress), `Pagination`
(offset cursors), `CircuitBreaker` (the failure counter per domain, with concurrent callers), `FolderExpiry` and
`MailTrigger` (two SQL routines).

`Prelude`, `Strings` and `Decimal` hold optional values and 64-bit bounds, the byte-wise string order, and printing and
scanning of decimals.

### Where the code does not do what its comments or its names suggest

Each of these is proved, and where there is a condition under which the code behaves it is an if and only if:

- The comment on the priority score says it preserves ordering. Scores are exact only up to 53 significant bits, times are
  kept apart only up to 2^53, and a priority step is worth 10^12 ms (`QueueScores.ScoreExactly`,
  `QueueScores.TimesDistinctExactly`, `QueueScores.PriorityRespected`). The priorities the program uses stay exact
  (`QueueScores.ProgramScoresExact`).
- Backoff delays double in 64-bit arithmetic and wrap around when base * 2^attempt does not fit (`QueueRetries.DelayIsPower`).
- The pipelines of AddBulk, CompleteJob and FailJob are not transactions; cut off between certain commands they leave a lasting
  hash for a job that no structure holds (`QueueCuts.AddCut`, `QueueCuts.CompletionCut`, `QueueCuts.FailureCut`).
- A custom job id that is a numeral ahead of the id counter is taken over by another job (`QueueCuts.NumeralIdCollides`,
  `QueueCuts.CustomIdSafeExactly`).
- Jobs whose settle call fails stay in `active` for ever and their ids are refused (`Cluster.StrandedForEver`). The workers
  settle with the context that shuts them down; if a cancelled context makes the call fail, the drain strands every job that
  was in flight (`Cluster.DrainStrands`).
- A refresh that writes the row but accepts nothing resets the watermark to NULL, after which old items are enqueued again
  (`RefreshRuns.NullWatermarkExactly`, `RefreshRuns.NothingNewBreaksTheChain`). So does a failed UPDATE, and a fallback dated
  by an update in the future (`RefreshRuns.TakenAgainExactly`). Dates finer than a millisecond pass the date test again
  (`RefreshRuns.SubMillisecondExactly`).
- The fallback item need not be the newest one (`RefreshFeed.KeptIsNewestExactly`).
- A search text with `%`, `_` or a backslash is not searched for literally (`BulkFilter.TextSearchExactly`).
- Actions that leave rows matching report `total` rows processed although fewer distinct rows may have been touched
  (`BulkSweeps.ReportIsCountExactly`).
- An all-zero percent resets the column and then loses what has left the set, and the read anchor can fall
  (`ProgressRuns.LowersExactly`, `ProgressRuns.LosesExactly`, `ReadingProgress.AnchorFallsExactly`).
- The two job id functions differ on the empty user list (`JobIds.AgreeExactly`).
- `First = 0` makes a client page for ever, `First < 0` panics, and a negative offset repeats rows
  (`Pagination.WalkEndsExactly`, `Pagination.Search`, `Pagination.NextPageFollowsExactly`).
- With two callers or more a fetch can start above the failure limit (`CircuitBreaker.FetchAboveLimitExactly`), and a
  counter whose EXPIRE failed is unblocked by nothing that callers do (`CircuitBreaker.UnblocksExactly`).
- The archive date of an expired item depends on the order of the policies (`FolderExpiry.ArchivedAtDependsExactly`).

### Assumptions

- One entry of AddBulk is one step: nothing comes between its EXISTS and its pipeline. Each settle pipeline is one step too,
  except in `QueueCuts`.
- A failed Redis call either had no effect or took effect with its reply lost; in both cases it is not sent again.
- Custom job ids are not decimal numerals from 1 on (`JobIds.LetterIsNoNumeral` covers all ids that the program makes) and do not equal
  the suffix of a queue key such as `wait`.
- The score is rounded after each of its operations. A Go compiler that fuses the multiplication and the addition rounds
  once less.
- Promotion of delayed jobs is done by the BullMQ scheduler; it is a step of the environment and may use any score.
- Redis removes an expired hash only when its time has passed; sorted sets order by score, then by member.
- gorm writes no OFFSET for an offset that is not positive and no LIMIT for a negative limit.
- The results that a search pages through keep their order between requests, and there are at most 2^63 - 1 of them.
- Mails have unique ids, and inserts run the trigger one after the other.

## Model

| member | source | states |
|---|---|---|
| RedisQueue.Queue.AddBulk | internal/bullmq/bullmq.go:102-186 | entries are added in order, duplicates of an existing hash skipped, up to the first entry whose calls fail or whose reply is lost; the whole new state and the error result |
| RedisQueue.Queue.AddOne | internal/bullmq/bullmq.go:103-184 | one entry: what it does to every structure, and whether the loop goes on, for each way a call can fail with or without effect |
| RedisQueue.Queue.WriteJob | internal/bullmq/bullmq.go:143-152 | all seven fields a new job gets; other fields of a hash already there stay |
| RedisQueue.Queue.PopJob | internal/bullmq/bullmq.go:196-273 | the script's effect on all structures, and what the caller gets: the id with the name, data, options and attempts of its hash, unless a reply was lost or the read failed after the move |
| RedisQueue.Queue.CompleteJob | internal/bullmq/bullmq.go:276-286 | the whole state after completing: out of active, into completed, hash expiring in an hour |
| RedisQueue.Queue.FailJob | internal/bullmq/bullmq.go:289-322 | the whole state after failing: attempt counted, then delayed with backoff or failed for a day; also when a call in between fails |
| RedisQueue.Queue.ExponentialDelay | internal/bullmq/bullmq.go:325-331 | the doubling loop computes the recursive delay, in 64-bit arithmetic, also for attempts below 1 |
| QueueInvariant.AddEntryKeeps | internal/bullmq/bullmq.go:102-186 | an added entry keeps the invariant, and adds exactly the id it reports, which had no hash before |
| QueueInvariant.AddEntryFrame | internal/bullmq/bullmq.go:102-186 | adding touches no other hash and neither active, delayed nor the finished sets |
| QueueInvariant.PopKeeps | internal/bullmq/bullmq.go:196-219 | popping keeps the invariant; the popped id was live and not active before |
| QueueInvariant.CompleteKeeps | internal/bullmq/bullmq.go:276-286 | completing an active job keeps the invariant |
| QueueInvariant.RefileKeeps | internal/bullmq/bullmq.go:297-321 | retrying or failing an active job keeps the invariant |
| QueueInvariant.PromoteKeeps | internal/bullmq/bullmq.go:193-195 | the scheduler's promotion keeps the invariant |
| QueueRuns.StepKeeps | internal/bullmq/bullmq.go:102-322 | every step of producers, workers, scheduler and clock keeps the invariant |
| QueueRuns.RunKeeps | internal/bullmq/bullmq.go:102-322 | so does every run, of any length and interleaving |
| QueueRuns.LiveDisjoint | internal/bullmq/bullmq.go:102-322 | in every reachable state wait, prioritized, active and delayed are duplicate-free and pairwise disjoint, and hold exactly the ids whose hash has no expiry |
| QueueRuns.StepFiles | internal/bullmq/bullmq.go:276-322 | a live instance stops being live in exactly the step that completes it or uses up its last attempt, and that step files it |
| QueueRuns.HashKept | internal/bullmq/bullmq.go:143-152 | no step changes what the producer wrote into a live job's hash; attempts grow by one exactly when a failure is counted |
| QueueRuns.InstanceKept | internal/bullmq/bullmq.go:102-322 | over any run a live instance stays in exactly one structure, unchanged, unless the run files it |
| QueueRuns.StepKeepsSpaced | internal/bullmq/bullmq.go:276-322 | every step keeps: whatever an id was filed for has had its hour or day before another instance is live |
| QueueRuns.NoJobLost | internal/bullmq/bullmq.go:102-322 | whatever is added in a reachable state stays in exactly one live structure with its name, data and options until it is filed as completed or failed, with a time not before it was added; every earlier instance of the id was filed before that |
| QueueRuns.DedupWindow | internal/bullmq/bullmq.go:107-118 | a second instance of a custom id is accepted only when none is live, more than 3600 s after the earlier one completed and more than 86400 s after it failed for good |
| QueueRuns.AddAllRuns | internal/bullmq/bullmq.go:102-186 | a call of AddBulk, wherever it stops, is a run of the queue, so what is proved of all runs holds of it |
| QueueRuns.WindowExact | internal/bullmq/bullmq.go:276-321 | the window is exact: the id is refused until then and accepted from then on |
| QueueEffects.AddedExactly | internal/bullmq/bullmq.go:102-186 | which entries add a job and under which id, which are skipped, and when the id counter moves, for each way a call can fail |
| QueueEffects.AdditionEffect | internal/bullmq/bullmq.go:143-166 | an added job has a new hash with all its fields as the producer gave them, stands at the head of wait or, with its score, in prioritized, and nothing else has changed |
| QueueEffects.AddAllStops | internal/bullmq/bullmq.go:102-186 | AddBulk reports success if and only if no call of any entry fails, and has then handled every entry; otherwise it has handled the entries up to the first of which a call fails; a duplicate does not stop it |
| QueueEffects.DeliveredAsAdded | internal/bullmq/bullmq.go:196-273 | over any run: a job popped before it is filed comes with the name, data and options it was added with, and with the number of its failures counted since |
| QueueEffects.CompletionEffect | internal/bullmq/bullmq.go:276-286 | a completed job is in completed at the clock, its hash is finished and expires in 3600 s, and no other job, hash or finished set has changed |
| QueueEffects.FailureEffect | internal/bullmq/bullmq.go:289-322 | a failure counts one attempt and records its reason; if that is below Attempts the job is in delayed for base * 2^(attempts-1) ms, else in failed at the clock with a hash that expires in 86400 s; nothing else has changed |
| QueueEffects.PromotionEffect | internal/bullmq/bullmq.go:193-195 | a promoted job is out of delayed and at the head of wait, or in prioritized under the score given; nothing else has changed |
| QueueRetries.DelayIsPower | internal/bullmq/bullmq.go:325-331 | the delay is base * 2^attempt if and only if that number fits an int, and that number wrapped otherwise |
| QueueRetries.TotalDelayIsGeometric | internal/bullmq/bullmq.go:289-331 | the waits of n retries are base * (2^n - 1) ms in all, if the longest, base * 2^(n-1), fits an int |
| QueueRetries.WaitsAreGeometric | internal/bullmq/bullmq.go:289-331 | over any run in which its settles go through, a live job that has used up n attempts has been made to wait exactly that long since it was added |
| QueueRetries.LiveBelowLimit | internal/bullmq/bullmq.go:297-314 | in such a run a live job has used up fewer attempts than max(1, Attempts) |
| QueueRetries.WaitsAreBounded | internal/bullmq/bullmq.go:289-331 | from its addition until it is filed, over any run, counted attempts with a lost pipeline included, a job waits at most base * (2^(max(1, Attempts)-1) - 1) ms in all, if the longest wait its options call for fits an int |
| QueueRetries.RetryIsDelayed | internal/bullmq/bullmq.go:297-309 | failing attempt k of a retried job puts it into delayed with base * 2^(k-1) ms, wrapped where that does not fit an int, out of active, and not into failed |
| QueueRetries.FailWorks | internal/bullmq/bullmq.go:289-322 | a counted failure lowers the measure 3 * remaining attempts + stage, summed over the live jobs |
| QueueRetries.CompleteWorks | internal/bullmq/bullmq.go:276-286 | so does a completion |
| QueueRetries.PopWorks | internal/bullmq/bullmq.go:196-219 | so does a pop that finds a job |
| QueueRetries.MovesAreBounded | internal/bullmq/bullmq.go:196-322 | a run without additions, with settles that go through, moves jobs at most as often as the measure says: it terminates |
| QueueOrder.PopTakesHead | internal/bullmq/bullmq.go:202-216 | pop takes the head of one line, prioritized before waiting, and nothing exactly when the line is empty |
| QueueOrder.StepMovesLine | internal/bullmq/bullmq.go:102-322 | what each step makes of the line: an added or promoted job joins at the end without priority and at its place with one, a pop takes the head, settling and the clock change nothing |
| QueueOrder.JoinsInOrder | internal/bullmq/bullmq.go:153-162 | a job joins right behind exactly the prioritized entries that Redis orders before it |
| QueueOrder.WaitIsFifo | internal/bullmq/bullmq.go:163-216 | over any run the wait list is first in, first out: what waited or came is what went, in that order, followed by what still waits |
| QueueOrder.StepKeepsGoScored | internal/bullmq/bullmq.go:153-161 | every step keeps the scores that AddBulk gave, unless a promotion uses another one |
| QueueOrder.RunKeepsGoScored | internal/bullmq/bullmq.go:153-161 | so does every run |
| QueueOrder.PopIsLeast | internal/bullmq/bullmq.go:202-209 | in every reachable state the popped entry is least by score and id; if promotions reuse the scores of AddBulk and two scores are exact, its job precedes the other by priority, time of queueing and id, if and only if that one is not overdue: of smaller priority number, but queued 10^12 ms per step or more later |
| QueueScores.Float64Exactly | internal/bullmq/bullmq.go:157-157 | rounding to float64 leaves exactly the numbers with at most 53 significant bits alone |
| QueueScores.Float64Nearest | internal/bullmq/bullmq.go:157-157 | float64 of an integer has at most 53 significant bits, and no such number is nearer |
| QueueScores.BaseExactly | internal/bullmq/bullmq.go:157-157 | priority * 10^12 is computed exactly if and only if it has at most 53 significant bits |
| QueueScores.ScoreExactly | internal/bullmq/bullmq.go:157-157 | adding the time is exact if and only if the sum has at most 53 significant bits; where priority * 10^12 is exact, so the score is priority * 10^12 + now if and only if that sum has |
| QueueScores.ScoreMonotone | internal/bullmq/bullmq.go:157-157 | rounding never turns the order around: no smaller priority number and no earlier time gives no smaller score |
| QueueScores.TimesDistinctExactly | internal/bullmq/bullmq.go:157-157 | jobs of one priority queued at different times up to T get different scores if and only if their scores stay within 2^53 |
| QueueScores.PriorityRespected | internal/bullmq/bullmq.go:153-161 | within 2^53 the smaller priority number goes first if and only if it is not queued 10^12 ms per priority step, or more, later; beyond, with rounded products, scores may coincide but are never inverted |
| QueueScores.ProgramScoresExact | internal/handler/handler.go:270-284 | with the priorities the program uses every score is exact until the clock reaches 2^53 - 10^14 ms |
| QueueScores.PrioritiesOrdered | internal/handler/handler.go:270-284 | imports get the greatest number, RSS jobs a greater one than others, low priority a greater one than high |
| QueueCuts.AddCut | internal/bullmq/bullmq.go:141-181 | cutting the add pipeline breaks the queue if and only if it happens right after HSET |
| QueueCuts.CompletionCut | internal/bullmq/bullmq.go:278-285 | cutting a completion breaks the queue anywhere but before its first or after its last command |
| QueueCuts.FailureCut | internal/bullmq/bullmq.go:297-321 | a retry is broken only between LREM and ZADD, a final failure anywhere between its first and last command |
| QueueCuts.NumeralIdCollides | internal/bullmq/bullmq.go:82-124 | in any valid state, a custom id that is a numeral still ahead of the counter is taken over when the counter gets there: the hash is overwritten with the automatic job, and the id is queued twice, or once if both jobs have priority |
| QueueCuts.CustomIdSafeExactly | internal/bullmq/bullmq.go:107-124 | whatever the priorities, the queue stays in order and the id keeps its own job, however many automatic jobs different from it follow, if and only if the id is no numeral ahead of the counter |
| WorkerPool.MoveKeeps | internal/queue/worker.go:51-90 | tokens in the channel are those of the goroutines and of the loop, and the WaitGroup counts the loop and the goroutines that owe a Done, after every operation |
| WorkerPool.BoundedConcurrency | internal/queue/worker.go:81-88 | in every run at most `capacity` calls of processJob run at once, the WaitGroup never goes negative, and no token release blocks |
| WorkerPool.HeldAfterRun | internal/queue/worker.go:71-90 | jobs polled are jobs still held plus jobs processed: the pool drops and duplicates none |
| WorkerPool.WaitMeansDrained | internal/queue/worker.go:47-90 | Wait returns exactly when the loop has returned, and by then every popped job has been processed |
| WorkerPool.NoDeadlock | internal/queueprocessor/worker.go:59-97 | while the worker has not finished, some step other than cancelling is possible |
| WorkerPool.CancelledMovesDescend | internal/queueprocessor/worker.go:66-77 | after cancellation every step lowers a rank |
| WorkerPool.DrainTerminates | internal/queueprocessor/worker.go:55-97 | so a cancelled worker takes at most 4 * capacity + 9 more steps, and where no step is left Wait has returned |
| Cluster.DoKeeps | internal/queueprocessor/worker.go:59-144 | every action of the system keeps: jobs active are held or stranded, held jobs are what their hashes say, and pops match attempts |
| Cluster.SystemRuns | internal/queueprocessor/worker.go:59-144 | whatever workers, producers, scheduler and clock do, the queue they share goes through a run of its own, so what is proved of all runs holds of it |
| Cluster.ClusterLiveDisjoint | internal/queueprocessor/worker.go:59-144 | so in every state of a cluster the live structures hold no id twice and exactly the ids with a lasting hash |
| Cluster.ExclusiveOwnership | internal/queue/worker.go:71-110 | in every run an active id is held by exactly one loop or goroutine or stranded once, and an id that is not active by none |
| Cluster.OneHolder | internal/queue/worker.go:71-110 | no job is processed by two workers, or twice by one, at the same time |
| Cluster.AttemptBound | internal/bullmq/bullmq.go:289-322 | every instance of a job is popped at most max(1, Attempts) times, whatever fails |
| Cluster.StrandedForEver | internal/queue/worker.go:92-110 | a job whose settle or read failed stays active in every later state and its id is refused to producers |
| Cluster.ShutdownLeavesOnlyStranded | internal/queueprocessor/worker.go:55-97 | when every Wait has returned, exactly the stranded jobs are left in active |
| Cluster.DrainStrands | internal/queue/worker.go:60-110 | if a cancelled context makes settles fail, each job held at cancellation is stranded once its worker has drained |
| ClusterSettles.SettleCompletes | internal/queue/worker.go:108-108 | the end of processJob without an error files the job as completed: no attempt counted, delayed and failed as they were, and the goroutine lets go |
| ClusterSettles.SettleFails | internal/queueprocessor/worker.go:136-140 | its end with an error counts one attempt and sends the job to delayed with the reason and its backoff, or to failed with the reason when its attempts are used up; completed is as it was |
| ClusterSettles.SettleLost | internal/queueprocessor/worker.go:136-142 | an end whose calls fail leaves the queue as it was, but for an attempt that may have been counted; the job stays active and is stranded |
| ClusterSettles.PollDelivers | internal/queue/worker.go:71-80 | a poll that goes through hands the worker the job as its hash says; one that fails after the script leaves the job active and stranded, and one that fails before it changes nothing |
| ClusterSettles.ProduceAdds | internal/bullmq/bullmq.go:102-186 | in any state of a cluster a producer's entry adds its job as given, or nothing, and the workers hold what they held |
| ClusterSettles.HeldIsStored | internal/queue/worker.go:71-110 | in every run a job that a worker holds is active and agrees with its lasting hash in name, data, options and attempts |
| RefreshFeed.VisitItem | internal/jobs/refresh_feed.go:199-280 | one round of the loop: links, fallback item, cap, age, recently saved, save, watermark |
| RefreshFeed.ProcessItems | internal/jobs/refresh_feed.go:194-280 | the loop accepts exactly the first 100 qualifying items in feed order; the watermark is their greatest publish time; a failure is reported exactly when a save was tried and failed |
| RefreshFeed.EligibleExact | internal/jobs/refresh_feed.go:199-279 | the qualifying items are exactly the linked, not old, not recently saved ones whose save goes through, each once and in order |
| RefreshFeed.WatermarkUnique | internal/jobs/refresh_feed.go:272-278 | the watermark is determined by the accepted items |
| RefreshFeed.LastValidHasLink | internal/jobs/refresh_feed.go:200-233 | there is a fallback item exactly when some item is linked, and it has a link |
| RefreshFeed.LastValidIsNewest | internal/jobs/refresh_feed.go:230-233 | if all linked items have a publish date, the fallback item is a newest one |
| RefreshFeed.KeptIsNewestExactly | internal/jobs/refresh_feed.go:230-233 | the kept item has the greatest publish time of the linked items if and only if no linked item without publish date that is newer than all linked ones before it is followed by a newer linked one |
| RefreshFeed.UndatedItemBlocksFallback | internal/jobs/refresh_feed.go:230-233 | the first linked item without publish date that is newer than all linked ones before it, wherever it stands, is kept for good |
| RefreshFeed.ProcessSubscription | internal/jobs/refresh_feed.go:164-325 | checksum and build-date skips, loop, fallback and watermark of one refresh |
| RefreshRuns.AtMostAHundred | internal/jobs/refresh_feed.go:194-314 | a refresh enqueues at most 100 items, and the fallback only alone |
| RefreshRuns.SkippedExactly | internal/jobs/refresh_feed.go:178-192 | a changed feed is skipped if and only if there is a watermark and the feed's update date (or else its publish date) is not after it |
| RefreshRuns.SkipMissesNothing | internal/jobs/refresh_feed.go:184-192 | a changed feed with an item newer than the watermark is not skipped unless it says that it was built before that item |
| RefreshRuns.SkipChangesNothing | internal/jobs/refresh_feed.go:178-192 | with the same checksum, or a build date at or below the watermark, nothing is enqueued and the row stays |
| RefreshRuns.SameFeedAgain | internal/jobs/refresh_feed.go:178-182 | the same feed is skipped the next time if and only if the row was written |
| RefreshRuns.AcceptedExactly | internal/jobs/refresh_feed.go:199-280 | a refresh accepts, in feed order, exactly the items with a link or GUID that are undated or newer than the watermark (within 24 h for a new subscription), not recently saved, and whose save, if the fetch type calls for one, goes through, until it has a hundred |
| RefreshRuns.WatermarkIsGreatest | internal/jobs/refresh_feed.go:271-279 | a refresh that accepts items stores the greatest of their publish dates (update dates, or the clock, where there is none), in whole milliseconds, and the new checksum |
| RefreshRuns.FallbackExactly | internal/jobs/refresh_feed.go:282-314 | the fallback is enqueued if and only if the subscription is new, some item is linked, none was accepted, none failed, and its own save goes through |
| RefreshRuns.TakenBetween | internal/jobs/refresh_feed.go:178-351 | a dated item that is taken lies above the old watermark, and not above the new one unless it is a fallback dated by an update after the refresh itself |
| RefreshRuns.WatermarkIncreases | internal/jobs/refresh_feed.go:596-618 | the stored watermark strictly increases with every refresh that takes a dated item (not such a fallback) and writes the row |
| RefreshRuns.NoReEnqueue | internal/jobs/refresh_feed.go:178-325 | over a sequence of such refreshes every dated item taken later, the fallback included, is newer than every one taken earlier, so none is enqueued twice |
| RefreshRuns.TakenAgainExactly | internal/jobs/refresh_feed.go:316-351 | an item that was taken passes the next date test if and only if the UPDATE failed (and the item is not too old for a new subscription) or it was a fallback ahead of its refresh |
| RefreshRuns.NullWatermarkExactly | internal/jobs/refresh_feed.go:282-325 | an updating refresh writes NULL if and only if no item qualifies, and the subscription is not new, or nothing is linked, or a wanted item's save or the fallback's fails |
| RefreshRuns.FailureExactly | internal/jobs/refresh_feed.go:270-303 | a refresh reports a failure if and only if a save tried in the loop failed, or that of the fallback did |
| RefreshRuns.NothingNewBreaksTheChain | internal/jobs/refresh_feed.go:282-325 | a changed feed with nothing new resets the watermark and the next refresh takes the same item again |
| RefreshRuns.SubMillisecondExactly | internal/jobs/refresh_feed.go:331-351 | an item at or below the watermark passes the date test again if and only if it lies inside the watermark's own millisecond |
| FeedGrouping.TaskTable.Accumulate | internal/jobs/refresh_feed.go:528-551 | one call keeps the tasks grouped: a task per URL, dated by its first call, with the users of all its calls in order |
| FeedGrouping.TaskTable.AccumulateAll | internal/jobs/refresh_feed.go:123-152 | so after all calls of a job |
| FeedGrouping.CallsForExact | internal/jobs/refresh_feed.go:528-551 | the calls of a URL are exactly those with that URL, in their order |
| FeedGrouping.UsersConserved | internal/jobs/refresh_feed.go:528-593 | the tasks together hold as many users as there were calls |
| FeedGrouping.BuildGroup | internal/jobs/refresh_all_feeds.go:188-229 | each column with its defaults; NULL ids are dropped |
| FeedGrouping.IdColumnsWhole | internal/jobs/refresh_all_feeds.go:189-198 | the id columns keep their length if and only if they hold no NULL |
| FeedGrouping.ColumnsGiveRows | internal/jobs/refresh_feed.go:127-152 | with no NULL id, index i across all columns gives back subscription row i, and no out-of-range default is used |
| FeedGrouping.Dispatch | internal/jobs/refresh_feed.go:127-152 | one processSubscription call per subscription id, in order, with the arguments at its index |
| RefreshJob.HandleSubscription | internal/jobs/refresh_feed.go:164-325 | one subscription: its refresh, and a task entry for each item it leaves to a content fetch, behind all earlier ones |
| RefreshJob.HandleRefreshFeed | internal/jobs/refresh_feed.go:123-152 | the job from the columns to the tasks: the tasks hold, grouped by URL and in order, the calls for exactly the items that each subscription fetches |
| RefreshJob.FetchedExactly | internal/jobs/refresh_feed.go:258-309 | an item is left to a content fetch if and only if it is accepted or the fallback, the feed is not blocked, the type is not NEVER, and under WHEN_EMPTY the item has neither content nor description |
| RefreshJob.DeferredExactly | internal/jobs/refresh_feed.go:258-270 | of the accepted items those not saved directly are kept in their order, each as often as it is accepted |
| RefreshJob.JobCallsExactly | internal/jobs/refresh_feed.go:528-551 | a call is made if and only if some subscription fetches an item with it |
| RefreshJob.OneUserPerFetch | internal/jobs/refresh_feed.go:528-551 | across all URLs the tasks hold one user for each item fetched, no more and no fewer |
| RefreshJob.TaskUsersExactly | internal/jobs/refresh_feed.go:528-551 | after the job a user with a folder stands in the fetch task of a URL if and only if that user's subscription, in that folder, leaves an item with that link to a content fetch; each task has its own URL, the feed's URL and the date of such an item |
| RefreshJob.RowsReachRefreshes | internal/jobs/refresh_feed.go:131-139 | with no NULL id, refresh i starts from the watermark and the checksum of subscription row i, and fetches for its user |
| JobIds.SortStrings | internal/jobs/refresh_all_feeds.go:124-126 | sorting in place yields the one ascending arrangement of the list |
| Strings.LessExactly | internal/jobs/refresh_all_feeds.go:124-126 | one string is less than another if and only if, where they first differ, it ends or has the smaller character |
| JobIds.SameSortedExactly | internal/jobs/refresh_all_feeds.go:124-127 | two lists have the same sorted form if and only if they are permutations of each other |
| JobIds.ScheduledJobId | internal/jobs/refresh_all_feeds.go:123-132 | the id of a scheduled refresh is that of the sorted list, and an empty list prints as a list |
| JobIds.ManualJobId | internal/graphql/resolver/subscription_helpers.go:144-152 | the id of a manual refresh; an empty list prints as null |
| JobIds.SameIdExactly | internal/jobs/refresh_all_feeds.go:129-131 | two ids are equal if and only if both truncated hashes are |
| JobIds.UserOrderDoesNotMatter | internal/graphql/resolver/subscription_helpers.go:144-152 | both functions are invariant under permutations of the user list |
| JobIds.AgreeExactly | internal/graphql/resolver/subscription_helpers.go:144-152 | the two functions agree on every non-empty list, and on the empty one only by a hash collision |
| JobIds.LetterIsNoNumeral | internal/jobs/refresh_all_feeds.go:131-131 | an id that does not begin with a digit is no counter value |
| JobIds.ManualJoinsScheduled | internal/graphql/resolver/subscription_helpers.go:132-141 | while a scheduled refresh for the same users has its hash, the manual one adds nothing |
| BulkFilter.ParseBulkFilter | internal/jobs/bulk_action.go:77-103 | the parsed filter takes the last state, folder and label term, and searches for all other terms in order |
| BulkFilter.LastOfExact | internal/jobs/bulk_action.go:81-100 | the term taken is of its kind, and no later term is |
| BulkFilter.FilterClause | internal/jobs/bulk_action.go:107-139 | the fragments and arguments appended to any earlier arguments |
| BulkFilter.ClauseMeansFilter | internal/jobs/bulk_action.go:107-139 | for every filter, row, earlier and later arguments: the placeholders are in range and the fragments are true (in three-valued logic) exactly of the rows that the filter selects |
| BulkFilter.ClauseUsesItsArguments | internal/jobs/bulk_action.go:107-139 | the clause uses every placeholder of its own arguments and no other |
| BulkFilter.TextSearchExactly | internal/jobs/bulk_action.go:131-133 | ILIKE with the text between two '%' is a substring search, up to case, if and only if the text has no '%', '_' or backslash, under any folding that leaves those alone |
| BulkQuery.FieldsSplit | internal/jobs/bulk_action.go:79-79 | the words of two texts put together are the words of both, wherever a blank is at the seam |
| BulkQuery.FieldsOfJoined | internal/jobs/bulk_action.go:79-102 | words that are joined are found again, in order |
| BulkQuery.JoinAppend | internal/jobs/bulk_action.go:102-102 | joining puts one blank between any two parts |
| BulkQuery.WordsNameStateAndFolder | internal/jobs/bulk_action.go:83-95 | the state is that of the last in:archive or in:trash, the folder that of the last in:inbox or in:following, and none if there is no such word |
| BulkQuery.WordsNameLabel | internal/jobs/bulk_action.go:96-97 | the label is what follows label: in the last such word |
| BulkQuery.OtherWords | internal/jobs/bulk_action.go:98-102 | every word that begins with neither in: nor label: is searched for, in order |
| BulkQuery.QuerySelects | internal/jobs/bulk_action.go:77-139 | from the query text to the rows: a row is selected if and only if its state is the one asked for (not DELETED, if none is), it is in the folder and under the label asked for, and its title or description matches the other words |
| BulkAction.BuildStatement | internal/jobs/bulk_action.go:148-159 | the composed statement with its limit, and its folder for a move |
| BulkAction.StatementMeans | internal/jobs/bulk_action.go:148-319 | in every composed statement all placeholders are in range and WHERE is true of exactly the user's rows that the filter and the action mean |
| BulkAction.StatementUsesItsArguments | internal/jobs/bulk_action.go:306-319 | each argument has a placeholder; the folder and limit placeholders are bound to the folder and the limit |
| BulkAction.ChangedMatches | internal/jobs/bulk_action.go:152-159 | after the update a row no longer matches if and only if the action is archive, delete or a move out of the folder searched |
| BulkAction.ComposedRuns | internal/jobs/bulk_action.go:148-319 | a composed statement can be run as it is: its WHERE picks from exactly the rows meant, its limit is the limit meant, and its SET, through the folder placeholder, is the change meant |
| BulkAction.Library.SelectIds | internal/jobs/bulk_action.go:155-159 | the statement returns some rows its WHERE is true of, as many as there are up to its limit |
| BulkAction.Library.Execute | internal/jobs/bulk_action.go:152-170 | running the statement assigns its SET clause to exactly that many rows and reports their number |
| BulkAction.Library.OneBatch | internal/jobs/bulk_action.go:148-170 | composing and running one batch changes rows meant and no other, as many as there are up to its limit |
| BulkAction.Library.RunBatches | internal/jobs/bulk_action.go:141-338 | whatever rows LIMIT chooses, the loop terminates, its batches are a sweep of the rows meant with the given batch size and total, exactly the rows picked are changed, and no more of them than the number reported |
| BulkSweeps.SweepFacts | internal/jobs/bulk_action.go:141-400 | in every sweep rows picked are eligible, batches hold at most batchSize, and rows picked are at most those reported, which are at most total; equal if picked rows stop matching |
| BulkSweeps.CompleteFacts | internal/jobs/bulk_action.go:141-400 | a complete sweep picks exactly min(total, eligible) rows, each once, if they stop matching; otherwise it reports total as soon as a row matches (labels: unless all fit in one batch) and picks at least the first batch |
| BulkSweeps.ReportIsCountExactly | internal/jobs/bulk_action.go:219-400 | for rows that go on matching, the number reported is sure to be the number of rows picked if and only if one batch is enough, or none matches |
| BulkJobs.EntityLabels.LabelBatch | internal/jobs/bulk_action.go:353-388 | the SELECT is composed and run, and every label goes to each row selected and to no other |
| BulkJobs.EntityLabels.Label | internal/jobs/bulk_action.go:340-400 | the label loop is a sweep of the rows the filter selects that ends with a short batch; exactly the rows picked get every label, and no more of them than the number reported |
| BulkJobs.HandleBulkAction | internal/jobs/bulk_action.go:28-67 | the whole job from the query text to the columns: for each action, which columns get which values in exactly the rows picked, which rows are wanted, whether they stop matching; every label for ADD_LABELS; an error for a move without a folder; nothing for an unknown action |
| BulkJobs.SweptFacts | internal/jobs/bulk_action.go:28-67 | batches hold at most the batch size (100 by default) and no more rows are touched than the count asked for (one batch by default); a consuming action that succeeds touches exactly min(count, eligible), any other at least its first batch |
| ReadingProgress.UpdateIsMaxMerge | internal/jobs/sync_read_positions.go:115-136 | for both percents the flush is the maximum, or a reset on 0, with or without the WHERE guard |
| ReadingProgress.UpdateIdempotent | internal/jobs/sync_read_positions.go:115-136 | flushing the same aggregate again changes neither percent |
| ReadingProgress.AnchorFallsExactly | internal/jobs/sync_read_positions.go:126-135 | the highest read anchor goes down if and only if the guard lets the flush through, its anchor is smaller, and the top percent of the row is below that anchor or the anchor is 0 |
| ReadingProgress.AnchorRisesExactly | internal/jobs/sync_read_positions.go:126-135 | it goes up if and only if the flushed anchor is greater and lies above the top percent of the row |
| ReadingProgress.Key.SyncReadKey | internal/jobs/sync_read_positions.go:56-151 | nothing changes while entries are fresh, missing or the update fails; otherwise the row is updated with the maxima over the valid members and the snapshot is removed |
| ReadingProgress.Key.MaxOf | internal/jobs/sync_read_positions.go:99-112 | the aggregate is the maximum of each column over the entries, starting from 0 |
| ProgressRuns.LowersExactly | internal/jobs/sync_read_positions.go:115-136 | a step lowers a percent if and only if it writes 0 over a positive value |
| ProgressRuns.StepSafe | internal/jobs/sync_read_positions.go:56-151 | every step of clients and syncers, crashes included, keeps each entry in the set or covered by the row |
| ProgressRuns.NothingLost | internal/jobs/sync_read_positions.go:56-151 | over any interleaving without a reset each entry ever buffered is still in the set or its percent is at most the row's |
| ProgressRuns.LosesExactly | internal/jobs/sync_read_positions.go:99-150 | after any step from a state in which nothing is lost, every entry ever buffered is in the set or covered by the row, if and only if the step resets no positive percent, or every entry with a positive one is still in the set |
| CircuitBreaker.OvershootBound | internal/handler/handler.go:360-398 | with P concurrent callers and no read errors the failure count never exceeds maxFailures + P, with any expiries |
| CircuitBreaker.OvershootReached | internal/handler/handler.go:149-173 | the bound is reached for every limit and every number of callers |
| CircuitBreaker.FetchAboveLimitExactly | internal/handler/handler.go:149-173 | a fetch can start while the count is above the limit if and only if there are two callers or more |
| CircuitBreaker.UnblocksExactly | internal/handler/handler.go:392-398 | with all callers idle, some run unblocks a blocked domain if and only if its counter has a time to live |
| CircuitBreaker.ReachWithoutExpiry | internal/handler/handler.go:392-398 | a blocked counter without one is reached, for every limit, by failures whose EXPIRE does not go through |
| CircuitBreaker.CountsFailures | internal/handler/handler.go:388-398 | as long as the key does not expire the counter grows by one for each failure counted, and nothing takes any back |
| FolderExpiry.LibraryItems.ExpireFolders | migrations/0182.do.folder_policy.sql:43-63 | after the cursor loop a row is untouched if no policy of its own user and folder is old enough for it; every other row is in the state those policies call for, with its user, folder and creation date as they were |
| FolderExpiry.EndsInFinalState | migrations/0182.do.folder_policy.sql:49-61 | an item ends DELETED if a delete policy applies, else ARCHIVED if an archive policy applies, else unchanged; deleted items stay deleted |
| FolderExpiry.OrderDoesNotMatter | migrations/0182.do.folder_policy.sql:42-63 | any two orders of the cursor give the same states and deletion dates |
| FolderExpiry.ArchivedAtExactly | migrations/0182.do.folder_policy.sql:49-61 | for any list of policies the archive date is set if and only if the item can still be archived and the first policy in scope archives |
| FolderExpiry.ArchivedAtDependsExactly | migrations/0182.do.folder_policy.sql:42-63 | some permutation of a list of policies gives another archive date if and only if both kinds apply to an item that can still be archived and was not archived at this very time |
| FolderExpiry.SecondCallChangesNothing | migrations/0182.do.folder_policy.sql:36-65 | a second call changes no state, in any order |
| MailTrigger.ReceivedEmails.SelectNewest | migrations/0109.do.received_email_trigger_query.sql:12-17 | the subquery returns 20 of the user's mails, or all, none older than one left out; ties are broken in any way |
| MailTrigger.ReceivedEmails.Insert | migrations/0109.do.received_email_trigger_query.sql:8-20 | after an insert the user keeps a 20 most recent of what was there, and other users keep all they had |
| MailTrigger.ReceivedEmails.InsertAll | migrations/0109.do.received_email_trigger_query.sql:8-20 | after any history of inserts each user who received mail keeps a 20 most recent of all mails that user ever had |
| MailTrigger.TopOfTop | migrations/0109.do.received_email_trigger_query.sql:12-17 | a top k of a top k and a new mail is a top k of everything, however ties were broken |
| MailTrigger.TopIsExact | migrations/0109.do.received_email_trigger_query.sql:12-17 | with distinct times the mails kept are exactly those with fewer than k newer ones |
| Decimal.ScanFormat | internal/service/search.go:46-50 | scanning a printed offset gives it back, for every int |
| Decimal.ScanReads | internal/service/search.go:46-50 | blanks, a sign and digits scan as that number if it fits an int, whatever follows the digits |
| Decimal.ScanRefuses | internal/service/search.go:46-50 | a newline among the blanks, or no digit behind the sign, does not scan |
| Pagination.Search | internal/service/search.go:45-141 | cursor parsing with its fallback to 0, page size default and cap, the window of rows, both cursors, HasNextPage, and the panic for a negative size |
| Pagination.PageHoldsWindow | internal/service/search.go:45-141 | a page holds the rows from the cursor's offset on, as many as asked for (10 by default, at most 100) as far as there are any, counts all rows, and its start cursor brings it again; a negative size panics |
| Pagination.FetchWindow | internal/service/search.go:97-124 | one row more than asked for tells exactly whether there is a next page |
| Pagination.ChainIsPrefix | internal/service/search.go:97-140 | k pages followed from the start give the first rows in order, and the cursor stands behind them |
| Pagination.WalkIsComplete | internal/service/search.go:45-141 | a completed walk shows every row exactly once, in order, in no more pages than the rows fill |
| Pagination.WalkEndsExactly | internal/service/search.go:45-141 | a walk comes to an end if and only if the page size is positive, or 0 with nothing to show |
| Pagination.EveryArticleOnce | internal/service/search.go:45-141 | with the program's decimal cursors and a positive size, a walk exists and every walk is complete |
| Pagination.NextPageFollowsExactly | internal/service/search.go:46-50 | from any offset the next page begins where this one ended if and only if the offset is not negative |

## Left out

- WorkerPool: the workers are state machines on values, not classes with goroutines; each channel or WaitGroup operation is a step.
- CircuitBreaker: the counter and its callers are a state machine on values; the result cache only lets a caller skip its fetch, and the fixed list of blocked domains is left out.
- ProgressRuns: interleavings of several syncers are a state machine on values; `ReadingProgress.Key.SyncReadKey` is one call without interruption.
- RedisQueue.Queue.AddBulk: does not model the race between EXISTS and the pipeline of two producers of one id, or the event stream.
- QueueOrder.PopIsLeast: the order by priority, time and id is stated for exact scores and for promotions that reuse the score AddBulk gave; otherwise only the order by score.
- QueueScores.PriorityRespected: beyond 2^53 it says that the order is never inverted, not when two scores coincide.
- QueueRetries.MovesAreBounded: counts the steps that move a job; empty polls and the passing of time are not bounded.
- Stalled-job detection, rate limiting and GetQueueCounts, OldestPrioritizedJobAge, EnsureQueueMeta.
- What processJob does with each job name; in `Cluster` a job ends in any of the ways a settle can.
- ReadingProgress.UpdateIsMaxMerge: percents are reals, so rounding to the column's type is not modelled; a library item that is gone is not either.
- HandleSyncReadPositions: the SCAN over keys.
- Schedule arithmetic of a refresh (getUpdatePeriodInHours, getUpdateFrequency), HTTP and feed parsing, the feed failure counter, and the contents of save-page jobs.
- RefreshFeed.ProcessItems: an error of the recently-saved lookup counts as not recently saved, as in the code; the answers of the clock and Redis are parameters.
- RefreshJob.HandleRefreshFeed: begins with a feed that was fetched and parsed; a blocked feed and a failed fetch, which end the job before any subscription, are left out.
- FeedGrouping.TaskTable.AccumulateAll: the jobs enqueued for the tasks, whose payload hash is not modelled, and the order in which the map is walked.
- JobIds.SameIdExactly: SHA-256 and JSON are parameters; nothing is said about collisions of the truncated hash.
- BulkAction.Library.RunBatches: one clock reading for all batches, and no other writer of the table in between.
- BulkJobs.EntityLabels.Label: an INSERT that fails aborts its batch; triggers on entity_labels are not modelled.
- BulkFilter.ClauseMeansFilter: case folding for ILIKE is a parameter, one character at a time; row-level security is left out.
- FolderExpiry.EndsInFinalState: the clock stands still during a call, although the procedure commits after each policy; the age test is any predicate of policy and creation date, because `$5` stands inside a quoted literal.
- Pagination.Search: filters and sorting of the search are left out; the rows are the filtered result in its order.
- GraphQL and REST handlers, authentication, configuration, storage, rate limiting, URL validation, and all other migrations.
