# Verified model of the MaidsClaw job, navigation and interaction core

MaidsClaw runs background work for a role-play agent: a durable PostgreSQL job queue shared by many workers, an
in-memory job dispatcher, a graph navigator that explores memory with a beam search, and an append-only interaction
log whose records are flushed into memory. This project states what these components promise and proves it for all
inputs, states and runs of the model.

* **Durable job store.** Two tables: one current row per job key, and a history of attempts keyed by
  (job key, claim version). Every transaction (enqueue, claim, heartbeat, complete, fail, cancel, sweep, retention) is
  one step of `StoreSpec`; `StoreInvariants` relates the two tables, `StoreRuns` and `StoreChains` speak of runs in
  which any number of workers and a sweeper interleave, `StoreEffects` of what transactions do to each other,
  `StoreOverruns` of attempts beyond the limit. `StoreEnqueueRaces` opens the enqueue into its statements, each on the
  tables others have left by then; what it can write is part of the runs.
  `SplitClaims` opens the claim into its own steps (lock rows, try the advisory lock, count for the key, count
  globally, commit), and `GlobalCap` / `GlobalCapOverrun` say what the global cap is worth under them. `PgJobStores`
  and `PgJobRunners` are the objects with their update-in-place methods, proved equal to the specification.
* **Navigator.** `EdgePriority` is the merged edge ranking, `BeamSearch` the layered search with its loops,
  `BeamTheorems` its comparison with exhaustive enumeration of simple paths, `NavigatorBeam` and `NavigatorScores` the
  search with the navigator's own graph, neighbour order, scores and width, and what those scores prefer.
* **Dispatcher.** `JobQueues`, `Dispatchers` and `JobDispatchers` hold the in-memory queue, the dispatcher cut at the
  point where it awaits a worker, and the scheduler; `DispatcherTheorems` covers every interleaving of calls, `DispatcherOutcomes` what becomes of each job.
* **Log and compactor.** `InteractionLogs` and `InteractionRuns` cover commits, batches, flush selection and marking;
  `Compactors` the truncating context compactor.

`Sorting`, `TextOrder` and `MapSums` are small supporting theories. Times and random identifiers are arguments. A
sort's order among equal rows is fixed by an arbitrary `scan` order of the table.

## Where the code differs from its own words

* The cap table has an entry for thinker sessions with cap 2, but its key is the literal text
  `cognition.thinker:session:{sessionId}`. A real session gets the default cap 1 (`ConcurrencyKeys.ThinkerSessionCap`).
* The global thinker cap is checked under the lock of one session only. It holds in every run exactly when at most one
  worker claims at a time (`GlobalCapOverrun.GlobalCapHoldsExactlyWhenSerial`); with W claimers up to W - 1 more jobs
  run, and some run reaches that (`GlobalCapOverrun.ThinkerOverrunExactly`).
* A family enqueue is promised to create, coalesce or report a duplicate. Its statements read at different times, so it
  can also raise: exactly when its INSERT conflicts and both later lookups find nothing
  (`StoreEnqueueRaces.RacingEnqueueRaisesExactly`), for instance because the row in its way completes in between
  (`StoreEnqueueRaces.EnqueueCanRaise`), even when that leaves an active successor. And a second enqueue of one key can
  be counted as another request instead of a duplicate (`StoreEnqueueRaces.SameKeyCanCountTwice`).
* A comment says that edge kinds appended by secondary intents score above the 0.3 of memory relations. They do exactly
  while their place is within the first seven tenths of the merged list; the last appended one never does
  (`EdgePriority.AppendedAboveFloorExactly`).
* A rerun request is honoured by a successful completion only; terminal failure and cancellation drop it
  (`StoreTheorems.RerunDroppedWithoutSuccess`).
* The dispatcher's cap of two for memory organization never holds a job back, because its in-flight keys form a set and
  all such jobs share one key (`DispatcherOutcomes.OrganizeIsNeverHeldBack`).
* The sweeper does not look at the attempt limit. Attempts pass it exactly when more leases are lost than the retries
  and the current attempt leave room for (`StoreTheorems.AttemptCountExactly`), and for every limit and every number of
  lost leases a run ends beyond it by that number (`StoreOverruns.AttemptsCanExceedLimit`).
* Retention deletes rows but not their attempts. A job key enqueued again after that creates a row no claim can take
  (`StoreTheorems.ReusedKeyCannotBeClaimed`), and while that row is first in the queue every claim raises
  (`ClaimScan.ReusedKeyBlocksTheQueue`). Runs therefore do not reuse such keys.
* A batch commit is atomic in the SQLite store only when it began the transaction itself; the in-memory store keeps
  what precedes the refused record (`InteractionRuns.RefusedBatch`).
* A failed turn marks its own range as processed. The processed records are prefixes in all states of a run exactly if
  every failed turn starts at or before the first unprocessed record of its session
  (`InteractionRuns.PrefixesExactlyWhenTurnsFailInTime`); the shortest run with a gap has three events
  (`InteractionRuns.FailedTurnLeavesGap`). Still no record is passed over (`InteractionRuns.NothingPassedOver`).

## Model

| member | source | states |
|---|---|---|
| StoreRuns.StepKeeps | src/jobs/pg-store.ts:403-1123 | every transaction, in any admissible state, keeps the invariant relating rows and attempts (versions 1..n, status and claim fields, snapshots, one active row per family) |
| StoreRuns.RunKeeps | src/jobs/pg-store.ts:403-1123 | the invariant holds in every state of every run |
| StoreTheorems.LeaseAgreement | src/jobs/pg-store.ts:699-755 | a row runs at version v if and only if attempt (key, v) is in progress with the same lease, and then no other attempt of the key is |
| StoreTheorems.HistoryDeterminesRow | src/jobs/pg-store.ts:699-755 | version, attempt count, status and the error, claim and terminal columns of a row are a function of its attempts |
| StoreTheorems.SucceededAtMostOnce | src/jobs/pg-store.ts:849-862 | a key has at most one succeeded attempt |
| StoreTheorems.AttemptCountExactly | src/jobs/pg-store.ts:950-1009 | attempts = retries + lost leases + the current one, at most max_attempts - 1 are retries, and the limit is passed exactly when more leases are lost than that leaves room for |
| StoreOverruns.AttemptsCanExceedLimit | src/jobs/pg-store.ts:1085-1123 | for every limit m and every L a run from the empty store ends with attempt m + L running, after m - 1 retries and L lost leases |
| StoreTheorems.FencedCallsChangeNothing | src/jobs/pg-store.ts:312-350 | a heartbeat, completion, failure or cancellation at a version that is not running changes neither table, its lease_lost write included, and is told which of the three reasons holds |
| StoreTheorems.NewReasonRequestsRerun | src/jobs/pg-store.ts:99-132 | a running family row that counted a reason its claim had not seen asks for a rerun |
| StoreTheorems.CompletionSuccessor | src/jobs/pg-store.ts:864-905 | success inserts one pending successor carrying all counts, the only active row of its family, exactly when a rerun was requested |
| StoreTheorems.RerunDroppedWithoutSuccess | src/jobs/pg-store.ts:954-1020 | cancellation always, and failure exactly when attempts are used up, leaves the family without an active row |
| StoreEnqueueRaces.EnqueueInStepsIsAStep | src/jobs/pg-store.ts:403-625 | whatever others commit between its statements, an enqueue writes nothing or is one admissible step of the runs |
| StoreEnqueueRaces.RacingEnqueueIsAtomicExactly | src/jobs/pg-store.ts:437-556 | a family enqueue equals the atomic one on the tables it writes to, exactly unless it raises or coalesces although its key exists there |
| StoreEnqueueRaces.UndisturbedEnqueueIsAtomic | src/jobs/pg-store.ts:403-625 | with nothing committed in between, the statements are the atomic enqueue |
| StoreEnqueueRaces.SameKeyCanCountTwice | src/jobs/pg-store.ts:425-465 | from every table without an active row of the family, an overtaken enqueue of the same key is counted as a second request |
| StoreEnqueueRaces.RacingEnqueueRaisesExactly | src/jobs/pg-store.ts:461-625 | a family enqueue raises exactly if its key is absent at both looks, no family row is active from the start of either locking lookup until its lock, and yet its INSERT conflicts; another one exactly if its new key meets an active family |
| StoreEnqueueRaces.RaisingNeedsAnEnding | src/jobs/pg-store.ts:461-556 | it raises only if the row in its way was deleted or ended in between |
| StoreEnqueueRaces.CompletionMakesEnqueueRaise | src/jobs/pg-store.ts:503-556 | a completion while the second lookup waits makes it raise, with or without an active successor |
| StoreEnqueueRaces.EnqueueCanRaise | src/jobs/pg-store.ts:461-556 | from every table without an active row of the family such a race exists |
| StoreTheorems.ReusedKeyCannotBeClaimed | src/jobs/pg-store.ts:1278-1321 | after retention an enqueue of the deleted key creates a row exactly if its family has no active one, and every claim of that row raises |
| ClaimScan.FirstRowDecides | src/jobs/pg-store.ts:658-755 | the first claimable row is claimed, or makes the whole claim raise exactly when the history holds its next version |
| ClaimScan.ReusedKeyBlocksTheQueue | src/jobs/pg-store.ts:627-766 | while a row of a reused key is first, every claim raises and nothing behind it is claimed |
| StoreEffects.ClaimsHandOutWhatWasEnqueued | src/jobs/pg-store.ts:403-766 | over any run every claim of a job hands out what was enqueued; the first is version 1, ready exactly from the requested time |
| StoreEffects.ClaimHoldsItsLease | src/jobs/pg-store.ts:699-755 | a claim is swept exactly after its lease, and touches one row and one attempt |
| StoreEffects.LeaseHoldsOverRuns | src/jobs/pg-store.ts:768-817 | over any run a claim, and a heartbeat for thirty seconds, keeps the job at its version against every sweep, and exactly the sweeps after the recorded lease take it |
| StoreEffects.FailedJobIsReadyExactly | src/jobs/pg-store.ts:918-1029 | a failed job is ready again exactly with attempts left and after its delay; row and attempt keep the error |
| StoreEffects.FailEndsExactly | src/jobs/pg-store.ts:950-1020 | with attempts left a failure leaves row and attempt pending and retried, without it leaves both failed for good, at its own time |
| StoreEffects.SettlementsEndExactly | src/jobs/pg-store.ts:819-1074 | a completion ends row and attempt as succeeded, a cancellation as cancelled, each at its own time and with its reply |
| StoreEffects.SuccessorIsReadyExactly | src/jobs/pg-store.ts:864-905 | a successor is ready exactly from the completion on and starts without attempts or errors |
| StoreEffects.HeartbeatRenewsBoth | src/jobs/pg-store.ts:768-817 | a heartbeat gives row and attempt the same lease of thirty seconds and the same heartbeat time |
| StoreEffects.StaleCallClosesItsAttempt | src/jobs/pg-store.ts:312-350 | on tables where a stale attempt was left open the call closes it as lost; consistent tables have none |
| StoreEffects.DuplicateReportsHistory | src/jobs/pg-store.ts:409-423 | an enqueue of a known key changes nothing and reports the number of claims and what the last attempt left |
| StoreEffects.SweepTakesExactly | src/jobs/pg-store.ts:1085-1123 | the sweep takes exactly the running rows with an ended lease, closes their attempts as lost, and counts them |
| StoreEffects.CreationStartsCounting | src/jobs/pg-store.ts:134-141 | a family's first request is counted once under its own source and reason, any other job counts nothing |
| StoreEffects.ChangedRowsAreStamped | src/jobs/pg-store.ts:403-1123 | every row a step creates or changes carries the time of that step |
| StoreEffects.SweepIsIdempotent | src/jobs/pg-store.ts:1085-1123 | a second sweep at the same or an earlier time finds nothing, and what was taken is ready at once |
| StoreEffects.LostLeaseIsStale | src/jobs/pg-store.ts:312-350 | once a lost lease is claimed by another, every call of the first worker answers stale_claim and leaves the new claim alone |
| StoreEffects.CoalescingCountsOnce | src/jobs/pg-store.ts:99-132 | a coalesced request adds no row, counts once under its source and its reason, moves the latest request time to the greatest seen, and requests a rerun exactly for a new reason on a running row |
| StoreRuns.FencedOverRuns | src/jobs/pg-store.ts:824-1119 | over any run at most one completion, failure, cancellation or sweep takes effect for each (key, version) |
| StoreRuns.EffectClosesAttempt | src/jobs/pg-store.ts:824-1119 | a step takes effect for a claim exactly when it closes that attempt |
| StoreRuns.OneSuccessPerKey | src/jobs/pg-store.ts:819-862 | over any run at most one completion of a key succeeds, at whatever version |
| StoreRuns.TerminalRowsAreFinal | src/jobs/pg-store.ts:403-1123 | a terminal row is never changed by a later step |
| StoreRuns.ClosedAttemptsAreFinal | src/jobs/pg-store.ts:312-350 | a closed attempt is never changed by a later step |
| StoreRuns.WorkerSettlesItsClaim | src/jobs/pg-runner.ts:25-56 | the completion a worker sends for its claim leaves that attempt closed, and succeeded exactly if it took effect or had succeeded before |
| StoreRuns.BackoffRespected | src/jobs/pg-store.ts:950-985 | after a retryable failure the next claim of the job comes no earlier than the promised time |
| StoreRuns.NewReasonReachesSuccessor | src/jobs/pg-store.ts:864-905 | whatever failures, sweeps and coalescing come between, the completion that finally succeeds leaves one successor carrying every count |
| StoreChains.CoalescedLink | src/jobs/pg-store.ts:99-132 | one more request raises both counter totals by one, and a rerun request pays with a new reason |
| StoreChains.ChainsAreBounded | src/jobs/pg-store.ts:864-905 | along a successor chain both counters sum to 1 + all coalesced requests, and link number plus pending rerun stays below the number of distinct reasons |
| ConcurrencyKeys.ThinkerSessionCap | src/jobs/pg-store.ts:145-153 | a thinker session's cap is 1, and 2 only for the id that is the template text |
| ConcurrencyKeys.CapsExactly | src/jobs/pg-store.ts:145-153 | the cap of every key, configured or not |
| ConcurrencyKeys.ThinkerSessionGlobalKey | src/jobs/pg-store.ts:357-362 | every thinker session derives the one global key, whatever its id contains |
| ConcurrencyKeys.IndexOf | src/jobs/pg-store.ts:357-362 | the first occurrence of the segment, or none |
| ClaimScan.ScanInBatches | src/jobs/pg-store.ts:632-766 | the OFFSET loop stops at the first claimable candidate, whatever the batch size, and ends |
| ClaimScan.CandidatesExactly | src/jobs/pg-store.ts:633-656 | the query yields each ready unlocked row once, ordered by class rank and next_attempt_at |
| ClaimScan.ClaimTakesFirst | src/jobs/pg-store.ts:627-766 | a claim takes a ready row passing both caps, preceded by no other such row |
| ClaimScan.ClaimServesInOrder | src/jobs/pg-store.ts:638-650 | no claimable job of an earlier tier of classes is passed over, tier by tier, and within a tier none that was due earlier |
| ClaimScan.ClaimableExactly | src/jobs/pg-store.ts:660-697 | a row may be claimed exactly when its key is not locked and fewer jobs run than both caps allow |
| ClaimScan.NoneReadyExactly | src/jobs/pg-store.ts:627-766 | none_ready is returned exactly when every ready row is locked, busy or capped out |
| ClaimScan.ClaimIsAStep | src/jobs/pg-store.ts:627-766 | in a consistent store a claim never raises and is a claim step of the runs or changes nothing |
| ClaimScan.UncontendedClaimExactly | src/jobs/pg-store.ts:627-766 | with no locks held by others a claim succeeds exactly if some ready row passes both caps |
| PgJobStores.PgJobStore.Enqueue | src/jobs/pg-store.ts:403-625 | the method's tables and reply are those of the specification, and the table constraints hold |
| PgJobStores.PgJobStore.ClaimNext | src/jobs/pg-store.ts:627-766 | the scan and the UPDATE and INSERT end in the specified tables and reply |
| PgJobStores.PgJobStore.Heartbeat | src/jobs/pg-store.ts:768-817 | tables and reply are those of the specification |
| PgJobStores.PgJobStore.Complete | src/jobs/pg-store.ts:819-916 | tables and reply are those of the specification, successor included; a raised insert rolls everything back |
| PgJobStores.PgJobStore.Fail | src/jobs/pg-store.ts:918-1029 | tables and reply are those of the specification |
| PgJobStores.PgJobStore.Cancel | src/jobs/pg-store.ts:1031-1083 | tables and reply are those of the specification |
| PgJobStores.PgJobStore.ReclaimExpiredLeases | src/jobs/pg-store.ts:1085-1123 | the row-by-row loop, in any order, ends in the state of sweeping all expired rows at once |
| PgJobStores.SuccessorKeysDiffer | src/jobs/pg-store.ts:293-299 | successor keys of different random ids differ |
| PgJobStores.SuccessorKeyNamesFamily | src/jobs/pg-store.ts:293-299 | a successor's key is the family key under the search prefix, once, and the request |
| PgJobRunners.PgJobRunner.Finish | src/jobs/pg-runner.ts:25-56 | settling goes through complete or fail at the claimed version, as specified |
| PgJobRunners.SettlingClosesTheClaim | src/jobs/pg-runner.ts:25-56 | settling closes exactly the claimed attempt: succeeded if a registered worker returned, put back for five seconds if attempts are left, failed for good otherwise, with the thrown or the missing-worker text; a stale claim changes nothing |
| PgJobRunners.KindNamesExactly | src/jobs/types.ts:1-9 | the name of each job kind, and of no other |
| SplitClaims.EventKeeps | src/jobs/pg-store.ts:627-766 | every event of the split claim keeps row and advisory locks exclusive and the caps respected |
| SplitClaims.KeyCapsHoldUnderInterleaving | src/jobs/pg-store.ts:660-717 | under every interleaving running jobs per concurrency key never exceed the cap |
| SplitClaims.CommitIsAtomicClaim | src/jobs/pg-store.ts:699-755 | the commit of a split claim is the atomic claim of that row |
| GlobalCap.GlobalCapOverrunBound | src/jobs/pg-store.ts:663-697 | with W claimers, running jobs plus granted passes are at most the cap plus W - 1 |
| GlobalCapOverrun.ClaimersReachBound | src/jobs/pg-store.ts:663-697 | for every cap and every number W of claimers some run ends with cap + W - 1 jobs running |
| GlobalCapOverrun.GlobalCapHoldsExactlyWhenSerial | src/jobs/pg-store.ts:663-697 | for any cap setting the cap holds in all runs if and only if at most one worker claims, or the cap admits none |
| GlobalCapOverrun.ThinkerOverrunExactly | src/jobs/pg-store.ts:386-401 | for the store as configured, default cap 4 included, cap + W - 1 is never exceeded and is reached |
| ListPages.ClampListPageLimit | src/jobs/pg-store.ts:192-195 | missing and below-one limits give 50, negative ones 1, large ones 200, all others are rounded down |
| ListPages.CursorSelectsRest | src/jobs/pg-store.ts:1228-1262 | the cursor of a row selects exactly what follows it in the listing |
| ListPages.WalkExistsExactly | src/jobs/pg-store.ts:1216-1276 | the cursors can be followed to the end exactly if no page but the last ends with an empty job key |
| ListPages.PagesListEverything | src/jobs/pg-store.ts:1216-1276 | any walk to the end over an unchanged table lists each row of the asked status and type exactly once, later updates first and greater keys first among equals, in pages within the limit |
| ListPages.StaleCursorEndsListing | src/jobs/pg-store.ts:1221-1234 | a cursor whose row is gone, touched or filtered out gives an empty last page |
| TextOrder.LessExactly | src/jobs/pg-store.ts:1240-1253 | text is ordered by the first difference, a prefix first |
| EdgePriority.MergedEdgePriority | src/memory/navigator.ts:269-290 | the loops compute the merged list |
| EdgePriority.PriorityTableIsGood | src/memory/navigator.ts:147-155 | the priority table lists at least four kinds per intent and none twice, which the laws below ask of a table |
| EdgePriority.MergedIsOrderedUnion | src/memory/navigator.ts:269-290 | the merged list has no duplicates, is the union of the lists, and has the primary list as a prefix |
| EdgePriority.MergedFirstSeenOrder | src/memory/navigator.ts:269-290 | kinds are ranked by where they are first named when the lists are read one after the other |
| EdgePriority.SecondariesKeepPrimary | src/memory/navigator.ts:1489-1524 | secondary intents never lower a primary kind's score, keep the head at 1 and keep the primary order |
| EdgePriority.AppendedBelowPrimary | src/memory/navigator.ts:1489-1524 | a kind only a secondary names ranks strictly below every primary kind |
| EdgePriority.AppendedAboveFloorExactly | src/memory/navigator.ts:1489-1524 | when an appended kind stays above the floor of memory relations, exactly |
| EdgePriority.OrderIsTotal | src/memory/navigator.ts:1465-1487 | for any scores and weights the comparator is a total preorder whose ties are exactly equal score, weight and time |
| NavigatorScores.NeighborsPreferred | src/memory/navigator.ts:1465-1487 | the kind of higher priority comes first, then the heavier edge, then the newer one |
| NavigatorScores.IntentsPrefer | src/memory/navigator.ts:147-155 | which kinds each intent follows, and their scores from 1 downwards |
| NavigatorScores.UnnamedKinds | src/memory/navigator.ts:1518-1523 | the score of a kind no list names |
| NavigatorScores.PlansMultiply | src/memory/navigator.ts:203-212 | a plan multiplies what the strategy says, and what neither names is neutral |
| NavigatorScores.PathScoreExactly | src/memory/navigator.ts:1526-1544 | seed score, mean edge score and hop penalty of a path, with the edges summed from its start |
| NavigatorScores.BestSeedsAreTaken | src/memory/navigator.ts:885-897 | no seed left out of the first layer scores higher than one taken, and seeds are left out only at full width |
| NavigatorScores.NavigatorTakesBestSeeds | src/memory/navigator.ts:885-897 | the same with the map of seed scores itself |
| NavigatorScores.LayersAreRanked | src/memory/navigator.ts:885-934 | seeds and paths of a layer come best first |
| BeamSearch.ExpandTypedBeam | src/memory/navigator.ts:874-939 | the layered loops, stopping at the first layer without candidates, compute all layers up to the depth |
| BeamSearch.DeduplicatePaths | src/memory/navigator.ts:1546-1555 | the loop keeps the first path of each signature |
| BeamSearch.CandidatesExactly | src/memory/navigator.ts:893-926 | the candidates of a layer are exactly the extensions of its paths by an edge to a node not on them |
| BeamTheorems.BeamIsSound | src/memory/navigator.ts:874-939 | every returned path starts at its seed, follows edges, repeats no node, has depth = edges = nodes - 1 and stays within the depth |
| BeamTheorems.EdgesAreConsecutive | src/memory/navigator.ts:1972-1983 | consecutive edges of a returned path join end to end |
| BeamTheorems.PenaltyZeroExactlyOnSimplePaths | src/memory/navigator.ts:1710-1716 | the redundancy penalty is zero exactly on node sequences without repetition |
| BeamTheorems.BeamIsBounded | src/memory/navigator.ts:874-939 | at most width * (maxDepth + 1) paths are returned |
| BeamTheorems.KeptBeatsCut | src/memory/navigator.ts:927-934 | every kept path of a layer scores at least as high as every cut one, and a cut happens only at full width |
| BeamTheorems.LayerHasNoRepeats | src/memory/navigator.ts:1546-1555 | no layer holds the same seed and node sequence twice |
| BeamTheorems.CandidatesRepresented | src/memory/navigator.ts:1546-1555 | deduplication loses no signature |
| BeamTheorems.SignatureInjective | src/memory/navigator.ts:1546-1555 | over references without separators, equal signatures mean equal seed and nodes |
| BeamTheorems.BeamIsExhaustive | src/memory/navigator.ts:874-939 | when the width is never exceeded, the node sequences are exactly the simple paths from the seeds up to the depth, for all references of the node reference type |
| NavigatorBeam.PushedListsItsEdges | src/memory/navigator.ts:1972-1983 | pushing edges under their start nodes lists under each node exactly its edges, in push order |
| NavigatorBeam.NavigatorBeamIsSoundAndBounded | src/memory/navigator.ts:874-939 | for any options at most 32 paths a depth, all simple, along pushed edges and joined end to end |
| NavigatorBeam.NavigatorTakesBestEdges | src/memory/navigator.ts:900-929 | of parallel edges a path of a layer takes one that no other outranks in the neighbour order |
| NavigatorBeam.NavigatorCutsTheWorst | src/memory/navigator.ts:1526-1544 | no cut candidate has a better preliminary score than a kept one |
| JobQueues.JobQueue.Enqueue | src/jobs/queue.ts:15-38 | the whole new state; the queue invariant is kept for fresh ids and keys |
| JobQueues.JobQueue.UpdateJob | src/jobs/queue.ts:73-89 | the whole new state for any update; the invariant if id and key stay; an unknown id changes nothing |
| JobQueues.JobQueue.SyncPendingState | src/jobs/queue.ts:118-130 | the waiting ids after every status change |
| JobQueues.JobQueue.SelectNextPending | src/jobs/queue.ts:132-168 | the scan finds the one waiting job that precedes all others, or none when nothing waits |
| JobQueues.JobQueue.Dequeue | src/jobs/queue.ts:40-48 | takes exactly that job off the waiting list |
| JobQueues.NextIsUnique | src/jobs/queue.ts:132-168 | at most one waiting job precedes all others |
| JobQueues.DequeueOrder | src/jobs/queue.ts:132-168 | what is dequeued later comes strictly later in the order |
| Dispatchers.RunnableExactlyWhenKeyFree | src/jobs/dispatcher.ts:222-320 | for exclusive kinds the prefix counting of canRun amounts to the job's own key being free |
| Dispatchers.SelectionExactly | src/jobs/dispatcher.ts:197-220 | the selected job is pending, runnable and precedes every other such job; none is selected exactly when none can run |
| DispatcherTheorems.SubmitKeeps | src/jobs/dispatcher.ts:71-102 | a known key is refused without a trace, any other accepted, and the invariant kept |
| DispatcherTheorems.MutualExclusion | src/jobs/dispatcher.ts:104-195 | over all interleavings of re-entrant calls at most one job per exclusive concurrency key runs, and the key is in flight exactly while it does |
| DispatcherTheorems.AttemptsStayWithinBudget | src/jobs/dispatcher.ts:104-195 | pending jobs have an attempt left and running ones are within the limit |
| DispatcherTheorems.TickDecreases | src/jobs/dispatcher.ts:104-195 | a serial processNext returning true lowers the attempts left of pending jobs; returning false it found none pending |
| DispatcherOutcomes.Drain | src/jobs/scheduler.ts:20-34 | serial ticks end with no job pending or running, within the attempts that were left; with all kinds served and all workers returning every pending job is completed and no other touched |
| DispatcherOutcomes.AcceptedJobExactly | src/jobs/dispatcher.ts:71-102 | an accepted job waits with what was asked for, and without a limit of its own with that of its kind |
| DispatcherOutcomes.DuplicateActionExactly | src/jobs/dedup.ts:6-22 | the answer of the duplicate check by the state of the known job |
| DispatcherOutcomes.SelectionServesInOrder | src/jobs/dispatcher.ts:197-220 | no runnable job of an earlier tier of classes, created earlier, or with a smaller id is passed over |
| DispatcherOutcomes.DequeueServesInOrder | src/jobs/queue.ts:132-168 | the same for the queue, with enqueue order last |
| DispatcherOutcomes.StartExactly | src/jobs/dispatcher.ts:104-150 | the selected job is started with its attempt counted, or failed naming the kind nobody works on; every other job stays |
| DispatcherOutcomes.EndExactly | src/jobs/dispatcher.ts:152-195 | a returned worker leaves its job completed; a throw leaves it waiting exactly if retriable with attempts left, else failed, with the message; every other job stays |
| DispatcherOutcomes.OneMigrationPerSession | src/jobs/dispatcher.ts:222-295 | over all interleavings one migration per agent and session runs at most, and one may start exactly when none runs |
| DispatcherOutcomes.OneRunPerGlobalKind | src/jobs/dispatcher.ts:222-312 | search rebuilds and each kind of maintenance run one at a time |
| DispatcherOutcomes.OrganizeIsNeverHeldBack | src/jobs/dispatcher.ts:228-236 | the cap of two for memory organization never holds a job back, as a set counts their one key once |
| DispatcherOutcomes.TaskKeysAreParents | src/jobs/dispatcher.ts:238-320 | task runs share a key exactly if they share a parent, and thinker jobs, never held back themselves, use the same keys |
| JobDispatchers.JobDispatcher.Submit | src/jobs/dispatcher.ts:71-102 | the object's state and reply are the specified ones; accepted exactly if the key was never seen |
| JobDispatchers.JobDispatcher.CanRunNow | src/jobs/dispatcher.ts:222-284 | the counting loops decide as specified |
| JobDispatchers.JobDispatcher.BeginNext | src/jobs/dispatcher.ts:104-150 | processNext up to its await ends in the specified state |
| JobDispatchers.JobDispatcher.FinishNext | src/jobs/dispatcher.ts:152-195 | the rest of processNext ends in the specified state and releases the key |
| JobDispatchers.JobScheduler.Tick | src/jobs/scheduler.ts:15-35 | a tick during another does nothing, and at most one worker is ever awaited |
| JobDispatchers.JobScheduler.WorkerSettled | src/jobs/scheduler.ts:20-34 | the tick ends with its worker, and the next one may start |
| InteractionLogs.CommitService.Commit | src/interaction/commit-service.ts:70-88 | commits or refuses as specified; a refused record leaves the log as it was |
| InteractionLogs.CommitService.CommitBatch | src/interaction/commit-service.ts:42-68 | a batch equals committing its inputs one by one, with the indices counted in the batch, and rolls back as specified |
| InteractionLogs.InteractionStore.Commit | src/interaction/store.ts:67-100 | appends or reports a duplicate |
| InteractionRuns.CommittedRecordExactly | src/interaction/commit-service.ts:70-128 | a committed record is the last of its session, says what its input said, and has the caller's id or else the random one |
| InteractionRuns.RefusedExactly | src/interaction/commit-service.ts:70-108 | which reason a record is refused for, first reason first |
| InteractionRuns.FlushCountExactly | src/interaction/flush-selector.ts:13-22 | what counts towards a flush, each record once |
| InteractionLogs.InteractionStore.MarkRangeProcessed | src/bootstrap/runtime.ts:613-623 | the loop marks exactly the range of one session |
| InteractionLogs.InteractionStore.MarkProcessed | src/bootstrap/runtime.ts:605-611 | the loop marks exactly the records up to the index |
| InteractionRuns.BatchesCompose | src/interaction/commit-service.ts:42-68 | committing a front and then a back is committing the whole |
| InteractionRuns.BatchAppendsToEachSession | src/interaction/commit-service.ts:42-68 | a batch over mixed sessions gives one record per input, and each session gains exactly its own in input order |
| InteractionRuns.BatchSucceedsExactly | src/interaction/commit-service.ts:90-108 | a batch goes through exactly if every input is valid and no id is taken or given twice |
| InteractionRuns.RefusedBatch | src/interaction/store.ts:102-119 | a refused batch leaves all of the log or exactly the inputs before the refused one, depending on store and transaction |
| InteractionRuns.ShouldFlushExactly | src/interaction/flush-selector.ts:13-39 | a threshold flush is asked for exactly at ten counted records, and spans the first to the last unprocessed one |
| InteractionRuns.CloseFlushExactly | src/interaction/flush-selector.ts:41-55 | a close flush is asked for exactly while something is unprocessed |
| InteractionRuns.IndicesStayDense | src/interaction/commit-service.ts:130-133 | over any run a session's indices are 0..n-1 in commit order |
| InteractionRuns.NothingPassedOver | src/interaction/store.ts:314-326 | however late, often or disordered requests finish, a record is processed exactly if a finished flush or a failed turn had it in its range |
| InteractionRuns.ProcessedArePrefix | src/interaction/flush-selector.ts:13-55 | without failed turns the processed records are always a prefix |
| InteractionRuns.MarkKeepsPrefixExactly | src/interaction/store.ts:321-326 | when one marking of a range keeps the processed records a prefix, exactly |
| InteractionRuns.PrefixesExactlyWhenTurnsFailInTime | src/runtime/turn-service.ts:1321-1325 | over a run the processed records are always prefixes if and only if every failed turn starts at or before the first unprocessed record, or marks nothing |
| InteractionRuns.FailedTurnLeavesGap | src/runtime/turn-service.ts:1321-1325 | a run of three events leaves record 0 unprocessed and record 1 processed |
| Compactors.EstimateText | src/core/truncate-compactor.ts:63-65 | the least number, at least one, that is no less than a quarter of the length |
| Compactors.MessageCost | src/core/truncate-compactor.ts:47-65 | a message costs its text, or its blocks together, each by its own text |
| Compactors.WithoutTakesFromFront | src/core/truncate-compactor.ts:22-41 | evicting k messages strips the evictable ones up to a point and touches nothing after it |
| Compactors.WithoutKeepsOrder | src/core/truncate-compactor.ts:22-43 | what remains is in the old order and contains every protected message |
| Compactors.FewerWeighMore | src/core/truncate-compactor.ts:22-41 | evicting fewer messages never estimates lower, so the first count that fits is the least |
| Compactors.CompactionIsUnique | src/core/truncate-compactor.ts:16-44 | messages, boundary and budget leave only one result |
| Compactors.CompactionExactly | src/core/truncate-compactor.ts:16-44 | in terms of roles and positions: order and protected messages stay, the oldest go first, and what remains fits the budget or is all protected |
| Compactors.TruncateCompactor.Compact | src/core/truncate-compactor.ts:16-44 | a positive budget evicts the least number of oldest evictable messages that makes the rest fit, or all; any other budget evicts all |

## Left out

- PostgreSQL itself: transactions are atomic steps except in the split claim; row locks and advisory locks held by other transactions are arguments; hash collisions of advisory locks, 32-bit integer columns and JSON encoding are not modelled.
- Family state: the model keeps the normalized value of `family_state_json`; the parsing of damaged JSON and counters named like properties of JavaScript's object prototype are not modelled.
- Concurrency keys named like properties of JavaScript's object prototype, which the cap lookup would find there.
- Payloads: only the trigger source, reason and request time that the store reads are modelled; the rest is opaque text.
- ListPages.PagesListEverything: encoding and decoding of cursors is the identity here, except that encoding an empty key raises.
- PgJobStores.PgJobStore.Enqueue: one transaction with nothing committed between its statements; StoreEnqueueRaces covers what others commit meanwhile.
- StoreRuns.RunKeeps: job keys deleted by retention are not enqueued again; the time windows that choose what retention deletes are left open, any set of terminal rows may go.
- The other read-only queries of the store (inspect, listActive, listPendingByKindAndPayload, listExpiredLeases, countByStatus, getHistory) and the cockpit mapping of list items.
- src/jobs/job-persistence-factory.ts: it claims whichever job is next and completes with whatever version it just inspected, so the fencing results do not apply to its callers.
- DispatcherTheorems.MutualExclusion: says nothing of memory.organize, whose cap never binds (DispatcherOutcomes.OrganizeIsNeverHeldBack), and nothing of task.run, whose keys thinker jobs share without being checked.
- Dispatcher recovery from persistence, event emission, logging, timers; the branches of the queue that clean up waiting ids without a job, which the invariant rules out; localeCompare is lexicographic order here.
- The navigator's storage queries, visibility, reranking and evidence assembly: the neighbour map is a function from a node to its edges, read when a layer is expanded.
- Scores are real numbers; floating-point rounding is not modelled.
- The interaction log's other queries, slots of recent cognition and settlement payloads; an empty list that a read leaves behind in the in-memory store, which no operation distinguishes from none; the idempotency key text of a flush request.
- The gateway, command line, prompts, providers and everything else of the repository.
