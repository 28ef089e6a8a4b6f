# Verified model of the distributed task queue

A Dafny model of a multi-tenant task queue whose scheduler is elected by a lease and whose state lives in
Redis. Producers submit to an ingress stream; the leading scheduler admits tasks into a ranked pending set and
dispatches them in key order to an execution stream; workers complete, fail or abandon deliveries; a recovery
loop retries what was never answered or dead-letters it.

Two things are proved in depth.

* **Weighted fair queuing** over the heap-backed pending queue: service follows weight within one job per
  tenant, nobody starves, tags leave in order, each tenant is first-in first-out. These hold for every
  interleaving of `Admit` and `Next`.
* **The lease, fence and hand-off protocol**: any number of schedulers, workers and recovery loops interleave
  atomic scripts over the store, pause, crash, lose replies and resume believing they still lead. For every run:
  one writer at a time in epoch order, no submission lost or admitted twice, tasks handed over in the order they
  were ranked, deliveries pending exactly until answered for, exactly one outcome per task, retries within budget,
  counters that add up.

Around these stand the key encodings, the audits that check the protocol's promises after the fact, the timing
of failover, and Jain's fairness index.

## Layout

| file | what it holds |
|---|---|
| `Text.dfy`, `Sorting.dfy`, `Ordering.dfy` | strings, decimal padding, what sorting guarantees, keys, and the fifo, priority and deadline scores |
| `Wfq.dfy`, `Pending.dfy`, `HeapQueue.dfy` | the fair-queuing policy as an object; the pending queue as a value; the binary heap that implements it |
| `FairShare.dfy`, `Policies.dfy` | what fair queuing, and the stateless policies, promise over runs of the queue |
| `Store.dfy` | the store, one method per script, each against a function on values |
| `Handoff.dfy`, `Selection.dfy` | the invariant of the hand-off, script by script; what a dispatch selects; how long a chain of retries gets |
| `Protocol.dfy` | the whole system as a state machine |
| `Leadership.dfy`, `Journey.dfy`, `Snapshots.dfy`, `Schedules.dfy` | the run-level theorems: single writer; the life of a submission; the saved clock across terms, and exactly when it can go back |
| `Dispatching.dfy`, `Deliveries.dfy` | in what order the engine hands tasks over, and which deliveries are outstanding, over whole runs |
| `Lease.dfy`, `Loops.dfy` | the lease client and the program's loops in sequential form, shown to make only the protocol's steps |
| `Failover.dfy` | the timing of renewal, expiry and takeover |
| `Audit.dfy`, `Monitor.dfy`, `Jain.dfy` | the dispatch-log audits, the epoch monitor, the fairness index |

A reader may start at `FairShare.ServiceFollowsWeight`, `FairShare.DispatchWithinBudget`,
`Leadership.SingleWriter`, `Leadership.GoneForGood`, `Journey.NoSubmissionIsLost`, `Journey.AdmittedOnce`,
`Journey.CountersAddUp`, `Journey.OutcomeIsFinal` and `Journey.RetriesStayInBudget`.

Every run of the protocol is covered by `Leadership`, resets and forged worker messages included. `Journey` is
about honest runs: workers answer only for entries they were given, judge retries by the configured budget, and
nobody wipes the namespace meanwhile. `Loops.dfy` proves of the engine's, the recovery loop's and the workers'
code that, running alone, it makes only honest steps, and `Journey.AnswersStayHonest` that what such a loop has found
out stays honest to act on while others run.

Where the code and its comments disagree the model follows the code. Found on the way:

* `Lease.TTL` is documented as the upper bound on failover time after a hard crash (`internal/lease/lease.go:178-180`,
  and `internal/config/defaults.go:43-44`). The standby only polls every `retry`: the outage exceeds the ttl exactly
  when it waits longer for the next poll than the crash came after the last renewal (`Failover.OutageIsExact`), and no
  configuration with `retry` above a millisecond is free of that (`Failover.TtlBoundsOutage`).
* Saving the policy state is described as letting a restarted scheduler resume with the same virtual clocks
  (`internal/broker/broker.go:710-712`). The successor's read is not guarded, so a superseded term's flush that lands
  after that read is undone by the successor's first flush (`Snapshots.SavedClockCanGoBack`). The order in which terms
  read, write and save decides whether that can happen (`Schedules.ScheduleDecides`).
* Per-tenant first-in first-out order is described as following from the tags (`internal/scheduler/wfq/wfq.go:56-59`).
  It does within a term, over whole runs of the engine (`Dispatching.TenantOrderIsKept`); after a restore from an older snapshot it need not
  (`Wfq.RanksHigherAcrossTerms`, `Wfq.LostRankReorders`).
* The console measures gaps in stream order and the benchmarks on sorted stamps. Dispatches and retries are stamped by
  different clocks, and the two measurements agree on every window only if stamps never decrease
  (`Audit.GapAuditsAgreeIff`).
* Members order by time exactly from 1970 until the year 2286; earlier times are valid and sort backwards
  (`Ordering.MemberRangeIsExact`, `Ordering.MemberOrderBelowZero`). The sentinel for "no deadline" works exactly for
  deadlines below it (`Ordering.EdfSentinelIsExact`).

## Model

| member | source | states |
|---|---|---|
| `Text.FixedOrder` | internal/scheduler/policy/policy.go:28-32 | zero-padded numbers followed by anything compare as the numbers do, then as what follows |
| `Ordering.TaskIdFromMember` | internal/scheduler/policy/policy.go:35-42 | the index scan returns what follows the first separator, or an error when there is none |
| `Ordering.MemberRoundTrip` | internal/scheduler/policy/policy.go:28-42 | the id comes back out of the member of every task, even if it contains the separator or the time is negative or too wide |
| `Ordering.MemberOrder` | internal/scheduler/policy/policy.go:22-50 | for times in range, members compare as (submission time, id), both directions |
| `Ordering.MemberRangeIsExact` | internal/scheduler/policy/policy.go:28-32 | from 1970 on, a time sorts after every earlier one, whatever the ids, if and only if it has at most 13 digits |
| `Ordering.MemberOrderBelowZero` | internal/scheduler/policy/policy.go:28-32 | times before 1970 sort before all later ones, and backwards among each other exactly as far back as the padding reaches |
| `Ordering.AtMostIsTransitive` | internal/scheduler/policy/policy.go:45-50 | "not after" under Key.Less is transitive |
| `Ordering.KeyOrderIsTotal` | internal/scheduler/policy/policy.go:45-50 | of two keys exactly one precedes the other, unless they are equal |
| `Ordering.FifoOrder` | internal/scheduler/fifo/fifo.go:25-30 | keys compare as (submission time, id), for all times |
| `Ordering.PriorityOrder` | internal/scheduler/priority/priority.go:11-50 | one packed score puts higher priorities first, then earlier times, then ids, for tasks submitted within one band of each other; priorities past the same end of 0..255 count as equal; for times in range it stays below 2^53 |
| `Ordering.BandIsExact` | internal/scheduler/priority/priority.go:14-21 | a higher priority goes before every lower one submitted d milliseconds earlier if and only if d is below the band width |
| `Ordering.PriorityIsClamped` | internal/scheduler/priority/priority.go:38-44 | a priority above 255 ranks as 255 and one below 0 as 0 |
| `Ordering.EdfOrder` | internal/scheduler/edf/edf.go:14-53 | keys compare as (deadline, submission time, id), undated tasks last, for dates below the sentinel |
| `Ordering.EdfSentinelIsExact` | internal/scheduler/edf/edf.go:14-53 | undated tasks come after a task due at d, whatever their times, if and only if d is below the sentinel |
| `Wfq.WfqPolicy.New` | internal/scheduler/wfq/wfq.go:76-96 | succeeds exactly when the default weight is not negative and every tenant weight is positive; a zero default means 1 |
| `Wfq.WfqPolicy.Rank` | internal/scheduler/wfq/wfq.go:113-128 | the tag is virtual time or the tenant's last tag, whichever is later, plus the declared milliseconds, one at least, over the configured weight; the tenant's tag moves there, virtual time stays |
| `Wfq.WfqPolicy.Notify` | internal/scheduler/wfq/wfq.go:131-136 | virtual time moves to the dispatched tag and never back |
| `Wfq.WfqPolicy.State` | internal/scheduler/wfq/wfq.go:141-148 | the saved fields are the clock's, all of them and no others |
| `Wfq.WfqPolicy.Restore` | internal/scheduler/wfq/wfq.go:151-175 | fields are applied in ascending order up to the first unusable one, which is the one reported |
| `Wfq.RestoreUndoesSave` | internal/scheduler/wfq/wfq.go:141-175 | restoring what was saved gives exactly the saved clock, for any tenant names, so every later key is the same |
| `Wfq.ClockOnlyGrows` | internal/scheduler/wfq/wfq.go:113-136 | within a term, in any order of Rank and Notify, virtual time and every finish tag only grow, and a new tag exceeds its tenant's previous one |
| `Wfq.LaterRanksHigher` | internal/scheduler/wfq/wfq.go:56-59 | within a term a tenant's later task gets a higher tag, whatever is ranked and dispatched in between |
| `Wfq.RanksHigherAcrossTerms` | internal/scheduler/wfq/wfq.go:56-59 | on a restored clock every later task of a tenant ranks behind an earlier tag if and only if the tenant's next start plus the share of the cheapest task passes it |
| `Wfq.LostRankReorders` | internal/scheduler/wfq/wfq.go:56-59 | after a restore from before a task was ranked, some later task of its tenant ranks in front of it, unless it costs the least there is |
| `Pending.RunConservesEntries` | internal/scheduler/policy/queue.go:49-64 | over every run and policy, pending plus admitted equals dispatched plus still pending, as multisets |
| `HeapQueue.RootIsLeast` | internal/scheduler/policy/queue.go:13-26 | no entry of a heap precedes its root |
| `HeapQueue.Queue.Up` | internal/scheduler/policy/queue.go:13-26 | sifting a last entry up restores the heap in place and keeps the entries |
| `HeapQueue.Queue.Down` | internal/scheduler/policy/queue.go:13-26 | sifting the root down restores the heap in place, keeps the entries and leaves the slots past the end alone |
| `HeapQueue.Queue.Admit` | internal/scheduler/policy/queue.go:49-53 | the heap now stands for the pending queue with this task ranked and added |
| `HeapQueue.Queue.Next` | internal/scheduler/policy/queue.go:57-65 | removes an entry no pending key precedes, keeps all the others, and tells the policy; nothing only when nothing is pending |
| `HeapQueue.Queue.Drain` | internal/scheduler/policy/queue.go:68-77 | empties the queue, yielding every entry in key order |
| `HeapQueue.Queue.PendingCount` | internal/scheduler/policy/queue.go:80 | the heap's length is the number of pending entries |
| `Policies.FifoServesOldest` | internal/scheduler/fifo/fifo.go:25-30 | in every run of the queue under fifo no pending task was submitted before the one dispatched |
| `Policies.PriorityServesHighest` | internal/scheduler/priority/priority.go:23-50 | under priority none pending is of higher priority, and none of the same was submitted before |
| `Policies.EdfServesMostUrgent` | internal/scheduler/edf/edf.go:14-53 | under earliest deadline first none pending is due before, an undated task goes only when no dated one is left, and none due at the same time was submitted before |
| `FairShare.RunKeepsInv` | internal/scheduler/wfq/wfq.go:113-136 | each tenant's pending tasks are a chain of abutting intervals that starts around virtual time and ends at its finish tag, in every run |
| `FairShare.TagsAreNotBehind` | internal/scheduler/wfq/wfq.go:113-136 | every pending tag is at least virtual time |
| `FairShare.TagsLeaveInOrder` | internal/scheduler/policy/queue.go:49-64 | dispatched tags never decrease although tasks keep arriving, and virtual time is the last of them |
| `FairShare.TenantsAreFifo` | internal/scheduler/policy/queue.go:49-64 | each tenant's tasks leave in admission order: backlog then admissions equals dispatches then remaining backlog |
| `FairShare.RunProgress` | internal/scheduler/wfq/wfq.go:113-136 | a tenant's progress in virtual time rises by at least its service per weight, and by exactly that while it is backlogged |
| `FairShare.ProgressNearClock` | internal/scheduler/wfq/wfq.go:113-136 | progress never passes virtual time and lags it by at most one task's share: nobody banks credit |
| `FairShare.ServiceFollowsWeight` | internal/scheduler/wfq/wfq.go:22-51 | over any window in which two tenants stay backlogged, the milliseconds dispatched per configured weight differ by at most one longest task of each |
| `FairShare.WaitIsBounded` | internal/scheduler/wfq/wfq.go:22-43 | while a task waits, any other tenant is served no more milliseconds per configured weight than the task's tag is away from virtual time, plus one task |
| `FairShare.IdleTenantsDistance` | internal/scheduler/wfq/wfq.go:113-128 | for a tenant with nothing pending that distance is exactly its own milliseconds over its configured weight, whatever others have queued |
| `FairShare.DispatchWithinBudget` | internal/scheduler/wfq/wfq.go:22-43 | at most a number of dispatches fixed by the present queue can precede a pending task, however many tasks those tenants go on to submit |
| `Store.Store.Fenced` | internal/broker/scripts.go:33-42 | refuses exactly positive epochs below the fence; otherwise the fence rises to the epoch |
| `Store.Store.Admit` | internal/broker/scripts.go:68-108 | writes payload, score and age once under the key given, refuses known ids, changes nothing when fenced |
| `Store.Store.Dispatch` | internal/broker/scripts.go:127-185 | the dispatch loop equals repeated single turns under the count and the cap, and reports what they handed over |
| `Store.Store.Complete` | internal/broker/broker.go:437-463 | records the first completion of an id and only counts later ones; either way this delivery leaves the pending entries list and no other does |
| `Store.Store.RetryOrDeadLetter` | internal/broker/broker.go:483-519 | redelivers with one more retry, dead-letters past the budget, or only acknowledges a finished task; in all three this delivery leaves the pending entries list and no other does |
| `Store.AttemptIdNamesAttempt` | internal/broker/broker.go:483-488 | two retries of one id carry the same attempt id if and only if they are the same attempt number |
| `Store.Store.SaveState` | internal/broker/scripts.go:317-337 | replaces the whole saved state by the arguments unless fenced |
| `Store.Store.AcquireLease` | internal/lease/lease.go:200-215 | grants a free lease under the next epoch and leaves a held one alone |
| `Store.Store.RenewLease` | internal/lease/lease.go:224-230 | extends exactly the grant that holds the key |
| `Store.Store.ReleaseLease` | internal/lease/lease.go:239-245 | deletes the key only if this grant holds it |
| `Store.Store.Reset` | internal/broker/keys.go:88-112 | clears every key but the epoch counter and the fence |
| `Store.SplitUndoesHolderValue` | cmd/storefaultbench/main.go:741-749 | owner and epoch come back out of a holder value even if the owner contains the separator |
| `Store.HolderValueIsInjective` | internal/lease/lease.go:211-213 | a holder value names one owner and one epoch |
| `Handoff.AdmitKeepsInv` | internal/broker/scripts.go:68-108 | an admission keeps the hand-off invariant: ids, pending members, streams, lineage, nothing lost, counters, outcomes, tallies |
| `Handoff.PoppedMemberHasPayload` | internal/broker/scripts.go:156-176 | the dispatch branch that silently drops a member without payload is unreachable; what is handed over is the task as admitted |
| `Handoff.DispatchKeepsInv` | internal/broker/scripts.go:127-185 | a dispatch of any size keeps the invariant |
| `Handoff.CompleteKeepsInv` | internal/broker/scripts.go:198-242 | a completion, first or duplicate, early or late, keeps the invariant |
| `Handoff.RetryKeepsInv` | internal/broker/scripts.go:252-300 | a retry keeps the invariant in all three outcomes |
| `Selection.DispatchSelects` | internal/broker/scripts.go:127-185 | without its loop: exactly min(count, pending, room under the cap) tasks, the least keys in ascending order, removed from both sorted sets and appended under the epoch |
| `Selection.DispatchFollowsKeys` | internal/broker/scripts.go:148-176 | whoever a dispatch hands over, everything pending with a lesser key is handed over before |
| `Selection.DispatchStopsWhenItMust` | internal/broker/scripts.go:148-157 | short of its count a dispatch stops only when nothing is pending or the cap is reached |
| `Selection.DispatchRespectsCap` | internal/broker/scripts.go:148-153 | a dispatch never takes the in-flight count past its cap |
| `Selection.PendingAgeIsSubmission` | internal/broker/broker.go:608-617 | the least age is the earliest submission among tasks never dispatched |
| `Selection.ChainsAreBounded` | internal/broker/broker.go:483-519 | every execution entry goes back to a dispatch of its task as admitted, in as many steps as its retry count has risen, within its budget |
| `Leadership.RunKeepsLease` | internal/lease/lease.go:192-245 | the lease invariant survives every run, resets included |
| `Leadership.SingleWriter` | internal/broker/scripts.go:12-42 | in every run guarded writes are sorted by epoch, each epoch was issued to exactly one grant, and stamped epochs on the execution stream never decrease |
| `Leadership.HolderIsNotFenced` | internal/broker/scripts.go:20-31 | the live holder's epoch is the counter's and is never refused |
| `Leadership.RefusalMeansSuperseded` | internal/broker/scripts.go:20-31 | a refusal implies a newer grant that has written, and that the refused epoch does not hold the lease |
| `Leadership.RefusalIsPermanent` | internal/broker/scripts.go:20-31 | an epoch once refused is refused for the rest of the run |
| `Leadership.GoneForGood` | internal/lease/lease.go:217-245 | once a grant's value has left the key it never returns, so its renewals and releases do nothing to a successor |
| `Journey.RunKeepsJourney` | internal/scheduler/engine.go:308-417 | the invariant of intake, hand-off and history survives every honest run |
| `Journey.ReadingTakesNext` | internal/broker/broker.go:247-275 | a read of the ingress stream brings the next entries nobody has read, in order, as many as asked for and there are, all pending from then on |
| `Journey.NoSubmissionIsLost` | internal/scheduler/engine.go:308-417 | in every run each valid submission is unread, unacknowledged, finished, waiting, or in an execution entry somebody has yet to answer for |
| `Journey.AdmittedOnce` | internal/scheduler/engine.go:355-417 | each id enters the pending set once if it is known and never otherwise, as a valid task that was submitted, through stale answers, lost replies and reclaims |
| `Journey.CountersAddUp` | internal/broker/scripts.go:68-300 | admitted = unfinished + finished; unfinished = pending + in flight; finished = completed + dead-lettered = results + dead letters; the stream holds dispatches + retries; one record per finished id; tallies match the results |
| `Journey.InflightIsExact` | internal/broker/scripts.go:148-180 | the in-flight counter is the number of unfinished tasks that have been dispatched |
| `Journey.OutcomeIsFinal` | internal/broker/scripts.go:187-300 | once an id has an outcome, no later duplicate, retry or late completion adds a record or removes one |
| `Journey.CapHolds` | internal/broker/scripts.go:148-153 | if every leader uses one cap, no reachable state has more tasks in flight |
| `Journey.RetriesStayInBudget` | internal/recovery/recovery.go:70-154 | in every run redeliveries carry the task's own budget, or the configured one if it came with none, and the id of their attempt; chains have at most budget + 1 deliveries, dead letters record budget + 1 attempts |
| `Journey.SnapshotIsWhole` | internal/broker/scripts.go:302-337 | the saved policy state is one term's whole last snapshot, and the terms of successive snapshots never decrease |
| `Dispatching.WaitsUnderAdmittedScore` | internal/broker/scripts.go:94-96 | in every run a waiting task stands in the pending set with the score its one admission carried |
| `Dispatching.DispatchFollowsAdmissions` | internal/broker/scripts.go:127-185 | of two waiting tasks the one admitted under the lesser key is handed over first, whatever happens in the run from then on |
| `Dispatching.LaterKeyGoesAfter` | internal/broker/scripts.go:68-185 | a task admitted under a greater key than an earlier one, which may have gone meanwhile, is handed over after it |
| `Dispatching.TenantOrderIsKept` | internal/scheduler/wfq/wfq.go:56-59 | over whole runs of the engine, of two tasks of a tenant ranked in one term the later is never handed over unless the earlier has been |
| `Deliveries.PendingIsUnanswered` | internal/broker/scripts.go:198-300 | in every run the pending entries list is exactly the deliveries nobody has completed or retried |
| `Deliveries.AnsweredForGood` | internal/broker/scripts.go:247-300 | a delivery once answered for, first or duplicate, never becomes claimable again |
| `Deliveries.ReadingDelivers` | internal/broker/broker.go:381-397 | a read delivers the next entries nobody has been given, as many as asked for and there are |
| `Deliveries.CountersMatchRun` | internal/broker/scripts.go:148-236 | results recorded plus duplicates counted is the number of completions that reached the store; dispatches counted are the entries stamped with an epoch, retries all the others |
| `Deliveries.RecordsAreOfDeliveries` | internal/broker/broker.go:483-506 | every result names, and every dead letter holds, an attempt that was delivered, under its attempt id |
| `Deliveries.PayloadIsNewestAttempt` | internal/broker/scripts.go:289-296 | the payload kept for a dispatched unfinished task is the attempt in its newest execution entry |
| `Lease.Lease.Acquire` | internal/lease/lease.go:249-325 | wins under a new epoch, finds the lease held, or spends an epoch it never acts on, when too few replicas confirm it or the answer is lost |
| `Lease.Lease.Renew` | internal/lease/lease.go:330-348 | true means it holds the current, unfenced epoch; false means it forgets the grant; a failed round trip changes nothing |
| `Lease.Lease.Release` | internal/lease/lease.go:352-379 | forgets the grant and removes the key only if the key was this very grant's |
| `Loops.AdmitBatch` | internal/scheduler/engine.go:308-354 | from pre-check to acknowledgement, with any call failing: only honest steps, the store as the protocol says, each score the one the policy gives in turn, and exactly the entries before the first refusal or failure acknowledged, each of them invalid or known |
| `Loops.BatchRanksInOrder` | internal/scheduler/engine.go:308-354 | within a batch a tenant's entries are admitted under rising scores |
| `Loops.KnownIds` | internal/broker/broker.go:902-930 | reports exactly the asked-for ids found by the first read in the payloads or by the second among the finished |
| `Journey.TwoReadsAreEnough` | internal/broker/broker.go:902-930 | however tasks move between the two reads, no id known at the first is missed and every reported id is known at the second |
| `Journey.AnswersStayHonest` | internal/worker/worker.go:237-330 | what was honest to send stays honest along any honest run, so loops shown alone stay honest among others |
| `Loops.DispatchRound` | internal/scheduler/engine.go:422-456 | one honest dispatch; the answer is what it handed over, and the policy hears of it in order; a refused or unanswered round leaves the policy unaware |
| `Loops.HeardIsLatest` | internal/scheduler/engine.go:449-453 | hearing of an ascending batch leaves virtual time at its last tag |
| `Loops.FlushState` | internal/scheduler/engine.go:268-273 | once it has arrived, and unless fenced, the store holds the policy's state and nothing else; the caller learns which if answered |
| `Loops.RestoreState` | internal/scheduler/engine.go:251-266 | from any term's snapshot the new leader gets that term's clock; an empty store or a failed read leaves its policy as it is; an unusable field is named |
| `Loops.LateFlush` | internal/scheduler/engine.go:251-273 | call by call: an older term's flush after its successor's read reaches the store, and the successor's flush then puts back what it had read |
| `Schedules.ScheduleDecides` | internal/scheduler/engine.go:172-184 | without resets, the saved virtual time never goes back in any run of a schedule of reads, writes and saves if and only if no term in it saves after an older one has saved between its read and its own first write |
| `Schedules.ScheduleDecidesStaleness` | internal/scheduler/engine.go:172-184 | whether a run has such a save depends on its schedule alone, not on clocks or on what was saved |
| `Schedules.Outrun` | internal/scheduler/engine.go:172-184 | every schedule with such a save has a run in which the saved clock goes back |
| `Snapshots.SnapshotsNeverGoBack` | internal/scheduler/engine.go:172-184 | over every run without resets and without such saves, successive snapshots never go back in virtual time |
| `Snapshots.OnlyStaleSavesGoBack` | internal/scheduler/engine.go:251-273 | in any run without resets, only a save by a term gone stale can put the saved clock back, and it does when that term is behind |
| `Snapshots.StaleBeforeWriting` | internal/scheduler/engine.go:251-273 | a term goes stale only between its read and its own first guarded write |
| `Snapshots.SavedClockCanGoBack` | internal/scheduler/engine.go:251-273 | a run from the beginning in which it does |
| `Loops.WipeNamespace` | internal/broker/broker.go:183-188 | on the store a reset is the protocol's Reset: every key but the epoch counter and the fence is gone |
| `Loops.RecoveryLoop.Once` | internal/recovery/recovery.go:116-154 | handles each claimed delivery in order by one honest retry under the task's budget, up to the first call that fails; keeps the cursor unless the reclaim itself failed |
| `Loops.Execute` | internal/worker/worker.go:237-330 | abandons, retries under the budget, or completes with a result about this very attempt and the times measured, by at most one honest step; a failed call leaves it not knowing |
| `Failover.ServeTerm` | internal/lease/lease.go:441-487 | a term keeps its lease exactly as long as no two renewals that get through are a whole ttl apart |
| `Failover.SteadyLeaderKeepsLease` | internal/lease/lease.go:441-487 | renewing every `renew` < ttl leaves no moment without the key |
| `Failover.ShortCutKeepsLease` | internal/lease/lease.go:466-478 | a cut of at most ((ttl - 1) / renew - 1) * renew, wherever it falls, never lets the key go |
| `Failover.SafeCutReaches` | internal/lease/lease.go:466-478 | that is at least ttl - 2 renew, and exactly that when renew divides the ttl |
| `Failover.CutThreshold` | internal/lease/lease.go:466-478 | for every configuration a cut of some length can cost the lease if and only if it is longer than that |
| `Failover.RenewUntil` | internal/lease/lease.go:453-455 | the key of a crashed leader goes a ttl after the last point of the renewal grid before the crash |
| `Failover.Poll` | internal/lease/lease.go:399-417 | a standby acquires at the first point of its polling grid at or after the expiry |
| `Failover.OutageIsBounded` | internal/lease/lease.go:390-487 | after a crash a polling standby leads within (ttl - renew, ttl + retry) |
| `Failover.OutageIsExact` | internal/lease/lease.go:390-487 | the outage is the ttl less the time since the last renewal plus the wait for the next poll, so within the ttl if and only if that wait is no longer than that time |
| `Failover.OutageRange` | internal/lease/lease.go:390-487 | a configuration can cost exactly the outages strictly between ttl - renew and ttl + retry, all of them |
| `Failover.TtlBoundsOutage` | internal/lease/lease.go:178-180 | the ttl bounds every outage of a configuration if and only if retry is one millisecond |
| `Audit.EpochInversions` | cmd/failoverbench/main.go:862-876 | counts exactly the stamped entries that follow a higher epoch |
| `Audit.CleanIffInOrder` | cmd/failoverbench/main.go:852-861 | the count is zero if and only if stamped epochs never decrease |
| `Audit.TimedOfBoth` | internal/console/dispatch.go:77-80 | the entries scanned are those with a timestamp, all of them, in stream order |
| `Audit.ScanDispatches` | internal/console/dispatch.go:64-106 | one pass over the timed entries gives the inversions, unstamped entries, bucket counts, epochs, every reportable gap once and in order, first longest gap and last time |
| `Audit.SummariseDispatches` | internal/console/dispatch.go:64-129 | the scan, its buckets by time and epoch, its epochs ascending, and its gaps: all as they came, or the twenty longest by start |
| `Audit.SlotSpansEntry` | internal/console/dispatch.go:83-84 | an entry in the window is in the bucket that spans its time, on the grid that begins with the window |
| `Audit.AuditsAgree` | internal/console/dispatch.go:77-104 | on timed entries the console's summary of them and the benchmark's scan count the same inversions, none exactly when stamped epochs never decrease |
| `Audit.ReachableLogIsClean` | internal/broker/scripts.go:12-42 | any window of the execution stream of any run has no inversion, retries interleaved and resets included |
| `Audit.MaxGapMs` | cmd/failoverbench/main.go:878-886 | the longest step between neighbouring stamps |
| `Audit.DispatchStamps` | cmd/failoverbench/main.go:840-850 | the timestamps, all of them, in ascending order |
| `Audit.GapAuditsAgree` | cmd/failoverbench/main.go:487-488 | console in stream order and benchmark on sorted stamps report the same longest gap when timestamps never decrease |
| `Audit.GapAuditsAgreeIff` | internal/console/dispatch.go:93-105 | they agree on every window of a log if and only if its timestamps never decrease and none after the Unix epoch follows one at it |
| `Audit.GapAuditsCanDiffer` | internal/console/dispatch.go:93-105 | a log of three entries, one out of step, where the console reports four seconds and the benchmark three |
| `Audit.OutageAround` | cmd/failoverbench/main.go:892-912 | the step that brackets the kill, or from the kill when nothing came before; nothing when nothing follows |
| `Monitor.EpochWatch.Observe` | cmd/storefaultbench/main.go:683-700 | reports reuse exactly when a positive token was recorded before, with its first owner, and records new ones |
| `Monitor.TermsAreSampled` | cmd/storefaultbench/main.go:706-739 | the terms are exactly the values polls found, consecutive repeats taken once |
| `Monitor.EpochWatch.WatchEpochs` | cmd/storefaultbench/main.go:706-739 | a reported reuse is real, and one is reported exactly when two of the terms seen share a token |
| `Monitor.MonitorStaysQuiet` | cmd/storefaultbench/main.go:706-711 | polled at any moments of any run, with polls failing, no two terms seen share a token |
| `Jain.SquareOfSum` | internal/bench/stats.go:57-90 | the square of the sum is at most n times the sum of squares, equal just when all entries are |
| `Jain.SumOfSquaresIsLess` | internal/bench/stats.go:57-90 | the sum of squares is at most the square of the sum, equal just when at most one entry is not zero |
| `Jain.JainFairness` | internal/bench/stats.go:74-90 | undefined for no tenants, else in [1/n, 1]; 1 exactly when all are equal; 1/n exactly when one received everything; negatives count as zero |

## Left out

- Rounding: fair-queuing tags and weights, and Jain's index, are real numbers; only the 2^53 bound on packed scores is kept.
- Redis and its client: each script is one atomic step; streams are sequences whose entry ids are positions; payload encodings are the identity; idle times in reclaims are left open, so any pending entry may be claimed at any time.
- A script in `Store` works on a copy of the hand-off keys and writes them back together, rather than writing key by key; inside one atomic script nobody can tell the difference.
- Lost writes of the store: Sentinel failover is not part of this model, and the theorems fail under it. A failed wait for replicas is modelled only as an epoch spent.
- `max_len` trimming, malformed stream entries, epoch <= 0 (election off) and the benchmark arm whose execution stream is the ingress stream.
- `Reset` is in the runs of `Leadership`, not in those of `Journey`, because workers may hold deliveries across it, nor in those of `Snapshots` and `Schedules`, because it empties the saved state.
- The interleaving of the engine's goroutines, recovery loops and workers is the state machine of `Protocol.dfy`; `Loops.dfy` shows each loop alone. Their select loops, tickers, back-off, metrics and logging are not modelled.
- Virtual time across terms: a successor's read of the saved state is not fenced, so an older term may still flush after it; across terms nothing more is claimed than `Journey.SnapshotIsWhole` and what `Snapshots` and `Schedules` prove. Service by weight is claimed for `Queue`, not for the engine, where the policy hears of a dispatch only after the script returns; for the engine the order of any two tasks is (`Dispatching`).
- Liveness: duplicate claims can branch deliveries without a fixed bound; the bounds on retries are per chain.
- The heap code is Go's `container/heap` as `Queue` uses it.
- Integers are unbounded; the overflow of 64-bit epochs, counters and parsed numbers is not modelled.
- Store.Store.RenewLease: the expiry it moves is not part of the store's state; `Protocol.Expire` may happen at any time, and `Failover` has the clock.
- Audit.SummariseDispatches: which of several equally long gaps survives the cut is open in the program and left open in the contract.
- Audit.MaxGapMs: whole milliseconds; the program goes through floating-point seconds.
- Failover.ServeTerm: whole milliseconds, exact timers and instantaneous round trips; cancellation and a leader loop that returns early are not modelled.
- Monitor.EpochWatch.WatchEpochs: one list of samples instead of an endless ticker; the mutex is taken as making each call atomic.
- The HTTP console, web interface, plotting, CSV, fault proxy, process supervision, configuration files and workload generation.
