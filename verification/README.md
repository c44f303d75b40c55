# Verified model of the edge node's coordination and caching core

This project models the parts of the edge node where a mistake would be hard to see by reading
one function: the two-phase configuration reload across workers, the response cache root that
workers replace by compare-and-swap, the CC rate limiter with its node-wide aggregator, the
expression compiler with its stack machine, and a group of fast algorithms that each have a
simple meaning (interval tree, range streaming, origin cursor, wildcard, cache key, disk record,
log delivery). Protocols are step systems whose main theorems hold for every run; code that
changes fields, arrays or strings in place is a class or a method with its loops, proved equal to
a function whose properties the lemmas state.

`dafny verify dfyconfig.toml` checks everything.

| part | modules |
|---|---|
| Reload protocol | DataWorker, DataWorkerProcess, DataPlane, DataPlaneControl, OperationLease |
| Response cache | CacheRoot, CacheRuns, CacheVariants, CachePublication, CacheRootLog, CacheEviction, CacheKey, Wildcard |
| Disk record | DiskNumbers, DiskRecord, DiskRecordStream |
| CC protection | CcWindow, CcWorker, CcAggregator, CcNode |
| Expressions | RequestExpression, ExpressionParser, ExpressionMachine, ExpressionRun, ExpressionPrinting, ExpressionAtoms, ExpressionForms |
| IP lists | MatchList, AddressNetworks |
| Range responses | CacheRange, RangeResponse, RangeDrivers |
| Log delivery | LogDelivery, LogDeliveryProcess |
| Origin selection | OriginSelection, OriginCursor |
| Shared | Wrappers, Text |

Two statements one might expect are false of the code, and the model says exactly when they hold.
`cache_wildcard` compares characters before it looks for a star, so a `*` in the value is matched
literally by a `*` in the pattern; it agrees with the usual meaning of a pattern for every pattern
exactly when the value contains no `*`. In an IP list a network such as `::/0`, wider than the
IPv4-mapped block, does not cover mapped addresses, because they are looked up as IPv4.

What the surroundings decide is a parameter of the model: deadlines, refused sends, lost replies,
build failures, health, time, read sizes, stop tokens, and the leaf predicates of expressions
(field values, lists, RE2, UTF-8 and token checks).

## Model

| member | source | states |
|---|---|---|
| `DataPlane.Agreement` | node/data/data_plane.h:311-355 | In every run of any number of workers: when no reload holds the lease and no rollback is left unconfirmed, every live worker serves the configuration of the last committed sequence |
| `DataPlane.OnlyCommittedOrCandidate` | node/data/data_plane.h:323-337 | At any moment of a reload a live worker serves the committed configuration, or the candidate while it still holds the committed one to return to |
| `DataPlane.CommitNeedsEveryVote` | node/data/data_plane.h:323-355 | A commit is enabled only when no worker is known to have retired and every live worker has activated exactly that sequence |
| `DataPlane.CommitsAreNeverRolledBack` | node/data/data_plane.h:434-461 | No worker ever handles a rollback or discard of a sequence that is committed in that run, before or after |
| `DataPlane.PrepareNeverFindsUndecided` | node/data/data_worker.h:412-424 | A prepare at the head of a live worker's queue never meets an undecided tentative reload once the decision it carries is applied, so the source's missing-decision error is unreachable |
| `DataPlane.ConfirmedRollbackIsComplete` | node/data/data_plane.h:434-461 | The step that confirms a rollback leaves every live worker settled at that sequence, without a participant of it, without a queued transaction request, and serving the decided configuration |
| `DataPlane.AbortLeavesDecided` | node/data/data_plane.h:434-461 | After any abort, by rollback or by giving up a prepared reload, no live worker has voted for the candidate, none has a transaction request queued, and all serve the decided configuration |
| `DataPlane.DecisionsReachWorkers` | node/data/data_worker.h:237-240 | In every run without an unconfirmed rollback, handling one request leaves an uncommitted tentative reload alone unless it is its own rollback, which restores what was there before; a committed one is never undone, and is settled by any request that carries its number and at the latest by the next transaction request |
| `DataPlane.LostFinalizeIsRecovered` | node/data/data_plane.h:339-355 | In every run without an unconfirmed rollback, whatever became of the finalize: once a worker has handled what was queued when a reload was committed, the first request after that settles it without touching the configuration it serves; only CC dispositions and discards, which carry no decision, leave it to the next request |
| `DataPlane.RunKeeps` | node/data/data_plane.h:180-197 | The invariant over coordinator stage, queues, results and workers holds after every run; DataPlane.StepKeeps has it for each step |
| `DataPlane.StepKeeps` | node/data/data_plane.h:481-507 | Every step, with refused sends, lost replies, retirements and worker work in any order, keeps that invariant |
| `DataPlane.SendingAwaitsAll` | node/data/data_plane.h:481-507 | A prepare or activate goes out to all workers and awaits all of them, unless one refuses it or is known to have retired, which fails the reload |
| `DataPlane.VotesAreCounted` | node/data/data_plane.h:311-337 | An awaited reply is counted once; the reload becomes ready, or voted, exactly when the last outstanding worker has answered and every answer was yes, and fails when all have answered and one was no |
| `DataPlane.RollbackIsCounted` | node/data/data_plane.h:434-461 | A rollback is confirmed exactly when every worker has answered yes or is known to have retired, and the plane then stops if any has; a no or a second answer leaves it unconfirmed and stops the plane |
| `DataPlane.OthersAreIgnored` | node/data/data_plane.h:311-337 | A reply that is not awaited changes nothing; a retirement is noted and fails a vote under way, and so does a second answer of one worker |
| `DataPlaneControl.Coordinator.Send` | node/data/data_plane.h:481-507 | The sending loop enqueues the request exactly on the channels that accept and fails as the step function does when one refuses |
| `DataPlaneControl.Coordinator.CommitReload` | node/data/data_plane.h:339-355 | Recording the decision sends the best-effort finalize to the workers and sets the committed sequence |
| `DataPlaneControl.Coordinator.Collect` | node/data/data_plane.h:311-337 | The reply-collecting loop ends collected, waiting or refused exactly where the step functions over the same replies end, with the same votes and retirements |
| `DataWorker.ExchangeIsInvolution` | node/data/data_worker.h:481-493 | Exchanging runtime and reload twice gives back both exactly: TLS set, health membership, listener map and execution |
| `DataWorker.AbortedReloadsRestoreRuntime` | node/data/data_worker.h:522-540 | After any sequence of prepares, activations, rollbacks and discards without a decision, the runtime to return to is the one at the start, and it is the active one whenever no tentative reload is open |
| `DataWorker.SettledSequencesStayClosed` | node/data/data_worker.h:508-540 | Over any requests the settled sequence never falls and no settled sequence is opened again |
| `DataWorker.RunKeepsServing` | node/data/data_worker.h:508-568 | Over any requests: until admission stops, no listener of the active map or of the other map of a reload has been asked to stop; from then on every listener ever owned has been; listener identities stay distinct |
| `DataWorker.PrepareHoldsCandidate` | node/data/data_worker.h:412-480 | A successful prepare leaves the runtime alone. For changed content it holds the candidate's TLS set and health, and exactly these listeners: clear text on each endpoint's HTTP port, TLS on its HTTPS port when there are certificates, none when disabled; active ones are kept under their keys, all others are new and are the additions, and the active ones under other keys are the retired ones. For unchanged content it holds the configuration alone |
| `DataWorker.ActivateInstallsCandidate` | node/data/data_worker.h:494-507 | Activating a prepared candidate makes exactly that configuration, TLS set, health and listener map the runtime, and stops nothing |
| `DataWorker.DecisionStopsExactly` | node/data/data_worker.h:508-540 | Finalizing keeps the candidate and stops exactly the active listeners it does not want; rolling back, before the activate or after it, brings back the whole runtime and stops exactly the new listeners; either settles the sequence |
| `DataWorker.PrepareSucceedsExactly` | node/data/data_worker.h:412-460 | A prepare succeeds exactly for an unsettled, newer sequence, before its deadline both times, on a worker that admits and holds no tentative reload, with a configuration not older than the active one, and resources that can be built when the content changed |
| `DataWorker.ConfigurationsNeverGoBack` | node/data/data_worker.h:412-460 | Over any requests the configuration a worker serves or would return to never becomes older, in its specification or in its release, and one number never stands for two contents |
| `DataWorker.RepliesExactly` | node/data/data_worker.h:223-292 | Which requests are answered, and with which verdict: an activate exactly when its sequence is the prepared one, unsettled and in time on a worker that admits |
| `DataWorker.EndsExactly` | node/data/data_worker.h:508-568 | What rollback, discard, finalize and the end of admission do to the participant of their sequence, to others and to the runtime; requests outside a transaction do nothing beyond the decision they carry |
| `DataWorker.SettleClosesExactly` | node/data/data_worker.h:237-240 | The decision a request carries closes exactly a tentative reload it covers: the candidate stays, what it retired is stopped, and anything else is left alone |
| `DataWorkerProcess.Process.BuildListeners` | node/data/data_worker.h:412-480 | The endpoint loop keeps each listener that is active under its key and creates the missing ones, as the listener function says |
| `DataWorkerProcess.Process.ExchangeRuntime` | node/data/data_worker.h:481-493 | The four swaps in place are the exchange function on the fields |
| `DataWorkerProcess.Process.PrepareReload` | node/data/data_worker.h:412-460 | Preparing in place, with its checks and discards in order, is the prepare function on the worker's state |
| `DataWorkerProcess.Process.ActivateReload` | node/data/data_worker.h:494-507 | Activating in place is the activate function |
| `DataWorkerProcess.Process.FinalizeReload` | node/data/data_worker.h:508-521 | Finalizing in place is the finalize function; it stops exactly the retired listeners |
| `DataWorkerProcess.Process.RollbackReload` | node/data/data_worker.h:522-540 | Rolling back in place is the rollback function; it stops exactly the additions |
| `DataWorkerProcess.Process.StopAcceptingRequests` | node/data/data_worker.h:556-568 | Ending admission in place drops a prepared reload, keeps a tentative one for its decision, and asks every owned listener to stop |
| `DataWorkerProcess.Process.Dispatch` | node/data/data_worker.h:223-292 | One request is settled by the decision it carries and then dispatched, with the reply the source gives |
| `OperationLease.MutualExclusion` | node/data/data_plane.h:43-115 | In every run at most one caller holds the lease or an unclaimed grant; the lock is busy exactly when there is one; a free lock has nobody queued |
| `OperationLease.GrantsFollowArrival` | node/data/data_plane.h:43-97 | The lock is handed out in the order of the acquire calls and never past a caller still queued |
| `OperationLease.PassServesFirstWilling` | node/data/data_plane.h:98-115 | Releasing serves the first queued waiter whose channel accepts, drops those before it, and frees the lock when every one refuses |
| `OperationLease.Operations.AcquireLease` | node/data/data_plane.h:43-97 | Acquiring in place takes the free lock or queues the caller |
| `OperationLease.Operations.ReleaseNext` | node/data/data_plane.h:98-115 | The loop that pops waiters is the pass function on the fields |
| `OperationLease.Operations.LeaveWaiter` | node/data/data_plane.h:43-97 | A waiter that gives up leaves the queue and passes on a grant that raced with its timeout |
| `CacheRuns.ClaimsPublishAtMostOnce` | node/data/response_cache.h:1046-1117 | From a restored root, in every run of lookups, fills, revalidations and the rest: claim numbers are never reissued and no claim publishes twice |
| `CacheRuns.PublishConsumesClaim` | node/data/response_cache.h:1197-1238 | Only the holder of the claim under unchanged epochs publishes, and publishing removes the claim |
| `CacheRuns.LostClaimsStayLost` | node/data/response_cache.h:1065-1117 | A claim that left the root by use, expiry, replacement or invalidation never returns; its ticket can from then on neither publish, renew nor release anything |
| `CacheRuns.ClaimGrantedExactly` | node/data/response_cache.h:1044-1064 | A lookup is handed a claim exactly when no fill of its key is running and fewer than 4096 claims are left, after expired ones are dropped if there are that many; the claim is new, lasts 30 seconds, and every other running fill stays as it is |
| `CacheRuns.ClaimsHold` | node/data/response_cache.h:1065-1117 | Over runs, until a claim expires only its own ticket, by use or release, or an invalidation that covers its key takes it away |
| `CacheRuns.OneFillAtATime` | node/data/response_cache.h:1044-1064 | After a lookup was handed a claim, every lookup of the key in the next 30 seconds is refused one and the ticket still holds it, unless it is used or released or the key is invalidated |
| `CacheRuns.ExpiredClaimsAreReplaced` | node/data/response_cache.h:1044-1064 | A claim that ran out blocks nobody: the next lookup of the key is handed a new one, as long as fewer than 4096 fills are running |
| `CacheRuns.InvalidationFencesTickets` | node/data/response_cache.h:1343-1422 | A ticket issued before an invalidation of its website, or of its policy for a clean, can never publish afterwards |
| `CacheRuns.NoResurrection` | node/data/response_cache.h:1623-1655 | An identity that was handed out and has left the root never returns in any later root, whatever touches, promotions, revalidations and demotions follow |
| `CacheRuns.EntriesAreCurrent` | node/data/response_cache.h:1286-1310 | Every entry of every reachable root carries that root's website and policy epochs, and identities are unique and bounded by the root's sequence |
| `CacheRuns.EvictionApplies` | node/data/response_cache.h:1514-1519 | Every root that a store, a promotion or a trim of a run hands to eviction has unique identities and entries that count their bodies, which is all that CacheEviction.Evict asks for |
| `CacheRuns.InvalidationRemovesExactly` | node/data/response_cache.h:1343-1422 | An invalidation removes an entry exactly when the command covers it and its scope matches |
| `CacheRuns.RunKeeps` | node/data/response_cache.h:612-650 | The invariant over entries, claims, tickets and publications holds after every run |
| `CacheRuns.ClaimProgress` | node/data/response_cache.h:1046-1064 | Taking a claim keeps the root well formed, brings back no identity or claim, lowers no epoch, and numbers the new claim above every earlier one |
| `CacheRuns.InsertProgress` | node/data/response_cache.h:1197-1238 | Storing under current epochs keeps the root well formed, with every entry current and identities unique; the only identity added is newer than every earlier one |
| `CacheRuns.RevalidateProgress` | node/data/response_cache.h:1257-1310 | Revalidating an entry that is still there, by a ticket from the same lookup, keeps every entry current and adds no identity |
| `CacheRuns.TouchProgress` | node/data/response_cache.h:1434-1461 | Flushing touches brings back no identity and leaves claims alone; recency numbers only grow |
| `CacheRuns.InvalidateProgress` | node/data/response_cache.h:1343-1422 | An invalidation lowers no epoch, brings back nothing, and every entry it keeps carries the raised epochs |
| `CacheVariants.FindVariant` | node/data/response_cache.h:1022-1041 | A lookup finds the first variant that suits the request, is retained and is fresh; otherwise the most recent stale one, if any is retained |
| `CacheVariants.StoreReplacesVariant` | node/data/response_cache.h:1197-1220 | Storing puts the new variant last under the next number, gives up the variants with the same Vary values and the oldest of sixteen others, keeps all the rest in order, and touches no other key |
| `CacheVariants.PublishesExactly` | node/data/response_cache.h:1197-1305 | A store or revalidation publishes exactly when its ticket holds the claim under unchanged epochs and the entry is there; otherwise no entry and no epoch changes |
| `CacheVariants.DiscardRemovesExactly` | node/data/response_cache.h:1239-1256 | Discarding removes exactly the entry of that identity, and the key with its last entry |
| `CacheVariants.ClaimChanges` | node/data/response_cache.h:1065-1117 | Renewing moves nothing but the expiry of the ticket's own claim while the ticket may publish; releasing takes exactly the ticket's own claim |
| `CacheVariants.RevalidateReplacesExactly` | node/data/response_cache.h:1283-1310 | Revalidating replaces exactly the entry of that identity, in its place and under the next number, when the ticket holds under unchanged epochs; else nothing happens |
| `CacheVariants.RevalidateNeedsEntry` | node/data/response_cache.h:1290-1297 | An entry that has left its key is not revalidated: the root stays as it is, claim included |
| `CacheVariants.PromoteGivesBody` | node/data/response_cache.h:1623-1655 | Promotion gives the first entry that owns the file the body it is handed, under the next number, and changes nothing when that entry has a body |
| `CacheVariants.PromoteNeedsFile` | node/data/response_cache.h:1632-1640 | A file that no entry of the key owns promotes nothing |
| `CacheVariants.TouchRenewsExactly` | node/data/response_cache.h:1434-1461 | A flush gives every touched entry a number newer than any before it and changes nothing else |
| `CacheVariants.InvalidationTouchesExactly` | node/data/response_cache.h:1343-1422 | Exactly the epochs of the policy, or of the listed websites, rise; exactly the covered claims are dropped; entries that stay keep everything but their epochs |
| `CacheVariants.InvalidatesExactly` | node/data/response_cache.h:1366-1390 | Which entries an invalidation takes: those of the policy and of the listed websites that are in its scope, where a URL is compared without its query for entries that ignore it, and by its beginning in prefix mode |
| `CacheVariants.RecencyNeverTies` | node/data/response_cache.h:1197-1461 | Over runs, if no two entries tie in recency none ever do, so the order in which eviction takes them is determined |
| `CachePublication.PublicationIsAtomic` | node/data/response_cache.h:619-650 | Under any interleaving of loads and compare-and-swaps, each published root is one operation applied to the root published just before it, so no update is lost |
| `CacheRootLog.SwapsAreRuns` | node/data/response_cache.h:619-650 | Workers that load, change a copy and compare-and-swap it, in any interleaving and with any failed exchanges, publish the states of one sequential run of the cache operations |
| `CacheRootLog.PublishedRootsAreSound` | node/data/response_cache.h:619-650 | Every published root has current entries and unique identities; between two of them no epoch falls and no identity that had left the earlier one is back in the later one |
| `CacheRootLog.SharedClaimsPublishOnce` | node/data/response_cache.h:1046-1117 | Under compare-and-swap, too, no claim is handed out twice and none publishes twice |
| `CacheRootLog.SharedClaimsStayLost` | node/data/response_cache.h:1065-1117 | A claim handed out by then and absent from one published root is absent from every later one, where its ticket can neither publish, renew nor release anything |
| `CacheRootLog.SharedInvalidationFences` | node/data/response_cache.h:1343-1422 | Once an invalidation covering a ticket is published, no later published root lets that ticket publish |
| `CacheEviction.Evict` | node/data/response_cache.h:1656-1734 | For every root and limits: the policy ends within both limits, the running counters equal the recomputed usage, other policies lose only expired entries, the retire flag is exact; each pass takes the shortest prefix that makes its limit hold, and nothing is taken when all limits hold; an entry gives way to a less recent one only if it had a body and no file, and what stays then has no body |
| `CacheEviction.Collect` | node/data/response_cache.h:1656-1684 | The collecting loops drop expired entries of all policies, list this policy's items and add up its usage |
| `CacheEviction.DiskPass` | node/data/response_cache.h:1690-1734 | The disk pass removes the shortest prefix of the recency order that makes disk usage and key count fit |
| `CacheEviction.MemoryPass` | node/data/response_cache.h:1690-1734 | The memory pass demotes entries that have a file and removes the others, stopping at the first prefix that makes memory fit |
| `CacheEviction.FinalPass` | node/data/response_cache.h:1690-1734 | The last pass removes the shortest prefix that makes memory fit |
| `CacheEviction.RemoveAccounts` | node/data/response_cache.h:1690-1734 | Removing an item keeps both running counters equal to the recomputed usage and never below zero |
| `CacheEviction.DemoteAccounts` | node/data/response_cache.h:1690-1734 | A demotion lowers memory by the body alone, keeps disk usage, and keeps the counters exact |
| `CacheEviction.SurvivorsAreMostRecent` | node/data/response_cache.h:1690-1734 | After removing a prefix, an entry survives whenever a less recent one does |
| `CacheEviction.LimitsHold` | node/data/response_cache.h:1690-1734 | The three passes together end within both limits for every root and limits, zero included |
| `CacheEviction.PassesGiveWay` | node/data/response_cache.h:1690-1734 | Wherever the passes stop: of two items in recency order the later one leaves while the earlier stays only if the later owned no file and had a body, and then the earlier keeps no body |
| `CacheEviction.EntryTakes` | node/data/response_cache.h:1556-1570 | An entry takes disk space only while it owns a file, then all its bytes, and memory for all its bytes while its body is held and for the rest without it |
| `CcWindow.LiveSlotsFit` | node/data/cc_protection.h:66-85 | All live slots up to the current one lie within 65 consecutive numbers, so they have distinct places in the ring |
| `CcWindow.OlderIsDead` | node/data/cc_protection.h:66-85 | Of two slots that share a ring place the older one is no longer live |
| `CcWindow.WindowMeansLive` | node/data/cc_protection.h:66-85 | A request inside the window is in a live slot, and a live slot reaches less than one width further back |
| `CcWorker.AllowedWithinWindow` | node/data/cc_protection.h:97-144 | For every trace with nondecreasing time, reports and evictions included: when check allows, at most the permitted number of requests of that key under those limits was counted, hence allowed, in the last window, this one included |
| `CcWorker.BlockMeansExceeded` | node/data/cc_protection.h:97-144 | A block decided by the local sum means more than the permitted number of requests of that key under those limits was counted in the last window plus one width |
| `CcWorker.BlocksLast` | node/data/cc_protection.h:126-143 | Over traces: after a check that counted and blocked, no check of the key under those limits is allowed or counted for one mitigation period, whatever reports, acknowledgements, dispositions and checks lie between |
| `CcWorker.BlocksEnd` | node/data/cc_protection.h:126-143 | The first check of the key at or after the end of the block is counted, unless a disposition denies it or there is no room for its entry |
| `CcWorker.CheckDecidesInOrder` | node/data/cc_protection.h:97-128 | A check is overloaded exactly while the node is saturated or, not denied, its key finds no room; a denied key is blocked; an entry under other limits and invalid limits are refused; none of these counts the request |
| `CcWorker.OnlyDeadBucketsAreReset` | node/data/cc_protection.h:97-144 | A bucket is overwritten only when it is no longer live |
| `CcWorker.EvictionDropsOnlyDead` | node/data/cc_protection.h:145-163 | A report drops an entry only when none of its buckets is live and no block is running |
| `CcWorker.ReportedCountsAreExact` | node/data/cc_protection.h:145-163 | Each reported count is the number of requests counted so far in that slot, saturated to 64 bits |
| `CcWorker.ReportDropsIdle` | node/data/cc_protection.h:145-175 | A report keeps an entry while it is dirty, blocks or was used within the window plus one width, and drops it otherwise; an acknowledgement only clears the marks |
| `CcWorker.NewestDispositionsHold` | node/data/cc_protection.h:170-174 | A worker keeps the newest dispositions it was given; older or repeated ones change nothing |
| `CcWorker.Limiter.CheckRequest` | node/data/cc_protection.h:97-144 | The check in place is the check function on the worker's state |
| `CcWorker.Limiter.ReportCounts` | node/data/cc_protection.h:145-163 | The reporting loops put exactly the dirty live counts in the batch and evict what the specification evicts |
| `CcAggregator.TotalsAreSumsOfMaxima` | node/data/cc_protection.h:202-239 | In every run that refused no key for capacity, the total of every live slot is the saturated sum over the workers of the largest count merged for it |
| `CcAggregator.OrderDoesNotMatter` | node/data/cc_protection.h:202-239 | That sum depends only on which counts were merged, not on order or repetition |
| `CcAggregator.OnlyDeadBucketsAreDisplaced` | node/data/cc_protection.h:202-239 | Merging displaces a bucket only when its slot is dead; a late older slot never displaces a live newer one |
| `CcAggregator.ResendChangesNothing` | node/data/cc_protection.h:202-239 | In every run that refused no key for capacity: any number of batches of counts that their sources delivered before, arriving whenever, change no entry, whether their slots still live or have died since |
| `CcAggregator.ResendNeverRenewsMitigation` | node/data/cc_protection.h:240-269 | In every such run: a snapshot, any such resent batches and another snapshot start no mitigation and move no block deadline, even while the sum exceeds the limit |
| `CcAggregator.ErasedIsUnheard` | node/data/cc_protection.h:240-269 | What a snapshot erases has no live count left |
| `CcAggregator.SnapshotDecides` | node/data/cc_protection.h:240-269 | A snapshot denies a key exactly while its block runs, or when a count was raised since the last snapshot and the live totals exceed the limit; a new block lasts one mitigation period and a running one keeps its deadline; an entry stays while it is denied or holds live counts |
| `CcAggregator.SnapshotFrame` | node/data/cc_protection.h:240-246 | Snapshots are numbered one by one, carry the saturation deadline while it runs, and deny or keep no key the aggregator does not hold |
| `CcAggregator.MergeMarksExactly` | node/data/cc_protection.h:226-238 | A merge marks an entry for the next snapshot exactly when it raises the count held for that worker and slot |
| `CcAggregator.MergeTakesExactly` | node/data/cc_protection.h:208-238 | How one count is taken: the larger count is held, a dead or early slot is passed over, a new key beyond the capacity saturates the node for one window, and invalid or conflicting limits end the batch |
| `CcAggregator.BatchTakenExactly` | node/data/cc_protection.h:202-208 | A batch is taken exactly when its worker is known, it is not from the future and it is newer than every batch of that worker before |
| `CcAggregator.Collector.MergeOne` | node/data/cc_protection.h:202-239 | Merging one count in place is the merge function |
| `CcAggregator.Collector.TakeSnapshot` | node/data/cc_protection.h:240-269 | The snapshot loop judges every entry in any order and is the snapshot function |
| `CcNode.TotalsNeverExceedTraffic` | node/data/cc_protection.h:191-239 | For any number of workers with any traces, and reports delivered in any order, repeatedly or never, keys refused for capacity or not: no slot's total exceeds the number of requests the workers counted in it |
| `CcNode.DrainedTotalsAreExact` | node/data/data_worker.h:297-308 | Reports lose nothing: when the channel is empty and no worker has anything of the key left to report, the total of every live slot is exactly the node's number of requests in it, whatever reports a full channel refused and whatever both sides evicted; it needs merging in channel order, no conflicting limits and no capacity refusal |
| `CcNode.DenialsAreFounded` | node/data/data_plane.h:260-288 | In every run a worker denies a key on the node's behalf only if, at some snapshot of the run, the workers together had counted more than the permitted requests of it in the window plus one width; and the denial ends one mitigation period after that snapshot |
| `CcNode.MitigationNeedsExcess` | node/data/cc_protection.h:240-269 | A snapshot moves a block deadline only when the requests the workers counted in the window plus one width exceed the limit, and then to one mitigation period from now |
| `CcNode.ExcessIsPunished` | node/data/cc_protection.h:240-269 | When nothing of the key is left to report or merge and the workers together counted more than the permitted requests in the last window, the next snapshot denies the key, by the running block or a new one, unless no count of it was raised since the last snapshot |
| `CcNode.DenialsAreEnforced` | node/data/cc_protection.h:97-108 | In every run: a worker that was told of a denial neither allows nor counts a request of the key before the denial ends, whatever snapshots reach it later and in whatever order |
| `ExpressionParser.Parser.ParseText` | common/request_expression.h:39-50 | The recursive descent accepts exactly the texts of the grammar whose code fits 256 instructions, and emits the post-order of the tree |
| `ExpressionParser.Parser.LogicalOr` | common/request_expression.h:296-302 | The or loop, with emission after each right operand, reads what the grammar reads and appends its post-order code |
| `ExpressionParser.Parser.LogicalXor` | common/request_expression.h:289-295 | The same for xor |
| `ExpressionParser.Parser.LogicalAnd` | common/request_expression.h:282-288 | The same for and |
| `ExpressionParser.Parser.PrimaryTerm` | common/request_expression.h:177-281 | Brackets, negation and atoms are read and emitted as the grammar says, within the depth bound |
| `ExpressionPrinting.PrintThenParse` | common/request_expression.h:177-302 | Every written expression whose atoms have a spelling is read back as the tree it stands for, with each operator as a word or a symbol and any parentheses added, which fixes or < xor < and < not, association to the left, and what && and the double bar and ! mean |
| `ExpressionPrinting.ShowIsLaid` | common/request_expression.h:177-302 | Printed text stands where the layout predicate says, part by part |
| `ExpressionPrinting.OrReads` | common/request_expression.h:296-302 | Printed text at the loosest level is read as its tree, up to a place where no looser sign follows |
| `ExpressionAtoms.ConditionSpells` | common/request_expression.h:86-281 | Every condition that passes the parser's checks, with any field, header, lower, operator, value, list or call, is read back from its text wherever that stands: operators as words or as ==, != and ~, literals quoted with escapes or raw with any number of hash signs, addresses bare |
| `ExpressionForms.TreesReadBack` | common/request_expression.h:39-50 | However such an expression is written, each operator and each literal in any of its spellings and with any parentheses added: within the nesting bound it is read as its tree exactly when its text fits |
| `ExpressionForms.WildcardsAreLists` | common/request_expression.h:255-279 | A wildcard value is accepted exactly when it is a list of stars, escaped stars and backslashes and other characters with no two stars in a row |
| `RequestExpression.KeywordExactly` | common/request_expression.h:74-85 | A word is read exactly where it stands after blanks and is not followed by a letter, a digit, an underscore or a full stop |
| `RequestExpression.SkipsExactly` | common/request_expression.h:55-60 | Blanks, tabs and line ends are passed over, and nothing else |
| `RequestExpression.IdentifierExactly` | common/request_expression.h:86-100 | A name is the longest run, not empty, of small letters, digits, underscores and full stops after blanks |
| `ExpressionForms.AcceptedTreesPrint` | common/request_expression.h:177-330 | Whatever the parser accepts passes those checks, and its printed form nests within the bound, whatever brackets, signs and quoting the text used |
| `ExpressionForms.PrintedFormIsStable` | common/request_expression.h:39-50 | Every accepted text, printed and parsed again, means the same tree; it is accepted again exactly when the printed form fits, and printing that tree gives the same text |
| `ExpressionMachine.PostOrderPushesValue` | node/data/request_expression.h:96-126 | Running the post-order code of a tree never underflows and pushes exactly the tree's value |
| `ExpressionMachine.Matches` | node/data/request_expression.h:96-126 | The machine on its fixed array of 256 slots never leaves it, ends with one slot, and returns the value of the tree |
| `ExpressionRun.MatchText` | node/data/request_expression.h:96-126 | Compiling a text and running its program yields the recursive evaluation of the tree the text means |
| `MatchList.Merge` | node/data/request_match_list.h:57-70 | Merging sorted ranges of one expiry covers the same addresses at every time |
| `MatchList.BuildTree` | node/data/request_match_list.h:123-141 | The recursive construction in one vector places exactly the given ranges, children after their parent, under upper bounds of end and expiry |
| `MatchList.InTreeIsScan` | node/data/request_match_list.h:142-157 | For every sorted list, address and time, the pruned search answers as the linear scan |
| `AddressNetworks.NetworkRange` | node/data/request_match_list.h:167-196 | The bit loop yields the range that holds exactly the addresses sharing the prefix bits |
| `AddressNetworks.RangeIsPrefix` | node/data/request_match_list.h:190-195 | An address lies between the cleared and the filled network address exactly when its prefix bits are the same |
| `AddressNetworks.CoverageOfSixes` | node/data/request_match_list.h:184-196 | Among IPv6 spellings coverage is sharing the prefix, except that a network wider than the mapped block never covers a mapped address |
| `AddressNetworks.CoversIsWithin` | node/data/request_match_list.h:167-196 | Bit by bit: an entry without a length holds exactly its own address in either spelling; an IPv4 entry of length p exactly the IPv4 and mapped addresses with its first p bits; an IPv6 entry of length p exactly the addresses whose IPv6 form has its first p bits, where one shorter than 96 holds no address that has an IPv4 form |
| `AddressNetworks.WidestNetworkMissesMapped` | node/data/request_match_list.h:92-101 | The concrete case: ::/0 shares its prefix with ::ffff:0.0.0.0 and does not cover it |
| `AddressNetworks.AddressList.Build` | node/data/request_match_list.h:33-78 | The constructor accepts exactly when every entry is acceptable, and then both trees answer for the entries |
| `AddressNetworks.AddressList.Contains` | node/data/request_match_list.h:82-102 | An address is contained exactly when some entry covers it after normalisation and has not expired |
| `CacheRange.FirstToLast` | node/data/cache_range.h:31-61 | first-last selects exactly the bytes from first to last that exist |
| `CacheRange.FromFirst` | node/data/cache_range.h:51-60 | first- selects exactly the bytes from first on |
| `CacheRange.LastBytes` | node/data/cache_range.h:43-50 | -suffix selects exactly the last bytes |
| `CacheRange.SelectRanges` | node/data/cache_range.h:69-108 | The item loop stops at the first item that is unreadable, too many or overlapping, with the outcome the source gives; the ranges selected are ascending, disjoint, nonempty and inside the body |
| `CacheRange.ItemSelectsWish` | node/data/cache_range.h:31-61 | An item in any of its three forms, with any blanks and tabs around it, selects exactly the bytes wished for and is satisfiable exactly when there are any |
| `CacheRange.SpecIsReadable` | node/data/cache_range.h:31-57 | An item is accepted exactly when it is empty or a dash with a 64-bit number on both sides, or on one |
| `CacheRange.ListIsRead` | node/data/cache_range.h:82-106 | A list is read item by item between its commas |
| `CacheRange.SelectionIs` | node/data/cache_range.h:69-108 | The outcome without the loop: a list of few enough readable items, each satisfiable one beginning where the one before has ended or later, selects the bytes of all its items, as multipart when the source says so; any other list is ignored, or for a partly stored body may select nothing |
| `RangeResponse.Response.constructor` | node/data/cache_range_response.h:19-48 | The announced length is the size of the payload for every body of that size, and the part framing is the source's |
| `RangeResponse.Response.Consume` | node/data/cache_range_response.h:86-114 | The loop over the ranges is the projection function of the chunk and the cursor |
| `RangeResponse.ProjectDelivers` | node/data/cache_range_response.h:86-114 | A chunk fed at a ready place yields exactly the next bytes owed, and the place right after it is ready: no byte is repeated or skipped |
| `RangeResponse.DoneMeansNothingOwed` | node/data/cache_range_response.h:79-81 | done() holds exactly when nothing is owed any more |
| `RangeResponse.HeaderNamesBytes` | node/data/cache_range_response.h:48-78 | The status is 200, 416 or 206 as ranges are ignored, none or some selected; the Content-Range of a single part names its first and last byte and the size |
| `RangeResponse.PartNamesBytes` | node/data/cache_range_response.h:117-126 | The text before each part of a multipart response is its delimiter, the content type if any, and a Content-Range that names the first and the last byte that follow |
| `RangeDrivers.WriteThrough` | node/data/cache_range_response.h:86-114 | Feeding the body once in any contiguous chunks puts out the expected payload |
| `RangeDrivers.WriteCached` | node/data/http_session.h:1057-1103 | Feeding by jumps to next_offset with any buffer size puts out the expected payload |
| `RangeDrivers.WriteBlocks` | node/data/http_session.h:1387-1391 | Feeding aligned blocks of 1 MiB, each in any chunks, puts out the expected payload |
| `RangeDrivers.BlockIsReady` | node/data/http_session.h:1387-1391 | The aligned block that holds next_offset may be projected from its start, because a range only stops in the middle at a block's end |
| `LogDelivery.StepKeeps` | node/control/log_delivery.h:69-218 | Every step of the receivers and the sender keeps the accounting, conservation and wake-up invariants |
| `LogDelivery.EventsAreConserved` | node/control/log_delivery.h:179-241 | In every run, per source: acknowledged, in flight, pending and waiting events are the arrived events, in order, each once |
| `LogDelivery.RetentionIsBounded` | node/control/log_delivery.h:196-216 | The retained counters are the sizes of pending plus in flight and never exceed the limits |
| `LogDelivery.FlightIsKeptUntilAcknowledged` | node/control/log_delivery.h:85-124 | What is in flight stays unchanged across retries, cancellations and sessions until it is acknowledged, and nothing else is acknowledged |
| `LogDelivery.FillTakesLongestPrefix` | node/control/log_delivery.h:220-241 | A delivery is the longest prefix of the queue that fits 512 events and 1 MiB |
| `LogDelivery.DeliveriesAreNotEmpty` | node/control/log_delivery.h:220-241 | A delivery is nonempty exactly when the first event fits beside the identity, which the 128 reserved bytes guarantee |
| `LogDelivery.NobodyWaitsForNothing` | node/control/log_delivery.h:69-84 | When the sender sleeps without a token no receiver sleeps without one: no lost wake-up and no deadlock |
| `LogDelivery.BlockedMeansRetained` | node/control/log_delivery.h:203-209 | A receiver is held up only while events of its source are still on their way |
| `LogDelivery.SenderChooses` | node/control/log_delivery.h:69-84 | The sender ends when told to stop, sends again what is in flight, else takes control events before data from the front of that queue; it sleeps only with both queues empty and ends by itself only when both sources have closed too |
| `LogDelivery.OffersExactly` | node/control/log_delivery.h:196-217 | A batch is queued exactly when it fits what is retained and no stop was asked for; until then it stays in hand |
| `LogDelivery.SourcesCloseByThemselves` | node/control/log_delivery.h:181-188 | A source closes only when its channel ends without a stop, and stays closed |
| `LogDelivery.VarintHolds` | node/runtime/log_producer.h:45-53 | A length takes one byte for each seven bits of the number, and at least one |
| `LogDelivery.QueuedEventsCountsUndelivered` | node/control/log_delivery.h:127-140 | The subtraction in queued_events never underflows: it leaves every event received and not acknowledged, plus what producers still report |
| `LogDeliveryProcess.Delivery.CountQueued` | node/control/log_delivery.h:127-140 | The count reported is the sum over both sources and never less than the events received and not acknowledged |
| `LogDelivery.EventWireBytes` | node/runtime/log_producer.h:45-53 | The varint loop computes the wire size of an event |
| `LogDeliveryProcess.FillDelivery` | node/control/log_delivery.h:220-241 | The filling loop is the filling function |
| `LogDeliveryProcess.Delivery.ReceiveBatch` | node/control/log_delivery.h:179-218 | Taking a batch in place is the arrival step |
| `LogDeliveryProcess.Delivery.Acknowledge` | node/control/log_delivery.h:95-101 | Settling an acknowledgement in place is the acknowledgement step |
| `OriginSelection.BuildPlan` | node/data/origin_selection.h:25-49 | Each role lists exactly the selected origins of the website in order, with weights added up |
| `OriginSelection.PlanHoldsExactly` | node/data/origin_selection.h:25-49 | A role holds exactly the enabled origins of that role that have a weight and are in the group asked for, where no name means default, or among the identifiers asked for |
| `OriginSelection.PivotOf` | node/data/origin_selection.h:78-89 | The search finds the candidate whose share of the weight line holds the selected weight |
| `OriginSelection.PivotIsUnique` | node/data/origin_selection.h:78-89 | No two candidates of a role are the pivot of one sequence number |
| `OriginSelection.EachOriginLeadsItsWeight` | node/data/origin_selection.h:78-89 | Over any consecutive sequence numbers as many as the total weight, each origin is the pivot exactly as often as its weight |
| `OriginCursor.Cursor.constructor` | node/data/origin_selection.h:73-91 | The cursor starts with the whole order ahead, each role rotated to the pivot of the sequence number |
| `OriginCursor.Cursor.Next` | node/data/origin_selection.h:93-127 | Each call returns the head of what is left, and nothing from then on when it is used up |
| `OriginCursor.OrderIsComplete` | node/data/origin_selection.h:93-127 | The order of healthy and then other origins contains every candidate exactly once |
| `OriginCursor.HealthyGoFirst` | node/data/origin_selection.h:93-127 | The order is: origins not known to be unhealthy, primaries before backups, then the unhealthy ones in the same way, each role from its pivot on and around its end, none lost or repeated |
| `OriginCursor.TurnIsRotation` | node/data/origin_selection.h:130-133 | Each role is visited as its list rotated to begin at the pivot |
| `OriginCursor.Drain` | node/data/origin_selection.h:93-127 | Repeated calls yield the whole order |
| `DiskRecord.RoundTrip` | node/data/cache_disk_record.h:23-71 | A written record reads back as itself exactly when it has at most 256 fields per list and at most 1 MiB of strings, and is rejected otherwise |
| `DiskRecord.AcceptedFilesAreWritten` | node/data/cache_disk_record.h:40-71 | Every file that reads is byte for byte what writing its record puts out, and its record is within the bounds |
| `DiskRecord.LayoutIs` | node/data/cache_disk_record.h:23-39 | A record file is the tag, the four texts after their sizes, the header and Vary pairs after their counts, and the numbers, every number in eight bytes with the least significant first |
| `DiskNumbers.NumberRoundTrip` | node/data/cache_disk_record.h:74-89 | A written number is read back whatever follows it |
| `DiskNumbers.NumberIsCanonical` | node/data/cache_disk_record.h:79-89 | Whatever reads as a number is the writing of that number |
| `DiskRecordStream.Write` | node/data/cache_disk_record.h:23-39 | The writing loops put out the encoding |
| `DiskRecordStream.Read` | node/data/cache_disk_record.h:40-71 | The reading loops, with their shrinking budget, are the decoding |
| `Wildcard.CacheWildcard` | node/data/response_cache.h:333-353 | The backtracking loop ends, by star, retry and position, and answers as the greedy function |
| `Wildcard.AcceptedMeansGlob` | node/data/response_cache.h:333-353 | Whatever the loop accepts matches by the recursive meaning of * and ?, for all inputs |
| `Wildcard.AgreesExactlyWithoutStars` | node/data/response_cache.h:333-353 | The loop answers as the recursive meaning for every pattern exactly for the values that contain no * |
| `Wildcard.StarMissesStarA` | node/data/response_cache.h:336-339 | A concrete case where it does not: the value *a and the pattern * |
| `CacheKey.AppendPart` | node/data/cache_key.h:55-57 | One part is appended after its decimal length and a colon |
| `CacheKey.KeysAreInjective` | node/data/cache_key.h:55-57 | Equal keys come from equal sequences of parts, of any number, length and content |
| `CacheKey.LookupKey` | node/data/response_cache.h:951-1020 | The loops of a lookup build the key of the fixed parts, the representation and the parts the rule adds |
| `CacheKey.LookupsAreSeparate` | node/data/response_cache.h:951-1020 | Under any two rules, lookups that share a key share every fixed part, the rule itself included; with equally many added parts they share those and the representation too |

## Left out

- Timestamps, sequence numbers and identities are unbounded; 64-bit wrap-around of those counters is not modelled. The saturating additions of the CC counters are.
- DataPlane.Agreement: speaks of live workers and of states without an unconfirmed rollback; a plane that could not confirm a rollback stops accepting, and its workers may then differ.
- CcAggregator.TotalsAreSumsOfMaxima: holds for runs that never refused a key for capacity; a refusal sets the saturation deadline that the snapshot publishes.
- CacheEviction.Evict: strict recency does not hold under memory pressure, because the memory pass prefers demotion to removal; the ensures say exactly which exception there is. Ties in recency are broken by an insertion sort.
- CcWorker.AllowedWithinWindow: counts one key under one set of limits; once the entry of the old limits is gone, a check under new limits starts a new count.
- CcNode.Apply: the control loop sends a snapshot when it is due and has changed; here any published snapshot may reach any worker at any time, which allows more. Workers live as long as the node.
- DataPlane.Apply: the late reply to a drain is not modelled; the loops that collect replies ignore it.
- ExpressionForms.TreesReadBack: the signs stand between single blanks; that other blanks are passed over alike is RequestExpression.SkipsExactly.
- OriginSelection.PivotOf: upper_bound of the standard library is a linear search here, with the same result.
- CacheEviction.Collect: the order in which the source walks its hash map is any order; sorting is an insertion sort function.
- LogDelivery.Apply: receivers and sender are steps between suspension points of one worker; timers and the wire protocol are not modelled.
- AddressNetworks.NetworkRange: an address is its sequence of bits, not an array of bytes under masks; the unused bytes of an IPv4 key are not modelled.
- Cache operations other than eviction are atomic functions on the root; the retry loop around them is CachePublication.
- Cache commands and their results, Cache-Control and Vary rules, metadata persistence and restart ordering: long but branch by branch.
- Listener objects created by a build that then fails are destroyed with it in the source and not tracked here.
- The country, ASN and user agent lists (a map with the latest expiry per value).
- The lexical loops of the expression parser are recursive functions; only the parse methods that emit code are methods on the parser's fields.
- The random boundary of a multipart response is a parameter.
- parse_origin_content_range, query rewriting and device detection: easy or textual.
- Sockets, TLS, HTTP framing, compression, DNS, health probing, self-upgrade, metrics and the web UI.
