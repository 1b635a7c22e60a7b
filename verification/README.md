# Fabrik: verified models of its stateful cores

This project models, in Dafny 4.11, the parts of Fabrik whose correctness is a
property of whole runs or whole algorithms, and proves those properties for all
inputs, all interleavings and all crash points.

- **Asset build** (`Graphs`, `Sorting`, `Components`, `AssetGraph`, `BuildOrder`,
  `Rewrite`, `BuildPlan`): Tarjan's search, the Kahn pass over the condensation,
  content-addressed naming and the reference splice.
- **Vendoring journal** (`VendorJournal`): artifacts, journal, lock and importmap
  under power loss, failed writes and writes of unknown durability.
- **Job engine** (`JobStore`, `JobLeases`, `MemoryJobStore`, `JobLedger`,
  `JobWorker`, `Scheduler`): the store's rows, unique-key index, leases and
  ledger; a worker's runs racing with its drain; schedulers racing on a row.
- **Rate limiter** (`RateLimit`, `RateStore`, `RateHistory`, all in
  `RateLimit.dfy`): the virtual scheduling form of the Generic Cell Rate
  Algorithm (Annex A of ITU-T I.371) over an expiring compare-and-swap store.
- **Cache** (`CacheLoads`, `CacheStore`): single-flight loads against deletions,
  and the least-recently-used store.
- **Code generator** (`GenNodes`, `Fragments`, `RegionForming`, `Colocation`,
  `Outlining`, `RegionSignatures`, `RegionPlanning`, `MixedRegions`, `RegionBodies`,
  `Usage`, `PhaseCycles`, `Layout`): region planning, union-find grouping, outlining,
  demand usage, phase-cycle validation and block layout.

Objects that the program updates in place are classes or methods with loops,
each proved against a function or predicate on values; protocols between
goroutines or across crashes are step machines whose histories are sequences of
states. A history starts in the empty state and every event in it is enabled.

Some promises do not hold of the code as it stands. Each has a lemma with a
history or plan that breaks it, and a lemma that says exactly when the code keeps
it:

- A worker that claims a job again while its own earlier run is open completes
  with a stale attempt number (`JobLedger.ReclaimRepeatsNumber`). The ledgers of a
  history are exact if and only if every completion that found its lease and
  recorded an attempt had the current number (`JobLedger.LedgerExactIff`).
- The same reclaim hides one of the two runs from drain: the earlier one, whose
  entry the later one takes (`JobWorker.ReclaimHidesRun`), or the later one, whose
  entry the earlier one's cleanup deletes (`JobWorker.CleanupHidesRun`). In a
  reachable state drain can still abandon a run if and only if active, or its own
  second swap, still points at it (`JobWorker.CanAbandonIff`), and exactly those two
  kinds of step take an untouched run out of its reach (`JobWorker.LosesIff`).
- Recovery that starts from a journal whose write was not confirmed, or a
  publication that reuses an artifact whose write was not confirmed, can be undone
  by a power loss (`VendorJournal.StaleJournalBreaks`,
  `VendorJournal.StaleArtifactBreaks`). Histories of confirmed steps stay
  consistent, and the first unconfirmed step of a history can be carried on to an
  inconsistent state (`VendorJournal.UnconfirmedBreaks`).
- With one clock, read in order, a delayed SetIfAbsent that lands after a later
  commit expired and was swept breaks the rate limiter's window bound
  (`RateHistory.DelayedSetBreaks`). The commits of a history lie end to end, which
  is what the bound rests on, if and only if every such write was timely
  (`RateHistory.HistoryChainedIff`), and each untimely one can let at most one more
  window's worth through (`RateHistory.UntimelyBound`).
- The width loop of the region planner dissolves regions without ordering the
  flows again; a region that mixes setup hooks and providers can leave a flow stuck
  (`MixedRegions.MixedDissolveStalls`, on a plan that `FormComponents` forms). A
  flow is delivered whole if and only if no hook in it draws on a unit that has to
  wait for all hooks (`RegionPlanning.PlanRegions`), which an input that connects no
  hook with a provider rules out (`RegionPlanning.PlanFragments`), and a dissolution
  keeps a flow schedulable if and only if the region does not expose a provider to
  the hooks (`Fragments.DissolveKeepsIff`).

Where the documentation and the code differ, the code is modelled: `CatchUpSkip`
emits no tick at all (`Scheduler.SkipNeverEmits`), and a splice silently skips
overlapping ranges.

## Model

| member | source | states |
|---|---|---|
| `AssetGraph.Tarjan.PopTo` | assets/graph.go:51-61 | popping yields exactly the stack from the component's root up, and leaves exactly the rest on the stack and in onStack |
| `AssetGraph.Tarjan.Connect` | assets/graph.go:30-64 | visiting a node keeps Tarjan's invariant on indices, lowlinks, stack and emitted components, indexes everything the node reaches, and never disturbs older stack entries |
| `BuildOrder.StronglyConnected` | assets/graph.go:22-70 | for every dependency map the emitted sets are exactly the strongly connected components (each node in one; two share one iff each reaches the other), dependencies first |
| `BuildOrder.Condense` | assets/graph.go:79-95 | the waiting sets and their converse hold exactly the edges between different components |
| `BuildOrder.NeverStalls` | assets/graph.go:97-128 | while a component is left, an unblocked one exists |
| `BuildOrder.Kahn` | assets/graph.go:97-128 | every component is emitted once, always the least of those whose dependencies are out |
| `BuildOrder.CyclicIffOnCycle` | assets/graph.go:110-119 | the cyclic flag of a component is true iff its members lie on a cycle, self-loops included |
| `BuildOrder.DependencyComponents` | assets/graph.go:15-130 | the whole function: exact components, dependencies first, least name first among the ready, exact cyclic flags |
| `BuildOrder.OrderUnique` | assets/graph.go:132-136 | these facts determine the result, so map iteration order cannot change it |
| `Rewrite.RewriteRefs` | assets/rewrite.go:165-188 | the cursor loop computes the recursive splice of the references sorted by start |
| `Rewrite.SpliceRenders` | assets/rewrite.go:165-188 | for disjoint ranges the splice replaces each range by its piece and changes nothing else |
| `Rewrite.PieceAt` | assets/rewrite.go:165-188 | each reference's piece stands in the output at its shifted offset, followed by the source text up to the next reference |
| `BuildPlan.PlanSingle` | assets/plan.go:148-161 | an acyclic asset is rewritten with known names, named by the digest of its own final text, and earlier entries stay; it fails only if that name clashes |
| `BuildPlan.PlanCycle` | assets/plan.go:162-183 | all members of a cycle are named by the digest of the cycle's canonical fields before any is rewritten, and earlier entries stay; it fails only if one of these names clashes |
| `BuildPlan.CycleFieldsStable` | assets/plan.go:230-257 | names given out later do not change a cycle's canonical fields |
| `BuildPlan.CheckCollision` | assets/plan.go:375-385 | refuses exactly the outputs that another asset has or that are source paths; the error names the asset, the output of its own digest, and the owner |
| `BuildPlan.PlanBuild` | assets/plan.go:81-185 | there is exactly one way to give every asset the digest of its bytes, of its final text under the names of these digests, or of its whole cycle; planning succeeds iff every reference is accepted and these names neither meet nor are source paths, then names and texts are those; a failure is a rejected reference or a clash of these very names |
| `BuildPlan.ContentAddressed` | assets/plan.go:148-183 | in a successful plan an asset off every cycle is named by the digest of its own final text, and the members of a cycle share one digest |
| `BuildPlan.DigestsUnique` | assets/plan.go:148-183 | two assignments of digests that fit the assets are the same, so names do not depend on the order of planning |
| `BuildPlan.DigestsExist` | assets/plan.go:148-183 | every set of assets has such digests, cycles included, whether or not planning succeeds |
| `BuildPlan.ReferenceFinal` | assets/plan.go:194-205 | in a successful plan each disjoint reference to a collected asset appears as prefix + that asset's final name + suffix at its own place, inside cycles too |
| `VendorJournal.StagesSound` | assets/vendor.go:572-596 | publishing an artifact keeps the committed state, and a staging that is not refused ends with every artifact of the transaction durable; a confirmed write settles the artifact's directory and all above it |
| `VendorJournal.PruneLockSound` | assets/vendor.go:306-323 | after recovery pruning never has to change the lock |
| `VendorJournal.DeleteSound` | assets/vendor.go:275-295 | deleting files the importmap does not name keeps every artifact of the committed transaction |
| `VendorJournal.AlwaysConsistent` | assets/vendor_transaction.go:25-106 | through crashes, failed and unconfirmed writes, directories written back at any time, recoveries and prunes, when every step is confirmed: whenever no journal is visible, lock and importmap are of one transaction and every artifact they name is there with its bytes |
| `VendorJournal.UnconfirmedBreaks` | assets/vendor_transaction.go:46-106 | the condition is exact: the first step of a history that rolls forward an unconfirmed journal, or reuses an unconfirmed artifact whose directory no artifact still to be written will sync, has a continuation to a state without a journal in which they disagree |
| `VendorJournal.SyncSound` | assets/atomic.go:63-92 | syncing any set of directories keeps every condition of the disk, so it does no harm that one file's sync settles others |
| `VendorJournal.RollsForward` | assets/vendor_transaction.go:46-106 | once a journal is durable, confirmed steps keep it until the first state without it, which has exactly its lock, importmap and artifacts |
| `VendorJournal.RecoverySafeIff` | assets/vendor_transaction.go:98-105 | rolling forward survives a power loss around the lock write, confirmed or not, iff no loss can make the journal vanish |
| `VendorJournal.CommitSafeIff` | assets/vendor.go:580-585 | a committed transaction survives every power loss iff each artifact it names is durable |
| `VendorJournal.StaleJournalBreaks` | assets/vendor_transaction.go:34-36 | a history: unconfirmed journal, recovery, power loss; lock and importmap then disagree with no journal |
| `VendorJournal.StaleArtifactBreaks` | assets/vendor.go:580-585 | a history: unconfirmed artifact, reuse by the next attempt, commit, power loss; the lock then names a missing artifact |
| `MemoryJobStore.MemoryStore.InsertBatch` | jobs/store_memory.go:56-81 | the loop takes the store to the batch insert of the model, duplicates inside the batch included, and reports each row against the state it met |
| `MemoryJobStore.MemoryStore.CollectCandidates` | jobs/store_memory.go:98-124 | whatever order rows are visited in, the candidates are the eligible rows in the one rank order |
| `MemoryJobStore.MemoryStore.Claim` | jobs/store_memory.go:83-144 | the claimed rows and the new store are the model's greedy claim |
| `MemoryJobStore.MemoryStore.Heartbeat` | jobs/store_memory.go:146-156 | extends the lease and reports the cancellation flag iff the worker owns the lease |
| `MemoryJobStore.MemoryStore.Complete` | jobs/store_memory.go:158-202 | applies the outcome, or the cancellation that overrides it, with its ledger row and freed key, iff the worker owns the lease |
| `MemoryJobStore.MemoryStore.SweepExpired` | jobs/store_memory.go:204-243 | every expired lease, and nothing else, is recovered, in any visiting order, and counted |
| `MemoryJobStore.MemoryStore.Retry` | jobs/store_memory.go:315-347 | revives exactly the terminal, not succeeded, rows whose key no other live row holds |
| `MemoryJobStore.MemoryStore.Cancel` | jobs/store_memory.go:349-368 | cancels a waiting row at once, marks a running one, refuses a terminal one |
| `MemoryJobStore.MemoryStore.Delete` | jobs/store_memory.go:370-384 | removes row, ledger and key unless the row is running |
| `MemoryJobStore.MemoryStore.FireSchedule` | jobs/store_memory.go:506-525 | inserts the jobs, reports each one and advances the row iff the last run is the expected one, and does nothing otherwise |
| `JobStore.AlwaysConsistent` | jobs/store_memory.go:56-243 | in every reachable state the index maps a key to a row iff the row is live and carries the key; a row is running iff it has an owner; a cancellation request implies running |
| `JobStore.SweepKeeps` | jobs/store_memory.go:204-243 | sweeping any set of rows keeps index and leases consistent |
| `JobStore.RetryKeeps` | jobs/store_memory.go:315-347 | a retry that is not refused takes a key nobody holds |
| `JobStore.ClaimOrderUnique` | jobs/store_memory.go:116-124 | the rank order of the candidates is unique |
| `JobLeases.OneLivePerKey` | jobs/store_memory.go:56-81 | in every reachable state two live jobs with one handler and one unique key are one job |
| `JobLeases.DuplicateIffLive` | jobs/store_memory.go:58-67 | an insert is refused as a duplicate iff a live row holds its index key |
| `JobLeases.KeyInjective` | jobs/store_memory.go:46 | the NUL-joined key text is injective for kinds and handlers without NUL, which is what validIdent enforces |
| `JobLeases.NulCollides` | jobs/store_memory.go:46 | with a NUL in a name two different handlers share a key and the second job is lost as a duplicate |
| `JobLeases.LeaseStays` | jobs/store_memory.go:146-243 | every operation but the owner's completion and a sweep after the deadline leaves a lease in place, only the owner's heartbeat moves its deadline, and the owner is never the empty name |
| `JobLeases.LeaseEndsByOwner` | jobs/store_memory.go:146-243 | through any run, a lease that is gone ended at its owner's completion or at a sweep after its deadline |
| `JobLeases.ClaimTakesUnowned` | jobs/store_memory.go:96-142 | a claim only takes rows nobody owns |
| `JobLeases.CancelSticks` | jobs/store_memory.go:166-243 | every step keeps a lease with an accepted cancellation as it is, or ends it in cancelled |
| `JobLeases.LeaseEndsCancelled` | jobs/store_memory.go:349-362 | through any run after an accepted cancellation the lease is still the same or the first state after it is cancelled |
| `JobLeases.ClaimGreedy` | jobs/store_memory.go:116-142 | a candidate is claimed iff the better-ranked claimed jobs leave room for it, overall and in its queue |
| `JobLeases.TakeBounded` | jobs/store_memory.go:129-142 | a claim stays within its limit and every queue budget |
| `JobLedger.DispatchTimeout` | jobs/worker.go:538-554 | a timed-out attempt is retried, available again at the given retry time, iff that is the policy and attempts remain, and ends as failed or discarded otherwise |
| `JobLedger.OutcomeShape` | jobs/worker.go:482-554 | an outcome consumes one attempt or is a release; it leaves the job live only below the limit |
| `JobLedger.AttemptsLimited` | jobs/worker.go:500-554 | in every interleaving, stale runs included, every job's attempt count is within its limit and every live job's is below it |
| `JobLedger.LedgerAlwaysExact` | jobs/store_memory.go:166-235 | if no worker reclaims a job it still has an open run for, every ledger is numbered 1 to the attempt count in order, across releases, sweeps, cancels and retries |
| `JobLedger.LedgerExactIff` | jobs/store_memory.go:166-235 | over every history all ledgers are exact in every state iff every completion that found its lease and recorded an attempt had the current number |
| `JobLedger.FinishExact` | jobs/store_memory.go:177-185 | a recorded completion keeps the numbering iff the run's attempt number is current |
| `JobLedger.ReclaimRepeatsNumber` | jobs/store_memory.go:158-185 | a history in which a worker's stale run completes its second lease and attempt one is recorded twice |
| `JobWorker.EligibleQueues` | jobs/worker.go:280-300 | returns exactly the configured queues below their cap, each capped one with the room it has left |
| `JobWorker.BudgetsHold` | jobs/worker.go:244-278 | in every interleaving the semaphore, queue and wait-group counters are exact, and runs never exceed the concurrency or a queue's cap; that a claim fits is JobWorker.TryClaim |
| `JobWorker.TryClaim` | jobs/worker.go:244-262 | a claim is made iff a slot is free and a queue is open, and what the store hands out for it stays within the free slots, the open queues and each queue's remaining budget |
| `JobWorker.PhasesHold` | jobs/worker.go:383-498 | in every interleaving each runner's position fits its phase: the handler ran only after winning the running swap, the outcome was committed only after winning the resolving swap |
| `JobWorker.StepCoherent` | jobs/worker.go:66-74 | phases only move forward: registered to anything, running to resolving or abandoned |
| `JobWorker.AbandonedForGood` | jobs/worker.go:343-372 | an abandoned run stays abandoned and never completes |
| `JobWorker.DrainNil` | jobs/worker.go:343-372 | drain returns nil only if every run finished and committed and none was abandoned |
| `JobWorker.DrainReachesAll` | jobs/worker.go:343-372 | if the worker never reclaims a job it is still tracking, after drain every run is resolving, abandoned or done |
| `JobWorker.CanAbandonIff` | jobs/worker.go:343-372 | in a reachable state a run that is neither resolving nor abandoned can still be abandoned iff active (and no claimed row will take its entry, and the range has not passed it) or drain's second swap points at it |
| `JobWorker.LosesIff` | jobs/worker.go:383-390 | a step takes an untouched run out of drain's reach iff it claims the job again or is another run's cleanup that deletes the job's entry |
| `JobWorker.DrainCatches` | jobs/worker.go:343-372 | a run in drain's reach is resolving, abandoned or done once drain has returned, unless meanwhile such a step happened |
| `JobWorker.LostForGood` | jobs/worker.go:383-390 | after such a step nothing that follows abandons the run |
| `JobWorker.CleanupHidesRun` | jobs/worker.go:383-390 | a history in which an earlier run's cleanup deletes a reclaimed job's entry, and the later run's handler starts after drain has returned |
| `JobWorker.ReclaimLosesRun` | jobs/worker.go:267-277 | registering a job again puts its earlier run out of drain's reach for good |
| `JobWorker.ReclaimHidesRun` | jobs/worker.go:267-277 | a history in which a reclaimed job hides its earlier run, whose handler outlives drain untouched |
| `Scheduler.PlanFires` | jobs/schedule.go:338-367 | the loop emits the ticks due from the next run up to now along the trigger's orbit, capped at 1000, and the next run after now |
| `Scheduler.EveryAdvances` | jobs/schedule.go:73-82 | a fixed interval moves time forward iff it is positive |
| `Scheduler.FireAdvances` | jobs/store_memory.go:506-525 | the store's fire advances the row iff its last run is the expected one |
| `Scheduler.TicksOnce` | jobs/schedule.go:251-336 | with any clocks, winning fires have rising last-run times and all emitted ticks rise, so none is emitted twice |
| `Scheduler.EmitsOrbitPrefix` | jobs/schedule.go:346-360 | until the cap is hit, CatchUpAll emits exactly a prefix of the orbit of next |
| `Scheduler.SkipNeverEmits` | jobs/schedule.go:340-345 | CatchUpSkip never emits a tick |
| `RateLimit.Emission` | ratelimit/ratelimit.go:44-51 | the interval is the period divided by the rate, rounded up |
| `RateLimit.ValidIff` | ratelimit/ratelimit.go:54-71 | a limit is accepted iff its parts are in range and capacity times interval fits 64 bits |
| `RateLimit.RetryAfterExact` | ratelimit/ratelimit.go:249-257 | the same request is admitted d later iff d is at least RetryAfter |
| `RateLimit.RemainingExact` | ratelimit/ratelimit.go:249-289 | m more units fit at once iff m is at most Remaining |
| `RateLimit.ResetAfterExact` | ratelimit/ratelimit.go:249-280 | the full burst fits d later iff d is at least ResetAfter |
| `RateLimit.NoSaturation` | ratelimit/ratelimit.go:231-247 | clocks from the epoch on never saturate the reported durations |
| `RateStore.MemoryStore.Get` | ratelimit/store_memory.go:24-36 | returns the entry unless expired, and drops an expired one |
| `RateStore.MemoryStore.SetIfAbsent` | ratelimit/store_memory.go:38-46 | writes iff a read at that instant would find nothing |
| `RateStore.MemoryStore.CompareAndSwap` | ratelimit/store_memory.go:48-57 | writes iff a read at that instant would find the expected value |
| `RateStore.MemoryStore.Sweep` | ratelimit/store_memory.go:60-70 | removes exactly the expired entries and counts them |
| `RateStore.MemoryStore.Admit` | ratelimit/ratelimit.go:213-281 | undisturbed, read, decision and conditional write are one atomic admission and the write goes through |
| `RateHistory.CommitIsAtomic` | ratelimit/ratelimit.go:225-280 | in any interleaving a successful conditional write equals reading, deciding and writing at that instant with the sampled clock, with the same answer; a failed one changes nothing |
| `RateHistory.WindowBound` | ratelimit/ratelimit.go:213-281 | units of a chain of commits that become usable in a window are at most capacity plus one per interval |
| `RateHistory.CommitKeepsIff` | ratelimit/ratelimit.go:263-270 | a compare-and-swap commit always starts where the earlier commits end; a SetIfAbsent commit does iff its sampled clock is not before the end of the last commit, or the entry it replaces is still there |
| `RateHistory.HistoryChainedIff` | ratelimit/ratelimit.go:213-281 | over every interleaving with any clocks, the commits lie end to end iff every SetIfAbsent was timely |
| `RateHistory.HistoryBound` | ratelimit/ratelimit.go:213-281 | the window bound over every history of admissions, reservations, expiry, lazy deletion and sweeps on a key in which every SetIfAbsent was timely |
| `RateHistory.UntimelyBound` | ratelimit/ratelimit.go:213-281 | over any history whatever: with u untimely writes, a window holds at most u + 1 times the capacity plus one unit per emission interval |
| `RateHistory.MonotoneBound` | ratelimit/ratelimit.go:225-280 | with clock readings that do not decrease, and no removal of the entry between a request's read and its write, every write is timely and the bound holds |
| `RateHistory.DelayedSetBreaks` | ratelimit/ratelimit.go:263-270 | a history with non-decreasing readings in which a delayed SetIfAbsent puts twenty units into a window that may hold twelve |
| `CacheLoads.OneLoadPerKey` | cache/load.go:73-114 | in every interleaving at most one load is under way per key |
| `CacheLoads.DeletionWins` | cache/cache.go:181-189 | once a deletion returned nil, in every later state no load that was there at its lookup has its value in the store or can still store it |
| `CacheLoads.CannotWriteMeans` | cache/load.go:117-125 | such a load has no storing step now or later |
| `CacheLoads.StepProgress` | cache/load.go:42-57 | every step of any load or deletion keeps what each deletion has achieved so far |
| `CacheStore.MemoryStore.Get` | cache/store_memory.go:45-63 | returns the entry; a live one moves to the front, an expired one is returned once and removed |
| `CacheStore.MemoryStore.Set` | cache/store_memory.go:66-85 | the pair is at the front with its new entry, the rest keep their order, and the last pair goes if a new key overfills the store |
| `CacheStore.MemoryStore.Delete` | cache/store_memory.go:88-98 | the sequence loses exactly that key |
| `CacheStore.MemoryStore.Sweep` | cache/store_memory.go:101-117 | walking from the back leaves exactly the live pairs in their order |
| `CacheStore.LiveExact` | cache/store_memory.go:125-127 | a pair survives a sweep iff it was there and has not expired |
| `CacheStore.AlwaysByUse` | cache/store_memory.go:45-117 | over every run the contents are in order of last hit or set and within MaxEntries |
| `CacheStore.EvictsOldest` | cache/store_memory.go:78-83 | an evicted key is the one whose last hit or set is oldest, and every other key stays |
| `CacheStore.EvictsWhenFull` | cache/store_memory.go:78-83 | only a set of a new key in a full store evicts |
| `Graphs.WellFoundedIffAcyclic` | gen/fragment.go:668-784 | for finite graphs, "no node lies on a cycle" and "every nonempty set has a member that depends on nothing in it" are the same; the scheduling proofs of the generator rest on this |
| `Fragments.CollectUnits` | gen/fragment.go:668-702 | the units of a flow, once each, in store order of their first node |
| `Fragments.OrderFlow` | gen/fragment.go:668-784 | emits different units, each after everything it must come after, always the first ready one in store order; what is left blocks itself and the named region is left |
| `Fragments.SchedulableIff` | gen/fragment.go:668-784 | a flow can be scheduled iff its values have an order and no hook draws, directly or through other units, on a unit that has to wait for all hooks |
| `Fragments.DissolveKeepsIff` | gen/fragment.go:628-656 | dissolving a region keeps a schedulable flow schedulable iff the region does not expose a provider: no member that is a hook, or on which a hook unit draws through other units, uses inside the region what a provider of the region defines |
| `Fragments.DissolveKeeps` | gen/fragment.go:628-656 | dissolving an unmixed region keeps a schedulable flow schedulable |
| `Fragments.FindUnschedulable` | gen/fragment.go:658-666 | names a region iff some flow cannot be scheduled, and the region it names is left waiting in a flow among units that all wait for one another |
| `Fragments.BrokenFlow` | gen/fragment.go:272-279 | a flow that leaves a region waiting has no complete order at all |
| `RegionSignatures.RegionNarrow` | gen/fragment_emit.go:342-379 | accepts exactly the regions with at most four parameters besides the prelude's result, at most three results counting the assembled root, and at most one of them unread in any flow |
| `RegionSignatures.FindPrelude` | gen/fragment_emit.go:303-319 | the uncounted parameter is the only result of the last prelude region that has one result, or none |
| `RegionSignatures.FindWide` | gen/fragment.go:281-291 | none iff all regions fit, else the first one that does not |
| `RegionSignatures.EmbedSharedRoots` | gen/fragment.go:405-468 | a region assembles a shared root iff it defines everything the root names and serves exactly its flows, and then the first such root |
| `RegionSignatures.DropEligible` | gen/fragment.go:566-654 | dissolving a region leaves the eligibility of every other one as it was |
| `RegionPlanning.PlanRegions` | gen/fragment.go:244-318 | dissolution terminates; each region taken out was ineligible, left waiting in some flow, or the first too wide one at that moment, in this order of stages; those kept are eligible and narrow; every flow's steps are ordered, and complete iff the flow can be scheduled in the end; with one home per flow, iff no hook draws on a unit behind the barrier, and so if the width loop takes apart no region that exposes a provider to its hooks, or no region mixes hooks and providers |
| `RegionPlanning.TrailKeepsIff` | gen/fragment.go:280-300 | along the dissolutions a schedulable flow stays schedulable at every step iff none of them, judged in the state it is applied to, takes apart a region that exposes a provider to the flow's hooks |
| `RegionPlanning.PlanFragments` | gen/fragment.go:212-318 | grouping, root embedding, colocation, the dissolution loops and ordering in one: the regions come from exactly the groups, only justified dissolutions follow, what is kept is eligible and narrow, steps are ordered and complete iff schedulable; where usage is closed under uses the result can be run, and every flow is complete if config loads are neither hooks nor providers and no hook is connected with a provider of the same flows |
| `RegionPlanning.PlannedPreserves` | gen/fragment_emit.go:219-321 | on the planner's own output, running a flow's steps with regions as functions gives every variable it sets, every scope root included, the value of running all nodes inline |
| `RegionPlanning.AssembledPreserves` | gen/fragment_emit.go:625-629 | when the function of a region that assembles a root returns, every variable the root names has its inline value |
| `RegionPlanning.TrailOwns` | gen/fragment.go:628-654 | along every trail of dissolutions a region that assembles a root keeps the nodes that define what it names |
| `Fragments.CoveredOnce` | gen/fragment.go:668-784 | every node of a flow is covered by exactly one step |
| `Fragments.ProducersFirst` | gen/fragment.go:668-784 | a producer in another unit comes first, and hook units come before provider-only units |
| `MixedRegions.MixedDissolveStalls` | gen/fragment.go:280-300 | a plan that formComponents forms, with eligible regions and schedulable flows, whose first region is the first too wide one; the width loop dissolves it, the rest fits, and a flow is left unschedulable |
| `MixedRegions.SecondNarrow` | gen/fragment_emit.go:342-379 | after that dissolution the other region passes the width test, so the loop ends |
| `RegionForming.DisjointSets.Find` | gen/fragment.go:329-335 | path halving terminates, returns the representative and keeps every class |
| `RegionForming.DisjointSets.Union` | gen/fragment.go:342-342 | merges exactly the two classes |
| `RegionForming.FormComponents` | gen/fragment.go:321-402 | every node that is no config load is in one group, and two are grouped iff connected by same-usage def/use edges or a shared compound root |
| `Colocation.Regions` | gen/fragment.go:388-401 | each group becomes the one region of its members and serves exactly their flows |
| `Colocation.ColocateConfigs` | gen/fragment.go:490-563 | load by load: if every flow agrees on the place, the load joins exactly the regions that consume it, each once, else nothing changes; where usage is closed under uses, one home per flow and members that serve their regions' flows are kept |
| `Colocation.OpenUsageSplits` | gen/fragment.go:536-562 | a store whose usage is not closed under uses, in which every flow agrees on the place of each load and one load still gets two homes in a flow |
| `Outlining.CollectConsumers` | gen/fragment_emit.go:226-257 | the consumers noted for a variable are exactly its readers, node uses and scope roots |
| `Outlining.LiveIns` | gen/fragment_emit.go:258-281 | a region's parameters are exactly the variables its members use and others define |
| `Outlining.LiveOuts` | gen/fragment_emit.go:282-291 | a region's results are exactly the variables its members define and others read in a flow it serves |
| `Outlining.OutliningPreserves` | gen/fragment_emit.go:219-321 | running the steps with regions as functions of their live-ins succeeds and gives every variable it sets, every scope root included, the value of running all nodes inline in any producer order |
| `RegionBodies.WriteBody` | gen/fragment_emit.go:563-585 | the members are written once each, phase by phase; the body is in producer order if every phase can be laid out and nothing uses what a later phase defines, and only if no phase has a cycle of uses and the same |
| `RegionBodies.WriteRegions` | gen/fragment_emit.go:509-635 | every region gets a function with exactly its live-ins, live-outs and members; together they are what the preservation results ask for if every region can be laid out so |
| `RegionBodies.OutlinedExists` | gen/fragment_emit.go:219-321 | for every plan with one home per flow and every inline order of a flow, functions that meet the premise of the preservation results exist |
| `Usage.DemandStore.Record` | gen/usage.go:49-77 | adds exactly the edge from the active demand and the active flow |
| `Usage.DemandStore.Propagate` | gen/usage.go:80-104 | the fixpoint loop terminates, and a flow is in a demand's usage iff it was recorded at a demand that reaches it |
| `Usage.FixpointExact` | gen/usage.go:80-104 | a sound, settled usage is exactly reachability |
| `PhaseCycles.Search.Visit` | gen/validate.go:195-219 | a visit finds a real cycle, or blackens the node and leaves the chain as it was |
| `PhaseCycles.PhaseCycle` | gen/validate.go:146-227 | a cycle is reported iff the phase's dependency graph has one, and the chain is a closed walk without repetition |
| `PhaseCycles.ValidatePhases` | gen/validate.go:137-241 | a phase is reported iff its graph has a cycle, with a real one |
| `Layout.BatchOrdered` | gen/render.go:428-432 | the stable sort orders a batch by sequence number, emission order among equals |
| `Layout.ChainBatches` | gen/render.go:422-436 | the wait lists are exactly the dependencies plus each batch member's predecessor |
| `Layout.Lay` | gen/render.go:400-506 | all nodes once, in greedy blocks of one to ten; the fallback is taken iff there is a cycle, and otherwise everything a node waits for comes first |
| `Layout.BatchInSequence` | gen/render.go:422-436 | batch members come out in sequence order |

## Left out

- Text scanning, URL resolution and reference validation: a scanner's reference list and an accept predicate are given. Ranges must be in bounds, and disjoint for the statements about single references, because the scanner does not guarantee it.
- Digests, JSON, YAML, importmap rendering, downloads and the resolver: hashing is a parameter, metadata is the map from specifiers to artifacts.
- VendorJournal.AlwaysConsistent: holds for confirmed steps only; VendorJournal.UnconfirmedBreaks shows that no weaker condition would do.
- VendorJournal.RollsForward: the same condition.
- VendorJournal.UnconfirmedBreaks: files of one directory may survive an unsynced power loss independently of one another; which of a failed ancestor sync reached the disk is a later write-back.
- Directory creation and removal, file modes and validation of a journal's JSON: a journal that does not decode or verify only makes recovery return an error.
- JobLedger.LedgerAlwaysExact: its condition on claims is sufficient; JobLedger.LedgerExactIff has the exact one.
- JobWorker.DrainReachesAll: its condition on registrations is sufficient; JobWorker.DrainCatches and JobWorker.CanAbandonIff say exactly which runs drain reaches.
- JobStore.AlwaysConsistent: completions never carry the running state, which no caller in the repository does.
- Job payloads, backoff specifications, worker rows, queue listings, cursors and paging: they carry no invariant of the rows.
- Backoff delays are arbitrary non-negative values; handlers, hooks, heartbeats and contexts appear only as the events they cause. The retry loop of a completion is one completion, since the memory store fails only with not-found.
- Scheduler.TicksOnce: a fixed spec, buildable jobs and a trigger that moves forward; cron expressions are that abstract trigger.
- RateHistory.HistoryBound: a monotone clock alone is not enough, as RateHistory.DelayedSetBreaks shows, so it asks for timely writes; each key is treated by itself, other keys' operations leave its entry alone.
- RateLimit.RetryAfterExact: durations and the new TAT in 64-bit range, as are RemainingExact and ResetAfterExact; NoSaturation gives a sufficient clock condition.
- Progress of the limiter's retry loop and of waiting cache callers under contention, and the take-over by a waiting caller: only safety is modelled.
- SQL, Redis and file-backed stores: only the in-memory stores are modelled.
- The nodes of a linked list: the recency list is a sequence of element objects, with list.Remove and MoveToFront as sequence operations.
- RegionPlanning.PlanRegions: its premises are unique definitions and that the nodes of a flow can be ordered; which nodes answer a named, singleton or prelude demand is given, naming and type checks are not modelled.
- RegionPlanning.PlanFragments: without usage closed under uses, which propagation establishes (Usage.FixpointExact), a colocated load can have two homes in a flow (Colocation.OpenUsageSplits), so what rests on one home is stated under that condition; flows and shared roots are given without repetition inside a scope.
- RegionPlanning.PlannedPreserves: the functions are given by what they must satisfy; RegionBodies.WriteRegions and RegionBodies.OutlinedExists say when they do; their text is not modelled.
- RegionBodies.WriteBody: between its two conditions lie phases whose batches contradict their uses; there layout falls back to emission order, which may or may not serve.
- Outlining.OutliningPreserves: definitions are unique and demand is closed under uses; parameter order, error returns and select bodies are not modelled.
- Node definitions and uses are given; parsing them out of expressions and rendering to Go text are not part of this model.
- Layout.Lay: affinity scores and anchor order are parameters.
- Sessions, routing, mail, forms, configuration, queries, migrations, paging, authentication and the command line: wrappers or small members outside the modelled cores.
