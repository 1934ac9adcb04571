# Verification models of the active-ts core

This project models the concurrent and order-sensitive core of active-ts and proves what it is for:
nested transactions and their deferred work, the entity cache, the function cache, the outbox, keyset
pagination, field codecs, stable cache keys and batched reads. `dafny verify dfyconfig.toml` checks
everything.

Asynchronous code is modelled as interleaved steps between awaits. A call into an adapter is two steps,
the moment it takes effect and the moment its completion is seen, and every operation carries a program
counter. Objects that the program changes in place are classes or methods with loops, each proved
against a function of the old state; the theorems over whole runs are about those functions. Limits
(registry sizes, batch sizes, page sizes) are parameters.

| file | what it models |
|---|---|
| `Epochs.dfy`, `FailureRegistry.dfy`, `OrderedMaps.dfy` | the bounded epoch and failure registries on insertion-ordered maps |
| `EntityCache.dfy`, `EntityCacheFailures.dfy`, `EntityCacheReads.dfy`, `DistributedCache.dfy`, `Rows.dfy` | cached rows against the store, in one process, with failed deletes, what reads answer, and across processes |
| `FunctionCache.dfy`, `FunctionCacheCallers.dfy`, `FunctionCacheEntries.dfy` | backfills, refreshes, set() and invalidate(), what callers have to see to, and what the adapter then holds |
| `WriteQueue.dfy`, `WriteTurns.dfy` | the per-key promise chain of writes, and that it refines the queue of the function cache |
| `SavepointAdmission.dfy`, `SavepointViolations.dfy` | savepoint calls against an adapter that misbehaves |
| `TransactionFrames.dfy`, `TransactionStates.dfy` | deferred tasks and cache invalidations over trees of savepoints |
| `SavepointErrors.dfy` | failed savepoints and marked errors over many SQLite transactions |
| `TransactionOutcome.dfy` | attempts of a root transaction and the outcome reported to the caller |
| `KeyOwnership.dfy` | custom cache-key ownership under concurrent transactions |
| `Outbox.dfy`, `OutboxRecovery.dfy` | the in-memory outbox and the recovery of a failed drain |
| `Texts.dfy`, `StableKeys.dfy`, `DatastoreKeys.dfy` | injective texts: cache keys of inputs, identities of Datastore keys |
| `FieldPaths.dfy`, `FieldCodecs.dfy`, `QueryPlans.dfy` | field codecs on nested rows and the rewriting of query plans |
| `Cursors.dfy`, `Pages.dfy` | the order of rows, the merge sort, keyset cursors and page walks |
| `BatchLoading.dfy` | the batch loader and loadManyNow |

## What is not true of the code

- The function cache can keep a value older than the latest `set()`. A `set()` takes its epoch when it
  begins and is skipped at its turn if the epoch has moved (`src/core/function-cache.ts:387-390`). An
  `invalidate()` that began *before* the `set()` bumps the epoch again on completion, and so does the
  eviction of the key from the bounded registry. The `set()` is then dropped without an error and an
  older backfill stays in the adapter. `FunctionCache.OlderInvalidationDropsSet` is such a run.
  `FunctionCacheCallers.SetOvertakenIffEpochMoved` and `FreshAtRestIffNothingLost` say exactly when it
  happens, `FreshForCarefulCallers` what callers can do so that it does not.
- "An adapter that settles a savepoint before its callback is found out" is false. Admission closes at
  the settlement (`src/core/context.ts:2762-2767`), but whether the callback has settled is tested only
  when the call goes on (`src/core/context.ts:2776`, `2828`); a callback that settles in between is
  taken as clean: `SavepointViolations.EarlySettlementIsReleased`. `EarlySettlementUnnoticed` is the
  exact condition.
- A frame whose savepoint error carries the "rollback unconfirmed" mark records its invalidations in the
  parent without a task and does not mark the ancestors (`src/core/context.ts:2911-2928`). Whoever sets
  the mark also keeps the transaction from committing, but only that transaction: SQLite rethrows the
  callback's error with the mark still on it (`src/adapters/store/sqlite.ts:555`; PostgreSQL clears it,
  `src/adapters/store/postgresql.ts:1831`). An application that keeps such an error and throws it again
  in a savepoint of a later transaction leaves that savepoint unconfirmed in a transaction that commits;
  if the parent then invalidates the same key, it is never evicted:
  `SavepointErrors.ReusedErrorLosesInvalidation`. `UnconfirmedIffErrorReused` says that on
  SQLite there is no other way, and `TransactionFrames.EvictedIffRecorderSurvives` which keys are lost.
- An outbox event with several order keys that is held back because *one* of them is blocked does not
  block its other keys (`src/core/outbox-memory.ts:50-56`), so a later event of a shared entity can
  overtake it: `Outbox.SharedKeysCanBeOvertaken`. `NeverOvertakenIffCovered` is the exact condition.
- "A savepoint call ends after its callback" is false: when the adapter resolved but had invoked the
  callback more than once, the call fails at once while the callback still runs
  (`src/core/context.ts:2818`; `SavepointViolations.CallEndsBeforeCallback` is the exact condition). The
  frame itself is not rollback-only, so a savepoint open in it can still be released into it
  (`SavepointViolations.ReleasedIntoEndedFrame`), after its lists have been handed on. What is released
  then is lost: its rollback tasks do not run when the root is rolled back, and its recorded keys are
  not evicted after an unknown outcome (`TransactionFrames.LateReleaseLosesRollbackTask`,
  `LateReleaseLosesKey`). `RollbackTasksRunIffHandedInTime` and `RecordedKeysEvictedIffHandedInTime` are
  the exact conditions. The root is rollback-only in these runs.
- "A transaction whose callback rejected is not committed" is false: if the store resolves all the same,
  it is reported and closed as committed and its commit tasks run (`src/core/context.ts:3079-3093`):
  `TransactionOutcome.CommittedAlthoughRejected`. `CommittedMeansStoreSaidSo` is the exact condition.
- "An entry that a failed delete left in the entity cache is not served" is false. The mark of a failed
  invalidation is cleared by any invalidation or write-back of the key that completes later
  (`src/core/context.ts:2453`, `3638`), also by one that had done its own part on the cache before:
  `EntityCacheFailures.SuccessHidesAFailure`. `StaleAtRestIsReportedIffNotOverlooked` is the exact
  condition, `StaleAtRestIsReported` one that looks only at what is under way when a delete fails.

## Model

| member | source | states |
|---|---|---|
| Epochs.BumpRaises | src/core/context.ts:3432-3447 | A bump raises its key's epoch by exactly one, lowers no key's epoch although the oldest entries are evicted, and keeps the registry within its limit and the safe-integer range. |
| Epochs.UnchangedMeansNotBumped | src/core/context.ts:3427-3452 | Over any run of bumps an epoch never goes down, and an epoch equal to the captured one means that no bump of that key succeeded since. |
| Epochs.BumpEvictsOnlyTheOldest | src/core/context.ts:3438-3446 | A bump evicts nothing while the registry has room or already holds the key, and otherwise one entry, the oldest, whose key's epoch rises by that; all other entries stay as they are. |
| Epochs.EpochTable.BumpCacheEpoch | src/core/context.ts:3432-3447 | The in-place bump throws exactly when the counter is exhausted and otherwise leaves the bumped and pruned registry. |
| Epochs.EpochTable.EvictToLimit | src/core/context.ts:3440-3446 | The eviction loop removes the oldest entry and pushes the default past its epoch. |
| Epochs.PairBumpRaises | src/core/function-cache.ts:618-638 | Both kinds of bump keep invalidation <= publication for every key and lower nothing; an invalidation bump exceeds both old epochs, a publication bump leaves the invalidation epoch alone. |
| Epochs.PairUnchangedMeansNotBumped | src/core/function-cache.ts:610-642 | Over any run of bumps, through any evictions: epochs never go down, the invalidation epoch stays at most the publication epoch, and an unchanged invalidation (publication) epoch means that no invalidation (no bump at all) of the key happened since it was captured. |
| Epochs.PairEpochTable.BumpPublicationEpoch | src/core/function-cache.ts:618-622 | The in-place bump yields the registry value of a publication bump. |
| Epochs.PairEpochTable.BumpInvalidationEpoch | src/core/function-cache.ts:628-632 | The in-place bump yields the registry value of an invalidation bump. |
| Epochs.PairEpochTable.SetEpochs | src/core/function-cache.ts:634-638 | Deleting, setting and pruning in place moves the key to the end and evicts the oldest with the default pushed past both its epochs. |
| FailureRegistry.FailedKeysStayReported | src/core/context.ts:3454-3507 | Over any run of marks and clears, a key marked as failed and not cleared since is reported, through set overflow, new generations, eviction of recovered keys and the mark that throws. |
| FailureRegistry.ExactBeforeOverflow | src/core/context.ts:3454-3507 | While no overflow has happened, exactly the keys whose last operation was a failure are reported. |
| FailureRegistry.ClearedKeyIsReadable | src/core/context.ts:3487-3507 | After a successful invalidation its key is not reported, in any generation and although recovered keys are evicted. |
| FailureRegistry.NoEarlyOverflow | src/core/context.ts:3465-3485 | The registry does not overflow before more keys than the limit have failed. |
| FailureRegistry.FewFailuresAreReportedExactly | src/core/context.ts:3454-3507 | As long as no more different keys have failed than the limit, exactly the keys whose last operation was a failure are reported. |
| FailureRegistry.FailureTable.Mark | src/core/context.ts:3465-3485 | The in-place mark leaves the marked registry, keeps the bounds, and throws exactly when the generations are exhausted. |
| FailureRegistry.FailureTable.Clear | src/core/context.ts:3487-3507 | The in-place clear, with its eviction loop, leaves the cleared registry within its bounds. |
| EntityCache.StaleEntriesAreCovered | src/core/context.ts:1964-1971 | In every interleaving of readers and writers whose cache writes and deletes may fail, a cached value that differs from the store will be deleted by a writer that has not deleted yet or by a reader that wrote back with an outdated epoch or whose write failed, or a delete has failed and left it; with nothing of the key in flight only the last is possible. |
| EntityCacheFailures.FreshAtRestUnlessADeleteFailed | src/core/context.ts:1964-1971 | If no delete failed, then with nothing of a key in flight its cached entry equals the store. |
| EntityCacheFailures.StaleAtRestIsReportedIffNotOverlooked | src/core/context.ts:2430-2454 | A stale entry at rest was left by a failed delete, and its key is reported as failed if and only if no invalidation or write-back of the key completed after the last failure while nothing replaced the entry (until the registry of failures overflows, after which such a key may be reported too). |
| EntityCacheFailures.ClearerWasSpent | src/core/context.ts:2453 | Whatever clears the mark of an untouched entry was already under way when the delete failed, with its own effect on the cache behind it. |
| EntityCacheFailures.StaleAtRestIsReported | src/core/context.ts:2430-2454 | So if deletes of a key fail only while no such operation of the key is under way, a stale entry at rest is always reported. |
| EntityCacheFailures.SuccessHidesAFailure | src/core/context.ts:2449-2453 | A concrete run of 15 steps after which a stale entry is at rest and not reported. |
| EntityCacheFailures.HistoryTellsTheRun | src/core/context.ts:3465-3507 | What the states remember of failed deletes and cleared marks is what happened in the run. |
| EntityCache.ServedHitsAreCurrent | src/core/context.ts:2023-2040 | A read that ends with what it found in the cache, read while no stale write-back was pending and no failed delete had left the entry, has what the store holds now unless an invalidation of the key is still in flight or a delete of it has failed since. |
| EntityCacheReads.FailedKeysAreReadFromTheStore | src/core/context.ts:1979-2046 | From the failure of a delete of a key until an invalidation or an undisturbed write-back of it is over, every read of the key that starts goes to the store, and none that has read the cache ends with what it found. |
| EntityCacheReads.StaleAtRestIsNeverReturned | src/core/context.ts:2041-2046 | As long as nothing touches a stale entry that a failed delete left at rest and that is not overlooked, no read looks at it. |
| EntityCacheReads.CachedRowIsReturned | src/core/context.ts:2023-2050 | A read that nothing disturbs, of a cached row whose key is not marked, ends with that row without going to the store. |
| EntityCacheReads.LoadedRowIsCached | src/core/context.ts:3509-3651 | A read that goes to the store and that nothing disturbs leaves the store's row in the cache and its key unmarked. |
| EntityCacheReads.ChangeInvalidates | src/core/context.ts:2430-2460 | A change of a row and its invalidation, undisturbed, leave nothing cached, the key unmarked and its epoch raised. |
| EntityCacheReads.MissingRowsAreCachedOnlyWhenAllowed | src/core/context.ts:3509-3554 | In every run of a model that does not cache missing rows, none is in the cache or on its way there. |
| EntityCacheReads.OutdatedReadsWriteNothing | src/core/context.ts:3520-3552 | A read whose epoch moves before it has asked for its cache write never asks for it; if it moves before the hook, that is not run either. |
| EntityCacheReads.ReadersGoOn | src/core/context.ts:1964-2075 | A read can always go on, whatever others do, and ends after nine steps of its own at most. |
| EntityCache.StepKeepsInv | src/core/context.ts:3509-3651 | Every step of readers (miss, read, re-check, write back, re-check, delete, clean up after a failed write) and writers (change, bump, delete, bump) and every failure of theirs keeps the invariant. |
| EntityCache.RunKeepsInv | src/core/context.ts:2430-2460 | The invariant holds in every reachable state. |
| DistributedCache.StaleOnlyUntilInvalidated | src/core/context.ts:3561-3600 | With conditional writes that fail once their version is invalidated: every writer that changed the row after a cached answer was loaded has not completed its invalidation, and once all have, the entry equals the store. |
| DistributedCache.WriteTakesEffectIffNotInvalidated | src/core/context.ts:3561-3600 | A conditional write-back takes effect if and only if no invalidation of its key took effect since the versioned read behind it; the cache then holds what the reader loaded, otherwise what it held. |
| DistributedCache.ReadersSeeWhatWasWritten | src/core/context.ts:2003-2012 | Every versioned read answers what the last effective write-back stored, and nothing after an invalidation. |
| DistributedCache.MissIsCached | src/core/context.ts:2003-2012 | A read run alone that finds nothing leaves the store's row in the cache; if it then cleans up instead of ending, it leaves nothing. |
| DistributedCache.ChangeInvalidates | src/core/context.ts:2430-2460 | A change run alone leaves the new row in the store, nothing in the cache, a new version and nothing under way. |
| DistributedCache.StepKeepsInv | src/core/context.ts:2003-2012 | Every step of readers and writers in processes without common epochs keeps that. |
| WriteQueue.OneAtATimeInArrivalOrder | src/core/function-cache.ts:813-825 | Writes of one key run one at a time, finish in arrival order, none is skipped, and the line never gets stuck. |
| WriteQueue.StepInLine | src/core/function-cache.ts:813-825 | Each arrival, resumption and finish keeps the chain in line; the one that finishes is the oldest. |
| WriteTurns.TurnsAgree | src/core/function-cache.ts:818 | A ticket may go on after the promise before it exactly when the per-key queue of the function cache model gives its write the turn. |
| WriteTurns.ChainRefinesQueue | src/core/function-cache.ts:813-825 | Every run in which only the promise chain grants the turns of a key is, step for step, a run of the function cache model, and the queue is always the unfinished tickets. |
| FunctionCache.RefreshesAreNotOverwritten | src/core/function-cache.ts:386-441 | In every reachable state the adapter holds no factory value older than the latest published refresh of the key. |
| FunctionCacheCallers.FreshAtRestIffNothingLost | src/core/function-cache.ts:386-391 | With nothing of a key in flight, its entry is no older than the latest set() or invalidate() if and only if no set() reached its turn as the latest call with a moved epoch in front of an older entry that nothing touched afterwards. (That such an entry is stale follows from what it is; that nothing else is stale is the invariant.) |
| FunctionCacheCallers.SetOvertakenIffEpochMoved | src/core/function-cache.ts:264-339 | A set() that is the latest call of its key finds its epoch moved at its turn if and only if, since it began, an invalidate() of the key that began before it completed, or the key was evicted from the registry. |
| FunctionCacheCallers.FreshForCarefulCallers | src/core/function-cache.ts:264-339 | The caller's condition: with no more keys in use than the registry holds, and no set() of a key begun while an invalidate() of it is in flight, nothing older than the latest set() or invalidate() is left at rest. |
| FunctionCacheCallers.GuardedRunsAreFreshAtRest | src/core/function-cache.ts:634-638 | The same with any number of keys, if the key stays in the registry while its sets wait. |
| FunctionCache.FreshAtRest | src/core/function-cache.ts:386-391 | In a run where no set() of the key reaches its turn with a moved epoch although nothing of the key began after it, nothing older than the latest set() or invalidate() is left at rest. |
| FunctionCacheCallers.OnlySetsAreOvertaken | src/core/function-cache.ts:215-241 | A run that never calls set() of the key satisfies that condition. |
| FunctionCache.OlderInvalidationDropsSet | src/core/function-cache.ts:322-326 | A concrete run of 13 steps after which an older backfill survives a later set(). |
| FunctionCache.StepKeepsInv | src/core/function-cache.ts:358-458 | Every step of gets, refreshes, background refreshes, sets and invalidations keeps the invariant behind the freshness theorems; what the steps store is in FunctionCacheEntries. |
| FunctionCacheEntries.WrittenEntryStays | src/core/function-cache.ts:386-441 | Once a write of any kind has taken effect, the adapter holds its entry, with its writer, kind and start, until another write, a delete or an expiry of the key takes effect. |
| FunctionCacheEntries.SetIsStored | src/core/function-cache.ts:264-297 | A set() of a key at rest, run alone, leaves its own value and nothing under way. |
| FunctionCacheEntries.MissIsBackfilled | src/core/function-cache.ts:215-241 | A get() of a key at rest that misses, run alone, leaves what its factory answered and no epoch moved. |
| FunctionCacheEntries.RefreshIsStored | src/core/function-cache.ts:172-178 | A refresh run alone leaves what its factory answered and moves the publication epoch twice. |
| FunctionCacheEntries.BackgroundRefreshIsStored | src/core/function-cache.ts:386-441 | So does a background refresh, which moves it once. |
| FunctionCacheEntries.InvalidateRemoves | src/core/function-cache.ts:298-339 | An invalidate() run alone leaves nothing under its key and moves the epochs twice. |
| FunctionCacheEntries.RefreshSuppressesBackfill | src/core/function-cache.ts:237-240 | When a refresh of the key starts or is published while a get() is under way, the get() does not write its value, unless an invalidation came between its start and its factory's. |
| FunctionCacheEntries.HitsAndFailuresWriteNothing | src/core/function-cache.ts:225-241 | A get() that finds its value, and a read whose factory fails, is over at that moment and never writes. |
| SavepointAdmission.ReleasedOnlyWhenClean | src/core/context.ts:2818-2904 | In every run a released frame's callback was let in exactly once and had fulfilled, the adapter succeeded, and no violation was noticed while the call was open. |
| SavepointViolations.MisbehaviourPoisonsAncestors | src/core/context.ts:2626-2673 | If, while the call was open, the callback was invoked twice, was invoked or started after the settlement, had not settled when the call went on, or had rejected although success was reported, then after the call its frame is not released, every frame around it is rollback-only, and none of their callbacks has fulfilled or can. |
| SavepointViolations.ViolationsAreNoticed | src/core/context.ts:2776-2867 | The call is treated as a violation exactly when one of these events happened while it was open. |
| SavepointViolations.ViolatedCallEndsUnconfirmed | src/core/context.ts:2798-2867 | A call in which a violation happened ends with its frame unconfirmed, or with none if its callback never began. |
| SavepointViolations.CleanCallEndsAsReported | src/core/context.ts:2815-2904 | A call without violation ends as the adapter reports: released, rolled back, or unconfirmed if the adapter says so. |
| SavepointViolations.ReleasedExactly | src/core/context.ts:2818-2904 | A call that goes on is released exactly if by then its callback was invoked once and fulfilled and the adapter reported success; nobody else is touched then. |
| SavepointViolations.EarlySettlementUnnoticed | src/core/context.ts:2762-2828 | An adapter that settles while the callback runs goes unnoticed, the call ending with the adapter's own report, if and only if the callback settles before the call goes on (rejecting only under a reported failure); otherwise the call waits for the callback or ends unconfirmed. |
| SavepointViolations.EarlySettlementIsReleased | src/core/context.ts:2762-2828 | A concrete run in which the adapter settles early, the frame is released and the root can commit. |
| SavepointViolations.CallEndsBeforeCallback | src/core/context.ts:2776-2818 | A call that goes on ends although its callback runs if and only if the adapter reported success and had invoked the callback more than once. |
| SavepointViolations.OpenCallsOfEndedFrames | src/core/context.ts:2815-2818 | The callback that made an open call still runs; if its own call is over, that call ended unconfirmed. So released and rolled back frames have no open calls in them. |
| SavepointViolations.ReleasedIntoEndedFrame | src/core/context.ts:2818-2906 | A concrete run of 14 steps in which a savepoint is released into a frame that has ended unconfirmed. |
| SavepointAdmission.CleanCallsAreReleased | src/core/context.ts:2868-2904 | A call without a noticed violation whose callback fulfilled is released and poisons nobody. |
| SavepointAdmission.PoisonLine | src/core/context.ts:2637-2641 | The loop over the parents marks exactly the frame and those it is nested in. |
| SavepointAdmission.StepKeepsInv | src/core/context.ts:2600-2867 | Every step of callers, callbacks and adapters keeps the admission invariant. |
| TransactionFrames.CommitRunsTheSurvivorsTasks | src/core/context.ts:5657-5665 | Root commit, also on a rollback-only root, runs all commit tasks of frames released all the way up, none of any other frame, and no task twice. |
| TransactionFrames.CommitRunsInternalTasksFirst | src/core/context.ts:5657-5665 | Internal tasks run before user tasks, each part keeping every frame's own order. |
| TransactionFrames.LostFramesRunNoCommitTask | src/core/context.ts:2909-2941 | No commit task runs of a frame that was rolled back or left unconfirmed, or that lies inside such a frame. |
| TransactionFrames.RollbackTasksRunOnce | src/core/context.ts:2911-2938 | At any moment the rollback tasks run so far are, each once, exactly those of frames that were rolled back or whose tasks were passed on, while the parents were open, to a frame that was. |
| TransactionFrames.RollbackTasksRunIffHandedInTime | src/core/context.ts:2890-2928 | Once a frame was rolled back, every rollback task meant for it has run if and only if no frame with rollback tasks was handed on, on the way to it, into a frame that had ended. |
| TransactionFrames.LateReleaseLosesRollbackTask | src/core/context.ts:2890-2928 | A concrete run in which the rollback task of a late savepoint never runs although the root is rolled back. |
| TransactionFrames.NestedRunsAreInTime | src/core/context.ts:2868-2941 | If every frame ends after the savepoints opened in it, nothing is handed on late. |
| TransactionFrames.OneInvalidationPerKey | src/core/context.ts:2389-2398 | When unconfirmed savepoints made their ancestors rollback-only and the root is not, the keys evicted at root commit are exactly those invalidated in a surviving frame, each by exactly one task. |
| TransactionFrames.EvictedIffRecorderSurvives | src/core/context.ts:2919-2924 | Without that premise: a key invalidated in a surviving frame is evicted at commit by exactly one task if the frame whose task the root has recorded for it survived, and by none otherwise. |
| SavepointErrors.UnconfirmedIffErrorReused | src/adapters/store/sqlite.ts:542-564 | On SQLite, a transaction that may commit contains an unconfirmed savepoint if and only if a savepoint callback threw an error that had been marked outside that transaction. |
| SavepointErrors.KeysAreEvictedUnlessErrorReused | src/adapters/store/sqlite.ts:542-564 | If none did, the keys evicted at commit are exactly those invalidated in surviving frames, each by one task. |
| SavepointErrors.ReusedErrorLosesInvalidation | src/core/context.ts:2909-2928 | A concrete run of two transactions in which a marked error is thrown again and a surviving frame's invalidation has no task at commit. |
| SavepointErrors.StepKeepsInv | src/adapters/store/sqlite.ts:538-570 | Every step keeps: in a transaction that may commit, all marked errors were marked outside it, and a savepoint is unconfirmed exactly if one of them was thrown. |
| TransactionFrames.UnknownOutcomeEvictsEveryRecordedKey | src/core/context.ts:3059-3077 | After an unknown root outcome exactly the keys whose records were passed on to the root while the parents were open are evicted, each by one task of that key; no commit task and no rollback task of the root runs. |
| TransactionFrames.RecordedKeysEvictedIffHandedInTime | src/core/context.ts:3059-3077 | At any moment after an unknown root outcome, every key recorded in a frame meant for the root has been evicted if and only if each key of a frame handed on late, on the way to the root, was recorded in time by another frame as well. |
| TransactionFrames.LateReleaseLosesKey | src/core/context.ts:2919-2925 | A concrete run in which a key recorded by a late savepoint is not evicted after an unknown outcome. |
| TransactionFrames.StepKeepsInv | src/core/context.ts:2868-2941 | Opening, registering, invalidating, releasing, rolling back, failing and ending, in any order of frames that an adapter can bring about, keep for every open frame who holds which task, and for every frame handed on late what was left in it. |
| TransactionStates.TransactionState.ReleaseInto | src/core/context.ts:2868-2904 | The release loops leave the parent with the merged value that the theorems are about, the child unchanged and closed as released. |
| TransactionStates.TransactionState.FailInto | src/core/context.ts:2911-2928 | An unconfirmed child hands over rollback tasks and recorded keys and no commit task. |
| TransactionStates.TransactionState.MergeInvalidationsInto | src/core/context.ts:2868-2881 | In any order of keys, the parent's own entries win and exactly the tasks of new keys are accepted. |
| TransactionStates.TransactionState.InheritTasks | src/core/context.ts:2882-2889 | Of the child's internal tasks the parent gets all but the invalidations that were not accepted, in order. |
| TransactionStates.RunDeferredTasks | src/core/context.ts:5625-5643 | Every task runs in order although earlier ones fail; the failures are reported in order. |
| TransactionStates.RunAfterCommitTasks | src/core/context.ts:5657-5665 | Internal tasks, then user tasks, all of them; all failures are reported together. |
| TransactionOutcome.AttemptsCloseOnce | src/core/context.ts:2983-3110 | Over any number of attempts at most one is closed as committed and it is the last; earlier ones are rolled back; the rollback tasks run are exactly those of the attempts closed as rolled back, once and in order; the last attempt's closing agrees with the reported outcome. |
| TransactionOutcome.NotCommittedMeansNoCommit | src/core/context.ts:3055-3059 | "not_committed" if and only if the store was never called, or it rejected (not with its own committed error) and its rollback was confirmed after the last start of the callback or by its own rolled-back error. |
| TransactionOutcome.CommittedMeansStoreSaidSo | src/core/context.ts:2532-2550 | "committed" if and only if the store resolved after running the callback or rejected with a committed error of its own. |
| TransactionOutcome.CommittedAlthoughRejected | src/core/context.ts:3079-3093 | A concrete run in which the store resolves after the callback rejected, and the attempt is committed and its commit tasks run. |
| TransactionOutcome.StateTellsTheRun | src/core/context.ts:2990-3031 | What the call remembers (confirmation, callback errors, attempts) is what happened in the run. |
| TransactionOutcome.AttemptsTellTheRun | src/core/context.ts:2990-3031 | There is one attempt for every start of the callback, with exactly the rollback tasks registered in it, in order, and the way its callback ended. |
| TransactionOutcome.CallbackMayStartIff | src/core/context.ts:2983-3031 | While the store works on the call, it can start the callback whenever no attempt is running, as often as it likes, and tasks are registered only while one is. |
| TransactionOutcome.CallEndsWhenSettled | src/core/context.ts:3055-3110 | The call is over exactly when it was refused or the store has settled, and nothing happens afterwards. |
| TransactionOutcome.StepKeepsInv | src/core/context.ts:2983-3110 | Every event of the store and of the callback keeps how attempts are closed. |
| KeyOwnership.OwnershipIsOneToOne | src/core/context.ts:3341-3355 | With any number of concurrent transactions the root's two maps are inverses of each other and within the limit, so are those of every open frame, and no confirmed entry ever changes. |
| KeyOwnership.CommitMergesAllOrNothing | src/core/context.ts:3402-3412 | A commit merges all staged entries or none, and is accepted exactly when they fit the limit and none is bound differently at the root. |
| KeyOwnership.ReleaseIsRefusedOnlyOverLimit | src/core/context.ts:2724-2732 | A savepoint inside an idle frame never conflicts with it; it is refused only over the limit and otherwise leaves the frame with exactly its entries. |
| KeyOwnership.ClaimBindsThePair | src/core/context.ts:3341-3350 | A claim conflicts exactly when the root or the frame binds the key or the owner differently; an accepted pair is bound at the root or in the frame, a refused one changes nothing. |
| KeyOwnership.RootClaimBindsThePair | src/core/context.ts:3351-3400 | A claim outside a transaction is accepted exactly if it conflicts with nothing and fits; the root then binds the pair besides all it bound before, and a refused one changes nothing. |
| KeyOwnership.AcceptedClaimsReachTheRoot | src/core/context.ts:3341-3412 | A pair that a transaction has claimed, in whatever savepoint, stays bound for it through releases and whatever others do until a rollback drops it, and is bound at the root once the transaction's entries are merged. |
| KeyOwnership.RolledBackSavepointLeavesNothing | src/core/context.ts:2676-2702 | Rolling back a savepoint leaves the frames around it as they were, whatever was claimed in it and in savepoints inside it. |
| KeyOwnership.OpenIffBegunLast | src/core/context.ts:2964-2980 | A transaction is open from its beginning, without entries, to its rollback or commit, with one frame and one more for every savepoint that has not ended. |
| KeyOwnership.OpenTransactionsGoOn | src/core/context.ts:2964-2980 | An open transaction can claim, open savepoints and roll back at any time; it can commit exactly when no savepoint is open in it. |
| KeyOwnership.PlusKeepsInverse | src/core/context.ts:3402-3412 | Merging compatible inverse maps gives inverse maps that extend both. |
| KeyOwnership.OwnershipMaps.Claim | src/core/context.ts:3351-3354 | The in-place claim outside a transaction. |
| KeyOwnership.OwnershipMaps.ClaimStaged | src/core/context.ts:3342-3350 | The in-place claim of a frame, checked against the root and the frame. |
| KeyOwnership.OwnershipMaps.WithinLimit | src/core/context.ts:3383-3400 | The counting loop decides whether the union of confirmed, staged and claimed keys fits the limit. |
| KeyOwnership.OwnershipMaps.CompatibleWith | src/core/context.ts:3404-3409 | The checking loops accept exactly the staged maps none of whose entries is bound differently. |
| KeyOwnership.OwnershipMaps.MergeStaged | src/core/context.ts:3402-3412 | The in-place merge leaves the root as it was unless every check passed. |
| Outbox.DrainSplitsInOrder | src/core/outbox-memory.ts:36-66 | Drained and retained events are an order-preserving split of the queue, at most the limit being drained. |
| Outbox.DrainConservesEvents | src/core/outbox-memory.ts:36-66 | Each id goes to exactly one side. |
| Outbox.DeliveredPastRetained | src/core/outbox-memory.ts:44-61 | A delivered event checks no key that blocked an earlier retained live event, nor any key that event blocks if it was merely not available. |
| Outbox.EntityOrderIsKept | src/core/outbox-memory.ts:48-61 | For events with one entity order key, none is delivered past a retained live event with the same key. |
| Outbox.PlainEventsHaveOneKey | src/core/outbox-protocol.ts:144-158 | Events without Datastore scope, ancestor or identity have one key, which they check and block; which events share it is in OneEntityKeepsOrder and DifferentEntitiesAreIndependent. |
| Outbox.OneEntityKeepsOrder | src/core/outbox-protocol.ts:144-158 | Of two live events with the same model and the same id, without Datastore fields, the later is delivered only if the earlier is. |
| Outbox.OneIdentityKeepsOrder | src/core/outbox-protocol.ts:144-158 | So for live events with the same model and the same document identity, and nothing that gives them further keys. |
| Outbox.SameFormKeepsOrder | src/core/outbox-memory.ts:44-61 | So for live events that agree in all the fields that name an entity, whatever these are. |
| Outbox.DifferentEntitiesAreIndependent | src/core/outbox-protocol.ts:144-158 | Events of different models or ids have no key in common, so neither holds the other back. |
| Outbox.DeliveredIffFree | src/core/outbox-memory.ts:44-61 | Exactly those live, available events are delivered, as long as the batch has room, none of whose keys is blocked by an earlier event that was passed over because it was not yet available. |
| Outbox.SharesAKeyIff | src/core/outbox-protocol.ts:144-158 | One event can hold back another exactly if they name an entity of one model by the same text, or name none and have one id, or are the two Datastore forms (identity only, and ancestor without namespace) of one model, id and scope. |
| Outbox.AliasesKeepOrder | src/core/outbox-protocol.ts:256-315 | The identity-only and the namespace-less ancestor form of one entity do not overtake each other while the first is merely not available. |
| Outbox.NeverOvertakenIffCovered | src/core/outbox-memory.ts:44-60 | A live event that a drain leaves behind is never overtaken by an event that shares a key with it, whatever follows in the queue, if and only if the batch was full, or no key it checks was blocked ahead of it, or all keys it blocks were. |
| Outbox.KeysBlockedIffCovered | src/core/outbox-memory.ts:50-56 | An event left behind before the batch is full has all its keys blocked behind it exactly under that condition. |
| Outbox.SharedKeysCanBeOvertaken | src/core/outbox-memory.ts:50-56 | A queue of three events in which an event with two keys is overtaken. |
| Outbox.IdsStayDistinct | src/core/outbox-memory.ts:104-117 | In every state reached by append, drain, requeue and retry the ids in the queue are distinct. |
| Outbox.RetryComesBackLater | src/core/outbox-memory.ts:78-86 | A retried event is the failed one, with the same id and entity, the next version and the attempts made, and becomes available exactly at its retry time. |
| Outbox.RetriedEventHoldsBackItsEntity | src/core/outbox-memory.ts:78-86 | Put back, it is delivered neither itself before its retry time nor is any other event of its entity. |
| Outbox.RetriesComeBackInOrder | src/core/outbox-memory.ts:78-86 | A batch of failures is refused as a whole if one lacks its event or its retry time; otherwise all come back in front, in order, or the ids conflict and nothing changes. |
| Outbox.DeadLetterStaysBehind | src/core/outbox-memory.ts:88-102 | A dead letter is the failed event, marked with the time of its failure, and no drain delivers it. |
| Outbox.PrependingConflictsIff | src/core/outbox-memory.ts:104-117 | Events are put in front exactly if their ids differ from each other and from all ids in the queue. |
| Outbox.MemoryOutbox.Append | src/core/outbox-memory.ts:13-18 | Appends at the end, or reports a conflict and changes nothing. |
| Outbox.MemoryOutbox.Drain | src/core/outbox-memory.ts:36-66 | The in-place drain returns the drained events and keeps the retained ones. |
| Outbox.MemoryOutbox.Requeue | src/core/outbox-memory.ts:68-76 | Prepends in order, or reports a conflict and changes nothing. |
| Outbox.MemoryOutbox.Retry | src/core/outbox-memory.ts:78-86 | Prepends the retry forms of the failed events, all or none. |
| Outbox.MemoryOutbox.DeadLetter | src/core/outbox-memory.ts:88-102 | Adds the dead-letter forms to the dead letters, all or none. |
| Outbox.AssertAvailableIds | src/core/outbox-memory.ts:104-117 | The loops accept exactly batches with distinct ids that are not in the queue. |
| OutboxRecovery.LostEventsArePutBackOnce | src/core/outbox-recovery.ts:20-104 | After recovery the ids are distinct and are exactly the old and the current ones; every lost event is there; the current events keep their order as one block. |
| OutboxRecovery.OldOrderIsRestored | src/core/outbox-recovery.ts:64-104 | The old events are in exactly their old order if and only if none survived, or the survivors are in order one contiguous stretch of the old queue. |
| OutboxRecovery.PartsAreMissing | src/core/outbox-recovery.ts:64-100 | What is requeued and what is appended are together, in order, all missing events. |
| OutboxRecovery.RecoverFailedDrain | src/core/outbox-recovery.ts:20-104 | The in-place recovery on the memory outbox never fails and leaves the recovered queue. |
| OutboxRecovery.Survivors | src/core/outbox-recovery.ts:47-63 | One scan finds the first and the last survivor and the missing events. |
| OutboxRecovery.CollectMissing | src/core/outbox-recovery.ts:65-100 | Collects the missing events of a stretch in order. |
| OutboxRecovery.AppendEvents | src/core/outbox-recovery.ts:146-156 | Appending free events one by one never conflicts. |
| OutboxRecovery.RequeueEvents | src/core/outbox-recovery.ts:117-144 | Requeueing free events puts them in front, in order. |
| Texts.ComponentRoundTrip | src/core/function-cache.ts:1219-1221 | A length-prefixed text is read back exactly, whatever it contains and whatever follows. |
| Texts.DecimalRoundTrip | src/core/function-cache.ts:1219-1221 | Decimal lengths are read back. |
| Texts.LessIsByFirstDifference | src/core/cursor.ts:137-152 | A text is less than another exactly if it is a proper prefix of it or has the smaller character where they first differ. |
| StableKeys.StableKeysAreInjective | src/core/function-cache.ts:1140-1217 | Two supported inputs have equal text if and only if they are equal up to property order at every level. |
| StableKeys.StableTextParsesBack | src/core/function-cache.ts:1140-1217 | A parser reads the text back to the same input, up to property order, with nothing left over. |
| StableKeys.SupportedIffEveryPartIs | src/core/function-cache.ts:1140-1217 | An input has a key exactly if every part of it is supported, at every depth. |
| StableKeys.PrintRoundTrip | src/core/function-cache.ts:1140-1217 | Parsing a printed value followed by any terminated text gives the value and that text. |
| StableKeys.SameMeansEqualCanon | src/core/function-cache.ts:1196-1209 | Equality up to property order is equality after sorting the properties. |
| StableKeys.SortSorts | src/core/function-cache.ts:1223-1230 | Insertion keeps the fields, in strict order of their names. |
| StableKeys.SortedIsUnique | src/core/function-cache.ts:1223-1230 | There is one sorted list of given fields. |
| StableKeys.InsertSortedString | src/core/function-cache.ts:1232-1237 | The in-place insertion into a sorted array is the insertion on values and touches nothing behind it. |
| StableKeys.SortedPropertyNames | src/core/function-cache.ts:1223-1230 | Inserting name after name sorts the names. |
| StableKeys.SortNamesIsSort | src/core/function-cache.ts:1196-1209 | Sorting the names gives the names of the sorted fields. |
| DatastoreKeys.IdentityIsInjective | src/core/datastore-key.ts:357-368 | Normalized keys have equal identities if and only if they are equal. |
| DatastoreKeys.DatastoreKeyIdentity | src/core/datastore-key.ts:357-368 | The accumulating loop builds the identity. |
| DatastoreKeys.EntityIdKeyIsInjective | src/core/query-utils.ts:42-46 | Different entity ids have different keys. |
| DatastoreKeys.ScopedAncestorMatches | src/core/datastore-key.ts:370-384 | Ancestors match exactly when their identities are equal, or are equal once an actual key without namespace is given the expected one. |
| DatastoreKeys.MatchesByPathAndNamespace | src/core/datastore-key.ts:370-384 | In terms of the keys: the paths are the same, and so are the namespaces unless the actual key names none. |
| FieldPaths.RelationOnTextsIsPrefix | src/core/field-codecs.ts:287-292 | The relation computed on dotted texts is the prefix relation of the segments. |
| FieldCodecs.WriteThenRead | src/core/field-codecs.ts:24-77 | With lossless codecs on non-overlapping paths, writing any nested row and reading it back is the identity, in whatever orders the codecs are applied. |
| FieldCodecs.WrittenValues | src/core/field-codecs.ts:53-77 | A written row has the encoded value at every codec's path and its own value at every path that overlaps none. |
| FieldCodecs.ApplyIsUpdate | src/core/query-utils.ts:138-204 | Looking up a path, coding the value and setting the path is one change at that path; through a list it fails. |
| FieldCodecs.SetPathFailsIff | src/core/query-utils.ts:152-204 | Setting a path fails exactly when something on the way is neither a record nor null (or the row itself is no record); otherwise the value is found at the path afterwards. |
| FieldCodecs.PathIsFollowed | src/core/query-utils.ts:138-150 | Looking up a path is looking up its parts one after the other. |
| FieldCodecs.UpdatesCommute | src/core/field-codecs.ts:24-30 | Codecs on disjoint paths may change places. |
| FieldCodecs.ApplyFieldCodecs | src/core/field-codecs.ts:24-30 | The loop applies every codec in order and stops at the first error. |
| FieldCodecs.PathsDoNotOverlap | src/core/query-utils.ts:115-136 | The nested loops accept exactly paths none of which is a prefix of another. |
| QueryPlans.EncodedPlanSelectsSameRows | src/core/field-codecs.ts:109-130 | If each codec's encodeQuery agrees with its encode on the operators it allows, the encoded plan tree matches a stored row exactly when the original matches the row. |
| QueryPlans.EncodingKeepsMeaning | src/core/field-codecs.ts:263-269 | The same as EncodedPlanSelectsSameRows, for plans some of whose branches are already encoded. |
| QueryPlans.LosslessPlansSelectSameRows | src/core/field-codecs.ts:109-130 | For lossless codecs that encode the operands of =, != and in like stored values, the encoded plan selects the same rows; only for other operators is agreement of encodeQuery with encode assumed. |
| QueryPlans.LosslessIsFaithful | src/core/field-codecs.ts:228-277 | Such codecs agree on =, != and in: an encoded operand equals the encoded value exactly where the operand equals the value. |
| QueryPlans.WhereKept | src/core/field-codecs.ts:228-261 | One encoded condition holds of the stored value exactly when the original holds of the row's value. |
| QueryPlans.EncodeQueryPlan | src/core/field-codecs.ts:109-130 | The recursive loops encode the tree, with the same errors; EncodingKeepsShape and EncodingSucceedsIff say what the encoded tree is like and when there is one. |
| QueryPlans.EncodingKeepsShape | src/core/field-codecs.ts:123-130 | The encoded plan and every branch of it have the sort list, the fields and the operators of the original, and carry the marker. |
| QueryPlans.EncodingSucceedsIff | src/core/field-codecs.ts:228-277 | A plan can be encoded exactly if every condition that concerns a codec is on its very path, with an operator it allows and operands it encodes to valid ones, every sorted field that concerns a codec is its very path with < and > allowed, and the same holds in every branch. |
| QueryPlans.UnrelatedIffDisjoint | src/core/field-codecs.ts:280-292 | A field is unrelated to a codec exactly if neither path is a prefix of the other. |
| QueryPlans.AggregatePlansSelectSameRows | src/core/field-codecs.ts:132-143 | An aggregate's plan can be encoded exactly when the query without its sort can, and then selects the same rows. |
| QueryPlans.MatchesIffAnAlternativeHolds | src/core/query-utils.ts:395-414 | A plan matches a row if and only if all conditions of one of its nodes hold, a node with branches and no conditions not counting. |
| QueryPlans.ConditionsOnScalars | src/core/query-utils.ts:231-252 | On numbers, the operators are =, !=, <, <=, >, >=, the closed interval and membership. |
| QueryPlans.EncodingTwiceIsOnce | src/core/field-codecs.ts:123-130 | Encoding an encoded plan succeeds and changes nothing; this holds directly by the marker on the plan. |
| QueryPlans.EncodeWhereList | src/core/field-codecs.ts:228-261 | The loop encodes every condition or fails. |
| QueryPlans.EncodeOperandList | src/core/field-codecs.ts:271-277 | The loop encodes every operand in order or fails. |
| Cursors.CompareValuesIsTotal | src/core/cursor.ts:137-152 | On null, booleans, numbers and strings the comparison is zero exactly for equal values and antisymmetric. |
| Cursors.CompareValuesIsTransitive | src/core/cursor.ts:137-152 | It is transitive. |
| Cursors.CompareValuesIsThatOrder | src/core/cursor.ts:137-152 | The comparison is negative exactly when the left value comes first: null, then false before true, then numbers by size, then texts by their first differing character; and positive exactly when the right one does. |
| Cursors.CompareKeysIsTotal | src/core/cursor.ts:75-82 | So is the comparison of sort keys in mixed directions: zero exactly for equal keys, antisymmetric. |
| Cursors.CompareKeysIsTransitive | src/core/cursor.ts:75-82 | It is transitive. |
| Cursors.KeysAreOrderedByFirstDifference | src/core/cursor.ts:75-82 | Keys are ordered by the first value in which they differ, in the direction of its sort entry. |
| Cursors.KeyHoldsTheValues | src/core/cursor.ts:36-72 | A row has a key unless a sort field holds something without order; the key holds the values of the sort fields in order, absent ones as null and dates as their text. |
| Cursors.StableSortIsStrict | src/core/cursor.ts:22-33 | With the id among the sort fields, rows with different ids never compare as equal. |
| Cursors.StableSortRefines | src/core/cursor.ts:22-33 | The id decides only between rows that the plan's own sort leaves equal, and then in ascending order. |
| Cursors.SortWithStableId | src/core/cursor.ts:22-33 | The loop appends the id, ascending, unless it is there. |
| Cursors.CompareRowsBySort | src/core/cursor.ts:85-91 | Agrees with the comparison of precomputed keys; fails only if a value has no order. |
| Cursors.CompareRowToCursor | src/core/cursor.ts:93-101 | Compares a row with the cursor as with the key of the row it was made of. |
| Pages.WalkVisitsEveryRowOnce | src/adapters/store/memory.ts:214-241 | Walking pages of any size of at least one visits every row once, in order. |
| Pages.AllPages | src/adapters/store/memory.ts:204-241 | A caller who repeats the query with each page's cursor until there is none sees, for rows with distinct ids and any page size of at least one, every row exactly once and in order. |
| Pages.CursorCutsSuffix | src/adapters/store/memory.ts:217-225 | The rows that compare after a row's cursor are exactly the suffix behind that row. |
| Pages.PageAdvances | src/adapters/store/memory.ts:227-235 | A page is the next stretch of the rows, and its cursor, returned exactly when there are more, stands at its last row. |
| Pages.DistinctIdsMakeStrict | src/core/cursor.ts:22-33 | Rows with distinct ids give distinct keys, however they are permuted. |
| Pages.StrictOrderIsUnique | src/adapters/store/memory.ts:929-958 | There is one strictly sorted order, so every query sees the rows in the same order. |
| Pages.SortRows | src/adapters/store/memory.ts:929-958 | The bottom-up merge sort returns a sorted permutation. |
| Pages.MergePass | src/adapters/store/memory.ts:939-953 | One pass merges neighbouring runs. |
| Pages.MergeRuns | src/adapters/store/memory.ts:944-949 | Two runs are merged, the left one first among equals. |
| Pages.PassSorts | src/adapters/store/memory.ts:939-953 | A pass keeps the entries and doubles the width of the sorted runs. |
| Pages.Query | src/adapters/store/memory.ts:204-235 | The query answers a page of the sorted rows, or fails; QueryFailsIff says when, and RowsAreOrderedByNumber which way the rows are sorted. |
| Pages.QueryFailsIff | src/core/cursor.ts:36-72 | It fails exactly when some row holds, in a sort field, something without order. |
| Pages.RowsAreOrderedByNumber | src/adapters/store/memory.ts:204-235 | On a page of rows sorted first by a field with numbers, these never fall if the entry ascends and never rise if it descends, and none is on the near side of the cursor's. |
| Pages.PageKeepsOrder | src/adapters/store/memory.ts:214-235 | The rows of a page are sorted, and all of them come after the cursor. |
| BatchLoading.EveryCallerIsSettledOnce | src/core/batch-loader.ts:24-68 | Through any interleaving of loads and flushes every caller is settled at most once, and has been settled once nothing is pending or under way. |
| BatchLoading.FlushIsScheduledIffPending | src/core/batch-loader.ts:38-50 | In every reachable state a flush is scheduled exactly if callers are pending, and then can run; chunks not yet loaded can be. |
| BatchLoading.CallersGetTheirOwnAnswer | src/core/batch-loader.ts:44-68 | A caller's answer is the value for its own id in a call that contained it, or that call's own failure; calls that answer like single reads answer every caller so. |
| BatchLoading.LoadManyNow | src/core/context.ts:1939-1953 | With a cache that agrees with the store, any ids with repeats and any batch size give one store read per position, by store calls each of which asks for at least one and at most maxBatchSize distinct ids, none of them cached. |
| BatchLoading.StepKeepsInv | src/core/batch-loader.ts:14-69 | Every load, flush and finished chunk keeps every caller in exactly one place. |
| BatchLoading.BatchLoader.Load | src/core/batch-loader.ts:24-42 | Adds the caller under its id and schedules a flush. |
| BatchLoading.BatchLoader.TakeChunks | src/core/batch-loader.ts:44-50 | Takes everything pending, in chunks, and leaves the loader empty. |
| BatchLoading.PendingBatches | src/core/batch-loader.ts:71-83 | The batch in insertion order, one item per caller when results must be distinct. |
| BatchLoading.CallersShareItems | src/core/batch-loader.ts:71-83 | When results may be shared, there is one item per id, with all its callers. |
| BatchLoading.DistinctItemsAreForOne | src/core/batch-loader.ts:71-83 | When they may not, every item has one caller. |
| BatchLoading.ChunkItems | src/core/batch-loader.ts:85-96 | Cuts into chunks of the given size. |
| BatchLoading.ChunksAreFull | src/core/batch-loader.ts:85-96 | All chunks but the last have the full size, and the last has at least one item. |
| BatchLoading.ChunksHoldItems | src/core/batch-loader.ts:85-96 | Chunking loses and duplicates no caller. |
| BatchLoading.SettleWaiters | src/core/batch-loader.ts:51-67 | Settles every waiter of every item of the chunk with the answer at the item's position. |

## Left out

- Cache calls that fail: the theorems on the function cache and the distributed cache are about calls that succeed.
- EntityCache.StaleEntriesAreCovered: an exhausted epoch counter, where an invalidation throws before its delete.
- Hooks that rewrite or reject payloads, model instances and their rebinding, TTL expiry as a clock (entries may expire at any step).
- The in-process memory of the function cache, stale-while-revalidate serving, its distributed mode and the sharing of computations in flight.
- Promise scheduling below awaits. In the savepoint model a queued start runs before the continuation of an adapter promise because it was queued first.
- TransactionOutcome.AttemptsCloseOnce: attempts are made one after another; an adapter that runs two attempts at the same time, or one after the call has settled, is not modelled.
- SavepointErrors.UnconfirmedIffErrorReused: SQLite only; adapters that misbehave are in SavepointAdmission, and PostgreSQL, which clears the mark after a confirmed rollback, is not modelled.
- KeyOwnership.OwnershipIsOneToOne: a frame is idle while a savepoint inside it is open.
- OutboxRecovery.RecoverFailedDrain: the memory outbox holds only well-formed events, so the branches for events that cannot be read are not modelled; nor are outboxes without `list()` or `requeue()`.
- Outbox.NeverOvertakenIffCovered: the overtaking event may have any unused document identity of the right form; the program derives it by a digest.
- Outbox.EntityOrderIsKept: leases, store-backed outboxes and the search worker; how Datastore document identities are hashed (any text beginning with "datastore:" may be one); order keys of different shapes are taken to be different texts.
- StableKeys.StableKeysAreInjective: inputs are trees; circular inputs, accessors, symbols and sparse arrays are all "unsupported". Numbers, big integers and dates are known by the text JavaScript prints.
- Texts.ComponentRoundTrip: characters are Dafny's, which leave out surrogates, so texts with supplementary characters, which JavaScript counts as two code units each, are not covered; the same holds for the stable keys and identities built on it.
- DatastoreKeys.IdentityIsInjective: the normalizers that check shapes and freeze keys.
- FieldCodecs.WriteThenRead: rows are values, so the clone that `setPath` changes in place is a function here; projections (`applyFieldCodecsForFields`, `fieldCodecProjectionFields`); the `length` property of arrays as a path segment.
- QueryPlans.EncodedPlanSelectsSameRows: range comparison, the contains family and operand validation are parameters; operands compare by value. The marker on plans is a flag; forged markers are not modelled.
- Pages.Query: offset, field selection, the base64url text of cursors and the check that a cursor belongs to the same ordering.
- BatchLoading.LoadManyNow: epochs, failures and write-back are in EntityCache; here the cache is a set of hits that agree with the store.
- Input shape checks, error messages and statistics; real adapters; encryption, hashing and date parsing; floating-point averages; schema planning and search routing.
