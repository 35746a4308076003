# Lians: protocols and algorithms, modelled and proved in Dafny

This project models the parts of the repository whose correctness cannot be read off a single
function body: logs, protocols and algorithms that promise something about whole runs or about
all inputs. Each module names the source file it follows.

| Module | Subject |
|---|---|
| `Canonical`, `AuditLog` | the canonical text of an audit row, its hash, and the chain verifier |
| `AuditRuns` | transactions that append to the log concurrently, as a state machine and as a store that changes in place |
| `AuditAppend` | what written rows are protected against, and the chain of sessions that append one after the other |
| `AuditTamper` | what a row hash commits to, and which deletions the verifier can see |
| `Backfill` | the migration that chains the rows written before the hash columns existed |
| `HookLifecycle` | the online hook monitor and the final validator of a benchmark turn |
| `HookWording` | the same lifecycle in the words of the notifications |
| `CacheBarrier` | the durable barrier between committed mutations and the shared recall cache |
| `LeaseRules`, `CacheReads` | the barrier's guards in job statuses, and what the cache behind it serves |
| `MmrSelect`, `MmrRule`, `SlotFill`, `SessionCap` | the five result selectors of the replay benchmarks |
| `JsonText`, `ContextRenderer`, `ContextWording`, `HookReceipt` | the bounded context printer, the hook run around it, and the consumer of its receipts |
| `DaemonLifecycle`, `DaemonRuns`, `RecallServer` | recall daemons and clients sharing a lock, a state file, a token and recycled ports |
| `Luhn`, `Admission`, `ReviewQueue` | card-number check, admission decision, and the held-for-review queue with its operations in place |
| `ReviewRuns`, `ReviewContent` | the held-for-review queue over every interleaving of writes and overlapping, possibly cut off reviews |
| `KeyedList`, `DecisionUpsert`, `SessionCapture`, `CaptureWording` | keyed replace-then-append, and its use when a session is captured |
| `Prelude` | options, distinct sequences, set sizes |

## Assumptions

* SHA-256 is a function to hexadecimal text. Where injectivity is needed, it is assumed only for
  the texts that the rows in question hash, and that none of them hashes to the genesis value.
  No total injective hash to 64 digits exists, so nothing stronger is assumed.
* `str(UUID)` is injective and free of separators; new identifiers are fresh.
* A payload is represented by its canonical JSON text, sealed content by the content itself.
* A Redis bump advances a counter per (namespace, agent); a bump may also be applied and its reply lost.
* `datetime` texts of whole seconds have a `T` in the eleventh place; where SQLAlchemy stores a datetime
  in SQLite, the text has a blank there and six digits of microseconds.
* Floating-point scores and similarities are reals.
* The operating system releases a process's lock and port when the process ends, and file
  replacement is atomic. Reads and writes of the runtime directory do not fail on their own.
* The text of a regular-expression match, the sanitised content and the stripped, lower-cased
  forms of keys and sources are inputs.
* Wall-clock timeouts and retries are steps that may happen at any time.

## Where the code does less than it says

Each of these is proved, with the condition under which the promise does hold, in both directions.

* `verify_chain` with a `limit` smaller than the namespace can report intact rows as orphaned;
  no limit does so exactly if every row sorts no earlier than some parent
  (`AuditLog.NeverAlarmsIff`). The docstring takes an orphan to mean that a row was deleted from the
  middle of the chain.
* Not every edit of a row is detected: where caller columns hold no separator, one that keeps
  `row_hash` goes unreported exactly if it nulls `prev_hash` or changes nothing covered
  (`AuditTamper.PlainEditUnreportedIff`; for any columns `AuditTamper.KeptHashUnreportedIff`, for any
  edit at all `AuditTamper.EditUnreportedIff`).
* Separators in `namespace`, `agent_id` or `op` always let two different v1 rows share a canonical
  text (`Canonical.IdentifiesIffPlain`).
* Migration 0006 promises a chain that is intact from the first row, but hashes `isoformat()` of the
  stored timestamp where the verifier hashes `_fmt_dt`. For a datetime the two texts agree exactly if
  it is naive with non-zero microseconds (`Backfill.IsoAgreesIff`); the text that a raw SELECT yields
  on SQLite never agrees (`Backfill.StoredTextNeverAgrees`). The verifier accepts a backfilled
  namespace exactly if all its rows agree (`Backfill.BackfillVerifiesIff`), on SQLite therefore only
  an empty one (`Backfill.StoredTextBackfillVerifiesIff`).
* The monitor can abort a turn that the validator would have accepted: through completions that
  the validator passes over and, before the turn is bound, through faultless ones that name it.
  These are all (`HookLifecycle.AlarmIsFinalIff`).
* The invalidation barrier is lost when a commit reuses a job that is already completed or about
  to be, or when a process with the cache switched off flushes (`CacheBarrier.GuardExact`, with runs
  in `CacheBarrier.ReuseLosesBarrier` and `CacheBarrier.CacheOffLosesBarrier`).
* `mmr_select` returns one result for `k = 0`; `_seed_append_neighbors` returns more than `k`
  results when seeds outnumber slots.
* `render_context` reports `truncated` also when a blank memory was skipped (`ContextRenderer.TruncatedIff`).
* The client of the recall daemon does not check who answers: a stranger on a recycled port is
  believed if it replies with a JSON object (`DaemonLifecycle.AnsweredIff`,
  `DaemonRuns.StrangerIsBelieved`). A token file that is short, with no process still writing it, leaves
  the directory without an obtainable token for good, be its writer dead or alive; any other state of
  the file does not (`DaemonRuns.ObtainableIff`, `DaemonRuns.WedgedForever`).
* Approving a held item commits twice, and `resolve_pending` reads the item's status once, without a
  lock. "Already resolved" therefore protects an item only while its reviews do not overlap:
  * An approval may end between its commits, through a crash or because the cache flush behind
    `add_memory`'s commit raises. The memory is then stored and the item waits. A second approval
    stores the text again (`ReviewRuns.CutOffStoresTwice`); a rejection leaves it stored under a
    rejected item (`ReviewRuns.CutOffThenRejected`, and exactly then: `ReviewRuns.RejectedWithMemoryIff`).
  * Two overlapping approvals both store the text (`ReviewRuns.OverlapStoresTwice`), and a rejection
    between the commits of an approval is overturned by it (`ReviewRuns.RejectedTurnsApproved`).
  * Two memories of one item imply a cut-off approval or overlapping reviews of it
    (`ReviewRuns.TwiceOnlyIf`). From any reachable state a further memory can be stored exactly if the
    item waits or an approval of it has passed its check (`ReviewRuns.CanGainIff`), and a resolution
    is final exactly if no approval of the item is under way, nor, when it is approved, a rejection
    (`ReviewRuns.ResolutionStaysIff`).
* `add_memory` raises although it stored the memory when the cache flush behind its commit fails
  (`ReviewQueue.Queue.Write`, `ReviewQueue.Queue.ResolvePending`).
* A held item without a barrier takes the approver's barrier instead of its agent's group, and an
  empty barrier is dropped (`ReviewQueue.SameBarrierAsDirectIff`, `ReviewQueue.BarrierKeptIff`).
* With `#` in a key, upserting one decision can remove another (`DecisionUpsert.HashKeyLoses`);
  which entries remain for any keys is in `KeyedList.UpsertStanding`.
* Capturing the same session again is not always a repetition: the store joins words by single
  blanks, accumulates evidence and artifacts, keeps an earlier action and caps the artifacts at a
  hundred, while `same_checkpoint` compares the session's own texts (`SessionCapture.QuietAgainIff`,
  `SessionCapture.CaptureIdempotentIff`). A session with a decision without a reason, or a task with
  more than twenty decisions, is refused by the store (`SessionCapture.Task.Capture`).

## Model

| member | source | states |
|---|---|---|
| `Canonical.HashedTextInjective` | agentmem/src/lians/audit_chain.py:72-122 | for separator-free caller columns the hashed text determines format, version, all eight fields and, from v2 on, an arbitrary payload; no v1 text equals a v2 text |
| `Canonical.IdentifiesIffPlain` | agentmem/src/lians/audit_chain.py:72-92 | nothing else has a row's v1 text if and only if the caller-supplied columns are free of the separator |
| `Canonical.Twin` | agentmem/src/lians/audit_chain.py:83-92 | any row with a separator in a caller column has a different row with the same text |
| `AuditLog.VerifyChain` | agentmem/src/lians/audit_chain.py:257-335 | the report lists, in row order, an orphan entry and a mismatch entry per failed check, and is "ok" exactly if every chained row's parent is among the rows and its hash recomputes |
| `AuditLog.ReportMeaning` | agentmem/src/lians/audit_chain.py:301-328 | every finding is a failed check of some row and every failed check is found |
| `AuditLog.VerdictOnSelection` | agentmem/src/lians/audit_chain.py:283-316 | on an untouched table the verdict is "ok" whenever the limit covers the namespace, and otherwise exactly if no selected row's parent was cut off |
| `AuditLog.NeverAlarmsIff` | agentmem/src/lians/audit_chain.py:283-316 | no limit raises a false alarm exactly if every row has a parent that sorts no later than itself |
| `AuditLog.BackEndIrrelevant` | agentmem/src/lians/audit_chain.py:52-67 | reading timestamps back naive from SQLite or aware from PostgreSQL does not change a verdict |
| `AuditLog.ReadBackInWords` | agentmem/src/lians/audit_chain.py:52-67 | what a timestamp with an offset comes back as from either back end |
| `AuditRuns.StepKeepsInv` | agentmem/src/lians/audit_chain.py:131-196 | every begin, tip read, flush, commit and rollback keeps the committed table, and each session's view of it, chained |
| `AuditRuns.EveryInterleavingVerifies` | agentmem/src/lians/audit_chain.py:131-196 | after any interleaving, with forks, ties and backward clocks, the verifier finds nothing in any namespace |
| `AuditRuns.CommittedOnlyGrows` | agentmem/src/lians/audit_chain.py:144-196 | no step removes or edits a committed row |
| `AuditRuns.EventStore.GetChainTip` | agentmem/src/lians/audit_chain.py:131-141 | the tip is the hash of the last visible row, or genesis if there is none or it has no hash |
| `AuditRuns.EventStore.ChainLog` | agentmem/src/lians/audit_chain.py:144-196 | an append adds exactly one row: the caller's columns, the namespace, the tip its session sees, version 2, and the SHA-256 of the written-out text of all of these with the payload; the invariant is kept |
| `AuditRuns.EventStore.CommitTx` | agentmem/src/lians/audit_chain.py:144-196 | a commit publishes the session's rows and nothing else |
| `AuditAppend.NewRowsAreWritten` | agentmem/src/lians/audit_chain.py:144-196 | over every run each committed row that was not there at the start is as `chain_log` writes it, version 2 with its payload hashed |
| `AuditAppend.PayloadEditReported` | agentmem/src/lians/audit_chain.py:106-126 | over every run an edit of such a row's payload that keeps its hash is reported as a mismatch, whatever the columns hold |
| `AuditAppend.ColumnEditReportedIff` | agentmem/src/lians/audit_chain.py:106-126 | over every run an edit of such a row that keeps its hash is reported as a mismatch exactly if it changes a covered column, the version included |
| `AuditAppend.OneByOneIsOneChain` | agentmem/src/lians/audit_chain.py:131-196 | sessions that append and commit one after the other, on a clock that does not run back, leave every namespace as its old chain extended by one row for each of its sessions |
| `AuditAppend.AnyTransactionStep` | agentmem/src/lians/audit_chain.py:131-196 | the runs leave nothing out: transactions begin, commit and roll back at any time, and flush once they have read a tip |
| `AuditAppend.AnyTip` | agentmem/src/lians/audit_chain.py:131-141 | and a tip may be read against any part of the committed rows |
| `Canonical.VersionTwoText` | agentmem/src/lians/audit_chain.py:72-122 | the text hashed in format 2, written out field by field |
| `AuditTamper.EqualHashesAgree` | agentmem/src/lians/audit_chain.py:106-122 | two rows of verified logs with equal hashes agree on every covered field |
| `AuditTamper.HashFixesHistory` | agentmem/src/lians/audit_chain.py:257-335 | if two verified logs each hold a row with the same hash, the second has, ancestor for ancestor, the same covered fields as the first |
| `AuditTamper.EditChangesDescendants` | agentmem/src/lians/audit_chain.py:106-126 | an undetected edit of an ancestor changes the hash of every descendant up to it |
| `AuditTamper.KeptHashUnreportedIff` | agentmem/src/lians/audit_chain.py:301-328 | an edit in place that keeps row_hash goes unreported exactly if it nulls prev_hash, or keeps the hashed text and names a parent in the log |
| `AuditTamper.PlainEditUnreportedIff` | agentmem/src/lians/audit_chain.py:301-328 | for separator-free rows: exactly if it nulls prev_hash or changes nothing that the hash covers |
| `AuditTamper.EditUnreportedIff` | agentmem/src/lians/audit_chain.py:301-328 | any edit in place goes unreported exactly if the new row passes or is skipped, and its hash is the old one or the old row had no children |
| `AuditTamper.OrphansAreChildrenOfDeleted` | agentmem/src/lians/audit_chain.py:307-316 | after a deletion a surviving row is reported exactly if its parent was deleted |
| `AuditTamper.UnreportedIffClosed` | agentmem/src/lians/audit_chain.py:293-316 | a deletion goes unreported exactly if it takes all descendants of what it takes |
| `AuditTamper.ChainUnreportedIffTail` | agentmem/src/lians/audit_chain.py:293-316 | on an unforked chain the unreported deletions are exactly the tail segments |
| `Backfill.Upgrade` | agentmem/alembic/versions/0006_audit_hash_chain.py:48-87 | each row gets the last hash written in its namespace as parent and the hash of its raw columns, and no other column changes |
| `Backfill.BackfillIsChain` | agentmem/alembic/versions/0006_audit_hash_chain.py:60-87 | the migration leaves every namespace as one unforked chain from genesis |
| `Backfill.BackfillVerifiesIff` | agentmem/alembic/versions/0006_audit_hash_chain.py:34-87 | the verifier accepts a backfilled namespace exactly if raw columns and ORM columns render alike for each of its rows |
| `Backfill.IsoAgreesIff` | agentmem/alembic/versions/0006_audit_hash_chain.py:67-70 | for a datetime the migration's timestamp text equals the verifier's exactly if it is naive with non-zero microseconds |
| `Backfill.StoredTextNeverAgrees` | agentmem/alembic/versions/0006_audit_hash_chain.py:67-70 | the timestamp text that a raw SELECT yields on SQLite never equals the verifier's |
| `Backfill.StoredTextInWords` | agentmem/alembic/versions/0006_audit_hash_chain.py:67-70 | that text is the verifier's but for the eleventh character |
| `Backfill.SixDigitsRead` | agentmem/src/lians/audit_chain.py:67 | the microseconds are six digits that read as the number |
| `Backfill.StoredTextBackfillVerifiesIff` | agentmem/alembic/versions/0006_audit_hash_chain.py:48-87 | on SQLite the verifier accepts a backfilled namespace exactly if it is empty |
| `HookLifecycle.HookLifecycleMonitor.Observe` | agentmem/benchmarks/codex_sol_installed_plugin_ab.py:1136-1209 | the monitor's answer, remembered runs and response flag after one message, branch by branch |
| `HookLifecycle.InspectNewEvents` | agentmem/benchmarks/codex_sol_installed_plugin_ab.py:1558-1577 | unseen events are fed in order and the first that is not quiet stops the turn |
| `HookLifecycle.ValidateHookLifecycle` | agentmem/benchmarks/codex_sol_installed_plugin_ab.py:1268-1384 | accepts a trace if and only if its relevant events are the four notifications in order with matching runs, all readable, and every provider response of the turn comes last |
| `HookWording.AcceptedInWordsIff` | agentmem/benchmarks/codex_sol_installed_plugin_ab.py:1094-1384 | a trace is accepted exactly if it holds the four notifications, literal field by literal field and in order, and besides them only messages that concern neither hook, with no provider response before the last of the four |
| `HookWording.OrdinaryTraceIsQuiet` | agentmem/benchmarks/codex_sol_installed_plugin_ab.py:1136-1209 | the ordinary four notifications amid other methods are accepted, and a monitor bound to the turn objects to none of the messages |
| `HookWording.TrackedCompletionJudged` | agentmem/benchmarks/codex_sol_installed_plugin_ab.py:1153-1209 | the objection to a completion whose run was tracked, by its first fault in literal fields, and that it is quiet exactly on the literal completion |
| `HookWording.UntrackedCompletionJudged` | agentmem/benchmarks/codex_sol_installed_plugin_ab.py:1153-1209 | the same for a completion whose run was not tracked, which must be in the thread and come from the installed file or name the plugin |
| `HookWording.UnrelatedCompletionIgnored` | agentmem/benchmarks/codex_sol_installed_plugin_ab.py:1176-1184 | a completion under neither event name and not tracked draws no objection |
| `HookWording.TrackedIff` | agentmem/benchmarks/codex_sol_installed_plugin_ab.py:1157-1165 | exactly which starts are remembered, and under which hook |
| `HookLifecycle.Collect` | agentmem/benchmarks/codex_sol_installed_plugin_ab.py:1278-1312 | the first pass objects exactly to unreadable or misattributed events and otherwise files every position under its hook and phase |
| `HookLifecycle.FirstResponse` | agentmem/benchmarks/codex_sol_installed_plugin_ab.py:1367-1376 | finds the earliest provider response of the turn, if any |
| `HookLifecycle.NoFalseAlarm` | agentmem/benchmarks/codex_sol_installed_plugin_ab.py:1136-1384 | once the turn is bound, an objection to an installed completion naming a hook dooms the trace and all its continuations, re-filed run ids included |
| `HookLifecycle.AlarmIsFinalIff` | agentmem/benchmarks/codex_sol_installed_plugin_ab.py:1136-1384 | for every message, and for a monitor bound to the turn or not yet bound: an objection dooms the trace exactly if the message is neither a stray completion nor (unbound) a faultless completion that names the turn; otherwise it can be the monitor's first objection to a trace the validator accepts |
| `HookLifecycle.StrayAlarm` | agentmem/benchmarks/codex_sol_installed_plugin_ab.py:1161-1209 | any completion that the validator passes over, with a run id or a claim to the plugin's identity, aborts some trace the validator accepts |
| `HookLifecycle.EarlySessionStart` | agentmem/benchmarks/codex_sol_installed_plugin_ab.py:1110-1118 | before the turn is bound the monitor objects to a faultless SessionStart completion that names its turn, and the validator accepts the trace |
| `HookLifecycle.CrossedRun` | agentmem/benchmarks/codex_sol_installed_plugin_ab.py:1161-1384 | a run filed under one hook and completed under the other can never be part of an accepted trace |
| `CacheBarrier.StepKeepsInv` | agentmem/src/lians/cache_invalidation.py:37-190 | every guarded step of mutations, leases, flushes, crashes, evictions and recalls keeps the invariant |
| `CacheBarrier.BarrierHolds` | agentmem/src/lians/cache_invalidation.py:37-157 | over all runs every committed mutation not yet followed by a bump has a job that is not completed |
| `CacheBarrier.NeverServedStale` | agentmem/src/lians/memory_service.py:2014-2042 | a recall served from the cache holds every mutation committed before its last barrier check |
| `CacheBarrier.GuardExact` | agentmem/src/lians/cache_invalidation.py:124-157 | a step keeps the barrier, through the completion of any flush under way, if and only if it is guarded |
| `LeaseRules.StatusMoves` | agentmem/src/lians/durable_jobs.py:28-143 | every way in which a step changes a job's status, pair or guards |
| `LeaseRules.FinishCompletesIff` | agentmem/src/lians/durable_jobs.py:107-119 | a finishing flush completes its job exactly if its commit succeeds and the job is leased to it, a request's own flush needing no lease; no other job changes |
| `LeaseRules.LostLease` | agentmem/src/lians/durable_jobs.py:107-143 | once another worker has leased the job, no run of the first worker's steps changes it |
| `LeaseRules.CommitGuardIff` | agentmem/src/lians/durable_jobs.py:28-61 | a commit keeps the barrier exactly if its job is new, or is not completed and no flush that has bumped may complete it, by its lease or for want of needing one |
| `LeaseRules.CacheOffGuardIff` | agentmem/src/lians/cache_invalidation.py:124-157 | a flush with the cache off keeps the barrier exactly if it does not hold the lease it needs, or every mutation relying on the job was followed by a bump |
| `LeaseRules.OtherStepsStand` | agentmem/src/lians/cache_invalidation.py:37-190 | every other step keeps the barrier |
| `LeaseRules.AnythingMayHappen` | agentmem/src/lians/cache_invalidation.py:37-190 | the runs leave nothing out: mutations, leases, failures, flushes with and without a lease, each outcome of a bump and of the last commit, and crashes |
| `LeaseRules.AnyRecall` | agentmem/src/lians/cache.py:159-236 | nor any stage of a recall |
| `CacheBarrier.HarmfulReuse` | agentmem/src/lians/durable_jobs.py:28-61 | a commit that reuses a completed job, or one about to be completed, loses the barrier |
| `CacheBarrier.HarmfulCacheOff` | agentmem/src/lians/cache.py:257-291 | a flush from a process with its cache switched off completes a job without a bump and loses the barrier |
| `CacheBarrier.ReuseLosesBarrier` | agentmem/src/lians/durable_jobs.py:39-50 | a run from an empty store in which a second mutation brings back the first one's completed job and is left without a barrier |
| `CacheBarrier.CacheOffLosesBarrier` | agentmem/src/lians/cache.py:271-275 | a run from an empty store in which a flush with the cache switched off leaves a mutation without a barrier |
| `CacheBarrier.NothingPending` | agentmem/src/lians/cache_invalidation.py:88-121 | when no job of the pair is pending, every committed mutation of the pair has been followed by a bump |
| `CacheReads.CachedIsServed` | agentmem/src/lians/memory_service.py:2015-2047 | with no job pending, a recall that finds an entry of the current generation is served it, as of all mutations committed |
| `CacheReads.MissIsComputed` | agentmem/src/lians/cache.py:159-193 | one that finds none computes from all mutations committed, under the generation it read |
| `CacheReads.ComputedIsStored` | agentmem/src/lians/memory_service.py:2464-2484 | and stores that, if no job is pending |
| `CacheReads.MovedOnIsMiss` | agentmem/src/lians/cache.py:179-188 | a generation that moved on during the read makes the hit a miss of the new generation |
| `CacheBarrier.BarrierStore.QueueRecallInvalidation` | agentmem/src/lians/cache_invalidation.py:37-64 | a mutation is committed together with a new job or the one its key brings back, and the invariant is kept exactly if that job was not completed |
| `CacheBarrier.BarrierStore.FlushRecallInvalidation` | agentmem/src/lians/cache_invalidation.py:124-157 | when it raises, and the jobs and counters it leaves: without an error the job is completed, with an error every job is as it was |
| `CacheBarrier.FlushedInvIff` | agentmem/src/lians/cache_invalidation.py:124-157 | a flush leaves what its job guards covered, and keeps the invariant exactly if it did not complete, with the cache switched off, a job not covered before |
| `CacheBarrier.BarrierStore.FlushPendingRecallInvalidations` | agentmem/src/lians/cache_invalidation.py:160-177 | the jobs and counters left by flushing the listed jobs one after the other; no flush before the last raises, and it stops before the end exactly if one raises |
| `CacheBarrier.FlushesMeaning` | agentmem/src/lians/cache_invalidation.py:160-177 | the jobs flushed before the first error are closed, the others untouched, and all flushed ones covered, with the invariant intact, unless the cache was off for one not covered before |
| `MmrSelect.MmrSelect` | agentmem/benchmarks/locomo_replay.py:164-183 | with its maintained similarity array the loop makes exactly the naive greedy picks, similarity recomputed over all selected, ties to the better rank, results distinct |
| `MmrSelect.MaxSimIsMaximum` | agentmem/benchmarks/locomo_replay.py:172-181 | the similarity of the naive definition is attained by a selected candidate and exceeded by none |
| `MmrSelect.GreedyUnique` | agentmem/benchmarks/locomo_replay.py:164-183 | the greedy definition has one result only |
| `MmrRule.ExchangeRate` | agentmem/benchmarks/locomo_replay.py:175-177 | one candidate's objective exceeds another's by lambda times the share of the score gap, less (1 - lambda) times the gap of their greatest similarities to what is picked |
| `MmrRule.GreedyInNumbersIff` | agentmem/benchmarks/locomo_replay.py:164-183 | a result is greedy exactly if the best ranked comes first and at each pick no remaining candidate leads at that rate, ties going to the better rank |
| `MmrRule.NoPickIsDominated` | agentmem/benchmarks/locomo_replay.py:164-183 | for lambda below one no candidate left out is at least as well scored and strictly less similar to everything picked before |
| `MmrSelect.ShortcutAgrees` | agentmem/benchmarks/locomo_replay.py:167-168 | at lambda 1 every greedy selection of a ranked order is the prefix that the shortcut returns |
| `MmrSelect.ResultSize` | agentmem/benchmarks/locomo_replay.py:164-183 | min(k, n) results, except one for k = 0 |
| `SlotFill.SlotsMeaning` | agentmem/benchmarks/locomo_replay.py:186-211 | filling slots gives the first k distinct offers: distinct, min(k, distinct offers) of them, in order of first offer, and each offered sooner than every one left out |
| `SlotFill.NeighborExpand` | agentmem/benchmarks/locomo_replay.py:186-211 | the slots hold each ranked document followed by its neighbours |
| `SlotFill.NeighborExpandSize` | agentmem/benchmarks/locomo_replay.py:186-211 | neighbour expansion fills min(k, n) distinct slots |
| `SlotFill.SeedAppendNeighbors` | agentmem/benchmarks/locomo_replay.py:237-258 | seeds come first and are never displaced, then their neighbours, then the rest by rank |
| `SlotFill.SeedAppendSize` | agentmem/benchmarks/locomo_replay.py:237-258 | min(k, n) results exactly if the seeds do not outnumber the slots |
| `SlotFill.SessionPull` | agentmem/benchmarks/longmemeval_replay.py:107-126 | the slots hold the seeds' whole sessions, then the ranking |
| `SlotFill.SessionPullSize` | agentmem/benchmarks/longmemeval_replay.py:107-126 | min(k, n) slots are filled, and with room every seed's session is complete |
| `SessionCap.SessionCapSelect` | agentmem/benchmarks/locomo_replay.py:214-234 | the result is the first k of the documents within the cap followed by the deferred ones |
| `SessionCap.FewestOverCapPicks` | agentmem/benchmarks/locomo_replay.py:214-234 | min(k, n) distinct documents with the fewest over-cap picks any such selection can have, and their number |
| `SessionCap.KeptCount` | agentmem/benchmarks/locomo_replay.py:219-228 | of each session as many documents are kept as there are, up to the cap |
| `JsonText.ReadBack` | integrations/codex/user_prompt_submit_recall.py:345 | reading an escaped string by section 7 of RFC 8259 gives the string back and stops at its closing quote |
| `JsonText.SplitJoin` | integrations/codex/user_prompt_submit_recall.py:371-396 | splitting on newlines undoes joining for one-line texts |
| `ContextRenderer.CutMonotone` | integrations/codex/user_prompt_submit_recall.py:377-386 | the escaped, right-stripped prefix does not get shorter as the prefix grows |
| `ContextRenderer.Bisect` | integrations/codex/user_prompt_submit_recall.py:377-386 | the binary search finds how many cuts fit when fitting is downward closed |
| `ContextRenderer.LongestCut` | integrations/codex/user_prompt_submit_recall.py:377-391 | the record printed is the longest cut that fits, and none is printed exactly if not even the bare mark fits |
| `ContextRenderer.RenderContext` | integrations/codex/user_prompt_submit_recall.py:348-397 | at most 4 * max_tokens characters; the eligible non-blank memories in order, whole but for the last, which is cut as long as fits; count, flag, top score and eligible count |
| `ContextRenderer.NoMoreFit` | integrations/codex/user_prompt_submit_recall.py:366-376 | no context of more whole records fits the budget |
| `ContextRenderer.RenderReadsBack` | integrations/codex/user_prompt_submit_recall.py:325-397 | a non-empty context splits into the two prefix lines and `count` records, each reading back to its content, or its cut, with the rest of the record intact |
| `ContextRenderer.SuffixIsOneLine` | integrations/codex/user_prompt_submit_recall.py:336-345 | whatever event time and source hold, a record stays on one line |
| `ContextRenderer.TruncatedIff` | integrations/codex/user_prompt_submit_recall.py:390-393 | the flag is raised exactly if a record was cut or left out, or a blank memory was skipped |
| `ContextWording.PrefixInWords` | integrations/codex/user_prompt_submit_recall.py:30-33 | the two lines every context starts with |
| `ContextWording.RecordInWords` | integrations/codex/user_prompt_submit_recall.py:336-345 | a record is one JSON object that starts with its content |
| `ContextWording.SuffixInWords` | integrations/codex/user_prompt_submit_recall.py:336-345 | and goes on with event time, score and source in this order, absent ones left out |
| `ContextWording.EscapeInWords` | integrations/codex/user_prompt_submit_recall.py:345 | which characters are escaped, and how |
| `ContextWording.CutInWords` | integrations/codex/user_prompt_submit_recall.py:380 | a cut shows the content's beginning without trailing white space, and three dots |
| `ContextWording.CutIsLongest` | integrations/codex/user_prompt_submit_recall.py:377-391 | of a rendering that ends in a cut: the whole record and every longer cut would have exceeded the budget |
| `ContextWording.EligibleAppend` | integrations/codex/user_prompt_submit_recall.py:356 | eligibility is decided memory by memory, in order, exactly by whether the score, zero if missing, reaches the threshold |
| `ContextWording.ShownAppend` | integrations/codex/user_prompt_submit_recall.py:363-367 | and of the eligible ones exactly those with content are shown, in order |
| `ContextWording.TopScoreIsGreatest` | integrations/codex/user_prompt_submit_recall.py:351-355 | the top score is the greatest of the reply, absent exactly if no memory has one |
| `HookReceipt.ProcessEvent` | integrations/codex/user_prompt_submit_recall.py:400-484 | the status is the one the inputs call for, text is injected exactly under that status, and hashes, query, transport, flags, counts and estimate are those of the event, the reply and the text, within the token limit |
| `HookReceipt.RoomForFirst` | integrations/codex/user_prompt_submit_recall.py:454-456 | nothing is printed for lack of budget exactly if the first memory worth showing fits neither whole nor as a bare cut |
| `HookReceipt.OutcomeInWords` | integrations/codex/user_prompt_submit_recall.py:430-458 | each status and exactly what calls for it |
| `HookReceipt.ReceiptViolations` | agentmem/benchmarks/codex_sol_installed_plugin_ab.py:1876-1912 | the list holds exactly the violated requirements of the mode, each once and in their order, and is empty exactly for receipts that meet them all |
| `HookReceipt.CandidatePasses` | agentmem/benchmarks/codex_sol_installed_plugin_ab.py:1888-1905 | under the benchmark's settings a candidate receipt passes exactly if it reports an injection, a complete search and an explicit query |
| `HookReceipt.CandidateAsks` | agentmem/benchmarks/codex_sol_installed_plugin_ab.py:1876-1905 | what a candidate receipt must say, with the limits as numbers |
| `HookReceipt.BaselinePasses` | agentmem/benchmarks/codex_sol_installed_plugin_ab.py:1906-1911 | a baseline receipt passes exactly if a complete, undegraded local search was asked and returned no memory |
| `DaemonLifecycle.StepKeepsInv` | integrations/codex/local_recall_daemon.py:93-467 | every step of a daemon, a client or a stranger, crashes included, keeps the invariant on locks, files, ports, tokens and answers |
| `DaemonLifecycle.StateFileWriter` | integrations/codex/local_recall_daemon.py:231-249 | a state file present was written by the current lock holder or by a daemon that crashed |
| `DaemonLifecycle.OneDaemonEach` | integrations/codex/local_recall_daemon.py:93-115 | at most one live daemon per instance |
| `DaemonLifecycle.RemovesOwnIff` | integrations/codex/local_recall_daemon.py:243-249 | what a daemon unlinks is its own state file exactly if it published one, and otherwise that of a crashed daemon; never a live one's |
| `DaemonLifecycle.CleanExitLeavesNothing` | integrations/codex/local_recall_daemon.py:351-400 | a daemon that ended without crashing left no state file |
| `DaemonLifecycle.ServedUnderOwnFingerprint` | integrations/codex/local_recall_daemon.py:295-348 | whatever a daemon answered, it answered for the asked fingerprint, despite stale ports |
| `DaemonLifecycle.AnsweredIff` | integrations/codex/local_recall_daemon.py:403-467 | a daemon that gets round to a request answers it exactly if its own fingerprint was asked for, a wrong token never being the reason; a stranger's reply is taken exactly if it is a JSON object |
| `DaemonRuns.StrangerIsBelieved` | integrations/codex/local_recall_daemon.py:459-467 | once a stranger has the port of a stale state file, any JSON object it replies is the result of the recall, and anything else a failure |
| `DaemonRuns.QueuedIsAnswered` | integrations/codex/local_recall_daemon.py:368-391 | a request that reaches a daemon before it serves is answered once it does |
| `DaemonRuns.StaleStateMisleads` | integrations/codex/local_recall_daemon.py:351-400 | a run from an empty directory in which a client is led to such a port |
| `DaemonRuns.RecycledRemoval` | integrations/codex/local_recall_daemon.py:243-249 | a run from an empty directory in which a daemon is about to unlink the file of a crashed one |
| `DaemonLifecycle.TokensAgree` | integrations/codex/local_recall_daemon.py:182-210 | all successful token reads, by daemons and clients, agree, on 64 hexadecimal digits |
| `DaemonRuns.ObtainableIff` | integrations/codex/local_recall_daemon.py:182-210 | from a reachable world some process can still obtain a token exactly unless the token file is short and no process is still writing it |
| `DaemonRuns.WedgedForever` | integrations/codex/local_recall_daemon.py:182-210 | once it is, no run gives any process a token |
| `DaemonRuns.WedgeHappens` | integrations/codex/local_recall_daemon.py:182-210 | a run from an empty directory to that state |
| `DaemonRuns.AnyDaemonStep` | integrations/codex/local_recall_daemon.py:351-400 | the runs leave nothing out that daemons do: crashes at any point, exceptions before the server exists, tokens written in full or in part |
| `DaemonRuns.AnyClientStep` | integrations/codex/local_recall_daemon.py:403-467 | nor what clients and strangers do |
| `DaemonRuns.ClientWritesToken` | integrations/codex/local_recall_daemon.py:182-210 | a client's token file is empty when created, then as much of the token as was written, and the client has the token |
| `DaemonRuns.DaemonWritesToken` | integrations/codex/local_recall_daemon.py:182-210 | the same of a daemon's |
| `RecallServer.Server.DoPost` | integrations/codex/local_recall_daemon.py:295-348 | only a request with this daemon's token and fingerprint has any effect; exactly when a recall, health check or shutdown succeeds, and exactly when the answer is 403, 404, 413 or 503 |
| `RecallServer.TrustedInWords` | integrations/codex/local_recall_daemon.py:295-319 | a request counts exactly with this daemon's token and fingerprint and a body of 1 to 32768 bytes |
| `RecallServer.GoodQueryInWords` | integrations/codex/local_recall_daemon.py:339-342 | a query is usable exactly if it is a string, not blank, of at most 20000 characters |
| `RecallServer.RuntimeDir.ReadOrCreateToken` | integrations/codex/local_recall_daemon.py:182-210 | the first caller's token is stored and returned; later callers get that token, or an error if the file is short |
| `RecallServer.RuntimeDir.WriteState` | integrations/codex/local_recall_daemon.py:231-240 | the state is replaced whole, or not at all if a temporary file is left over |
| `RecallServer.RuntimeDir.RemoveOwnedState` | integrations/codex/local_recall_daemon.py:243-249 | the state file goes exactly if it names this fingerprint, process and port |
| `RecallServer.WriteStateIsStageThenPublish` | integrations/codex/local_recall_daemon.py:231-240 | the operation in place is the two steps of the state machine |
| `RecallServer.RemoveIsInspectThenUnlink` | integrations/codex/local_recall_daemon.py:243-249 | the operation in place is the check and the unlinking of the state machine |
| `Luhn.LuhnOk` | agentmem/src/lians/admission.py:59-70 | accepts exactly the digit strings of length 13 to 16 whose weighted total is a multiple of ten |
| `Luhn.DigitsOne` | agentmem/src/lians/admission.py:60 | which characters count as digits, and as which |
| `Luhn.DigitsConcat` | agentmem/src/lians/admission.py:60 | and that they are read one by one, in order |
| `Luhn.SingleErrorDetected` | agentmem/src/lians/admission.py:59-70 | changing any one digit of an accepted number is rejected |
| `Luhn.SwapUnnoticedIff` | agentmem/src/lians/admission.py:59-70 | swapping neighbours goes unnoticed exactly for equal digits and for 0 and 9 |
| `Luhn.TwinUnnoticedIff` | agentmem/src/lians/admission.py:59-70 | replacing a pair of equal digits goes unnoticed exactly for 22/55, 33/66 and 44/77 |
| `Luhn.CheckDigitUnique` | agentmem/src/lians/admission.py:59-70 | every body of 12 to 15 digits has exactly one check digit |
| `Admission.DetectRiskTags` | agentmem/src/lians/admission.py:73-89 | a tag is present exactly if its rule applies, a card needing a valid check digit; each tag once and in the source's order |
| `Admission.Evaluate` | agentmem/src/lians/admission.py:102-148 | in enforce mode a write with an injection pattern, a blocked source or too few tokens is rejected, of the others exactly those with an SSN, e-mail, MRN, NPI, valid card or MNPI pattern are held, and the rest admitted; other modes admit everything |
| `Admission.EnforcedIff` | agentmem/src/lians/admission.py:126-148 | any decision that follows the tags of a content is that one, pattern by pattern |
| `Admission.HighRiskByName` | agentmem/src/lians/admission.py:131 | the tags that call for review are those that begin with pii: or phi:, and mnpi |
| `Admission.Decide` | agentmem/src/lians/admission.py:121-148 | which reasons are given for what is held or refused, in their order |
| `ReviewQueue.Queue.Write` | agentmem/src/lians/memory_service.py:1225-1242 | a write stores a memory, parks an item or is refused as its decision says, and is logged; when the cache flush behind the commit fails, the caller gets an error although the memory is stored |
| `ReviewQueue.Queue.BeginReview` | agentmem/src/lians/admission_service.py:239-250 | the checks, in their order, for every action, alias, namespace, barrier and status; a review that passes them is under way, and nothing is written |
| `ReviewQueue.CheckedInWords` | agentmem/src/lians/admission_service.py:236-250 | exactly which reviews are refused as 422, 404 or 409 and which pass, by action, namespace, barrier and status |
| `ReviewQueue.Queue.StoreMemory` | agentmem/src/lians/admission_service.py:268-292 | the first commit of an approval: the memory, under the held barrier or else the approver's, and the note, whatever became of the item meanwhile |
| `ReviewQueue.Queue.CommitApproval` | agentmem/src/lians/admission_service.py:293-300 | the second commit: the item is approved and names the memory, whatever became of it meanwhile |
| `ReviewQueue.Queue.CommitRejection` | agentmem/src/lians/admission_service.py:256-263 | the one commit of a rejection, whatever became of the item meanwhile |
| `ReviewQueue.Queue.ResolvePending` | agentmem/src/lians/admission_service.py:224-300 | the result of a whole review with no other in between: the error, the new queue and memories, and what remains when the cache flush fails |
| `ReviewRuns.StepKeepsInv` | agentmem/src/lians/admission_service.py:113-300 | every write, check, commit and early end, in any interleaving, keeps the invariant on items, memories, reviews under way and the log |
| `ReviewRuns.NothingUnsafeStored` | agentmem/src/lians/admission_service.py:113-300 | over all interleavings no stored memory carries an injection, blocked-source or vague tag |
| `ReviewContent.StoredContentIsSafe` | agentmem/src/lians/admission_service.py:113-300 | over all interleavings no stored memory's content has an injection pattern or fewer than three different tokens, nor its source is blocked |
| `ReviewContent.ConfidentialWasApproved` | agentmem/src/lians/admission_service.py:163-300 | over all interleavings a memory with confidential content came from an item that holds the same request, approved as it while reviews do not overlap exactly if the approval finished |
| `ReviewRuns.SensitiveApprovedIff` | agentmem/src/lians/admission_service.py:163-300 | a sensitive memory came from one held item with the same namespace, text and tags; only that item can be approved as it, and while its reviews do not overlap it is so exactly if the approval was not cut off and has finished |
| `ReviewRuns.ExactlyOneApproved` | agentmem/src/lians/admission_service.py:239-300 | if no reviews of its item overlapped and its approval finished, a sensitive memory has exactly one approved item and that item no other memory approved in full |
| `ReviewRuns.ResolutionStaysIff` | agentmem/src/lians/admission_service.py:249-299 | a resolved item never changes again, in status or memory, exactly if no review under way approves it, or rejects it while it is approved |
| `ReviewRuns.ResolvedOnce` | agentmem/src/lians/admission_service.py:249-250 | an item whose reviews have not overlapped when it is resolved never changes again |
| `ReviewRuns.TwiceOnlyIf` | agentmem/src/lians/admission_service.py:249-299 | over all interleavings two memories of one item imply that an approval of it was cut off or reviews of it overlapped |
| `ReviewRuns.CanGainIff` | agentmem/src/lians/admission_service.py:249-299 | a further memory of an item can still be stored exactly if it waits or an approval of it has passed its checks, whatever is stored already |
| `ReviewRuns.SecondMemoryIff` | agentmem/src/lians/admission_service.py:249-299 | while its reviews have not overlapped, an item with a memory can get a second one exactly if it still waits, and then the first approval was cut off or has not finished |
| `ReviewRuns.RejectedWithMemoryIff` | agentmem/src/lians/admission_service.py:256-299 | while its reviews have not overlapped, the item of a memory is rejected exactly if the approval was cut off and a rejection followed |
| `ReviewRuns.OverlapMeans` | agentmem/src/lians/admission_service.py:249-250 | an item counts as overlapped exactly if two reviews of it were under way at once at some point of the run |
| `ReviewContent.AnyReviewStep` | agentmem/src/lians/admission_service.py:113-300 | the runs leave nothing out: any write, any review that passes the checks, each commit whenever its review is ready for it, and an early end at any point |
| `ReviewRuns.HeldIsReady` | agentmem/src/lians/admission_service.py:163-193 | one sensitive write to empty tables leads to the state that the four runs below start from |
| `ReviewRuns.OverlapStoresTwice` | agentmem/src/lians/admission_service.py:249-299 | the run in which two overlapping approvals store the text twice with nothing cut off |
| `ReviewRuns.RejectedTurnsApproved` | agentmem/src/lians/admission_service.py:249-299 | the run in which a rejection is committed between the two commits of an approval, which then turns the item approved |
| `ReviewRuns.CutOffStoresTwice` | agentmem/src/lians/memory_service.py:1237-1242 | the run in which an approval ends between its commits and the same review stores the text a second time |
| `ReviewRuns.CutOffThenRejected` | agentmem/src/lians/memory_service.py:1237-1242 | the run in which it is rejected instead and its text stays stored |
| `ReviewRuns.HeldBarrierKept` | agentmem/src/lians/admission_service.py:277-285 | over all interleavings a memory approved from an item held under a non-empty barrier is under that barrier |
| `ReviewQueue.BarrierKeptIff` | agentmem/src/lians/admission_service.py:277-285 | exactly when the barrier of a held item survives approval |
| `ReviewQueue.SameBarrierAsDirectIff` | agentmem/src/lians/memory_service.py:579-592 | exactly when approval gives the barrier that admitting the write at once would have given |
| `KeyedList.UpsertIdempotent` | experiments/cross-agent-continuity/continuity_experiment.py:208-242 | if every entry is filed under its own key, upserting the same entries again changes nothing |
| `KeyedList.UpsertSplits` | experiments/cross-agent-continuity/continuity_experiment.py:208-242 | an upsert is the surviving old entries followed by what upserting into an empty list gives |
| `KeyedList.UpsertStanding` | experiments/cross-agent-continuity/continuity_experiment.py:208-242 | for any keys, an entry remains exactly if no later key claims it |
| `DecisionUpsert.UpsertDecisions` | experiments/cross-agent-continuity/continuity_experiment.py:208-242 | the two loops compute the keyed upsert of the decisions and then the changes |
| `DecisionUpsert.DecisionInWords` | experiments/cross-agent-continuity/continuity_experiment.py:208-224 | what a decision is filed under and says |
| `DecisionUpsert.ChangeInWords` | experiments/cross-agent-continuity/continuity_experiment.py:225-242 | what a change is filed under and says, the value it supersedes included |
| `DecisionUpsert.HashFreeClosedForm` | experiments/cross-agent-continuity/continuity_experiment.py:208-242 | for keys without `#`: the old list without the touched keys, then the last entry of each key |
| `DecisionUpsert.HashKeyLoses` | experiments/cross-agent-continuity/continuity_experiment.py:209-214 | with `#` in a key an item under another key takes an entry away |
| `DecisionUpsert.EntriesSelfFiled` | experiments/cross-agent-continuity/continuity_experiment.py:91-95 | every entry a session makes is filed under its own key |
| `SessionCapture.Task.Capture` | experiments/cross-agent-continuity/continuity_experiment.py:207-308 | a capture raises exactly if something differs and the store does not accept it; otherwise it leaves the upserted decisions, however the store merges them, and stores no version exactly if nothing differs |
| `CaptureWording.RefusedIff` | packages/lians-easy/lians_easy/task_contract.py:69-139 | a checkpoint is refused exactly if a text is blank or over its field's limit, or a list over its length |
| `CaptureWording.MergedInWords` | packages/lians-easy/lians_easy/task_contract.py:579-591 | of all artifacts in order of first mention the last hundred are kept |
| `SessionCapture.MergeStableIff` | packages/lians-easy/lians_easy/task_contract.py:579-591 | merging the same artifacts again changes nothing exactly if the cap of a hundred cut none of them off |
| `SessionCapture.CapForgets` | packages/lians-easy/lians_easy/task_contract.py:579-591 | a full list drops its oldest artifact although the session names it |
| `SessionCapture.CaptureIdempotentIff` | experiments/cross-agent-continuity/continuity_experiment.py:262-308 | capturing a session again leaves the whole state as it is exactly if nothing differed the first time or the cap cut none of its artifacts off |
| `SessionCapture.ListedAgain` | experiments/cross-agent-continuity/continuity_experiment.py:208-242 | the decisions are the same after a second capture, whatever the keys |
| `SessionCapture.QuietAgainIff` | experiments/cross-agent-continuity/continuity_experiment.py:262-273 | a second capture stores no new version exactly if the first stored none, or the session is stored verbatim and no earlier evidence, action or artifact outlives it |
| `SessionCapture.CaptureTwice` | experiments/cross-agent-continuity/continuity_experiment.py:262-308 | the same of two captures in a row |

## Left out

* SHA-256, sealing, embeddings, Redis and the database: assumed as stated above.
* Merkle anchors, SIEM dispatch and the export of the log: further appends and formatting.
* PostgreSQL's advisory lock in `add_memory`: appends are proved correct without it.
* Surrogate pairs in JSON escapes, and digits outside ASCII in card numbers.
* Booleans, strings and non-finite numbers as scores: a score is absent or a real number.
* AuditRuns.EventStore.ChainLog: the columns come from the caller in one draft; building the payload is not modelled.
* HookLifecycle.ValidateHookLifecycle: which check objected is modelled only as far as the order of the checks, not the wording of the message.
* CacheBarrier.BarrierStore.FlushRecallInvalidation: one uninterrupted caller; interleavings are in the state machine of the same module.
* HookReceipt.ReceiptViolations: requirements stand for the texts of the list; receipts of the wrong JSON type do not occur.
* CacheBarrier.NeverServedStale: the process-local bypass around an invalidation only sends more recalls past the cache; it and the in-process working set, which is guarded in the same way, are not modelled.
* DaemonLifecycle.AnsweredIff: timeouts, oversized and malformed replies are failures that may happen at any time; the additional check of `health` on the reply is not modelled, since a stranger that has read the request can satisfy it.
* RecallServer.Server.DoPost: a reply too large for the limit, which is turned into 503, is not modelled.
* ReviewQueue.Queue.Write: modes other than enforce (`Admission.Evaluate` covers the decision in all modes), supersession, derived clauses, webhooks and metering of `add_memory` are not modelled; a memory is its text, tags, barrier and origin.
* ReviewRuns.NothingUnsafeStored: memories promoted from governed reflections bypass enforcement by design and are not part of the runs.
* SessionCapture.Task.Capture: constraint checks, trust classes, task creation, criteria and the memories written beside the checkpoint are not modelled.
* The host and the range of the port in a state file, which only daemons write.
* Daemon prewarming, idle timeouts and process spawning; the Windows launcher.
* HTTP, MCP and OAuth endpoints, report builders, simulators and plotting: thin wrappers or arithmetic without a protocol.
