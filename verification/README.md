# State store, worker sessions and remote attempts

A Dafny model of the parts of the runtime whose correctness depends on histories rather than on
single calls, with proofs of what those histories guarantee.

- **The transactional state store.** Transactions run on private snapshots and commit one at a
  time with revision checks, idempotency replay, fencing, an operation journal, an outbox with
  leased claims, and a change log that feeds live watchers. On top of it: the worker epoch
  allocator, deployment generations, and the page loops of recovery and status.
- **The worker session protocol.** The two-party handshake, sequenced delivery with bounded
  replay memory, binary transfers, request correlation, and the epoch fencing of both endpoints.
- **The remote attempt lifecycle.** Any number of executors over one conditional store.
- **Supporting pieces.** Order-preserving string keys, canonical decimals, permission grants.

## How it is built

Every `await` of the source is a step boundary: each synchronous stretch is one atomic step, and
a run is any interleaving of steps. An object the source updates in place is a class whose
methods are proved against functions on its abstract value; state machines are built from the
same functions, and the theorems are about all their runs.

| files | subject |
|---|---|
| Order, StateStrings, Decimals | strict orders and stable sorting, UTF-16 strings and their keys, canonical decimals |
| StoreModel, StoreInvariants | the store's value, its transitions, what each of them keeps |
| Transactions, TransactionRuns | a transaction's view and staged writes; interleaved runs |
| Serializability, Idempotency, OutboxRuns, WatchRuns | theorems over those runs |
| TransactionLaws, CommitLaws, OutboxLaws | what a request, a commit, a claim and an acknowledgement do, in terms of what was asked |
| MemoryTransaction, WatchIterator, StoreLoops, JournalScans, MemoryStateStore | the objects and loops of the store |
| Paging, RecoveryRuns, Counters, WorkerEpochs, Deployments | what relies on the store |
| RemoteAttemptStore, RemoteAttempts, RemoteAttemptObject, ExecutorSessions | the attempt store, the attempt machine, the attempt object, the executor's epoch check |
| MainEndpoint, WorkerEndpoint | session epochs on both ends |
| Handshake, ReplayWindow, RequestTable, BinaryCodec, BinaryTransfer, SessionTraffic | one session, by concern |
| Permissions | permission sets and grants |

`dafny verify dfyconfig.toml` checks the whole project.

A transaction's work is a function from everything it has observed to its next request, so a
theorem about all such functions is a theorem about all transactions. Hashes and keyed hashes
are taken to be injective; time is an integer; host folding and upper-casing are parameters with
the two laws the canonical form needs; what validating a deployment reads and scans is an
arbitrary function of what it has observed, and the parser of stored deployments may refuse
anything.

## What the code does not guarantee

- **Tombstones are not final.** After a conflict, an executor that finds an expired record marks
  its attempt terminal without a result and keeps the tombstone's revision. A later publication
  checks only that there is no result, and so replaces the tombstone by a second, possibly
  different terminal result. `RemoteAttempts.TombstoneResurrected` gives the run,
  `RemoteAttempts.TombstoneOverwritten` says exactly when it happens,
  `RemoteAttempts.TerminalWithoutResultIsExpired` says how an executor can tell from its own state,
  and `RemoteAttempts.GuardedTombstonesStay` shows that checking the attempt's state where a
  publication starts would rule it out. A *terminal* record is nevertheless never overwritten by
  anything but its own tombstone (`RemoteAttempts.TerminalIsFinal`).
- **Pending binary totals can exceed what is pending.** Announcing an identity that is still
  pending replaces the entry and adds its size without taking the old size off; the difference
  stays for the life of the session. `BinaryTransfers.TotalsExactIffNothingReannounced` says
  exactly when totals are exact. The replay memory prevents it only while it remembers the identity
  (`SessionTraffics.ReannouncedOnceForgotten`); `SessionTraffics.AbandonedTotalIsHeld` gives a run.
  The total stays within its limit in any case (`BinaryTransfers.PendingStaysBounded`).
- **Reads that are not staged are not protected.** `Serializability.WriteSkewRun` is a run of two
  transactions that both commit and match no serial order. A deployment is of this kind: its
  installation and provider reads are not staged. Its generation counter is still exact, because
  the record it writes is guarded by the revision it read (`Counters.CounterNeverForks`).
- **A failing claim can leave claims behind.** When the claim loop meets an entry whose attempts are
  used up it throws, after having claimed the entries before it and without a new revision.
  `OutboxRuns.OverflowKeepsEarlierClaims` says exactly when it fails and when it leaves nothing
  behind; `OutboxRuns.FailedClaimLeavesClaim` gives a store.
- **Binary counts wrap.** Header fields hold 32 bits; with limits configured above 2^32 a chunk
  no longer round-trips (`BinaryCodecs.RoundTrip` is exact in both directions).
- **A byte-order mark is lost.** Decoding the identity of a frame drops a leading mark, so an
  accepted frame re-encodes to itself if and only if it has none
  (`BinaryCodecs.ReencodesUnlessMarked`; `BinaryCodecs.ByteOrderMarkIsLost` builds marked ones).
- **A watcher started beyond the store's revision** is given later changes at or below its cursor
  (`WatchRuns.EarlyWatcherGetsTooMuch`). `WatchRuns.StreamIsLogAfterCursor` and
  `WatchRuns.CommitOwesPastCursors` say for which cursors the stream is the log after the cursor.
  The store object records such a watcher's cursor as the store's revision, which is what it gets.

## Model

| member | source | states |
|---|---|---|
| `Serializability.Serializable` | packages/drivers-local/src/memory-state-store.ts:852-1042 | In every interleaving of transactions, claims, acknowledgements and closes, if each committed transaction stages every key it gets with the revision it read and scans nothing, the store equals the one obtained by running the committed log one entry after another, and each transaction returns what it returned. |
| `Serializability.CommitConfirmsReads` | packages/drivers-local/src/memory-state-store.ts:297-308 | A commit whose revision checks pass read, through its snapshot, exactly the records that are current when it commits. |
| `Serializability.WriteSkew` | packages/drivers-local/src/memory-state-store.ts:341-418 | Two transactions that each read the key the other writes, without staging it, both commit and leave a state that neither serial order leaves; so the staging condition cannot be dropped. |
| `Serializability.WriteSkewRun` | packages/drivers-local/src/memory-state-store.ts:567-604 | The same as an interleaving of the system: a run of two such calls ends in a store that running its log in either order does not leave. |
| `TransactionRuns.CommitKeepsCoherent` | packages/drivers-local/src/memory-state-store.ts:974-1042 | A key and a revision fix the record: what a snapshot holds at a revision is what the store holds at that revision, across any commit. |
| `Transactions.SameReadsSameRun` | packages/drivers-local/src/memory-state-store.ts:341-450 | A transaction's work that gets the same records asks for the same operations and stages the same mutations, whatever else differs between two snapshots. |
| `Serializability.ReachableLogRefinesState` | packages/drivers-local/src/memory-state-store.ts:878-1042 | In every reachable store, replaying the change log from nothing gives exactly the current records and revisions; the log is ordered and bounded by the store revision; an operation's current entry is its last in the history, and no two history entries share revision and operation. |
| `StoreInvariants.ReplayInstalls` | packages/drivers-local/src/memory-state-store.ts:886-915 | Following the changes one commit publishes turns the records before it into exactly the records it installs. |
| `StoreInvariants.CommitKeepsOk` | packages/drivers-local/src/memory-state-store.ts:878-1042 | A commit keeps the change-log, journal and outbox invariants; a failing one changes nothing. |
| `StoreInvariants.ClaimKeepsOk` | packages/drivers-local/src/memory-state-store.ts:685-741 | A claim keeps the invariants, also when it stops at an exhausted entry. |
| `StoreInvariants.AcknowledgeKeepsOk` | packages/drivers-local/src/memory-state-store.ts:743-819 | An acknowledgement keeps the invariants. |
| `StoreInvariants.CommitOwnsItsRevision` | packages/drivers-local/src/memory-state-store.ts:974-1033 | The changes of one commit share one revision, above every earlier one, and the counter moves past it. |
| `StoreInvariants.ClaimLeavesLogAlone` | packages/drivers-local/src/memory-state-store.ts:685-741 | Claims advance the same counter by at most one and touch neither the log nor the records. |
| `StoreInvariants.AcknowledgeLeavesLogAlone` | packages/drivers-local/src/memory-state-store.ts:743-819 | Acknowledgements advance the same counter by at most one and touch neither the log nor the records. |
| `CommitLaws.CommitOutcome` | packages/drivers-local/src/memory-state-store.ts:878-976 | A commit succeeds if and only if the store is open, every expected revision is met, every staged message fits and the fence is not behind; otherwise it fails with the first of these, in that order, that does not hold, and leaves the store as it was. |
| `CommitLaws.CommitJournals` | packages/drivers-local/src/memory-state-store.ts:993-1000 | A successful commit's history is the old one followed by one entry for each staged operation, in order, with that operation and the next revision. |
| `CommitLaws.CommitEnqueues` | packages/drivers-local/src/memory-state-store.ts:917-952 | A successful commit gives every staged message whose identity is new or awaits a retry a fresh entry: the first staged message of the identity, attempt zero, no claim, no acknowledgement, a new sequence. |
| `CommitLaws.CommitKeepsOthers` | packages/drivers-local/src/memory-state-store.ts:917-1008 | Every other outbox entry is as it was, and there are no others. |
| `CommitLaws.CommitKeepsOrder` | packages/drivers-local/src/memory-state-store.ts:1001-1008 | Fresh entries have ascending sequences in the order of staging. |
| `CommitLaws.PlanIsFirstNew` | packages/drivers-local/src/memory-state-store.ts:917-952 | Staged messages are accepted exactly when each of them equals the entry or the earlier message of its identity, or the entry awaits a retry; what is enqueued is the first message of each such identity, in order. |
| `CommitLaws.CommitInstalls` | packages/drivers-local/src/memory-state-store.ts:974-992 | A put stores its value at the next revision, a delete removes its record, and no other record changes. |
| `CommitLaws.CommitPublishes` | packages/drivers-local/src/memory-state-store.ts:1009-1033 | The change log gains, in key order and at the next revision, exactly one change for each mutation that changes something: the value that was put, or a deletion. |
| `CommitLaws.CommitFencesAre` | packages/drivers-local/src/memory-state-store.ts:954-976 | The fence presented is the one stored; every other fence stays. |
| `CommitLaws.CommitMoves` | packages/drivers-local/src/memory-state-store.ts:974-976 | The revision moves by one exactly when a mutation changes something, an operation is appended, a message is enqueued or the fence advances. |
| `CommitLaws.CommittedWorkIsRecorded` | packages/drivers-local/src/memory-state-store.ts:993-1008 | In any run, every operation that a committed transaction's work appended is in the history from then on, and every message it enqueued has an entry. |
| `CommitLaws.ClosedForGood` | packages/drivers-local/src/memory-state-store.ts:841-876 | In any run, once closed the store stays closed and holds what it held; every later call, commit, claim and acknowledgement is refused as closed. |
| `TransactionLaws.StagedIsLastWrite` | packages/drivers-local/src/memory-state-store.ts:393-425 | For any work and any number of requests, what is staged for a key is its last accepted put or delete, with that write's own expected revision. |
| `TransactionLaws.StagedInOrder` | packages/drivers-local/src/memory-state-store.ts:427-450 | The operations and messages staged are those whose appending and enqueuing was accepted, in the order asked for. |
| `TransactionLaws.GetSeesLastWrite` | packages/drivers-local/src/memory-state-store.ts:341-360 | A get answers the last accepted write of the key, and the snapshot where there is none, always with the revision of the snapshot. |
| `TransactionLaws.AcceptedWrites` | packages/drivers-local/src/memory-state-store.ts:393-450 | Puts and deletes are accepted exactly for portable keys, an operation is appended exactly when it has not been yet, and every message is enqueued. |
| `TransactionLaws.FinishHandsOver` | packages/drivers-local/src/memory-state-store.ts:452-462 | What is handed over at the end has exactly one mutation for every key written, in key order, and the operations and messages as staged. |
| `TransactionLaws.ScanYields` | packages/drivers-local/src/memory-state-store.ts:362-391 | A scan yields records of its collection that have the prefix and lie beyond the resume point, in identifier order, and every such record unless the limit is reached before it. |
| `Serializability.RunGrows` | packages/drivers-local/src/memory-state-store.ts:954-1082 | Along any run fences never fall, the revision never falls, the log only grows, and whatever is appended later carries revisions above everything known earlier. |
| `Idempotency.CommitsAtMostOnce` | packages/drivers-local/src/memory-state-store.ts:567-605 | In every interleaving, nested calls and failures included, an idempotency key commits at most once. |
| `Idempotency.MemoryIsPermanent` | packages/drivers-local/src/memory-state-store.ts:1035-1040 | Once remembered, a key's fingerprint and result never change. |
| `Idempotency.CallsAgree` | packages/drivers-local/src/memory-state-store.ts:571-604 | All calls of one key that end with a value return the one remembered result. |
| `Idempotency.CallBegins` | packages/drivers-local/src/memory-state-store.ts:567-597 | In any run, a new call whose key is in the log gets the committed result if its fingerprint is the same and is refused if not; one whose key is in flight joins that call or is refused; and only a call whose key is in neither runs, on the current records, as the call in flight. |
| `Idempotency.CallWithoutKeyBegins` | packages/drivers-local/src/memory-state-store.ts:272-294 | A call with neither key nor fingerprint runs; one with only one of them, or an empty one, is refused; a closed store refuses every call. |
| `Idempotency.RememberedIsLogged` | packages/drivers-local/src/memory-state-store.ts:1035-1040 | In any run a key is remembered only if a transaction with it is in the log. |
| `OutboxRuns.CompletedForever` | packages/drivers-local/src/memory-state-store.ts:938-951 | A completed message is never claimed, changed or enqueued again, in any run of the store's operations. |
| `OutboxRuns.EpochsCountClaims` | packages/drivers-local/src/memory-state-store.ts:700-735 | Within one enqueue incarnation a message's attempt, and so its newest claim epoch, is the number of claims issued on it. |
| `OutboxRuns.ClaimsAreExclusive` | packages/drivers-local/src/memory-state-store.ts:685-819 | Two consecutive claims on an incarnation have consecutive epochs, and the second was issued only because the first had been acknowledged for retry or had expired at the claim time, which is its start plus the lease asked for. |
| `OutboxLaws.ClaimTerms` | packages/drivers-local/src/memory-state-store.ts:712-735 | Every claim handed out is for its message as stored, belongs to the one who asked, starts now, ends after the lease asked for, has the next attempt as attempt and epoch, and is what the entry then holds. |
| `OutboxLaws.HandedOutIsIssued` | packages/drivers-local/src/memory-state-store.ts:712-741 | A successful claim request issues a claim on a message, in the sense of the run theorems, exactly when it hands out a claim for that message. |
| `OutboxLaws.LeasesAreExclusive` | packages/drivers-local/src/memory-state-store.ts:694-735 | Any two claims on one incarnation, however many lie between: unless a retry was acknowledged in between, the time of the earlier plus its lease is no later than the time of the later. |
| `OutboxLaws.RetryWaits` | packages/drivers-local/src/memory-state-store.ts:795-812 | Over any run, the next claim of a message acknowledged for retry, on the same incarnation, comes no earlier than the retry time given. |
| `OutboxLaws.ClaimTakesAllThatWait` | packages/drivers-local/src/memory-state-store.ts:694-712 | A successful claim that hands out fewer messages than asked for has taken exactly those not completed, of the topic asked for, available by now and under no lease that still runs. |
| `OutboxLaws.EarliestAreHandedOut` | packages/drivers-local/src/memory-state-store.ts:694-712 | Claims come by available time, then enqueue sequence, then identifier; a message that waits is left out only when as many as asked for were handed out, and all of them go before it. |
| `OutboxLaws.ClaimOutcome` | packages/drivers-local/src/memory-state-store.ts:672-741 | Which claims are refused and with which error, and what a successful one leaves as it was. |
| `OutboxLaws.AcknowledgeOutcome` | packages/drivers-local/src/memory-state-store.ts:743-794 | Which acknowledgements are accepted, and the error of each of the others: closed, malformed, behind the fence, unknown, contradicting, or not by the holder of the claim. |
| `OutboxLaws.FirstAcknowledgement` | packages/drivers-local/src/memory-state-store.ts:795-819 | A first acknowledgement takes the claim off, keeps it as the acknowledged one and records the outcome; a message to be retried becomes available at the retry time. |
| `OutboxLaws.RepeatedAcknowledgement` | packages/drivers-local/src/memory-state-store.ts:766-794 | Acknowledging again with the same outcome repeats the answer, marked as a duplicate, and changes no entry. |
| `OutboxRuns.AcknowledgesNewestClaim` | packages/drivers-local/src/memory-state-store.ts:760-819 | A fresh acknowledgement succeeds only for the newest claim, issued earlier and not acknowledged since. |
| `OutboxRuns.EnqueueStartsAfresh` | packages/drivers-local/src/memory-state-store.ts:1001-1008 | Enqueuing replaces an entry only when it awaits a retry, and starts a new incarnation with attempt zero and a new sequence. |
| `OutboxRuns.EntryStep` | packages/drivers-local/src/memory-state-store.ts:685-1008 | Everything one store operation can do to one outbox entry: claim it, acknowledge it, restart it, or leave it alone. |
| `OutboxRuns.RunIsStoreRun` | packages/drivers-local/src/memory-state-store.ts:869-876 | Every interleaved run of transactions is, for the outbox, a run of single store operations. |
| `OutboxRuns.ClaimTakesFirstEligible` | packages/drivers-local/src/memory-state-store.ts:694-741 | A successful claim returns the first `limit` eligible messages in delivery order, each once, or all of them when there are fewer. |
| `OutboxRuns.ClaimSkipsNoOne` | packages/drivers-local/src/memory-state-store.ts:694-741 | No eligible message that was left stands before one that was taken. |
| `OutboxRuns.ClaimLeavesOthers` | packages/drivers-local/src/memory-state-store.ts:712-735 | A claim leaves every entry it did not take exactly as it was. |
| `OutboxRuns.OverflowKeepsEarlierClaims` | packages/drivers-local/src/memory-state-store.ts:688-740 | A claim fails for lack of attempts if and only if an exhausted entry stands within its limit in delivery order; it then leaves the store as it was if and only if that is the first eligible entry. |
| `OutboxRuns.FailedClaimLeavesClaim` | packages/drivers-local/src/memory-state-store.ts:700-740 | A coherent store on which a failing claim leaves a claim behind. |
| `StoreLoops.FilteredOrderIsQueue` | packages/drivers-local/src/memory-state-store.ts:694-712 | Skipping ineligible entries while walking the sorted outbox visits exactly the eligible messages in (available time, enqueue sequence, identifier) order. |
| `StoreLoops.TakeClaims` | packages/drivers-local/src/memory-state-store.ts:694-735 | The claim loop over the sorted outbox updates exactly the planned entries, returns their claims, and stops where the plan says, including at an entry whose attempts ran out. |
| `StoreLoops.CheckMutations` | packages/drivers-local/src/memory-state-store.ts:885-915 | The mutation loop accepts exactly when every expected revision matches, and then has removed the deleted keys and kept the mutations that change something. |
| `StoreLoops.DeleteThenPut` | packages/drivers-local/src/memory-state-store.ts:978-992 | Deleting first and putting afterwards installs the records the commit is specified to install. |
| `StoreLoops.PlanMessages` | packages/drivers-local/src/memory-state-store.ts:917-952 | The outbox staging loop plans the same messages, and fails with the same error, as its specification. |
| `MemoryStateStores.MemoryStateStore.CommitStaged` | packages/drivers-local/src/memory-state-store.ts:878-1042 | The in-place commit takes the abstract store through the commit transition, returns its outcome, and keeps every watcher's stream equal to the log after its cursor. |
| `MemoryStateStores.MemoryStateStore.ClaimMessages` | packages/drivers-local/src/memory-state-store.ts:685-741 | The in-place claim takes the abstract store through the claim transition. |
| `MemoryStateStores.MemoryStateStore.AcknowledgeMessage` | packages/drivers-local/src/memory-state-store.ts:743-819 | The in-place acknowledgement takes the abstract store through its transition, duplicates and conflicts included. |
| `MemoryStateStores.MemoryStateStore.BeginTransact` | packages/drivers-local/src/memory-state-store.ts:571-597 | The synchronous start of a transaction: closed, identity error, replay, join, conflict, or a snapshot of the records. |
| `MemoryStateStores.MemoryStateStore.PublishChanges` | packages/drivers-local/src/memory-state-store.ts:1014-1032 | Publishing one commit's changes appends them to the log and to every open watcher, in order. |
| `MemoryStateStores.MemoryStateStore.Watch` | packages/drivers-local/src/memory-state-store.ts:821-831 | A new watcher owes its reader exactly the log after its cursor. |
| `MemoryStateStores.MemoryStateStore.CloseStore` | packages/drivers-local/src/memory-state-store.ts:841-850 | Closing ends every watcher and changes nothing else. |
| `MemoryStateStores.MemoryStateStore.ScanRecords` | packages/drivers-local/src/memory-state-store.ts:616-633 | A scan yields the selected records in identifier order, up to the limit. |
| `MemoryStateStores.MemoryStateStore.ScanOperationJournal` | packages/drivers-local/src/memory-state-store.ts:665-683 | A journal scan yields the current entries after the cursor in (revision, operation) order, up to the limit. |
| `MemoryStateStores.MemoryStateStore.ScanOperationHistory` | packages/drivers-local/src/memory-state-store.ts:641-657 | A history scan yields the history entries after the cursor in order, up to the limit. |
| `WatchIterators.MemoryWatchIterator.Push` | packages/drivers-local/src/memory-state-store.ts:511-521 | A pushed change goes to the oldest waiting reader or to the queue: delivered and queued changes together gain exactly it. |
| `WatchIterators.MemoryWatchIterator.Next` | packages/drivers-local/src/memory-state-store.ts:495-504 | A reader gets the oldest queued change, or the end when closed, or waits; readers wait only while nothing is queued. |
| `WatchIterators.AfterExtends` | packages/drivers-local/src/memory-state-store.ts:821-831 | Appending changes beyond the cursor appends exactly them to what the watcher is owed. |
| `WatchRuns.WatchersMissNothing` | packages/drivers-local/src/memory-state-store.ts:1014-1032 | Along any run, what a watcher with a past cursor is owed later is what it was owed before followed by everything the log gained. |
| `WatchRuns.AfterIsTheRest` | packages/drivers-local/src/memory-state-store.ts:821-831 | In a log whose revisions never fall, what comes after a cursor is the rest of the log from the first change of a later revision on. |
| `WatchRuns.StreamIsLogAfterCursor` | packages/drivers-local/src/memory-state-store.ts:821-831 | For any cursor and any run, what a watcher was given at its start followed by all that was published since is the log after its cursor if and only if nothing was published or the cursor lies below the first change that was. |
| `WatchRuns.CommitOwesPastCursors` | packages/drivers-local/src/memory-state-store.ts:1014-1033 | A commit that publishes changes gives a watcher what its cursor asks for if and only if the cursor is not beyond the revision the store had. |
| `WatchRuns.EarlyWatcherGetsTooMuch` | packages/drivers-local/src/memory-state-store.ts:1014-1033 | A watcher started beyond the revision is given the next put, which the log after its cursor does not hold. |
| `MemoryTransactions.MemoryTransaction.Get` | packages/drivers-local/src/memory-state-store.ts:341-360 | A get sees the last staged write over the snapshot. |
| `MemoryTransactions.MemoryTransaction.Scan` | packages/drivers-local/src/memory-state-store.ts:362-391 | A scan sees the snapshot with staged puts and deletes laid over it. |
| `MemoryTransactions.MemoryTransaction.Put` | packages/drivers-local/src/memory-state-store.ts:393-407 | A later put or delete of a key replaces the earlier one, its expected revision included. |
| `MemoryTransactions.MemoryTransaction.Finish` | packages/drivers-local/src/memory-state-store.ts:452-462 | Finishing hands over the staged mutations in key order, one per key. |
| `MemoryTransactions.CollectRows` | packages/drivers-local/src/memory-state-store.ts:367-391 | Filtering, sorting and slicing the record map yields the one ordered result, whatever order the map is walked in. |
| `Paging.RecoverOperations` | packages/runtime/src/recovery.ts:57-81 | Over a journal that stands still, reading recoverable operations page by page ends and returns exactly the one-shot scan. |
| `RecoveryRuns.RecoveryMissesNothing` | packages/runtime/src/recovery.ts:57-81 | Whatever is committed between the pages, recovery reads in strictly ascending order only entries that were recoverable when their page was read, and a recovery that ends has read the current entry of every operation recoverable then. |
| `Paging.ScanObservedStatusCollection` | packages/runtime/src/create-runtime.ts:67-88 | In a transaction that began on any reachable store and has made any requests since, reading a collection page by page ends and returns exactly its one-shot scan, staged writes included. |
| `Paging.JournalPage` | packages/drivers-local/src/memory-state-store.ts:665-683 | The page after the k-th entry of the full journal scan is the next stretch of that scan. |
| `Paging.RowsPage` | packages/drivers-local/src/memory-state-store.ts:362-391 | The page after the k-th row of a collection scan is the next stretch of that scan. |
| `Paging.ReachableRecordsPortable` | packages/drivers-local/src/memory-state-store.ts:144-158 | Every reachable store holds only keys that a page loop may resume at. |
| `JournalScans.ScanIsExact` | packages/drivers-local/src/memory-state-store.ts:665-683 | An unbounded journal scan lists each wanted operation exactly once, with its current entry, in ascending order. |
| `JournalScans.ScansArePages` | packages/drivers-local/src/memory-state-store.ts:641-683 | A journal or history scan yields, strictly by revision and then operation, entries beyond the cursor, only executing or planned ones when only those are asked for, at most the limit; an entry left out comes after a full page. |
| `JournalScans.CurrentAreStored` | packages/drivers-local/src/memory-state-store.ts:993-1000 | The operations map holds exactly the entries of the history that no later entry replaces, and (revision, operation) tells them apart. |
| `StateStrings.CursorOrder` | packages/contracts/src/state.ts:128-142 | Journal positions are strictly and totally ordered by revision, then operation. |
| `Order.LexIsFirstDifference` | packages/drivers-local/src/memory-state-store.ts:120-122 | The order of strings is decided by the unit where they first differ, or by which of them ends there. |
| `StateStrings.IsPortableStateString` | packages/contracts/src/state.ts:33-51 | The index loop accepts exactly the UTF-16 encodings of strings of nonzero scalar values. |
| `StateStrings.PortableIffEncoding` | packages/contracts/src/state.ts:33-51 | Being accepted and being such an encoding are the same thing. |
| `StateStrings.StateStringOrderKey` | packages/contracts/src/state.ts:53-63 | The filled array is the big-endian key of a portable string; anything else is refused. |
| `StateStrings.OrderKeyPreservesOrder` | packages/contracts/src/state.ts:53-63 | Byte order of the keys is code-unit order of the strings, both ways. |
| `StateStrings.OrderKeyInjective` | packages/contracts/src/state.ts:53-63 | Distinct strings have distinct keys. |
| `StateStrings.KeyIndexSortsAsStrings` | packages/drivers-local/src/memory-state-store.ts:120-122 | Sorting by keys, as an index does, gives the order the in-memory scan gives. |
| `Decimals.PrintThenParse` | packages/contracts/src/identity.ts:49-57 | Printing a number as a canonical decimal and parsing it gives the number back. |
| `Decimals.ParseThenPrint` | packages/contracts/src/identity.ts:49-57 | A number has only one canonical decimal. |
| `Counters.CounterNeverForks` | packages/drivers-local/src/memory-state-store.ts:852-1042 | In every interleaving, a key that is written only by transactions putting the successor of what they read, guarded by the revision they read, counts its committed writes: the n-th of them in commit order wrote n. |
| `Counters.ConditionalPutSeesCurrent` | packages/drivers-local/src/memory-state-store.ts:297-308 | A conditional put that commits was based on the record that is current when it commits, whatever else its transaction read. |
| `WorkerEpochs.EpochsAreConsecutive` | packages/transport-websocket/src/state-worker-epoch-allocator.ts:70-107 | Over any interleaving the epochs allocated for a worker are 1, 2, 3, ... in commit order and never exceed 64 bits. |
| `WorkerEpochs.Next` | packages/transport-websocket/src/state-worker-epoch-allocator.ts:72-106 | The allocator's reads and writes on its transaction are those of its specified work, refusing malformed records and the last epoch. |
| `WorkerEpochs.AllocationIncrements` | packages/transport-websocket/src/state-worker-epoch-allocator.ts:72-106 | A committed allocation wrote one more than it read and returned what it wrote. |
| `WorkerEpochs.AllocationOutcome` | packages/transport-websocket/src/state-worker-epoch-allocator.ts:72-106 | An allocation gives 1 where no record is held, the next epoch where a record holds one below the last, and fails on the last epoch and on any other record; it puts what it gives, guarded by what it read. |
| `Deployments.GenerationsCountChanges` | packages/runtime/src/runtime-operations.ts:288-378 | Over any interleaving, with arbitrary validation reads and scans and any parser, an identity's generation is the number of its changed deployments, each raising it by exactly one. |
| `Deployments.GenerationsStayInRange` | packages/runtime/src/runtime-operations.ts:356-372 | A parser that bounds generations bounds the number of changed deployments. |
| `Deployments.DeployIncrementsOrKeeps` | packages/runtime/src/runtime-operations.ts:349-376 | A committed deployment either raised its generation by one, stored what the parser reads back and reports it as changed, or found its record as desired and staged nothing. |
| `Deployments.CommittedDeployment` | packages/runtime/src/runtime-operations.ts:105-115 | What a committed deployment reports has each of the seven requested fields. It reports no change, returns the stored record and stages nothing if and only if that record has all seven; otherwise the one thing it stages is a put of the reported deployment, one generation further, active, with the validated version, guarded by what it read. |
| `Deployments.DecisionIs` | packages/runtime/src/runtime-operations.ts:349-372 | From what the snapshot holds: a record with all seven fields is kept, one that cannot be read is refused, as is a successor the parser does not read back, and otherwise the successor takes its place. |
| `Deployments.DeploymentComesToAnEnd` | packages/runtime/src/runtime-operations.ts:349-376 | Once the validation has passed, a deployment reads its record next and comes to an end, as decided from it, within two requests. |
| `Deployments.KeysSeparateIdentities` | packages/runtime/src/runtime-operations.ts:79-83 | Deployments of two identities have the same key only when application and plugin are the same. |
| `Deployments.IdenticalRedeployWritesNothing` | packages/runtime/src/runtime-operations.ts:349-355 | A deployment whose snapshot already held a record with all seven requested fields reports that record unchanged, and committing it writes no record, change, journal entry or message. |
| `Deployments.DeployPlugin` | packages/runtime/src/runtime-operations.ts:285-404 | The attempt loop passes over an attempt, within eight, only for a revision conflict or a record read back with another generation or another value in one of the seven requested fields; it reports success only for a persisted deployment of the committed generation with all seven. |
| `Deployments.PersistedIsCurrent` | packages/runtime/src/runtime-operations.ts:291-395 | In any run, an attempt that settles with what it read back has a committed deployment in the log; what it read back has all seven requested fields, its generation counts all changed deployments up to the read, and none came between that commit and the read. |
| `Deployments.CurrentDeploymentRecords` | packages/runtime/src/create-runtime.ts:106-122 | One pass keeps, for every identity of the application and no other, a record that no other record of the identity outranks. |
| `Deployments.CurrentIsUnique` | packages/runtime/src/create-runtime.ts:90-104 | That record is unique, so the choice does not depend on the order records are read in. |
| `Deployments.CurrentHasHighestGeneration` | packages/runtime/src/create-runtime.ts:90-122 | It has the highest generation of its identity; among records that share it, the one under the identity's own key wins, and otherwise the one with the smallest key. |
| `Deployments.OutrankingIsStrict` | packages/runtime/src/create-runtime.ts:90-104 | The comparison of deployment records is a strict order that separates records with different keys. |
| `RemoteAttempts.TerminalIsFinal` | packages/transport-websocket/src/remote-executor.ts:2051-2164 | For any number of executors and any interleaving, losses, retries and volatile failures included, each write raises the revision by exactly one and a terminal record is only ever overwritten by its own tombstone. |
| `RemoteAttempts.OneCommitPerRevision` | packages/transport-websocket/src/remote-protocol.ts:224-251 | Of several conditional writes that expect one revision at most one succeeds. |
| `RemoteAttempts.SettledOnce` | packages/transport-websocket/src/remote-executor.ts:2285-2289 | Each handle is settled at most once: its result never changes afterwards. |
| `RemoteAttempts.SettleResolves` | packages/transport-websocket/src/remote-executor.ts:2285-2289 | Settling an attempt that has a terminal result and an unresolved handle resolves the handle with that result, and otherwise changes nothing. |
| `RemoteAttempts.VolatileResolves` | packages/transport-websocket/src/remote-executor.ts:2291-2300 | A volatile result becomes the terminal one only where there was none, and in any case leaves the handle resolved: with what it had, or with the terminal result. |
| `RemoteAttempts.RevokeResolves` | packages/transport-websocket/src/remote-executor.ts:1020-1034 | Revoking an attempt makes the given result its terminal one and leaves its handle resolved. |
| `RemoteAttempts.TransitionsAreStored` | packages/transport-websocket/src/remote-executor.ts:2051-2085 | The holder of the newest record stores what it sets out to, one revision up: a transition its state and epoch, a cancellation that it was cancelled, a pruning the tombstone, and everything else as the attempt holds it. |
| `RemoteAttempts.PublicationSettles` | packages/transport-websocket/src/remote-executor.ts:1590-1640 | A run: a publication by an executor that holds the newest record becomes the stored result, the attempt's durable result and the handle's result. |
| `RemoteAttempts.LosingPublicationAdopts` | packages/transport-websocket/src/remote-executor.ts:2086-2120 | A run: a publication that loses to a stored terminal result ends with the attempt and its unresolved handle holding the stored result. |
| `RemoteAttempts.DurableResultsAgree` | packages/transport-websocket/src/remote-executor.ts:1628-1640 | While nothing has expired, every result an executor knows from the store is the stored terminal result. |
| `RemoteAttempts.TombstoneResurrected` | packages/transport-websocket/src/remote-executor.ts:2102-2114 | A run in which two different terminal results become durable one after the other, across a tombstone. |
| `RemoteAttempts.TombstoneOverwritten` | packages/transport-websocket/src/remote-executor.ts:1590-1628 | A publication overwrites a tombstone if and only if its executor, idle, holds that tombstone's revision and no result. |
| `RemoteAttempts.TerminalWithoutResultIsExpired` | packages/transport-websocket/src/remote-executor.ts:2102-2120 | An executor can see it coming: in any run an idle attempt without a result holds an expired record if and only if its own state is terminal. |
| `RemoteAttempts.GuardedTombstonesStay` | packages/transport-websocket/src/remote-executor.ts:1616-1628 | If publications started only from attempts that are not terminal already, tombstones would never be overwritten by a result. |
| `RemoteAttemptStores.MemoryRemoteAttemptStore.Commit` | packages/transport-websocket/src/remote-protocol.ts:224-251 | The conditional write refuses on a revision or epoch mismatch, stops at the last revision, otherwise stores the record one revision up and raises the worker's watermark to its epoch. |
| `RemoteAttemptStores.MemoryRemoteAttemptStore.Recover` | packages/transport-websocket/src/remote-protocol.ts:276-290 | Recovery returns up to the limit of the worker's unexpired records, all of them when there are fewer, and a watermark no stored epoch of the worker exceeds. |
| `RemoteAttemptStores.MemoryRemoteAttemptStore.StoreSnapshot` | packages/transport-websocket/src/remote-protocol.ts:292-302 | Storing keeps the active index equal to the unexpired records and never lowers a watermark. |
| `RemoteAttemptStores.AttemptKeyInjective` | packages/transport-websocket/src/remote-protocol.ts:497-502 | Two attempts share a store key only when they are the same attempt. |
| `RemoteAttemptObjects.RemoteAttempt.Write` | packages/transport-websocket/src/remote-executor.ts:2061-2072 | Building the record and handing it to the store is one step of the attempt machine and one conditional write of the store. |
| `RemoteAttemptObjects.RemoteAttempt.OnCommit` | packages/transport-websocket/src/remote-executor.ts:2076-2085 | The object takes over a committed record as the machine does. |
| `RemoteAttemptObjects.RemoteAttempt.OnReload` | packages/transport-websocket/src/remote-executor.ts:2086-2120 | The object adopts a reloaded record as the machine does. |
| `RemoteAttemptObjects.RemoteAttempt.PublishVolatile` | packages/transport-websocket/src/remote-executor.ts:2291-2300 | The object takes the attempt through the machine's volatile publication: a volatile failure becomes the result only when there is none, and settles the handle. |
| `ExecutorSessions.ExecutorSessions.Attach` | packages/transport-websocket/src/remote-executor.ts:1188-1203 | A session is attached exactly when its epoch is above everything seen or it is attached already; sessions attached later have higher epochs. |
| `MainEndpoints.PublishedEpochsIncrease` | packages/transport-websocket/src/main-endpoint.ts:157-227 | Under any interleaving of registrations, ends and late, stale or failed answers, the epochs published for a worker strictly increase. |
| `MainEndpoints.OnlyNewestIsLive` | packages/transport-websocket/src/main-endpoint.ts:177-191 | Of all sessions ever published for a worker at most the newest is alive, and it is the current one. |
| `MainEndpoints.ReadyIsCurrent` | packages/transport-websocket/src/main-endpoint.ts:177-191 | A ready session has the epoch published for it and is its worker's current session. |
| `MainEndpoints.LastEpochNeverFalls` | packages/transport-websocket/src/main-endpoint.ts:229-236 | The highest recorded epoch of a worker never falls, late answers included. |
| `MainEndpoints.RegistrationGoesThrough` | packages/transport-websocket/src/main-endpoint.ts:157-227 | A run: a registration at the head of its queue whose session stays wanted, and whose allocator answers with an epoch above the last one, is published with that epoch, current and able to become ready. |
| `MainEndpoints.AnswerIsTakenIfHigher` | packages/transport-websocket/src/main-endpoint.ts:170-183 | An answer above everything recorded is recorded and taken; any other one loses the registration and nothing else. |
| `MainEndpoints.HeadAsks` | packages/transport-websocket/src/main-endpoint.ts:163-176 | The head of a queue asks for an epoch exactly when its session is still wanted, and otherwise leaves the queue. |
| `MainEndpoints.PublicationReplaces` | packages/transport-websocket/src/main-endpoint.ts:177-191 | A registration that holds an epoch leaves the queue; if its session is still wanted it becomes the worker's current one with that epoch, and its predecessor ends. |
| `MainEndpoints.MainEndpoint.ClaimRegistration` | packages/transport-websocket/src/main-endpoint.ts:184-190 | Publishing checks the session again, makes it current and replaces its predecessor, in one step of the endpoint machine. |
| `MainEndpoints.MainEndpoint.RecordAllocatedEpoch` | packages/transport-websocket/src/main-endpoint.ts:229-236 | An epoch is recorded exactly when it is above the last one. |
| `MainEndpoints.MainEndpoint.Release` | packages/transport-websocket/src/main-endpoint.ts:247-255 | Releasing a session forgets it wherever it was current and nothing else. |
| `MainEndpoints.MainEndpoint.CloseAll` | packages/transport-websocket/src/main-endpoint.ts:146-155 | Closing ends every live session and leaves none attached or current. |
| `WorkerEndpoints.CurrentIsHighest` | packages/transport-websocket/src/worker-endpoint.ts:89-104 | Whatever order readiness arrives in, a current session's epoch is the highest accepted one and no other accepted session is still ready. |
| `WorkerEndpoints.HighestNeverFalls` | packages/transport-websocket/src/worker-endpoint.ts:94-97 | The highest accepted epoch never falls. |
| `WorkerEndpoints.ReadyIsAcceptedOrReplaced` | packages/transport-websocket/src/worker-endpoint.ts:89-104 | Readiness with an epoch above the highest makes the session current, leaves it ready with its epoch, raises the highest to it and makes a former current session unavailable; any other readiness makes its session unavailable, unless it is the current one, and leaves current and highest as they were. |
| `WorkerEndpoints.NoCurrentOnlyAfterEnd` | packages/transport-websocket/src/worker-endpoint.ts:80-104 | In any run there is no current session only when none was ever accepted, the endpoint is closed, or the accepted session of the highest epoch is no longer ready. |
| `WorkerEndpoints.WorkerEndpoint.OnReady` | packages/transport-websocket/src/worker-endpoint.ts:90-104 | The ready handler takes the endpoint through its specified reaction. |
| `Handshakes.NeitherFails` | packages/transport-websocket/src/session.ts:829-1124 | With matching credentials neither side of an honest pair ever fails, whatever the interleaving over the two links. |
| `Handshakes.EveryMaximalRunIsReady` | packages/transport-websocket/src/session.ts:931-1124 | Such a run has at most 14 steps besides two for each later heartbeat, and one that can go on only with heartbeats has both sides ready. |
| `Handshakes.ReadyAgrees` | packages/transport-websocket/src/session.ts:1056-1124 | A worker is ready only after its main is, with the same session, epoch and worker identity; and with any credentials, nobody is ready unless they match. |
| `Handshakes.ReadyMainSawProof` | packages/transport-websocket/src/session.ts:931-1124 | Against any peer, whatever it sends: a main that is ready got, in this order and in an unbroken sequence, a worker's hello with a proper nonce, a proof made with the credential registered for the worker named there over both nonces, and the registration of that worker in the hello's session. |
| `Handshakes.ReadyWorkerSawProof` | packages/transport-websocket/src/session.ts:931-1124 | Likewise a ready worker got a main's hello, a proof made with its own credential over both nonces, and its epoch in its own session. |
| `Handshakes.ReadyStaysInSession` | packages/transport-websocket/src/session.ts:711-776 | Against any peer, once ready a session keeps its peer, session and epoch for as long as it is not broken, and takes only messages of its own session that belong to a ready one. |
| `Handshakes.StepsUseWorkUp` | packages/transport-websocket/src/session.ts:931-1124 | Every step but a later heartbeat uses up some of a bounded amount of work. |
| `Handshakes.HandshakeSession.ReceiveControl` | packages/transport-websocket/src/session.ts:711-776 | The session object reacts to a control message as its specification does, sending the same messages. |
| `ReplayWindows.AcceptedIsContiguous` | packages/transport-websocket/src/session.ts:711-745 | Whatever arrives, the accepted messages carry exactly the sequences 0, 1, 2, ..., and the fingerprint map is exactly the bounded queue of the newest of them, with distinct identities. |
| `ReplayWindows.WhatHappens` | packages/transport-websocket/src/session.ts:711-744 | Exactly the resends of remembered messages are ignored, leaving the session unchanged; the next in sequence is accepted unless its identity is remembered; anything else closes the session, as a gap exactly when it is further ahead than the limit. |
| `ReplayWindows.ResendsAreHarmless` | packages/transport-websocket/src/session.ts:715-718 | A sender's stream arrives whole however often its messages are resent while they are remembered. |
| `ReplayWindows.SequencedReceiver.ReceiveControl` | packages/transport-websocket/src/session.ts:711-745 | The receiver object takes its window through the specified reaction. |
| `ReplayWindows.SequencedReceiver.RetainReplay` | packages/transport-websocket/src/session.ts:1275-1284 | The retention loop keeps the fingerprint map equal to the bounded queue. |
| `RequestTables.RequestTable.PruneIssuedRequests` | packages/transport-websocket/src/session.ts:1292-1305 | The rotate-or-drop loop ends, brings the remembered identifiers within retention, and does what one walk over the order does. |
| `RequestTables.PruneIsSafe` | packages/transport-websocket/src/session.ts:1292-1305 | Pruning never forgets a pending request and keeps everything remembered in the order list. |
| `RequestTables.PruneForgetsOldest` | packages/transport-websocket/src/session.ts:1292-1305 | Whatever is forgotten is older than every identifier that is kept without being pending. |
| `RequestTables.PruneForgetsNoMore` | packages/transport-websocket/src/session.ts:1292-1305 | Pruning keeps exactly as many identifiers as retention and inflight limit allow together, or all when there are no more. |
| `RequestTables.AnsweredAtMostOnce` | packages/transport-websocket/src/session.ts:587-640 | Along any run of requests, failures, timeouts and responses, each request is answered at most once, pending requests are remembered and within the inflight limit, and memory stays within retention. |
| `RequestTables.RequestsWaitForAnswers` | packages/transport-websocket/src/session.ts:587-640 | Along any run, a request made with room waits until it is answered, times out, its send fails or all are rejected; an answer that comes until then is delivered. |
| `RequestTables.RequestsEnd` | packages/transport-websocket/src/session.ts:612-640 | A response, a timeout or a failed send ends exactly its own request; only a response to a waiting request delivers anything. |
| `BinaryCodecs.RoundTrip` | packages/transport-websocket/src/codec.ts:191-273 | Decoding an encoded chunk returns exactly the chunk if and only if its total and its payload length are below 2^32. |
| `BinaryCodecs.EncodeBinary` | packages/transport-websocket/src/codec.ts:191-225 | The buffer filled field by field is the specified frame, refused exactly when a field is invalid or the frame too large. |
| `BinaryCodecs.DecodesTo` | packages/transport-websocket/src/codec.ts:226-273 | A frame decodes to its fields as they fit the header, and to an error when the wrapped counts no longer fit together. |
| `BinaryCodecs.FrameLayout` | packages/transport-websocket/src/codec.ts:211-224 | The layout of a frame byte by byte: magic number, version, the length of the identity in two bytes and the three counts in four each, most significant byte first, then identity and payload. |
| `BinaryCodecs.AcceptedFrames` | packages/transport-websocket/src/codec.ts:226-273 | An accepted frame is within the limits, its index below its total, its payload the end of the frame and its identity portable. |
| `BinaryCodecs.ReencodesUnlessMarked` | packages/transport-websocket/src/codec.ts:191-273 | Encoding what an accepted frame decodes to gives the frame back if and only if no byte-order mark stands where its identity starts. |
| `BinaryTransfers.DeliveredOnce` | packages/transport-websocket/src/session.ts:757-827 | Among any other traffic, what a sender sends about a message is delivered as the original bytes, exactly once, when its last chunk arrives and not before. |
| `BinaryTransfers.DeliveriesAreWhole` | packages/transport-websocket/src/session.ts:757-827 | Over any traffic, proper or not, each message that was delivered was announced, and since its last announcement exactly its chunks arrived for it, in order, as many and with as many bytes as announced; they join to what was delivered. |
| `BinaryTransfers.PieceIsTaken` | packages/transport-websocket/src/session.ts:779-827 | A chunk is taken if and only if its message is pending, it is the next of as many as announced and the bytes so far are no more than announced, and as many when it is the last, which delivers the message; any other chunk closes the session. |
| `BinaryTransfers.SplitFramesFit` | packages/transport-websocket/src/session.ts:1216-1258 | For frame limits above the reserved overhead and fields below 2^32, every chunk's frame fits the limit and decodes to the chunk. |
| `BinaryTransfers.SplitFills` | packages/transport-websocket/src/session.ts:1216-1258 | Every chunk but the last carries the frame limit less the overhead of 160 bytes; no chunk is empty or longer. |
| `BinaryTransfers.SplitsWhatFits` | packages/transport-websocket/src/session.ts:1216-1245 | A payload is sent exactly when it is not empty, within the size limit, and no longer than the allowed number of such chunks holds. |
| `BinaryTransfers.ChunksJoin` | packages/transport-websocket/src/session.ts:1246-1257 | The chunks of a non-empty payload join to the payload. |
| `BinaryTransfers.Split` | packages/transport-websocket/src/session.ts:1216-1258 | The send loop produces exactly those chunks, or none when the payload is empty or over the limits. |
| `BinaryTransfers.PendingStaysBounded` | packages/transport-websocket/src/session.ts:757-827 | Over any traffic the pending total stays within the limits and equals the announced sizes of what is pending plus all that was abandoned by announcing a pending identity again. |
| `BinaryTransfers.TotalsExactIffNothingReannounced` | packages/transport-websocket/src/session.ts:757-772 | The pending total is exactly what is pending if and only if no announcement in the traffic named a non-empty message that was still pending and found room. |
| `BinaryTransfers.ExactUnlessReannounced` | packages/transport-websocket/src/session.ts:757-772 | The same for one arrival: an exact total stays exact if and only if the arrival is not such an announcement. |
| `BinaryTransfers.AbandonedForGood` | packages/transport-websocket/src/session.ts:817-818 | What was abandoned is never released, whatever arrives later. |
| `SessionTraffics.ReannouncedOnceForgotten` | packages/transport-websocket/src/session.ts:711-772 | In a session, a pending message is announced again only when at least as many messages as the replay memory holds were accepted since its announcement. |
| `SessionTraffics.AbandonedTotalIsHeld` | packages/transport-websocket/src/session.ts:711-827 | A run that shows it: with a replay memory of one message, an identity announced twice leaves its size in the total after its payload is delivered and nothing is pending. |
| `SessionTraffics.SessionTotals` | packages/transport-websocket/src/session.ts:711-827 | Whatever control messages and chunks a session receives, its pending total is bounded and accounted for. |
| `BinaryTransfers.ProperClosesOnlyForRoom` | packages/transport-websocket/src/session.ts:757-817 | Traffic in which every message is sent properly closes the session exactly when an announcement finds no room. |
| `BinaryTransfers.BinaryReceiver.ReceiveBinary` | packages/transport-websocket/src/session.ts:779-827 | The receiver object reacts to a chunk as its specification does, copying the parts into one buffer. |
| `Permissions.GrantingIsPreorder` | packages/contracts/src/permission-grant.ts:405-462 | A canonical set may be granted to itself, and allowed grants compose across all seven kinds, nested filesystem roots included. |
| `Permissions.InputsFormPreorder` | packages/contracts/src/permission-grant.ts:464-508 | The same for decisions on inputs that are not canonical yet. |
| `Permissions.GrantsNeverWiden` | packages/contracts/src/permission-grant.ts:413-462 | An allowed grant never permits a concrete use that the request did not permit. |
| `Permissions.GrantingIsInclusion` | packages/contracts/src/permission-grant.ts:405-462 | Between canonical sets, a grant without empty lists of capabilities or roots is allowed if and only if the request permits every use the grant permits. |
| `Permissions.CanonicalFormKeepsUses` | packages/contracts/src/permission-grant.ts:371-403 | The canonical form of a set permits exactly the uses the set permits, once hosts are folded and methods are in upper case. |
| `Permissions.CanonicalizeAccepts` | packages/contracts/src/permission-grant.ts:371-403 | A set is refused exactly when one of its permissions is malformed or a kind occurs twice. |
| `Permissions.ContainmentIsBySegments` | packages/contracts/src/permission-grant.ts:409-411 | One logical path contains another exactly when its segments are the first segments of the other. |
| `Permissions.CanonicalizeIsIdempotent` | packages/contracts/src/permission-grant.ts:371-403 | Canonicalizing a canonical set changes nothing. |
| `Permissions.CanonicalizeIsBlind` | packages/contracts/src/permission-grant.ts:371-403 | Sets that say the same, up to list order and repeats in the plain lists, have the same canonical form or are both refused. |
| `Permissions.SortedUniqueBlind` | packages/contracts/src/permission-grant.ts:160-168 | sortedUnique depends only on the set of elements and is idempotent. |
| `Permissions.PathsNest` | packages/contracts/src/permission-grant.ts:409-411 | Containment of logical paths is transitive from a valid root. |
| `Permissions.ValidatePermissionGrant` | packages/contracts/src/permission-grant.ts:464-508 | The decision loop allows exactly the grants that are well formed and covered, and otherwise names a permission that is not covered. |
| `Permissions.HostStays` | packages/contracts/src/permission-grant.ts:186-206 | A canonical host is canonicalized to itself. |

## Left out

- PostgreSQL, SQLite, filesystem, process and network drivers, the CLI, the control client, plugin builds and signing: their behaviour lives outside this code.
- Schema validation of stored JSON (ajv) and the JSON shape checks of permission input: deployments go through any encoding and any parser, permission input is typed.
- JavaScript object details (prototypes, accessors, cloning): values are immutable, so cloning is the identity; records are compared as JSON values, so the canonical text of a value stands for the value.
- Diagnostics: error codes are kept where callers can tell them apart, texts and details are not.
- Timestamps as strings: an instant is a number of milliseconds or malformed; ordering by text agrees with it for four-digit years only.
- The byte size of an outbox payload is a field of the message rather than computed from its JSON.
- Insertion order of JavaScript maps: maps are walked in an arbitrary order, so results that would show it (the order of `currentDeploymentRecords`, of recovered attempts) are stated as sets or maps.
- MemoryStateStores.MemoryStateStore.ScanRecords: a scan is one step; the source checks before each row that the store is still open, so one that closes in the middle delivers a prefix and then fails.
- MemoryStateStores.MemoryStateStore.ScanOperationJournal: one step, as ScanRecords.
- MemoryStateStores.MemoryStateStore.ScanOperationHistory: one step, as ScanRecords.
- Paging.RecoverOperations: the journal stands still while its pages are read; RecoveryRuns.RecoveryMissesNothing is about one that moves on. That the loop ends is proved for the former only, because writers can keep filling pages.
- OutboxRuns.ClaimsAreExclusive: speaks of two claims with none issued between them; OutboxLaws.LeasesAreExclusive is about any two.
- WorkerEpochs.EpochsAreConsecutive: assumes that nothing but allocations writes a worker's epoch record, which is what its own key space is for.
- Deployments.GenerationsCountChanges: assumes that nothing but deployments of an identity writes its record.
- Deployments.DeployPlugin: the loop is given how each attempt went; Deployments.PersistedIsCurrent ties an attempt to its call, its entry in the log and the later read. Authority checks and the wake-up after a change are not modelled.
- RemoteAttempts.DurableResultsAgree: stated while nothing has expired, because a tombstone can be overwritten.
- RemoteAttempts.TerminalIsFinal: runs use conditional commits, loads and recovery; unconditional `save` and `delete` are modelled in the store class only.
- Deriving a published result from a candidate (size limit, a cancelled result of a timed-out attempt) and joining a publication in progress: any result may be published at any time.
- The retry bound and the sleeps of the attempt commit loop: a lost reply may be retried or given up any number of times, so every bounded schedule is covered.
- The reconciliation exchange, component activation and capability calls of the remote executor, and the worker half of remote execution.
- ExecutorSessions.ExecutorSessions.Hydrate: hydration is one step before the first session; the records it restores are the `Install` steps of the attempt machine.
- MainEndpoints.PublishedEpochsIncrease: one epoch may be recorded by a late answer above the one about to be published; publications still increase, and the model keeps both.
- The bound of 64 bits on an epoch granted in the handshake: the main grants what its allocator returned, whose own bound is proved in WorkerEpochs.
- RequestTables.AnsweredAtMostOnce: requests are made while the session is available and with a valid timeout; the checks that refuse them otherwise are not modelled.
- Handshake and heartbeat timeouts, transport failures and socket back-pressure: theorems about the handshake assume neither side gives up.
- Handshakes.HandshakeSession.ReceiveControl: any message out of sequence breaks the session here; ignoring exact resends is the subject of ReplayWindows.
- Handshakes.ReadyStaysInSession: heartbeats stand for every message a ready session takes; application messages have no state of their own here.
- Queued application messages and listeners: delivery to consumers after a message is accepted is not modelled.
- Permissions.GrantingIsInclusion: grants without an empty list of capabilities or roots; an empty one permits no use, but still needs a requested permission of its kind.
- Permissions.CanonicalizeIsBlind: sets without repeated kinds; repeated kinds, names or paths are an error in any order.
- The internal steps of IDNA folding: host folding is any function that leaves its own results alone.
