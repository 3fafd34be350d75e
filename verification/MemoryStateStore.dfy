/** The store object. Its maps, log and counters change in place; every method is proved to
    take the abstract store through the transition of the same name in StoreModel, and to
    keep every open watcher's stream equal to the log after its cursor. */
module MemoryStateStores {
  import opened Order
  import opened StateStrings
  import opened StoreModel
  import opened StoreInvariants
  import opened StoreLoops
  import opened Transactions
  import opened TransactionRuns
  import opened MemoryTransactions
  import opened WatchIterators
  import opened JournalScans

  class MemoryStateStore {
    var lifecycle: Lifecycle
    var records: map<StateKey, Record>
    var operations: map<JsString, JournalEntry>
    var operationHistory: seq<JournalEntry>
    var outbox: map<JsString, OutboxEntry>
    var outboxSequence: nat
    var fences: map<JsString, nat>
    var changes: seq<Change>
    var idempotency: map<JsString, IdempotencyRecord>
    var inFlight: map<JsString, Flight>
    var revision: nat
    var watchers: set<MemoryWatchIterator>

    ghost function View(): Store
      reads this
    {
      Store(lifecycle, records, operations, operationHistory, outbox, outboxSequence, fences, changes, idempotency,
            revision)
    }

    /** What an open watcher has been given is exactly the log after its cursor. */
    ghost predicate Watching(w: MemoryWatchIterator)
      reads this`changes, this`revision, w
    {
      w.Valid() && !w.closed && w.cursor <= revision && w.Stream() == After(changes, w.cursor)
    }

    ghost predicate Watched()
      reads this`watchers, this`changes, this`revision, watchers
    {
      forall w | w in watchers :: Watching(w)
    }

    ghost predicate Valid()
      reads this, watchers
    {
      StoreOk(View()) && Watched()
    }

    constructor ()
      ensures Valid() && View() == EmptyStore.(lifecycle := Created) && watchers == {} && inFlight == map[]
    {
      lifecycle := Created;
      records, operations, operationHistory, outbox, outboxSequence := map[], map[], [], map[], 0;
      fences, changes, idempotency, inFlight, revision, watchers := map[], [], map[], map[], 0, {};
      new;
      EmptyStoreOk();
    }

    method OpenStore() returns (r: Outcome<()>)
      requires Valid()
      modifies this`lifecycle
      ensures Valid()
      ensures old(lifecycle) == Shut ==> r == Err(Closed) && View() == old(View())
      ensures old(lifecycle) != Shut ==> r == Ok(()) && View() == old(View()).(lifecycle := Open)
    {
      if lifecycle == Shut {
        return Err(Closed);
      }
      lifecycle := Open;
      r := Ok(());
    }

    // ----- Transactions

    /** The synchronous part of transact, up to the first call of the work. */
    method BeginTransact(id: nat, o: Options) returns (r: Outcome<Phase>, tx: MemoryTransaction?)
      requires Valid()
      modifies this`inFlight
      ensures Valid() && View() == old(View())
      ensures r == if lifecycle != Open then Err(Closed)
                   else if ParseIdentity(o).Err? then Err(ParseIdentity(o).error)
                   else Ok(BeginPhase(View(), old(inFlight), ParseIdentity(o).value))
      ensures r.Ok? && r.value.Running? <==> tx != null
      ensures tx != null ==> fresh(tx) && tx.Valid() && tx.active && tx.View() == Begun(records)
      ensures inFlight == if tx != null && ParseIdentity(o).value.Some?
                          then old(inFlight)[ParseIdentity(o).value.value.key :=
                                 Flight(ParseIdentity(o).value.value.fingerprint, id)]
                          else old(inFlight)
    {
      tx := null;
      if lifecycle != Open {
        return Err(Closed), null;
      }
      var parsed := ParseIdentity(o);
      if parsed.Err? {
        return Err(parsed.error), null;
      }
      if parsed.value.Some? {
        var identity := parsed.value.value;
        if identity.key in idempotency {
          var replay := idempotency[identity.key];
          if replay.fingerprint != identity.fingerprint {
            return Ok(Done(Refused(IdempotencyConflict))), null;
          }
          return Ok(Done(Value(replay.result))), null;
        }
        if identity.key in inFlight {
          if inFlight[identity.key].fingerprint != identity.fingerprint {
            return Ok(Done(Refused(IdempotencyConflict))), null;
          }
          return Ok(Joined(inFlight[identity.key].runner)), null;
        }
        inFlight := inFlight[identity.key := Flight(identity.fingerprint, id)];
      }
      tx := new MemoryTransaction(records);
      r := Ok(Running(records, 0));
    }

    /** The cleanup after a call settles removes only that call's own flight. */
    method ForgetFlight(id: nat, key: JsString)
      requires Valid()
      modifies this`inFlight
      ensures Valid() && View() == old(View())
      ensures inFlight == if key in old(inFlight) && old(inFlight)[key].runner == id then old(inFlight) - {key}
        else old(inFlight)
    {
      if key in inFlight && inFlight[key].runner == id {
        inFlight := inFlight - {key};
      }
    }

    method AppendOperations(entries: seq<Operation>, at: nat)
      modifies this`operationHistory, this`operations
      ensures operationHistory == old(operationHistory) + JournalOf(entries, at)
      ensures operations == Journaled(old(operations), JournalOf(entries, at))
    {
      var i := 0;
      while i < |entries|
        invariant 0 <= i <= |entries|
        invariant operationHistory == old(operationHistory) + JournalOf(entries[..i], at)
        invariant operations == Journaled(old(operations), JournalOf(entries[..i], at))
      {
        var persisted := JournalEntry(entries[i], at);
        assert JournalOf(entries[..i + 1], at) == JournalOf(entries[..i], at) + [persisted];
        JournaledSnoc(old(operations), JournalOf(entries[..i], at), persisted);
        operationHistory := operationHistory + [persisted];
        operations := operations[entries[i].operationId := persisted];
        i := i + 1;
      }
      assert entries[..i] == entries;
    }

    method EnqueueMessages(messages: seq<OutboxMessage>)
      modifies this`outbox, this`outboxSequence
      ensures outbox == Enqueued(old(outbox), old(outboxSequence), messages)
      ensures outboxSequence == old(outboxSequence) + |messages|
    {
      var i := 0;
      while i < |messages|
        invariant 0 <= i <= |messages|
        invariant outbox == Enqueued(old(outbox), old(outboxSequence), messages[..i])
        invariant outboxSequence == old(outboxSequence) + i
      {
        assert messages[..i + 1] == messages[..i] + [messages[i]];
        EnqueuedSnoc(old(outbox), old(outboxSequence), messages[..i], messages[i]);
        outboxSequence := outboxSequence + 1;
        outbox := outbox[messages[i].messageId := FreshEntry(messages[i], outboxSequence)];
        i := i + 1;
      }
      assert messages[..i] == messages;
    }

    method PushToWatchers(change: Change)
      requires forall w | w in watchers :: w.Valid() && !w.closed
      modifies watchers
      ensures forall w | w in watchers :: w.Valid() && !w.closed && w.Stream() == old(w.Stream()) + [change]
    {
      var rest := watchers;
      while rest != {}
        invariant rest <= watchers
        invariant forall w | w in watchers :: w.Valid() && !w.closed
        invariant forall w | w in watchers && w in rest :: w.Stream() == old(w.Stream())
        invariant forall w | w in watchers && w !in rest :: w.Stream() == old(w.Stream()) + [change]
        decreases rest
      {
        var watcher :| watcher in rest;
        rest := rest - {watcher};
        watcher.Push(change);
      }
    }

    /** Appends one commit's changes to the log and to every open watcher. */
    method PublishChanges(applied: seq<Mutation>, at: nat)
      requires forall w | w in watchers ::
        w.Valid() && !w.closed && w.cursor < at && w.Stream() == After(changes, w.cursor)
      modifies this`changes, watchers
      ensures changes == old(changes) + ChangesOf(applied, at)
      ensures forall w | w in watchers ::
        w.Valid() && !w.closed && w.cursor < at && w.Stream() == After(changes, w.cursor)
    {
      var i := 0;
      while i < |applied|
        invariant 0 <= i <= |applied|
        invariant changes == old(changes) + ChangesOf(applied[..i], at)
        invariant forall w | w in watchers ::
          w.Valid() && !w.closed && w.cursor < at && w.Stream() == After(changes, w.cursor)
      {
        var change := ChangeOf(applied[i], at);
        assert ChangesOf(applied[..i + 1], at) == ChangesOf(applied[..i], at) + [change];
        ghost var before := changes;
        changes := changes + [change];
        PushToWatchers(change);
        forall w | w in watchers ensures w.Stream() == After(changes, w.cursor) {
          AfterExtends(before, [change], w.cursor);
        }
        i := i + 1;
      }
      assert applied[..i] == applied;
    }

    /** The writes of a mutating commit, up to its change notifications. */
    method Write(fencing: Option<Fencing>, staged: Staged, prepared: Prepared)
      requires Ascending(MutationLess, staged.mutations)
      requires prepared.applied == Applied(records, staged.mutations)
        && prepared.survivors == WithoutDeleted(records, staged.mutations)
      requires prepared.advances == AdvancesFence(fences, fencing)
      modifies this`records, this`operationHistory, this`operations, this`outbox, this`outboxSequence, this`fences
      ensures View() == Written(old(View()), fencing, staged, prepared.added).(changes := changes, revision := revision)
    {
      hide Applied, WithoutDeleted, Installed, Enqueued, Journaled, KeyLess, Ascending;
      var next := revision + 1;
      DeleteThenPut(records, staged.mutations, next);
      records := InstallPuts(prepared.survivors, prepared.applied, next);
      AppendOperations(staged.operations, next);
      EnqueueMessages(prepared.added);
      if prepared.advances {
        fences := fences[fencing.value.resource := fencing.value.epoch];
      }
    }

    method Notify(applied: seq<Mutation>)
      requires Watched()
      modifies this`revision, this`changes, watchers
      ensures Watched() && revision == old(revision) + 1
      ensures changes == old(changes) + ChangesOf(applied, revision)
    {
      PublishChanges(applied, revision + 1);
      revision := revision + 1;
    }

    method WriteIfAny(fencing: Option<Fencing>, staged: Staged, prepared: Prepared)
      requires Watched() && Ascending(MutationLess, staged.mutations)
      requires prepared.applied == Applied(records, staged.mutations)
        && prepared.survivors == WithoutDeleted(records, staged.mutations)
      requires prepared.advances == AdvancesFence(fences, fencing)
      modifies this`records, this`operationHistory, this`operations, this`outbox
      modifies this`outboxSequence, this`fences, this`revision, this`changes, watchers
      ensures Watched()
      ensures View() == if Writes(staged, prepared) then Written(old(View()), fencing, staged, prepared.added)
        else old(View())
    {
      if |prepared.applied| > 0 || |staged.operations| > 0 || |prepared.added| > 0 || prepared.advances {
        Write(fencing, staged, prepared);
        Notify(prepared.applied);
      }
    }

    method Remember(identity: Option<Identity>, result: Json)
      modifies this`idempotency
      ensures View() == Remembered(old(View()), identity, result)
    {
      if identity.Some? {
        idempotency := idempotency[identity.value.key := IdempotencyRecord(identity.value.fingerprint, result)];
      }
    }

    method CommitUnderLock(fencing: Option<Fencing>, identity: Option<Identity>, staged: Staged, result: Json)
      returns (r: Outcome<Json>)
      requires Watched() && WellStaged(staged)
      modifies this`records, this`operationHistory, this`operations, this`outbox, this`outboxSequence, this`fences,
          this`revision, this`changes,
        this`idempotency, watchers
      ensures Watched()
      ensures (View(), r) == Commit(old(View()), fencing, identity, staged, result)
    {
      hide Commit, Written, Remembered;
      var now := Store(lifecycle, records, operations, operationHistory, outbox, outboxSequence, fences, changes,
                       idempotency, revision);
      var check := PrepareCommit(now, fencing, staged);
      if check.Err? {
        CommitRefused(now, fencing, identity, staged, result);
        return Err(check.error);
      }
      CommitPrepared(now, fencing, identity, staged, result, check.value);
      WriteIfAny(fencing, staged, check.value);
      Remember(identity, result);
      r := Ok(result);
    }

    method CommitStaged(fencing: Option<Fencing>, identity: Option<Identity>, staged: Staged, result: Json)
      returns (r: Outcome<Json>)
      requires Valid() && WellStaged(staged)
      modifies this`records, this`operationHistory, this`operations, this`outbox, this`outboxSequence, this`fences,
          this`revision, this`changes,
        this`idempotency, watchers
      ensures Valid()
      ensures (View(), r) == Commit(old(View()), fencing, identity, staged, result)
    {
      CommitKeepsOk(View(), fencing, identity, staged, result);
      r := CommitUnderLock(fencing, identity, staged, result);
    }

    // ----- Outbox

    method ClaimMessages(request: ClaimRequest, now: int) returns (r: Outcome<seq<Claim>>)
      requires Valid()
      modifies this`outbox, this`revision, this`fences
      ensures Valid()
      ensures (View(), r) == ClaimOutbox(old(View()), request, now)
    {
      ClaimKeepsOk(View(), request, now);
      ClaimLeavesLogAlone(View(), request, now);
      r := ClaimUnderLock(request, now);
    }

    method ClaimUnderLock(request: ClaimRequest, now: int) returns (r: Outcome<seq<Claim>>)
      modifies this`outbox, this`revision, this`fences
      ensures (View(), r) == ClaimOutbox(old(View()), request, now)
    {
      if lifecycle != Open {
        return Err(Closed);
      }
      if !ValidClaimRequest(request) {
        return Err(QueryInvalid);
      }
      if FenceIsStale(fences, request.fencing) {
        return Err(FenceStale);
      }
      var next, claimed, exhausted := ComputeClaims(outbox, request, now);
      r := RecordClaims(request, now, next, claimed, exhausted, PlanClaims(outbox, request, now));
    }

    method RecordClaims(request: ClaimRequest, now: int, next: map<JsString, OutboxEntry>, claimed: seq<Claim>,
                        exhausted: bool,
                        ghost plan: ClaimPlan)
      returns (r: Outcome<seq<Claim>>)
      requires next == WithClaims(outbox, plan.chosen, request, now) && claimed == plan.claims
        && exhausted == plan.exhausted
      modifies this`outbox, this`revision, this`fences
      ensures (View(), r) == ConcludeClaims(old(View()), request, now, plan)
    {
      var advances := AdvancesFence(fences, request.fencing);
      outbox := next;
      if exhausted {
        return Err(DataInvalid);
      }
      if |claimed| > 0 || advances {
        revision := revision + 1;
        if request.fencing.Some? {
          fences := fences[request.fencing.value.resource := request.fencing.value.epoch];
        }
      }
      r := Ok(claimed);
    }

    method AcknowledgeMessage(request: AckRequest, now: int) returns (r: Outcome<Ack>)
      requires Valid()
      modifies this`outbox, this`revision, this`fences
      ensures Valid()
      ensures (View(), r) == AcknowledgeOutbox(old(View()), request, now)
    {
      AcknowledgeKeepsOk(View(), request, now);
      AcknowledgeLeavesLogAlone(View(), request, now);
      r := AcknowledgeUnderLock(request, now);
    }

    method AcknowledgeUnderLock(request: AckRequest, now: int) returns (r: Outcome<Ack>)
      modifies this`outbox, this`revision, this`fences
      ensures (View(), r) == AcknowledgeOutbox(old(View()), request, now)
    {
      if lifecycle != Open {
        return Err(Closed);
      }
      if !ValidAckRequest(request) {
        return Err(QueryInvalid);
      }
      if FenceIsStale(fences, request.fencing) {
        return Err(FenceStale);
      }
      var advances := AdvancesFence(fences, request.fencing);
      if request.messageId !in outbox {
        return Err(QueryInvalid);
      }
      var record := outbox[request.messageId];
      if record.acknowledgement.Some? && HoldsClaim(record.acknowledgedClaim, request.owner, request.claimEpoch) {
        if record.acknowledgement.value.outcome != request.outcome
          || record.acknowledgement.value.retryAt != request.retryAt
        {
          return Err(IdempotencyConflict);
        }
        if advances {
          revision := revision + 1;
          fences := fences[request.fencing.value.resource := request.fencing.value.epoch];
        }
        return Ok(record.acknowledgement.value.(duplicate := true));
      }
      if !HoldsClaim(record.claim, request.owner, request.claimEpoch) {
        return Err(FenceStale);
      }
      var acknowledgement := Ack(request.messageId, request.outcome, record.claim.value.attempt, now, false,
                                 request.retryAt);
      record := record.(acknowledgement := Some(acknowledgement), acknowledgedClaim := record.claim, claim := None);
      if request.outcome == AckRetry {
        record := record.(message := record.message.(availableAt := request.retryAt.value));
      }
      outbox := outbox[request.messageId := record];
      revision := revision + 1;
      if advances {
        fences := fences[request.fencing.value.resource := request.fencing.value.epoch];
      }
      r := Ok(acknowledgement);
    }

    // ----- Watching

    /** A watch beyond the current revision still receives every later change, so its
        effective cursor is the smaller of the two. */
    method Watch(cursor: nat) returns (r: Outcome<MemoryWatchIterator>)
      requires Valid()
      modifies this`watchers
      ensures Valid() && View() == old(View())
      ensures lifecycle != Open ==> r == Err(Closed) && watchers == old(watchers)
      ensures lifecycle == Open ==>
        && r.Ok? && fresh(r.value) && watchers == old(watchers) + {r.value}
        && r.value.cursor == (if cursor < revision then cursor else revision)
        && r.value.Stream() == After(changes, cursor)
    {
      if lifecycle != Open {
        return Err(Closed);
      }
      NothingAfter(changes, revision);
      if cursor > revision { NothingAfter(changes, cursor); }
      var w := new MemoryWatchIterator(After(changes, cursor), if cursor < revision then cursor else revision);
      watchers := watchers + {w};
      r := Ok(w);
    }

    /** Ending one watcher drops it from the store and leaves the others alone. */
    method Unwatch(w: MemoryWatchIterator)
      requires Valid() && w in watchers
      modifies this`watchers, w
      ensures Valid() && View() == old(View()) && w.closed && w.Valid()
      ensures watchers == old(watchers) - {w}
    {
      w.Close();
      watchers := watchers - {w};
    }

    method CloseWatchers()
      requires Watched()
      modifies this`watchers, watchers
      ensures watchers == {}
      ensures forall w | w in old(watchers) :: w.Valid() && w.closed
    {
      while watchers != {}
        invariant watchers <= old(watchers)
        invariant Watched()
        invariant forall w | w in old(watchers) && w !in watchers :: w.Valid() && w.closed
        decreases watchers
      {
        var watcher :| watcher in watchers;
        watcher.Close();
        watchers := watchers - {watcher};
      }
    }

    method CloseStore()
      requires Valid()
      modifies this`lifecycle, this`watchers, watchers
      ensures Valid()
      ensures View() == old(View()).(lifecycle := Shut)
      ensures old(lifecycle) != Shut ==> watchers == {} && forall w | w in old(watchers) :: w.Valid() && w.closed
      ensures old(lifecycle) == Shut ==> watchers == old(watchers)
    {
      if lifecycle == Shut {
        return;
      }
      lifecycle := Shut;
      CloseWatchers();
    }

    // ----- Reading

    method Read(key: StateKey) returns (r: Outcome<Option<Record>>)
      requires Valid()
      ensures r == if lifecycle != Open then Err(Closed)
                   else if !PortableKey(key) then Err(QueryInvalid)
                   else Ok(if key in records then Some(records[key]) else None)
    {
      if lifecycle != Open {
        return Err(Closed);
      }
      if !PortableKey(key) {
        return Err(QueryInvalid);
      }
      r := Ok(if key in records then Some(records[key]) else None);
    }

    method ScanRecords(q: Query) returns (r: Outcome<seq<Row>>)
      requires Valid()
      ensures r == if lifecycle != Open then Err(Closed) else if !ValidQuery(q) then Err(QueryInvalid)
        else Ok(ScanRows(records, q))
    {
      if lifecycle != Open {
        return Err(Closed);
      }
      if !ValidQuery(q) {
        return Err(QueryInvalid);
      }
      var rows := CollectRows(records, q);
      r := Ok(rows);
    }

    method ScanOperationJournal(q: JournalQuery, recoverableOnly: bool) returns (r: Outcome<seq<JournalEntry>>)
      requires Valid()
      ensures r == if lifecycle != Open then Err(Closed)
                   else if !ValidJournalQuery(q) then Err(QueryInvalid)
                   else Ok(Scanned(CurrentEntries(operationHistory), recoverableOnly, q))
    {
      if lifecycle != Open {
        return Err(Closed);
      }
      if !ValidJournalQuery(q) {
        return Err(QueryInvalid);
      }
      var entries := CollectOperations(View(), operations, recoverableOnly, q);
      r := Ok(entries);
    }

    method ScanOperationHistory(q: JournalQuery) returns (r: Outcome<seq<JournalEntry>>)
      requires Valid()
      ensures r == if lifecycle != Open then Err(Closed)
                   else if !ValidJournalQuery(q) then Err(QueryInvalid)
                   else Ok(Scanned(operationHistory, false, q))
    {
      if lifecycle != Open {
        return Err(Closed);
      }
      if !ValidJournalQuery(q) {
        return Err(QueryInvalid);
      }
      var entries := CollectHistory(operationHistory, q);
      r := Ok(entries);
    }
  }

  lemma {:induction false} NothingAfter(changes: seq<Change>, cursor: nat)
    requires forall i | 0 <= i < |changes| :: changes[i].revision <= cursor
    ensures After(changes, cursor) == []
  {
    if changes != [] { NothingAfter(changes[..|changes| - 1], cursor); }
  }
}
