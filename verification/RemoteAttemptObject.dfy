/** The attempt object of an executor: its fields change in place as the store answers.
    Every method takes the abstract attempt through the transition it is named after. */
module RemoteAttemptObjects {
  import opened StateStrings
  import opened StoreModel
  import opened RemoteAttemptStores
  import opened RemoteAttempts

  class RemoteAttempt {
    const identity: AttemptIdentity
    const handle: nat
    var state: AttemptState
    var terminal: Option<ExecutionResult>
    var durable: bool
    var revision: nat
    var epoch: nat
    var cancellation: Option<Cancellation>
    var settled: Option<ExecutionResult>
    var persistenceFailed: bool
    var work: Work

    function View(): Attempt
      reads this
    {
      Attempt(handle, state, terminal, durable, revision, epoch, cancellation, settled, persistenceFailed, work)
    }

    constructor Recover(identity: AttemptIdentity, handle: nat, record: AttemptRecord)
      ensures View() == Recovered(handle, record) && this.identity == identity
    {
      this.identity, this.handle := identity, handle;
      state, terminal, durable, revision, epoch := record.state, record.result, record.result.Some?, record.revision,
          record.epoch;
      cancellation, settled, persistenceFailed, work := record.cancellation, record.result, false, Idle;
    }

    /** Builds the record from the object as it stands and hands it to the store, in one stretch. */
    method Write(store: MemoryRemoteAttemptStore)
      requires work.Writing? && store.Valid()
      modifies this`work, store
      ensures store.Valid()
      ensures var goal, key := old(work).goal, AttemptKey(identity.taskId, identity.attemptId);
        var reply := CommitCell(CellAt(old(store.records), key), RecordOf(identity, old(View()), goal),
                                Condition(Some(old(revision)), Some(old(epoch))));
        && View() == old(View()).(work := Sent(goal, reply))
        && store.records == if reply.Committed? then old(store.records)[key := reply.record] else old(store.records)
    {
      var goal := work.goal;
      var record := AttemptRecord(identity.workerId, identity.taskId, identity.attemptId, identity.fingerprint,
                                  goal.state, goal.epoch, revision, goal.result, cancellation);
      var reply := store.Commit(record, Condition(Some(revision), Some(epoch)));
      work := Sent(goal, reply);
    }

    /** The committed record arrives; a volatile failure or result in the meantime takes precedence. */
    method OnCommit(record: AttemptRecord)
      requires work.Sent? && work.goal.state != Expired
      modifies this
      ensures View() == OnCommitted(old(View()), old(work).goal, record)
    {
      var goal := work.goal;
      work := Idle;
      if persistenceFailed {
        return;
      }
      if !WellFormed(record) {
        work := Writing(goal);
        return;
      }
      if terminal.Some? && goal.state != Terminal {
        return;
      }
      revision := record.revision;
      state := goal.state;
      epoch := goal.epoch;
      if goal.result.Some? {
        terminal := goal.result;
        durable := true;
      }
    }

    /** A conflict's reload arrives; a tombstone ends the attempt without giving it a result. */
    method OnReload(latest: AttemptRecord)
      requires work.Loaded?
      modifies this
      ensures View() == OnLoaded(old(View()), old(work).goal, latest)
    {
      var goal := work.goal;
      if !WellFormed(latest) {
        work := Writing(goal);
        return;
      }
      work := Idle;
      if latest.revision <= revision {
        return;
      }
      revision := latest.revision;
      epoch := latest.epoch;
      state := if latest.state == Expired then Terminal else latest.state;
      cancellation := latest.cancellation;
      if latest.result.Some? {
        terminal := latest.result;
        durable := true;
        state := Terminal;
      }
    }

    method Settle()
      modifies this`settled
      ensures View() == Settled(old(View()))
    {
      if settled.Some? || terminal.None? {
        return;
      }
      settled := terminal;
    }

    method PublishVolatile(result: ExecutionResult, failed: bool)
      modifies this
      ensures View() == PublishedVolatile(old(View()), result, failed)
    {
      if failed {
        persistenceFailed := true;
      }
      if terminal.None? {
        terminal := Some(result);
        durable := false;
        state := Terminal;
      }
      Settle();
    }

    method SettleRevoked(result: ExecutionResult)
      modifies this
      ensures View() == if old(state) == Terminal then old(View()) else Revoked(old(View()), result)
    {
      if state == Terminal {
        return;
      }
      terminal := Some(result);
      durable := false;
      state := Terminal;
      Settle();
    }
  }
}
