/** The conditional attempt store shared by remote executors. */
module RemoteAttemptStores {
  import opened StateStrings
  import opened StoreModel
  import opened Decimals

  datatype AttemptState = Assigned | Acknowledged | Running | Unknown | Terminal | Expired
  datatype Cancellation = Cancelled | TimedOut
  datatype ExecutionResult = ExecutionResult(status: JsString, body: Json)

  datatype AttemptRecord = AttemptRecord(
    workerId: JsString, taskId: JsString, attemptId: JsString, fingerprint: JsString,
    state: AttemptState, epoch: nat, revision: nat,
    result: Option<ExecutionResult>, cancellation: Option<Cancellation>)

  datatype Condition = Condition(expectedRevision: Option<nat>, expectedEpoch: Option<nat>)

  datatype CommitReply = Committed(record: AttemptRecord) | Conflict | RevisionExhausted

  /** The store key of an attempt: the length of its first identifier, a colon, and both identifiers. */
  function AttemptKey(taskId: JsString, attemptId: JsString): JsString {
    DigitsOf(|taskId|) + [0x3a] + taskId + attemptId
  }

  lemma {:induction false} DigitsHaveNoColon(n: nat)
    ensures forall i | 0 <= i < |DigitsOf(n)| :: DigitsOf(n)[i] != 0x3a
  {
    if n >= 10 { DigitsHaveNoColon(n / 10); }
  }

  /** Two attempts share a key only when they are the same attempt. */
  lemma AttemptKeyInjective(task1: JsString, attempt1: JsString, task2: JsString, attempt2: JsString)
    requires AttemptKey(task1, attempt1) == AttemptKey(task2, attempt2)
    ensures task1 == task2 && attempt1 == attempt2
  {
    var key, d1, d2 := AttemptKey(task1, attempt1), DigitsOf(|task1|), DigitsOf(|task2|);
    DigitsHaveNoColon(|task1|);
    DigitsHaveNoColon(|task2|);
    assert key[|d1|] == 0x3a && key[|d2|] == 0x3a;
    assert forall i | 0 <= i < |d1| :: key[i] == d1[i];
    assert forall i | 0 <= i < |d2| :: key[i] == d2[i];
    assert |d1| == |d2|;
    assert d1 == key[..|d1|] == d2;
    PrintThenParse(|task1|);
    PrintThenParse(|task2|);
    var n := |d1| + 1;
    assert task1 == key[n..n + |task1|] == task2;
    assert attempt1 == key[n + |task1|..] == attempt2;
  }

  function KeyOf(r: AttemptRecord): JsString { AttemptKey(r.taskId, r.attemptId) }

  /** Whether a conditional write is refused, given what the key holds. */
  predicate Refused(cell: Option<AttemptRecord>, c: Condition) {
    || (c.expectedRevision.None? && cell.Some?)
    || (c.expectedRevision.Some? && (cell.None? || cell.value.revision != c.expectedRevision.value))
    || (c.expectedEpoch.Some? && cell.Some? && cell.value.epoch != c.expectedEpoch.value)
  }

  function RevisionOf(cell: Option<AttemptRecord>): nat { if cell.Some? then cell.value.revision else 0 }

  /** What a conditional write replies; when it commits, the reply is the key's new record. */
  function CommitCell(cell: Option<AttemptRecord>, record: AttemptRecord, c: Condition): CommitReply {
    if Refused(cell, c) then Conflict
    else if RevisionOf(cell) == MAXIMUM_UNSIGNED_64 then RevisionExhausted
    else Committed(record.(revision := RevisionOf(cell) + 1))
  }

  function CellAt(records: map<JsString, AttemptRecord>, key: JsString): Option<AttemptRecord> {
    if key in records then Some(records[key]) else None
  }

  function Active(records: map<JsString, AttemptRecord>): map<JsString, AttemptRecord> {
    map key | key in records && records[key].state != Expired :: records[key]
  }

  lemma ActiveStored(records: map<JsString, AttemptRecord>, key: JsString, snapshot: AttemptRecord)
    ensures Active(records[key := snapshot]) ==
      if snapshot.state == Expired then Active(records) - {key} else Active(records)[key := snapshot]
  {
  }

  class MemoryRemoteAttemptStore {
    var activeRecords: map<JsString, AttemptRecord>
    var highestEpochs: map<JsString, nat>
    var records: map<JsString, AttemptRecord>

    /** The highest epoch ever stored for a worker. */
    function Watermark(worker: JsString): nat
      reads this`highestEpochs
    {
      if worker in highestEpochs then highestEpochs[worker] else 0
    }

    /** The active index is the unexpired records, and no stored epoch is above its worker's watermark. */
    ghost predicate Valid()
      reads this
    {
      && activeRecords == Active(records)
      && (forall key | key in records ::
          KeyOf(records[key]) == key && records[key].epoch <= Watermark(records[key].workerId))
      && (forall key | key in records :: records[key].revision <= MAXIMUM_UNSIGNED_64)
    }

    constructor ()
      ensures Valid() && records == map[] && forall worker :: Watermark(worker) == 0
    {
      activeRecords, highestEpochs, records := map[], map[], map[];
    }

    method StoreSnapshot(snapshot: AttemptRecord)
      requires Valid() && snapshot.revision <= MAXIMUM_UNSIGNED_64
      modifies this
      ensures Valid() && records == old(records)[KeyOf(snapshot) := snapshot]
      ensures forall worker :: (
        Watermark(worker) ==
        if worker == snapshot.workerId && snapshot.epoch > old(Watermark(worker)) then snapshot.epoch
        else old(Watermark(worker)))
    {
      hide Active, AttemptKey;
      var key := KeyOf(snapshot);
      ActiveStored(records, key, snapshot);
      records := records[key := snapshot];
      if snapshot.state == Expired {
        activeRecords := activeRecords - {key};
      } else {
        activeRecords := activeRecords[key := snapshot];
      }
      var highestEpoch := if snapshot.workerId in highestEpochs then highestEpochs[snapshot.workerId] else 0;
      if snapshot.epoch > highestEpoch {
        highestEpochs := highestEpochs[snapshot.workerId := snapshot.epoch];
      }
    }

    method Commit(record: AttemptRecord, condition: Condition) returns (reply: CommitReply)
      requires Valid()
      modifies this
      ensures Valid()
      ensures reply == CommitCell(CellAt(old(records), KeyOf(record)), record, condition)
      ensures records == if reply.Committed? then old(records)[KeyOf(record) := reply.record] else old(records)
      ensures forall worker :: (
        Watermark(worker) ==
        if reply.Committed? && worker == record.workerId && record.epoch > old(Watermark(worker)) then record.epoch
        else old(Watermark(worker)))
    {
      var key := KeyOf(record);
      var current := if key in records then Some(records[key]) else None;
      if (condition.expectedRevision.None? && current.Some?)
         || (condition.expectedRevision.Some?
             && (current.None? || current.value.revision != condition.expectedRevision.value))
         || (condition.expectedEpoch.Some? && current.Some? && current.value.epoch != condition.expectedEpoch.value)
      {
        return Conflict;
      }
      var revision := if current.Some? then current.value.revision else 0;
      if revision == MAXIMUM_UNSIGNED_64 {
        return RevisionExhausted;
      }
      var snapshot := record.(revision := revision + 1);
      StoreSnapshot(snapshot);
      reply := Committed(snapshot);
    }

    method Save(record: AttemptRecord) returns (ok: bool)
      requires Valid()
      modifies this
      ensures Valid() && ok == (record.revision <= MAXIMUM_UNSIGNED_64)
      ensures records == if ok then old(records)[KeyOf(record) := record] else old(records)
    {
      ok := record.revision <= MAXIMUM_UNSIGNED_64;
      if ok {
        StoreSnapshot(record);
      }
    }

    method Load(taskId: JsString, attemptId: JsString) returns (record: Option<AttemptRecord>)
      requires Valid()
      ensures record == CellAt(records, AttemptKey(taskId, attemptId))
    {
      var key := AttemptKey(taskId, attemptId);
      record := if key in records then Some(records[key]) else None;
    }

    method Delete(taskId: JsString, attemptId: JsString)
      requires Valid()
      modifies this`records, this`activeRecords
      ensures Valid() && records == old(records) - {AttemptKey(taskId, attemptId)}
    {
      var key := AttemptKey(taskId, attemptId);
      records := records - {key};
      activeRecords := activeRecords - {key};
    }

    /** Up to `limit` distinct unexpired records of the worker, all of them when there are no
        more, with an epoch no record of the worker exceeds. */
    method Recover(worker: JsString, limit: int) returns (r: Option<(nat, map<JsString, AttemptRecord>)>)
      requires Valid()
      ensures r.None? <==> limit <= 0 || limit > MAX_SAFE_INTEGER
      ensures r.Some? ==>
        && r.value.0 == Watermark(worker)
        && |r.value.1| <= limit
        && (forall key | key in r.value.1 ::
              (key in records && r.value.1[key] == records[key] && records[key].workerId == worker
               && records[key].state != Expired))
        && (|r.value.1| < limit ==>
              forall key | key in records && records[key].workerId == worker && records[key].state != Expired ::
                key in r.value.1)
      ensures r.Some? ==>
        forall key | key in records && records[key].workerId == worker :: records[key].epoch <= r.value.0
    {
      if limit <= 0 || limit > MAX_SAFE_INTEGER {
        return None;
      }
      var found: map<JsString, AttemptRecord> := map[];
      var rest := activeRecords.Keys;
      while rest != {} && |found| < limit
        invariant rest <= activeRecords.Keys && |found| <= limit
        invariant forall key ::
          key in found <==> key in activeRecords && key !in rest && activeRecords[key].workerId == worker
        invariant forall key | key in found :: found[key] == activeRecords[key]
        decreases rest
      {
        var key :| key in rest;
        rest := rest - {key};
        if activeRecords[key].workerId == worker {
          found := found[key := activeRecords[key]];
        }
      }
      r := Some((if worker in highestEpochs then highestEpochs[worker] else 0, found));
    }
  }
}
