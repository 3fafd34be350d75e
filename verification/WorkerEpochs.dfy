/** Worker session epochs: the allocator's transaction, and what all its allocations add up to. */
module WorkerEpochs {
  import opened StateStrings
  import opened StoreModel
  import opened StoreInvariants
  import opened Transactions
  import opened TransactionRuns
  import opened Serializability
  import opened MemoryTransactions
  import opened Decimals
  import opened Counters

  function EpochKey(worker: JsString): StateKey {
    StateKey(Ascii("tego"), Ascii("worker-session-epochs"), worker)
  }

  lemma EpochKeyIsPortable(worker: JsString)
    requires IsPortableName(worker)
    ensures PortableKey(EpochKey(worker))
  {
    AsciiIsPortable(Ascii("tego"));
    AsciiIsPortable(Ascii("worker-session-epochs"));
    AsciiIsPortable(worker);
  }

  function EpochRecord(worker: JsString, epoch: nat): Json {
    Object(map[Ascii("workerId") := Text(worker), Ascii("epoch") := Text(DigitsOf(epoch))])
  }

  /** The epoch a stored record holds for its worker; none when the record is malformed. */
  function ReadEpoch(worker: JsString, value: Json): Option<nat> {
    if value.Object? && Ascii("workerId") in value.fields && value.fields[Ascii("workerId")] == Text(worker)
       && Ascii("epoch") in value.fields && value.fields[Ascii("epoch")].Text?
    then ParseDecimal(value.fields[Ascii("epoch")].s)
    else None
  }

  lemma RecordReadsBack(worker: JsString, epoch: nat)
    ensures ReadEpoch(worker, EpochRecord(worker, epoch)) == Some(epoch)
  {
    PrintThenParse(epoch);
    assert Ascii("workerId") != Ascii("epoch") by { assert |Ascii("workerId")| == 8 && |Ascii("epoch")| == 5; }
  }

  function Reader(worker: JsString): Reading { (value: Json) => ReadEpoch(worker, value) }

  /** The epoch to follow what was read; none when the record is malformed or epochs ran out. */
  function Following(worker: JsString, seen: Observation): Option<nat> {
    match seen
    case Missing => Some(1)
    case Found(value, _) =>
      var previous := ReadEpoch(worker, value);
      if previous.Some? && previous.value < MAXIMUM_UNSIGNED_64 then Some(previous.value + 1) else None
    case _ => None
  }

  function ExpectedFrom(seen: Observation): Expected {
    if seen.Found? then At(seen.revision) else Absent
  }

  /** The work of one allocation. */
  function NextEpoch(worker: JsString): Program {
    (seen: seq<Observation>) =>
      if |seen| == 0 then GetOp(EpochKey(worker))
      else
        var epoch := Following(worker, seen[0]);
        if epoch.None? then Throw
        else if |seen| == 1 then PutOp(EpochKey(worker), EpochRecord(worker, epoch.value), ExpectedFrom(seen[0]))
        else if seen[1].Accepted? then Return(Text(DigitsOf(epoch.value)))
        else Throw
  }

  /** The allocation as it acts on its transaction. */
  method Next(transaction: MemoryTransaction, worker: JsString) returns (epoch: Option<Json>)
    requires transaction.Valid() && transaction.active && transaction.View() == Begun(transaction.snapshot)
    requires IsPortableName(worker)
    modifies transaction`mutations
    ensures transaction.Valid()
    ensures transaction.View() == Execute(transaction.snapshot, NextEpoch(worker), 2).tx
    ensures RequestAt(transaction.snapshot, NextEpoch(worker), 2) == if epoch.Some? then Return(epoch.value) else Throw
  {
    hide EpochRecord, ReadEpoch, TxOk, PortableKey, Execute;
    EpochKeyIsPortable(worker);
    AllocationSteps(transaction.snapshot, worker, 2);
    var key := EpochKey(worker);
    var current := transaction.Get(key);
    var previous := 0;
    if current.Found? {
      var held := ReadEpoch(worker, current.value);
      if held.None? {
        return None;
      }
      previous := held.value;
    }
    if previous >= MAXIMUM_UNSIGNED_64 {
      return None;
    }
    var next := previous + 1;
    var accepted := transaction.Put(key, EpochRecord(worker, next), ExpectedFrom(current));
    epoch := Some(Text(DigitsOf(next)));
  }

  function Allocating(snapshot: map<StateKey, Record>, worker: JsString, first: Observation): Tx {
    var epoch := Following(worker, first);
    if epoch.None? then Begun(snapshot)
    else Begun(snapshot).(mutations := map[EpochKey(worker) := Put(EpochKey(worker), EpochRecord(worker, epoch.value),
                                                                   ExpectedFrom(first))])
  }

  /** An allocation's run: the read, the guarded put, and nothing after. */
  lemma {:induction false} AllocationSteps(snapshot: map<StateKey, Record>, worker: JsString, n: nat)
    requires IsPortableName(worker)
    ensures var first := GetFrom(Begun(snapshot), EpochKey(worker));
      && first == (if EpochKey(worker) in snapshot then
                   Found(snapshot[EpochKey(worker)].value, snapshot[EpochKey(worker)].revision) else Missing)
      && Execute(snapshot, NextEpoch(worker), n) ==
        if n == 0 then Progress(Begun(snapshot), [])
        else if n == 1 || Following(worker, first).None? then Progress(Begun(snapshot), [first])
        else Progress(Allocating(snapshot, worker, first), [first, Accepted])
  {
    hide PortableKey, EpochRecord, ReadEpoch, TxOk, EpochKey, IsPortableName, DigitsOf;
    EpochKeyIsPortable(worker);
    if n > 0 { AllocationSteps(snapshot, worker, n - 1); }
  }

  /** An allocation that returns has put the epoch after the one it read. */
  lemma AllocationReturns(snapshot: map<StateKey, Record>, worker: JsString, n: nat, result: Json)
    returns (first: Observation)
    requires IsPortableName(worker) && RequestAt(snapshot, NextEpoch(worker), n) == Return(result)
    ensures first == if EpochKey(worker) in snapshot then
      Found(snapshot[EpochKey(worker)].value, snapshot[EpochKey(worker)].revision) else Missing
    ensures Following(worker, first).Some? && result == Text(DigitsOf(Following(worker, first).value))
    ensures Execute(snapshot, NextEpoch(worker), n).tx == Allocating(snapshot, worker, first)
  {
    first := GetFrom(Begun(snapshot), EpochKey(worker));
    AllocationSteps(snapshot, worker, n);
    hide Execute, GetFrom, Following, Allocating, EpochRecord, EpochKey, DigitsOf, IsPortableName;
  }

  /** The record as the allocator writes it: the worker's identifier and the epoch in decimal. */
  predicate HoldsEpoch(value: Json, worker: JsString, epoch: nat) {
    && value.Object? && Ascii("workerId") in value.fields && value.fields[Ascii("workerId")] == Text(worker)
    && Ascii("epoch") in value.fields && value.fields[Ascii("epoch")] == Text(DigitsOf(epoch))
  }

  lemma ReadIsHeld(worker: JsString, value: Json)
    ensures forall k: nat :: HoldsEpoch(value, worker, k) <==> ReadEpoch(worker, value) == Some(k)
  {
    forall k: nat ensures HoldsEpoch(value, worker, k) <==> ReadEpoch(worker, value) == Some(k) {
      PrintThenParse(k);
      if ReadEpoch(worker, value) == Some(k) { ParseThenPrint(value.fields[Ascii("epoch")].s); }
    }
  }

  /** An allocation gives the first epoch where no record is held, and the next one where a record holds
      one, until 64 bits are used up; it fails on any other record. It puts what it gives, on the
      condition that the record is still the one it read. */
  lemma AllocationOutcome(snapshot: map<StateKey, Record>, worker: JsString, held: nat)
    requires IsPortableName(worker)
    ensures var key := StateKey(Ascii("tego"), Ascii("worker-session-epochs"), worker);
      var answer, staged :=
        RequestAt(snapshot, NextEpoch(worker), 2), Execute(snapshot, NextEpoch(worker), 2).tx.mutations;
      && (key !in snapshot ==>
            && answer == Return(Text(DigitsOf(1)))
            && staged == map[key := Put(key, EpochRecord(worker, 1), Absent)])
      && (key in snapshot && HoldsEpoch(snapshot[key].value, worker, held) && held < 0xffff_ffff_ffff_ffff ==>
            && answer == Return(Text(DigitsOf(held + 1)))
            && staged == map[key := Put(key, EpochRecord(worker, held + 1), At(snapshot[key].revision))])
      && (key in snapshot && HoldsEpoch(snapshot[key].value, worker, held) && held >= 0xffff_ffff_ffff_ffff ==>
            answer == Throw && staged == map[])
      && (key in snapshot && (forall k: nat :: !HoldsEpoch(snapshot[key].value, worker, k)) ==>
            answer == Throw && staged == map[])
    ensures forall epoch: nat :: HoldsEpoch(EpochRecord(worker, epoch), worker, epoch)
  {
    forall epoch: nat ensures HoldsEpoch(EpochRecord(worker, epoch), worker, epoch) {
      RecordReadsBack(worker, epoch);
      ReadIsHeld(worker, EpochRecord(worker, epoch));
    }
    hide EpochRecord, ReadEpoch, HoldsEpoch, IsPortableName, DigitsOf, Execute, RequestAt, NextEpoch;
    AllocationAnswers(snapshot, worker);
    if EpochKey(worker) in snapshot {
      var value := snapshot[EpochKey(worker)].value;
      ReadIsHeld(worker, value);
      if ReadEpoch(worker, value).Some? { assert HoldsEpoch(value, worker, ReadEpoch(worker, value).value); }
    }
  }

  /** What the work of an allocation asks for and has staged, after its second request. */
  lemma AllocationAnswers(snapshot: map<StateKey, Record>, worker: JsString)
    requires IsPortableName(worker)
    ensures var key := EpochKey(worker);
      var first := if key in snapshot then Found(snapshot[key].value, snapshot[key].revision) else Missing;
      var epoch := Following(worker, first);
      && RequestAt(snapshot, NextEpoch(worker), 2) ==
        (if epoch.None? then Throw else Return(Text(DigitsOf(epoch.value))))
      && Execute(snapshot, NextEpoch(worker), 2).tx.mutations ==
        if epoch.None? then map[]
        else map[key := Put(key, EpochRecord(worker, epoch.value), ExpectedFrom(first))]
  {
    hide EpochRecord, ReadEpoch, IsPortableName, DigitsOf, Execute, EpochKey, Following, GetFrom;
    AllocationSteps(snapshot, worker, 2);
  }

  /** A committed allocation counts one up from what it read and returns what it wrote. */
  lemma AllocationIncrements(e: Entry, worker: JsString)
    requires IsPortableName(worker) && e.TxEntry? && e.program == NextEpoch(worker)
    requires RequestAt(e.snapshot, e.program, e.steps) == Return(e.result)
    ensures Increments(e, EpochKey(worker), Reader(worker))
    ensures e.result == Text(DigitsOf(Wrote(e, EpochKey(worker), Reader(worker))))
    ensures Wrote(e, EpochKey(worker), Reader(worker)) <= MAXIMUM_UNSIGNED_64
  {
    hide EpochRecord, ReadEpoch, PortableKey, Execute, NextEpoch, EpochKey, RequestAt, IsPortableName, DigitsOf;
    var key := EpochKey(worker);
    var first := AllocationReturns(e.snapshot, worker, e.steps, e.result);
    var epoch := Following(worker, first).value;
    OneMutation(Execute(e.snapshot, e.program, e.steps).tx.mutations, key,
                Put(key, EpochRecord(worker, epoch), ExpectedFrom(first)));
    RecordReadsBack(worker, epoch);
  }

  /** What the allocator returned for a worker, in commit order. */
  ghost function Allocations(log: seq<Entry>, worker: JsString): seq<Json> {
    if log == [] then []
    else
      var last := log[|log| - 1];
      Allocations(log[..|log| - 1], worker) + if last.TxEntry? && last.program == NextEpoch(worker) then [last.result]
      else []
  }

  /** Only allocations write the worker's epoch record. */
  ghost predicate OnlyAllocated(log: seq<Entry>, worker: JsString) {
    forall i | 0 <= i < |log| && log[i].TxEntry? ::
      log[i].program == NextEpoch(worker) || LeavesAlone(log[i], EpochKey(worker))
  }

  ghost predicate LogReturns(log: seq<Entry>) {
    forall i | 0 <= i < |log| && log[i].TxEntry? ::
      RequestAt(log[i].snapshot, log[i].program, log[i].steps) == Return(log[i].result)
  }

  /** The allocations are as many as the counter's increments, and returned 1, 2, 3, ... */
  ghost predicate Consecutive(log: seq<Entry>, worker: JsString) {
    && |Allocations(log, worker)| == Increasing(log, EpochKey(worker), Reader(worker)) <= MAXIMUM_UNSIGNED_64
    && forall k | 0 <= k < |Allocations(log, worker)| :: Allocations(log, worker)[k] == Text(DigitsOf(k + 1))
  }

  lemma ConsecutiveExtends(front: seq<Entry>, e: Entry, worker: JsString)
    requires Consecutive(front, worker)
    requires (e.TxEntry? && e.program == NextEpoch(worker)) <==> Increments(e, EpochKey(worker), Reader(worker))
    requires Increments(e, EpochKey(worker), Reader(worker)) ==>
      && Wrote(e, EpochKey(worker), Reader(worker)) ==
        Increasing(front + [e], EpochKey(worker), Reader(worker)) <= MAXIMUM_UNSIGNED_64
      && e.result == Text(DigitsOf(Wrote(e, EpochKey(worker), Reader(worker))))
    ensures Consecutive(front + [e], worker)
  {
    hide Increments, Wrote, DigitsOf, NextEpoch, EpochKey, Reader;
    assert (front + [e])[..|front + [e]| - 1] == front;
  }

  lemma {:induction false} AllocationsAreWrites(log: seq<Entry>, j: nat, worker: JsString)
    requires IsPortableName(worker) && OnlyAllocated(log, worker) && LogReturns(log) && j <= |log|
    requires forall i | 0 <= i < |log| && Increments(log[i], EpochKey(worker), Reader(worker)) ::
      Wrote(log[i], EpochKey(worker), Reader(worker)) == Increasing(log[..i + 1], EpochKey(worker), Reader(worker))
    ensures Consecutive(log[..j], worker)
  {
    hide Increments, LeavesAlone, Wrote, NextEpoch, EpochKey, Reader, DigitsOf, Execute, IsPortableName;
    if j == 0 {
      assert log[..0] == [];
    } else {
      hide Consecutive, Increasing;
      AllocationsAreWrites(log, j - 1, worker);
      var e := log[j - 1];
      assert log[..j] == log[..j - 1] + [e] && log[..j - 1 + 1] == log[..j];
      if e.TxEntry? && e.program == NextEpoch(worker) {
        AllocationIncrements(e, worker);
      } else {
        if !e.TxEntry? { OthersLeaveAlone(e, EpochKey(worker)); }
        AloneIsNoIncrement(e, EpochKey(worker), Reader(worker));
      }
      ConsecutiveExtends(log[..j - 1], e, worker);
    }
  }

  /** Over any interleaving, the epochs allocated for a worker are 1, 2, 3, ... in commit order,
      never beyond 64 bits. */
  lemma EpochsAreConsecutive(states: seq<System>, steps: seq<Step>, i: nat, worker: JsString)
    requires Run(states, steps) && i < |states| && IsPortableName(worker) && OnlyAllocated(states[i].log, worker)
    ensures |Allocations(states[i].log, worker)| <= MAXIMUM_UNSIGNED_64
    ensures forall k | 0 <= k < |Allocations(states[i].log, worker)| ::
      Allocations(states[i].log, worker)[k] == Text(DigitsOf(k + 1))
  {
    hide Run, Increments, LeavesAlone, MutationsOf;
    var log := states[i].log;
    CommittedWorkReturned(states, steps, i);
    forall k | 0 <= k < |log|
      ensures LeavesAlone(log[k], EpochKey(worker)) || Increments(log[k], EpochKey(worker), Reader(worker))
    {
      if log[k].TxEntry? && log[k].program == NextEpoch(worker) {
        AllocationIncrements(log[k], worker);
      } else if !log[k].TxEntry? {
        OthersLeaveAlone(log[k], EpochKey(worker));
      }
    }
    CounterNeverForks(states, steps, i, EpochKey(worker), Reader(worker));
    AllocationsAreWrites(log, |log|, worker);
    assert log[..|log|] == log;
  }

  lemma AloneIsNoIncrement(e: Entry, key: StateKey, count: Reading)
    requires LeavesAlone(e, key)
    ensures !Increments(e, key, count)
  {
  }

  lemma OthersLeaveAlone(e: Entry, key: StateKey)
    requires !e.TxEntry?
    ensures LeavesAlone(e, key)
  {
  }

  lemma {:induction false} CommittedWorkReturned(states: seq<System>, steps: seq<Step>, i: nat)
    requires Run(states, steps) && i < |states|
    ensures LogReturns(states[i].log)
  {
    hide Run, Enabled, Apply, CallsOk, StoreOk, QueueOk, SerialOk, LogReturns;
    if i == 0 {
      RunStarts(states, steps);
      assert LogReturns(Start.log) by { NothingReturned(); }
    } else {
      RunStep(states, steps, i - 1);
      CommittedWorkReturned(states, steps, i - 1);
      RunKeepsSystemOk(states, steps, i - 1);
      ApplyKeepsLogReturns(states[i - 1], steps[i - 1]);
    }
  }

  lemma NothingReturned()
    ensures LogReturns([])
  {
  }

  lemma ApplyKeepsLogReturns(sys: System, step: Step)
    requires Enabled(sys, step) && LogReturns(sys.log) && CallsOk(sys)
    ensures LogReturns(Apply(sys, step).log)
  {
    hide Execute, Commit, ClaimOutbox, AcknowledgeOutbox, Coherent;
  }
}
