/** Counters kept by read-then-conditional-put: whatever else a transaction reads, if it
    writes the counter's key only as the successor of what its snapshot held, guarded by the
    revision it read, then over any interleaving the counter never forks and never falls. */
module Counters {
  import opened StateStrings
  import opened StoreModel
  import opened StoreInvariants
  import opened Transactions
  import opened TransactionRuns
  import opened Serializability

  /** How a record's value is read as a count. */
  type Reading = Json -> Option<nat>

  ghost function MutationsOf(e: Entry): seq<Mutation>
    requires e.TxEntry?
  {
    Finish(Execute(e.snapshot, e.program, e.steps).tx).mutations
  }

  ghost function CountIn(records: map<StateKey, Record>, key: StateKey, count: Reading): Option<nat> {
    if key in records then count(records[key].value) else Some(0)
  }

  /** The transaction puts the successor of what it read, expecting the revision it read. */
  ghost predicate Increments(e: Entry, key: StateKey, count: Reading) {
    && e.TxEntry?
    && var m := MutationOn(MutationsOf(e), key);
    && m.Some? && m.value.Put? && m.value.expected == ReadExpectation(e.snapshot, key)
    && CountIn(e.snapshot, key, count).Some?
    && count(m.value.value) == Some(CountIn(e.snapshot, key, count).value + 1)
  }

  ghost predicate LeavesAlone(e: Entry, key: StateKey) {
    e.TxEntry? ==> MutationOn(MutationsOf(e), key).None?
  }

  ghost predicate Disciplined(log: seq<Entry>, key: StateKey, count: Reading) {
    forall i | 0 <= i < |log| :: LeavesAlone(log[i], key) || Increments(log[i], key, count)
  }

  ghost function Increasing(log: seq<Entry>, key: StateKey, count: Reading): nat {
    if log == [] then 0
    else Increasing(log[..|log| - 1], key, count) + (if Increments(log[|log| - 1], key, count) then 1 else 0)
  }

  /** The count an incrementing entry wrote. */
  ghost function Wrote(e: Entry, key: StateKey, count: Reading): nat
    requires Increments(e, key, count)
  {
    count(MutationOn(MutationsOf(e), key).value.value).value
  }

  /** The counter equals the number of increments committed, and each of them wrote its own number. */
  ghost predicate CountsCommits(sys: System, key: StateKey, count: Reading) {
    && CountIn(sys.store.records, key, count) == Some(Increasing(sys.log, key, count))
    && (key in sys.store.records <==> Increasing(sys.log, key, count) > 0)
    && forall i | 0 <= i < |sys.log| && Increments(sys.log[i], key, count) ::
         Wrote(sys.log[i], key, count) == Increasing(sys.log[..i + 1], key, count)
  }

  /** A conditional put that commits was based on the current record. */
  lemma ConditionalPutSeesCurrent(s: Store, snapshot: map<StateKey, Record>, key: StateKey, mutations: seq<Mutation>)
    requires Coherent(snapshot, s) && AllMatch(s.records, mutations) && MutationOn(mutations, key).Some?
    requires MutationOn(mutations, key).value.expected == ReadExpectation(snapshot, key)
    ensures AgreeOn(snapshot, s.records, key)
  {
    var m := MutationOn(mutations, key).value;
    var i :| 0 <= i < |mutations| && mutations[i] == m;
    assert Matches(s.records, mutations[i].key, mutations[i].expected);
  }

  lemma {:induction false} AppliedKeepsPut(records: map<StateKey, Record>, mutations: seq<Mutation>, key: StateKey)
    requires MutationOn(mutations, key).Some? && MutationOn(mutations, key).value.Put?
    ensures Applied(records, mutations) != []
  {
    if mutations[0].key != key { AppliedKeepsPut(records, mutations[1..], key); }
  }

  /** A successful commit, seen at one key. */
  lemma CommitAtKey(s: Store, fencing: Option<Fencing>, identity: Option<Identity>, staged: Staged, result: Json,
                    key: StateKey)
    requires Commit(s, fencing, identity, staged, result).1.Ok?
    ensures var s' := Commit(s, fencing, identity, staged, result).0;
      && AllMatch(s.records, staged.mutations)
      && (MutationOn(staged.mutations, key).None? ==> AgreeOn(s.records, s'.records, key))
      && (MutationOn(staged.mutations, key).Some? && MutationOn(staged.mutations, key).value.Put? ==>
            key in s'.records
              && s'.records[key] == Record(MutationOn(staged.mutations, key).value.value, s.revision + 1))
  {
    hide Enqueued, Journaled, PlanOutbox, AllMatch;
    if MutationOn(staged.mutations, key).Some? && MutationOn(staged.mutations, key).value.Put? {
      AppliedKeepsPut(s.records, staged.mutations, key);
      assert key in KeysOf(staged.mutations);
    }
  }

  lemma CountExtends(sys: System, next: System, e: Entry, key: StateKey, count: Reading)
    requires CountsCommits(sys, key, count) && next.log == sys.log + [e]
    requires LeavesAlone(e, key) || Increments(e, key, count)
    requires LeavesAlone(e, key) ==> AgreeOn(sys.store.records, next.store.records, key)
    requires Increments(e, key, count) ==>
      && AgreeOn(e.snapshot, sys.store.records, key)
      && key in next.store.records && next.store.records[key].value == MutationOn(MutationsOf(e), key).value.value
    ensures CountsCommits(next, key, count)
  {
    hide MutationsOf;
    assert next.log[..|next.log| - 1] == sys.log;
    forall i | 0 <= i < |next.log| && Increments(next.log[i], key, count)
      ensures Wrote(next.log[i], key, count) == Increasing(next.log[..i + 1], key, count)
    {
      if i < |sys.log| {
        assert next.log[..i + 1] == sys.log[..i + 1];
      } else {
        assert next.log[..i + 1] == next.log;
      }
    }
  }

  lemma EntryKeepsCount(sys: System, next: System, e: Entry, key: StateKey, count: Reading)
    requires CountsCommits(sys, key, count) && next.log == sys.log + [e] && e.TxEntry?
      && Coherent(e.snapshot, sys.store)
    requires LeavesAlone(e, key) || Increments(e, key, count)
    requires var done := Commit(sys.store, e.fencing, e.identity, Finish(Execute(e.snapshot, e.program, e.steps).tx),
                                e.result);
      done.1.Ok? && next.store == done.0
    ensures CountsCommits(next, key, count)
  {
    hide CountsCommits, Commit, Coherent, Execute;
    CommitAtKey(sys.store, e.fencing, e.identity, Finish(Execute(e.snapshot, e.program, e.steps).tx), e.result, key);
    if Increments(e, key, count) {
      ConditionalPutSeesCurrent(sys.store, e.snapshot, key, MutationsOf(e));
    }
    CountExtends(sys, next, e, key, count);
  }

  lemma CommitKeepsCount(sys: System, id: nat, key: StateKey, count: Reading)
    requires sys.queue != [] && id in sys.calls && sys.calls[id].phase.Queued? && CallsOk(sys)
    requires CountsCommits(sys, key, count) && Disciplined(CommitCall(sys, id).log, key, count)
    ensures CountsCommits(CommitCall(sys, id), key, count)
  {
    hide CountsCommits, LeavesAlone, Increments, Execute, Coherent;
    var c, next := sys.calls[id], CommitCall(sys, id);
    var result := NextOp(c).result;
    FailedCommitChangesNothing(sys.store, c.fencing, c.identity, StagedBy(c), result);
    hide Commit;
    if Commit(sys.store, c.fencing, c.identity, StagedBy(c), result).1.Ok? {
      EntryKeepsCount(sys, next, next.log[|sys.log|], key, count);
    } else {
      SameCount(sys, next, key, count);
    }
  }

  lemma ApplyKeepsCount(sys: System, step: Step, key: StateKey, count: Reading)
    requires CallsOk(sys) && Enabled(sys, step)
    requires CountsCommits(sys, key, count) && Disciplined(Apply(sys, step).log, key, count)
    ensures CountsCommits(Apply(sys, step), key, count)
  {
    hide CountsCommits, Disciplined, Commit, ClaimOutbox, AcknowledgeOutbox, Execute;
    var next := Apply(sys, step);
    match step
    case RunJob(now) =>
      match sys.queue[0] {
        case CommitJob(id) => CommitKeepsCount(sys, id, key, count);
        case ClaimJob(r) =>
          ClaimLeavesLogAlone(sys.store, r, now);
          CountExtends(sys, next, ClaimEntry(r, now), key, count);
        case AckJob(r) =>
          AcknowledgeLeavesLogAlone(sys.store, r, now);
          CountExtends(sys, next, AckEntry(r, now), key, count);
      }
    case CloseStore => CountExtends(sys, next, CloseEntry, key, count);
    case _ => assert CountsCommits(next, key, count) by { SameCount(sys, next, key, count); }
  }

  lemma SameCount(sys: System, next: System, key: StateKey, count: Reading)
    requires CountsCommits(sys, key, count) && next.log == sys.log && next.store == sys.store
    ensures CountsCommits(next, key, count)
  {
  }

  lemma CountStarts(key: StateKey, count: Reading)
    ensures CountsCommits(Start, key, count)
  {
  }

  lemma LogGrows(sys: System, step: Step)
    requires Enabled(sys, step)
    ensures sys.log <= Apply(sys, step).log
  {
    hide Commit, ClaimOutbox, AcknowledgeOutbox, Execute, NextOp;
  }

  /** Over every interleaving the counter is the number of committed increments, written one by one. */
  lemma {:induction false} CounterNeverForks(states: seq<System>, steps: seq<Step>, i: nat, key: StateKey,
                                             count: Reading)
    requires Run(states, steps) && i < |states| && Disciplined(states[i].log, key, count)
    ensures CountsCommits(states[i], key, count)
  {
    hide Run, Enabled, Apply, CallsOk, StoreOk, QueueOk, SerialOk, CountsCommits, LeavesAlone, Increments;
    if i == 0 {
      RunStarts(states, steps);
      CountStarts(key, count);
    } else {
      RunStep(states, steps, i - 1);
      LogGrows(states[i - 1], steps[i - 1]);
      assert Disciplined(states[i - 1].log, key, count);
      CounterNeverForks(states, steps, i - 1, key, count);
      RunKeepsSystemOk(states, steps, i - 1);
      ApplyKeepsCount(states[i - 1], steps[i - 1], key, count);
    }
  }
}
