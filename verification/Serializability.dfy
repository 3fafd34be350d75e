/** The committed history equals running its transactions one after another in commit order. */
module Serializability {
  import opened StateStrings
  import opened StoreModel
  import opened StoreInvariants
  import opened Transactions
  import opened TransactionRuns

  /** One entry run alone: a transaction reads the records as they are when it commits. */
  ghost function Alone(s: Store, e: Entry): (Store, Outcome<Json>) {
    match e
    case TxEntry(_, fencing, identity, program, _, steps, _) =>
      var p := Execute(s.records, program, steps);
      var op := program(p.seen);
      if op.Return? then Commit(s, fencing, identity, Finish(p.tx), op.result) else (s, Err(QueryInvalid))
    case ClaimEntry(r, now) => (ClaimOutbox(s, r, now).0, Ok(Null))
    case AckEntry(r, now) => (AcknowledgeOutbox(s, r, now).0, Ok(Null))
    case CloseEntry => (Close(s), Ok(Null))
  }

  ghost function Serial(log: seq<Entry>): Store {
    if log == [] then EmptyStore else Alone(Serial(log[..|log| - 1]), log[|log| - 1]).0
  }

  /** Run alone, every transaction commits and returns what it returned in the interleaving. */
  ghost predicate SameResults(log: seq<Entry>) {
    forall i | 0 <= i < |log| && log[i].TxEntry? :: Alone(Serial(log[..i]), log[i]).1 == Ok(log[i].result)
  }

  ghost predicate CoveredEntry(e: Entry) {
    e.TxEntry? ==> Covered(e.snapshot, e.program, e.steps)
  }

  ghost predicate AllCovered(log: seq<Entry>) {
    forall i | 0 <= i < |log| :: CoveredEntry(log[i])
  }

  /** A successful commit read nothing that has changed since its snapshot. */
  lemma CommitConfirmsReads(s: Store, snapshot: map<StateKey, Record>, program: Program, n: nat)
    requires Coherent(snapshot, s) && Covered(snapshot, program, n)
    requires AllMatch(s.records, Finish(Execute(snapshot, program, n).tx).mutations)
    ensures AgreeOnReads(snapshot, s.records, program, n)
  {
    var tx := Execute(snapshot, program, n).tx;
    var staged := Finish(tx).mutations;
    forall i | 0 <= i < n && RequestAt(snapshot, program, i).GetOp? && PortableKey(RequestAt(snapshot, program, i).key)
      ensures AgreeOn(snapshot, s.records, RequestAt(snapshot, program, i).key)
    {
      var key := RequestAt(snapshot, program, i).key;
      var m := tx.mutations[key];
      assert m in staged;
      var j :| 0 <= j < |staged| && staged[j] == m;
      assert Matches(s.records, staged[j].key, staged[j].expected);
    }
  }

  lemma CommittedMatches(s: Store, fencing: Option<Fencing>, identity: Option<Identity>, staged: Staged, result: Json)
    requires Commit(s, fencing, identity, staged, result).1.Ok?
    ensures AllMatch(s.records, staged.mutations) && Commit(s, fencing, identity, staged, result).1 == Ok(result)
  {
  }

  lemma CommitAsIfAlone(s: Store, e: Entry)
    requires e.TxEntry? && CoveredEntry(e) && Coherent(e.snapshot, s)
    requires e.program(Execute(e.snapshot, e.program, e.steps).seen) == Return(e.result)
    requires Commit(s, e.fencing, e.identity, Finish(Execute(e.snapshot, e.program, e.steps).tx), e.result).1.Ok?
    ensures Alone(s, e) ==
      Commit(s, e.fencing, e.identity, Finish(Execute(e.snapshot, e.program, e.steps).tx), e.result)
    ensures Alone(s, e).1 == Ok(e.result)
  {
    hide Commit, Execute, Coherent, AgreeOnReads, Covered, SortedMutations;
    CommittedMatches(s, e.fencing, e.identity, Finish(Execute(e.snapshot, e.program, e.steps).tx), e.result);
    CommitConfirmsReads(s, e.snapshot, e.program, e.steps);
    SameReadsSameRun(e.snapshot, s.records, e.program, e.steps);
  }

  ghost predicate SerialOk(sys: System) {
    AllCovered(sys.log) ==> Serial(sys.log) == sys.store && SameResults(sys.log)
  }

  lemma SerialExtends(log: seq<Entry>, e: Entry, s: Store)
    requires Serial(log) == s && SameResults(log)
    requires e.TxEntry? ==> Alone(s, e).1 == Ok(e.result)
    ensures Serial(log + [e]) == Alone(s, e).0 && SameResults(log + [e])
  {
    var longer := log + [e];
    assert longer[..|longer| - 1] == log;
    forall i | 0 <= i < |longer| && longer[i].TxEntry?
      ensures Alone(Serial(longer[..i]), longer[i]).1 == Ok(longer[i].result)
    {
      assert longer[..i] == log[..i];
    }
  }

  lemma AllCoveredPrefix(log: seq<Entry>, e: Entry)
    requires AllCovered(log + [e])
    ensures AllCovered(log) && CoveredEntry(e)
  {
    forall i | 0 <= i < |log| ensures CoveredEntry(log[i]) { assert (log + [e])[i] == log[i]; }
    assert (log + [e])[|log|] == e;
  }

  lemma ExtendsSerialOk(sys: System, next: System, e: Entry)
    requires SerialOk(sys) && next.log == sys.log + [e]
    requires CoveredEntry(e) ==> Alone(sys.store, e).0 == next.store
    requires CoveredEntry(e) && e.TxEntry? ==> Alone(sys.store, e).1 == Ok(e.result)
    ensures SerialOk(next)
  {
    if AllCovered(next.log) {
      AllCoveredPrefix(sys.log, e);
      SerialExtends(sys.log, e, sys.store);
    }
  }

  lemma CommitKeepsSerialOk(sys: System, id: nat)
    requires CallsOk(sys) && SerialOk(sys) && sys.queue != []
    requires id in sys.calls && sys.calls[id].phase.Queued?
    ensures SerialOk(CommitCall(sys, id))
  {
    var c := sys.calls[id];
    var result := NextOp(c).result;
    var next := CommitCall(sys, id);
    var (store, outcome) := Commit(sys.store, c.fencing, c.identity, StagedBy(c), result);
    if outcome.Ok? {
      var e := TxEntry(id, c.fencing, c.identity, c.program, c.phase.snapshot, c.phase.steps, result);
      if CoveredEntry(e) { CommitAsIfAlone(sys.store, e); }
      ExtendsSerialOk(sys, next, e);
    } else {
      FailedCommitChangesNothing(sys.store, c.fencing, c.identity, StagedBy(c), result);
    }
  }

  lemma ApplyKeepsSerialOk(sys: System, step: Step)
    requires CallsOk(sys) && SerialOk(sys) && Enabled(sys, step)
    ensures SerialOk(Apply(sys, step))
  {
    hide Serial, SameResults, AllCovered, CallsOk, CoveredEntry, Execute;
    var next := Apply(sys, step);
    match step
    case RunJob(now) =>
      match sys.queue[0] {
        case CommitJob(id) => CommitKeepsSerialOk(sys, id);
        case ClaimJob(r) => ExtendsSerialOk(sys, next, ClaimEntry(r, now));
        case AckJob(r) => ExtendsSerialOk(sys, next, AckEntry(r, now));
      }
    case CloseStore => ExtendsSerialOk(sys, next, CloseEntry);
    case _ =>
  }

  lemma FailedCommitChangesNothing(s: Store, fencing: Option<Fencing>, identity: Option<Identity>, staged: Staged,
                                   result: Json)
    ensures Commit(s, fencing, identity, staged, result).1.Err? ==> Commit(s, fencing, identity, staged, result).0 == s
  {
  }

  ghost predicate SystemOk(sys: System) {
    StoreOk(sys.store) && CallsOk(sys) && QueueOk(sys) && SerialOk(sys)
  }

  lemma {:induction false} RunKeepsSystemOk(states: seq<System>, steps: seq<Step>, i: nat)
    requires Run(states, steps) && i < |states|
    ensures SystemOk(states[i])
  {
    if i == 0 {
      EmptyStoreOk();
    } else {
      RunKeepsSystemOk(states, steps, i - 1);
      ApplyKeepsStoreOk(states[i - 1], steps[i - 1]);
      ApplyKeepsCallsOk(states[i - 1], steps[i - 1]);
      ApplyKeepsQueueOk(states[i - 1], steps[i - 1]);
      ApplyKeepsSerialOk(states[i - 1], steps[i - 1]);
    }
  }

  /** For every interleaving: if the committed transactions stage what they read, the store
      and every returned result are those of running the committed log serially. */
  lemma Serializable(states: seq<System>, steps: seq<Step>, i: nat)
    requires Run(states, steps) && i < |states| && AllCovered(states[i].log)
    ensures states[i].store == Serial(states[i].log)
    ensures SameResults(states[i].log)
  {
    RunKeepsSystemOk(states, steps, i);
  }

  /** In every reachable store the change log replays to exactly the current records. */
  lemma ReachableLogRefinesState(states: seq<System>, steps: seq<Step>, i: nat)
    requires Run(states, steps) && i < |states|
    ensures Replay(map[], states[i].store.changes) == states[i].store.records
    ensures LogOrdered(states[i].store) && CurrentIsLast(states[i].store) && JournalOrdered(states[i].store)
  {
    RunKeepsSystemOk(states, steps, i);
  }

  /** Fences never fall, the log only grows, and what is appended to it later
      carries revisions above everything known earlier. */
  ghost predicate Grew(a: Store, b: Store) {
    && FencesGrow(a.fences, b.fences)
    && a.changes <= b.changes && a.revision <= b.revision
    && forall k | |a.changes| <= k < |b.changes| :: a.revision < b.changes[k].revision
  }

  lemma GrewReflexive(a: Store)
    ensures Grew(a, a)
  {
  }

  lemma GrewTransitive(a: Store, b: Store, c: Store)
    requires Grew(a, b) && Grew(b, c)
    ensures Grew(a, c)
  {
    forall k | |a.changes| <= k < |c.changes| ensures a.revision < c.changes[k].revision {
      if k < |b.changes| { assert c.changes[k] == b.changes[k]; }
    }
  }

  lemma ApplyGrows(sys: System, step: Step)
    requires LogOrdered(sys.store) && Enabled(sys, step)
    ensures Grew(sys.store, Apply(sys, step).store)
  {
    if step.RunJob? {
      match sys.queue[0]
      case CommitJob(id) =>
        var c := sys.calls[id];
        if NextOp(c).Return? {
          CommitFences(sys.store, c.fencing, c.identity, StagedBy(c), NextOp(c).result);
          CommitOwnsItsRevision(sys.store, c.fencing, c.identity, StagedBy(c), NextOp(c).result);
        }
      case ClaimJob(r) => ClaimFences(sys.store, r, step.now); ClaimLeavesLogAlone(sys.store, r, step.now);
      case AckJob(r) => AcknowledgeFences(sys.store, r, step.now); AcknowledgeLeavesLogAlone(sys.store, r, step.now);
    }
  }

  lemma {:induction false} RunGrows(states: seq<System>, steps: seq<Step>, i: nat, j: nat)
    requires Run(states, steps) && i <= j < |states|
    ensures Grew(states[i].store, states[j].store)
  {
    hide Run, Grew, Enabled, Apply, CallsOk, QueueOk, SerialOk, LogOrdered;
    if i == j {
      GrewReflexive(states[i].store);
    } else {
      RunStep(states, steps, j - 1);
      RunGrows(states, steps, i, j - 1);
      RunKeepsSystemOk(states, steps, j - 1);
      ApplyGrows(states[j - 1], steps[j - 1]);
      GrewTransitive(states[i].store, states[j - 1].store, states[j].store);
    }
  }

  // ----- Why the coverage condition is there

  /** Reads one key and, when it is missing, writes the other. */
  function Skewed(read: StateKey, write: StateKey): Program {
    (seen: seq<Observation>) =>
      if |seen| == 0 then GetOp(read)
      else if |seen| == 1 && seen[0].Missing? then PutOp(write, Null, Any)
      else Return(Null)
  }

  ghost function SkewedStage(records: map<StateKey, Record>, read: StateKey, write: StateKey): Staged {
    Finish(Execute(records, Skewed(read, write), 2).tx)
  }

  lemma SkewedRuns(records: map<StateKey, Record>, read: StateKey, write: StateKey)
    requires PortableKey(read) && PortableKey(write) && read !in records
    ensures var program, put := Skewed(read, write), Put(write, Null, Any);
      && Execute(records, program, 0) == Progress(Begun(records), [])
      && Execute(records, program, 1) == Progress(Begun(records), [Missing])
      && Execute(records, program, 2) == Progress(Begun(records).(mutations := map[write := put]), [Missing, Accepted])
  {
    hide Portable, TxOk;
    var program := Skewed(read, write);
    assert Execute(records, program, 0) == Progress(Begun(records), []);
    assert Execute(records, program, 1) == Progress(Begun(records), [Missing]);
  }

  lemma SkewedWrites(records: map<StateKey, Record>, read: StateKey, write: StateKey)
    requires PortableKey(read) && PortableKey(write) && read !in records
    ensures SkewedStage(records, read, write) == Staged([Put(write, Null, Any)], [], [])
    ensures !Covered(records, Skewed(read, write), 2) || read == write
  {
    hide PortableKey, Execute;
    SkewedRuns(records, read, write);
    OneMutation(map[write := Put(write, Null, Any)], write, Put(write, Null, Any));
    assert RequestAt(records, Skewed(read, write), 0) == GetOp(read);
  }

  lemma SkewedAbstains(records: map<StateKey, Record>, read: StateKey, write: StateKey)
    requires PortableKey(read) && read in records
    ensures SkewedStage(records, read, write) == Staged([], [], [])
  {
    var program := Skewed(read, write);
    assert Execute(records, program, 0) == Progress(Begun(records), []);
    assert Execute(records, program, 1).seen == [Found(records[read].value, records[read].revision)];
    assert Execute(records, program, 2).tx.mutations == map[];
  }

  lemma OneMutation(ms: map<StateKey, Mutation>, key: StateKey, m: Mutation)
    requires ms == map[key := m] && m.key == key
    ensures SortedMutations(ms) == [m]
  {
    assert |ms| == 1 by { assert ms.Keys == {key}; }
    assert m in SortedMutations(ms);
  }

  lemma PutCommits(s: Store, key: StateKey)
    requires s.lifecycle == Open
    ensures var (s', r) := Commit(s, None, None, Staged([Put(key, Null, Any)], [], []), Null);
      r.Ok? && s'.lifecycle == Open && s'.records == s.records[key := Record(Null, s.revision + 1)]
  {
    var ms := [Put(key, Null, Any)];
    assert Applied(s.records, ms) == ms;
    assert MutationOn(ms, key) == Some(ms[0]);
    assert KeysOf(ms) == {key};
  }

  lemma NothingCommits(s: Store)
    requires s.lifecycle == Open
    ensures Commit(s, None, None, Staged([], [], []), Null).0 == s
  {
  }

  /** Unstaged reads are not protected: each of two transactions reads the key the other writes.
      Both commit from the empty snapshot and leave both keys, which neither serial order does. */
  lemma WriteSkew(a: StateKey, b: StateKey)
    requires PortableKey(a) && PortableKey(b) && a != b
    ensures !Covered(map[], Skewed(a, b), 2) && !Covered(map[], Skewed(b, a), 2)
    ensures var (s1, r1) := Commit(EmptyStore, None, None, SkewedStage(map[], a, b), Null);
      var (s2, r2) := Commit(s1, None, None, SkewedStage(map[], b, a), Null);
      r1.Ok? && r2.Ok? && a in s2.records && b in s2.records
    ensures var s1 := Commit(EmptyStore, None, None, SkewedStage(map[], a, b), Null).0;
      a !in Commit(s1, None, None, SkewedStage(s1.records, b, a), Null).0.records
    ensures var s1 := Commit(EmptyStore, None, None, SkewedStage(map[], b, a), Null).0;
      b !in Commit(s1, None, None, SkewedStage(s1.records, a, b), Null).0.records
  {
    SkewedWrites(map[], a, b);
    SkewedWrites(map[], b, a);
    PutCommits(EmptyStore, a);
    PutCommits(EmptyStore, b);
    var sa := Commit(EmptyStore, None, None, SkewedStage(map[], b, a), Null).0;
    var sb := Commit(EmptyStore, None, None, SkewedStage(map[], a, b), Null).0;
    PutCommits(sb, a);
    SkewedAbstains(sb.records, b, a);
    SkewedAbstains(sa.records, a, b);
    NothingCommits(sa);
    NothingCommits(sb);
  }

  // ----- The same as a run of the system

  lemma ExtendRun(states: seq<System>, steps: seq<Step>, step: Step, next: System)
    requires Run(states, steps) && |states| > 0 && Enabled(states[|states| - 1], step)
      && next == Apply(states[|states| - 1], step)
    ensures Run(states + [next], steps + [step])
  {
    hide Enabled, Apply;
    var longer, more := states + [next], steps + [step];
    forall i | 0 <= i < |more| ensures Enabled(longer[i], more[i]) && longer[i + 1] == Apply(longer[i], more[i]) {
      if i < |steps| { assert longer[i] == states[i] && longer[i + 1] == states[i + 1] && more[i] == steps[i]; }
    }
  }

  /** The two calls, running or queued after n requests each. */
  function TwoCalls(a: StateKey, b: StateKey, first: Phase, second: Phase): map<nat, Call> {
    map[0 := Call(None, None, Skewed(a, b), first), 1 := Call(None, None, Skewed(b, a), second)]
  }

  ghost function SkewedEntry(id: nat, read: StateKey, write: StateKey): Entry {
    TxEntry(id, None, None, Skewed(read, write), map[], 2, Null)
  }

  lemma SkewedRequests(read: StateKey, write: StateKey, n: nat)
    requires PortableKey(read) && PortableKey(write) && n <= 2
    ensures var op := Skewed(read, write)(Execute(map[], Skewed(read, write), n).seen);
      && Terminal(op) == (n == 2) && (n == 2 ==> op == Return(Null))
  {
    hide PortableKey, Execute;
    SkewedRuns(map[], read, write);
  }

  lemma BothBegin(a: StateKey, b: StateKey) returns (states: seq<System>, steps: seq<Step>)
    ensures Run(states, steps) && |states| > 0
    ensures states[|states| - 1] == Start.(calls := TwoCalls(a, b, Running(map[], 0), Running(map[], 0)))
  {
    hide Run;
    var none := Options(None, None, None);
    RunAtStart();
    states, steps := [Start], [];
    var sys := Start.(calls := map[0 := Call(None, None, Skewed(a, b), Running(map[], 0))]);
    ExtendRun(states, steps, Begin(0, none, Skewed(a, b)), sys);
    states, steps := states + [sys], steps + [Begin(0, none, Skewed(a, b))];
    sys := Start.(calls := TwoCalls(a, b, Running(map[], 0), Running(map[], 0)));
    ExtendRun(states, steps, Begin(1, none, Skewed(b, a)), sys);
    states, steps := states + [sys], steps + [Begin(1, none, Skewed(b, a))];
  }

  /** One more request of each call. */
  lemma BothAdvance(a: StateKey, b: StateKey, n: nat, before: seq<System>, taken: seq<Step>)
    returns (states: seq<System>, steps: seq<Step>)
    requires PortableKey(a) && PortableKey(b) && n < 2 && Run(before, taken) && |before| > 0
    requires before[|before| - 1] == Start.(calls := TwoCalls(a, b, Running(map[], n), Running(map[], n)))
    ensures Run(states, steps) && |states| > 0
    ensures states[|states| - 1] == Start.(calls := TwoCalls(a, b, Running(map[], n + 1), Running(map[], n + 1)))
  {
    hide Run, Execute, PortableKey;
    SkewedRequests(a, b, n);
    SkewedRequests(b, a, n);
    var sys := Start.(calls := TwoCalls(a, b, Running(map[], n + 1), Running(map[], n)));
    ExtendRun(before, taken, Advance(0), sys);
    states, steps := before + [sys], taken + [Advance(0)];
    sys := Start.(calls := TwoCalls(a, b, Running(map[], n + 1), Running(map[], n + 1)));
    ExtendRun(states, steps, Advance(1), sys);
    states, steps := states + [sys], steps + [Advance(1)];
  }

  /** Both calls begin on the empty store and stage their writes before either commits. */
  lemma SkewedCallsQueue(a: StateKey, b: StateKey) returns (states: seq<System>, steps: seq<Step>)
    requires PortableKey(a) && PortableKey(b)
    ensures Run(states, steps) && |states| > 0
    ensures states[|states| - 1] ==
      System(EmptyStore, TwoCalls(a, b, Queued(map[], 2), Queued(map[], 2)), map[], [CommitJob(0), CommitJob(1)], [])
  {
    hide Run, Execute, PortableKey;
    states, steps := BothBegin(a, b);
    states, steps := BothAdvance(a, b, 0, states, steps);
    states, steps := BothAdvance(a, b, 1, states, steps);
    SkewedRequests(a, b, 2);
    SkewedRequests(b, a, 2);
    var sys := Start.(calls := TwoCalls(a, b, Queued(map[], 2), Running(map[], 2)), queue := [CommitJob(0)]);
    ExtendRun(states, steps, Conclude(0), sys);
    states, steps := states + [sys], steps + [Conclude(0)];
    sys := Start.(calls := TwoCalls(a, b, Queued(map[], 2), Queued(map[], 2)), queue := [CommitJob(0), CommitJob(1)]);
    ExtendRun(states, steps, Conclude(1), sys);
    states, steps := states + [sys], steps + [Conclude(1)];
  }

  lemma RunAtStart()
    ensures Run([Start], [])
  {
  }

  lemma SkewedCommits(s: Store, read: StateKey, write: StateKey)
    requires PortableKey(read) && PortableKey(write) && s.lifecycle == Open
    ensures var (s', r) := Commit(s, None, None, SkewedStage(map[], read, write), Null);
      r.Ok? && s'.lifecycle == Open && s'.records == s.records[write := Record(Null, s.revision + 1)]
  {
    hide Commit, PortableKey, SkewedStage;
    SkewedWrites(map[], read, write);
    PutCommits(s, write);
  }

  lemma QueuedCommits(sys: System, id: nat, staged: Staged)
    requires sys.queue != [] && sys.queue[0] == CommitJob(id) && id in sys.calls && sys.calls[id].phase.Queued?
    requires var c := sys.calls[id];
      NextOp(c).Return? && StagedBy(c) == staged
        && Commit(sys.store, c.fencing, c.identity, staged, NextOp(c).result).1.Ok?
    ensures Enabled(sys, RunJob(0))
    ensures var c, next := sys.calls[id], Apply(sys, RunJob(0));
      && next.store == Commit(sys.store, c.fencing, c.identity, staged, NextOp(c).result).0
      && next.queue == sys.queue[1..]
      && next.log == sys.log
        + [TxEntry(id, c.fencing, c.identity, c.program, c.phase.snapshot, c.phase.steps, NextOp(c).result)]
      && (forall other | other in sys.calls && other != id ::
          other in next.calls && next.calls[other] == sys.calls[other])
  {
    hide Commit, NextOp, StagedBy;
  }

  /** A queued call that reads nothing present commits its put. */
  lemma SkewedJob(sys: System, id: nat, read: StateKey, write: StateKey)
    requires PortableKey(read) && PortableKey(write) && sys.queue != [] && sys.queue[0] == CommitJob(id)
      && sys.store.lifecycle == Open
    requires id in sys.calls && sys.calls[id] == Call(None, None, Skewed(read, write), Queued(map[], 2))
    ensures Enabled(sys, RunJob(0))
    ensures var next := Apply(sys, RunJob(0));
      && next.log == sys.log + [SkewedEntry(id, read, write)] && next.queue == sys.queue[1..]
      && next.store.lifecycle == Open
      && next.store.records == sys.store.records[write := Record(Null, sys.store.revision + 1)]
      && (forall other | other in sys.calls && other != id ::
          other in next.calls && next.calls[other] == sys.calls[other])
  {
    hide Commit, Execute, PortableKey, Skewed, Finish, Enabled, Apply;
    var staged := SkewedStage(map[], read, write);
    assert StagedBy(sys.calls[id]) == staged;
    hide StagedBy, SkewedStage;
    SkewedRequests(read, write, 2);
    SkewedCommits(sys.store, read, write);
    QueuedCommits(sys, id, staged);
  }

  /** Alone on a store without its key, a call commits as it does on the empty one. */
  lemma SkewedAlone(id: nat, read: StateKey, write: StateKey)
    requires PortableKey(read) && PortableKey(write)
    ensures Alone(EmptyStore, SkewedEntry(id, read, write)).0 ==
      Commit(EmptyStore, None, None, SkewedStage(map[], read, write), Null).0
  {
    SkewedRequests(read, write, 2);
    hide Commit, Execute, PortableKey, Skewed, Finish;
  }

  lemma SkewedAbstainsAlone(s: Store, id: nat, read: StateKey, write: StateKey)
    requires PortableKey(read) && read in s.records && s.lifecycle == Open
    ensures Alone(s, SkewedEntry(id, read, write)).0 == s
  {
    SkewedAbstains(s.records, read, write);
    NothingCommits(s);
    hide Commit, PortableKey, Finish;
  }

  lemma SerialOfTwo(first: Entry, second: Entry)
    ensures Serial([first, second]) == Alone(Alone(EmptyStore, first).0, second).0
  {
    hide Alone;
    assert [first, second][..1] == [first] && [first][..0] == [];
    assert Serial([first]) == Alone(Serial([]), first).0;
  }

  /** Run alone after the other, the second of the two abstains. */
  lemma SkewedSerial(a: StateKey, b: StateKey, i: nat, j: nat)
    requires PortableKey(a) && PortableKey(b) && a != b
    ensures a !in Serial([SkewedEntry(i, a, b), SkewedEntry(j, b, a)]).records
  {
    hide Alone, Serial, SkewedEntry, SkewedStage, PortableKey, Commit;
    SkewedAlone(i, a, b);
    SkewedCommits(EmptyStore, a, b);
    SkewedAbstainsAlone(Alone(EmptyStore, SkewedEntry(i, a, b)).0, j, b, a);
    SerialOfTwo(SkewedEntry(i, a, b), SkewedEntry(j, b, a));
  }

  /** An interleaving of the two calls after which the store holds both keys, which no serial
      order of its log leaves. */
  lemma WriteSkewRun(a: StateKey, b: StateKey) returns (states: seq<System>, steps: seq<Step>)
    requires PortableKey(a) && PortableKey(b) && a != b
    ensures Run(states, steps) && |states| > 0
    ensures var end := states[|states| - 1];
      && end.log == [SkewedEntry(0, a, b), SkewedEntry(1, b, a)]
      && a in end.store.records && b in end.store.records
      && a !in Serial(end.log).records && b !in Serial([end.log[1], end.log[0]]).records
  {
    hide Run, Apply, Enabled, SkewedEntry, Serial, PortableKey;
    states, steps := SkewedCallsQueue(a, b);
    var sys := states[|states| - 1];
    SkewedJob(sys, 0, a, b);
    var next := Apply(sys, RunJob(0));
    ExtendRun(states, steps, RunJob(0), next);
    states, steps := states + [next], steps + [RunJob(0)];
    SkewedJob(next, 1, b, a);
    var end := Apply(next, RunJob(0));
    ExtendRun(states, steps, RunJob(0), end);
    states, steps := states + [end], steps + [RunJob(0)];
    SkewedSerial(a, b, 0, 1);
    SkewedSerial(b, a, 1, 0);
  }
}
