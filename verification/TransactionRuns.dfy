/** Any interleaving of transact, claimOutbox and acknowledgeOutbox calls: each synchronous
    stretch is one step, transactions run on private snapshots, commits run one at a time. */
module TransactionRuns {
  import opened StateStrings
  import opened StoreModel
  import opened StoreInvariants
  import opened Transactions

  datatype Options = Options(fencing: Option<Fencing>, key: Option<JsString>, fingerprint: Option<JsString>)

  function ParseIdentity(o: Options): Outcome<Option<Identity>> {
    if o.key.None? && o.fingerprint.None? then Ok(None)
    else if o.key.Some? && o.key.value != [] && o.fingerprint.Some? && o.fingerprint.value != [] then
      Ok(Some(Identity(o.key.value, o.fingerprint.value)))
    else Err(IdempotencyConflict)
  }

  datatype CallResult = Value(result: Json) | Refused(error: StoreError) | Threw

  datatype Phase =
    | Running(snapshot: map<StateKey, Record>, steps: nat)
    | Queued(snapshot: map<StateKey, Record>, steps: nat)
    | Joined(runner: nat)
    | Done(result: CallResult)

  datatype Call = Call(fencing: Option<Fencing>, identity: Option<Identity>, program: Program, phase: Phase)
  datatype Flight = Flight(fingerprint: JsString, runner: nat)
  datatype Job = CommitJob(id: nat) | ClaimJob(claim: ClaimRequest) | AckJob(ack: AckRequest)

  /** What took effect, in commit order. */
  datatype Entry =
    | TxEntry(id: nat, fencing: Option<Fencing>, identity: Option<Identity>,
              program: Program, snapshot: map<StateKey, Record>, steps: nat, result: Json)
    | ClaimEntry(claim: ClaimRequest, now: int)
    | AckEntry(ack: AckRequest, now: int)
    | CloseEntry

  datatype System = System(
    store: Store,
    calls: map<nat, Call>,
    flights: map<JsString, Flight>,
    queue: seq<Job>,
    log: seq<Entry>)

  const Start: System := System(EmptyStore, map[], map[], [], [])

  datatype Step =
    | Begin(id: nat, options: Options, program: Program)
    | Advance(id: nat)
    | Conclude(id: nat)
    | RunJob(now: int)
    | Resume(id: nat)
    | Forget(key: JsString)
    | Ask(job: Job)
    | CloseStore

  predicate Active(c: Call) { c.phase.Running? || c.phase.Queued? }

  ghost function ProgressOf(c: Call): Progress
    requires Active(c)
  {
    Execute(c.phase.snapshot, c.program, c.phase.steps)
  }

  ghost function NextOp(c: Call): Op
    requires Active(c)
  {
    c.program(ProgressOf(c).seen)
  }

  ghost predicate Enabled(sys: System, step: Step) {
    match step
    case Begin(id, _, _) => id !in sys.calls
    case Advance(id) => id in sys.calls && sys.calls[id].phase.Running? && !Terminal(NextOp(sys.calls[id]))
    case Conclude(id) => id in sys.calls && sys.calls[id].phase.Running? && Terminal(NextOp(sys.calls[id]))
    case RunJob(_) =>
      sys.queue != []
        && (sys.queue[0].CommitJob? ==> sys.queue[0].id in sys.calls && sys.calls[sys.queue[0].id].phase.Queued?)
    case Resume(id) =>
      && id in sys.calls && sys.calls[id].phase.Joined?
      && sys.calls[id].phase.runner in sys.calls && sys.calls[sys.calls[id].phase.runner].phase.Done?
    case Forget(key) =>
      key in sys.flights && sys.flights[key].runner in sys.calls && sys.calls[sys.flights[key].runner].phase.Done?
    case Ask(job) => !job.CommitJob?
    case CloseStore => true
  }

  /** The synchronous part of transact: replay, join the call in flight, or begin. */
  function BeginPhase(s: Store, flights: map<JsString, Flight>, identity: Option<Identity>): Phase {
    if identity.None? then Running(s.records, 0)
    else
      var key, fingerprint := identity.value.key, identity.value.fingerprint;
      if key in s.idempotency then
        var memory := s.idempotency[key];
        Done(if memory.fingerprint == fingerprint then Value(memory.result) else Refused(IdempotencyConflict))
      else if key in flights then
        if flights[key].fingerprint == fingerprint then Joined(flights[key].runner)
        else Done(Refused(IdempotencyConflict))
      else Running(s.records, 0)
  }

  function BeginCall(sys: System, id: nat, o: Options, program: Program): System {
    var parsed := ParseIdentity(o);
    if sys.store.lifecycle != Open then
      sys.(calls := sys.calls[id := Call(o.fencing, None, program, Done(Refused(Closed)))])
    else if parsed.Err? then
      sys.(calls := sys.calls[id := Call(o.fencing, None, program, Done(Refused(parsed.error)))])
    else
      var phase := BeginPhase(sys.store, sys.flights, parsed.value);
      sys.(calls := sys.calls[id := Call(o.fencing, parsed.value, program, phase)],
           flights := if phase.Running? && parsed.value.Some? then
                        sys.flights[parsed.value.value.key := Flight(parsed.value.value.fingerprint, id)]
                      else sys.flights)
  }

  function WithPhase(sys: System, id: nat, phase: Phase): System
    requires id in sys.calls
  {
    sys.(calls := sys.calls[id := sys.calls[id].(phase := phase)])
  }

  ghost function ConcludeCall(sys: System, id: nat): System
    requires id in sys.calls && sys.calls[id].phase.Running?
  {
    var c := sys.calls[id];
    if NextOp(c).Throw? then WithPhase(sys, id, Done(Threw))
    else WithPhase(sys, id, Queued(c.phase.snapshot, c.phase.steps)).(queue := sys.queue + [CommitJob(id)])
  }

  ghost function StagedBy(c: Call): Staged
    requires Active(c)
  {
    Finish(ProgressOf(c).tx)
  }

  ghost function CommitCall(sys: System, id: nat): System
    requires sys.queue != [] && id in sys.calls && sys.calls[id].phase.Queued?
  {
    var c := sys.calls[id];
    var op := NextOp(c);
    if !op.Return? then sys.(queue := sys.queue[1..])
    else
      var (store, outcome) := Commit(sys.store, c.fencing, c.identity, StagedBy(c), op.result);
      var entry := TxEntry(id, c.fencing, c.identity, c.program, c.phase.snapshot, c.phase.steps, op.result);
      WithPhase(sys, id, Done(if outcome.Ok? then Value(op.result) else Refused(outcome.error)))
        .(store := store, queue := sys.queue[1..], log := if outcome.Ok? then sys.log + [entry] else sys.log)
  }

  ghost function RunHead(sys: System, now: int): System
    requires Enabled(sys, RunJob(now))
  {
    match sys.queue[0]
    case CommitJob(id) => CommitCall(sys, id)
    case ClaimJob(r) =>
      sys.(store := ClaimOutbox(sys.store, r, now).0, queue := sys.queue[1..], log := sys.log + [ClaimEntry(r, now)])
    case AckJob(r) =>
      sys.(store := AcknowledgeOutbox(sys.store, r, now).0, queue := sys.queue[1..],
           log := sys.log + [AckEntry(r, now)])
  }

  ghost function Apply(sys: System, step: Step): System
    requires Enabled(sys, step)
  {
    match step
    case Begin(id, options, program) => BeginCall(sys, id, options, program)
    case Advance(id) => WithPhase(sys, id, Running(sys.calls[id].phase.snapshot, sys.calls[id].phase.steps + 1))
    case Conclude(id) => ConcludeCall(sys, id)
    case RunJob(now) => RunHead(sys, now)
    case Resume(id) => WithPhase(sys, id, sys.calls[sys.calls[id].phase.runner].phase)
    case Forget(key) => sys.(flights := sys.flights - {key})
    case Ask(job) => sys.(queue := sys.queue + [job])
    case CloseStore => sys.(store := Close(sys.store), log := sys.log + [CloseEntry])
  }

  ghost predicate Run(states: seq<System>, steps: seq<Step>) {
    && |states| == |steps| + 1
    && states[0] == Start
    && forall i | 0 <= i < |steps| :: Enabled(states[i], steps[i]) && states[i + 1] == Apply(states[i], steps[i])
  }

  lemma RunStarts(states: seq<System>, steps: seq<Step>)
    requires Run(states, steps)
    ensures |states| > 0 && states[0] == Start
  {
  }

  lemma RunStep(states: seq<System>, steps: seq<Step>, k: nat)
    requires Run(states, steps) && k + 1 < |states|
    ensures |states| == |steps| + 1 && Enabled(states[k], steps[k]) && states[k + 1] == Apply(states[k], steps[k])
  {
  }

  // ----- Snapshots stay coherent: a key and a revision fix the record

  ghost predicate Coherent(snapshot: map<StateKey, Record>, s: Store) {
    forall key | key in snapshot ::
      && snapshot[key].revision <= s.revision
      && (key in s.records && s.records[key].revision == snapshot[key].revision ==> s.records[key] == snapshot[key])
  }

  lemma CommitKeepsCoherent(snapshot: map<StateKey, Record>, s: Store,
                            fencing: Option<Fencing>, identity: Option<Identity>, staged: Staged, result: Json)
    requires Coherent(snapshot, s)
    ensures Coherent(snapshot, Commit(s, fencing, identity, staged, result).0)
  {
    var plan := PlanOutbox(s.outbox, [], staged.outbox);
    if plan.Ok? {
      var w := Written(s, fencing, staged, plan.value);
      forall key | key in snapshot && key in w.records && w.records[key].revision == snapshot[key].revision
        ensures w.records[key] == snapshot[key]
      {
        assert MutationOn(staged.mutations, key).None?;
      }
      assert Coherent(snapshot, w);
    }
  }

  ghost predicate CallsOk(sys: System) {
    forall id | id in sys.calls && Active(sys.calls[id]) ::
      && Coherent(sys.calls[id].phase.snapshot, sys.store)
      && (sys.calls[id].phase.Queued? ==> NextOp(sys.calls[id]).Return?)
  }

  ghost predicate QueueOk(sys: System) {
    && (forall i | 0 <= i < |sys.queue| && sys.queue[i].CommitJob? ::
          sys.queue[i].id in sys.calls && sys.calls[sys.queue[i].id].phase.Queued?)
    && (forall i, j | 0 <= i < j < |sys.queue| && sys.queue[i].CommitJob? && sys.queue[j].CommitJob? ::
          sys.queue[i].id != sys.queue[j].id)
  }

  lemma ApplyKeepsStoreOk(sys: System, step: Step)
    requires StoreOk(sys.store) && Enabled(sys, step)
    ensures StoreOk(Apply(sys, step).store)
  {
    if step.RunJob? {
      match sys.queue[0]
      case CommitJob(id) =>
        var c := sys.calls[id];
        if NextOp(c).Return? { CommitKeepsOk(sys.store, c.fencing, c.identity, StagedBy(c), NextOp(c).result); }
      case ClaimJob(r) => ClaimKeepsOk(sys.store, r, step.now);
      case AckJob(r) => AcknowledgeKeepsOk(sys.store, r, step.now);
    }
  }

  /** What one step can do to a record or snapshot. */
  lemma ApplyKeepsCoherent(sys: System, step: Step, snapshot: map<StateKey, Record>)
    requires Coherent(snapshot, sys.store) && Enabled(sys, step)
    ensures Coherent(snapshot, Apply(sys, step).store)
  {
    if step.RunJob? {
      match sys.queue[0]
      case CommitJob(id) =>
        var c := sys.calls[id];
        if NextOp(c).Return? {
          CommitKeepsCoherent(snapshot, sys.store, c.fencing, c.identity, StagedBy(c), NextOp(c).result);
        }
      case ClaimJob(r) => ClaimLeavesLogAlone(sys.store, r, step.now);
      case AckJob(r) => AcknowledgeLeavesLogAlone(sys.store, r, step.now);
    }
  }

  lemma SnapshotStartsCoherent(s: Store)
    requires RecordsBounded(s)
    ensures Coherent(s.records, s)
  {
  }

  /** A call that runs after a step either ran before it on the same snapshot, or just began. */
  lemma ActiveCalls(sys: System, step: Step, id: nat)
    requires QueueOk(sys) && Enabled(sys, step) && id in Apply(sys, step).calls && Active(Apply(sys, step).calls[id])
    ensures id in sys.calls && Active(sys.calls[id]) ==>
      Apply(sys, step).calls[id].phase.snapshot == sys.calls[id].phase.snapshot
    ensures !(id in sys.calls && Active(sys.calls[id])) ==>
      Apply(sys, step).calls[id].phase == Running(sys.store.records, 0) && Apply(sys, step).store == sys.store
  {
    hide Execute, NextOp, Commit, ClaimOutbox, AcknowledgeOutbox, QueueOk;
  }

  lemma QueuedCalls(sys: System, step: Step, id: nat)
    requires QueueOk(sys) && Enabled(sys, step) && id in Apply(sys, step).calls && Active(Apply(sys, step).calls[id])
    ensures Apply(sys, step).calls[id].phase.Queued? && !(id in sys.calls && sys.calls[id].phase.Queued?) ==>
      && id in sys.calls && sys.calls[id].phase.Running? && NextOp(sys.calls[id]).Return?
      && NextOp(Apply(sys, step).calls[id]) == NextOp(sys.calls[id])
    ensures Apply(sys, step).calls[id].phase.Queued? && id in sys.calls && sys.calls[id].phase.Queued? ==>
      Apply(sys, step).calls[id] == sys.calls[id]
  {
    hide Execute, Commit, ClaimOutbox, AcknowledgeOutbox, QueueOk;
  }

  lemma ApplyKeepsCallsOk(sys: System, step: Step)
    requires RecordsBounded(sys.store) && CallsOk(sys) && QueueOk(sys) && Enabled(sys, step)
    ensures CallsOk(Apply(sys, step))
  {
    hide Coherent, RecordsBounded, Execute, Apply, Enabled, QueueOk;
    var next := Apply(sys, step);
    forall id | id in next.calls && Active(next.calls[id])
      ensures Coherent(next.calls[id].phase.snapshot, next.store)
      ensures next.calls[id].phase.Queued? ==> NextOp(next.calls[id]).Return?
    {
      ActiveCalls(sys, step, id);
      QueuedCalls(sys, step, id);
      if id in sys.calls && Active(sys.calls[id]) {
        ApplyKeepsCoherent(sys, step, sys.calls[id].phase.snapshot);
      } else {
        SnapshotStartsCoherent(sys.store);
      }
    }
  }

  /** Jobs stay queued when only calls that are not queued move, and what joins the queue is no commit. */
  lemma SameQueueOk(sys: System, next: System, more: seq<Job>)
    requires QueueOk(sys) && next.queue == sys.queue + more && forall j | j in more :: !j.CommitJob?
    requires forall id | id in sys.calls && sys.calls[id].phase.Queued? ::
      id in next.calls && next.calls[id].phase.Queued?
    ensures QueueOk(next)
  {
    forall i | |sys.queue| <= i < |next.queue| ensures !next.queue[i].CommitJob? {
      assert next.queue[i] == more[i - |sys.queue|];
    }
    assert forall i | 0 <= i < |sys.queue| :: next.queue[i] == sys.queue[i];
  }

  lemma ConcludeKeepsQueueOk(sys: System, id: nat)
    requires QueueOk(sys) && id in sys.calls && sys.calls[id].phase.Running?
    ensures QueueOk(ConcludeCall(sys, id))
  {
    hide NextOp;
  }

  lemma HeadKeepsQueueOk(sys: System, next: System)
    requires QueueOk(sys) && sys.queue != [] && next.queue == sys.queue[1..]
    requires forall id | id in sys.calls && !(sys.queue[0].CommitJob? && sys.queue[0].id == id) ::
      id in next.calls && next.calls[id] == sys.calls[id]
    ensures QueueOk(next)
  {
    forall i | 0 <= i < |next.queue| && next.queue[i].CommitJob?
      ensures next.queue[i].id in next.calls && next.calls[next.queue[i].id].phase.Queued?
    {
      assert next.queue[i] == sys.queue[i + 1];
    }
  }

  lemma ApplyKeepsQueueOk(sys: System, step: Step)
    requires QueueOk(sys) && CallsOk(sys) && Enabled(sys, step)
    ensures QueueOk(Apply(sys, step))
  {
    hide QueueOk, CallsOk, Execute, Commit, ClaimOutbox, AcknowledgeOutbox, BeginPhase, NextOp, StagedBy, ParseIdentity;
    var next := Apply(sys, step);
    match step
    case Conclude(id) => ConcludeKeepsQueueOk(sys, id);
    case RunJob(_) => HeadKeepsQueueOk(sys, next);
    case Ask(job) => SameQueueOk(sys, next, [job]);
    case _ => SameQueueOk(sys, next, []);
  }
}
