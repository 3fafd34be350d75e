/** One attempt shared by any number of remote executors over a conditional store: every
    store operation, reply, loss, reload, volatile failure and settlement is its own step. */
module RemoteAttempts {
  import opened StateStrings
  import opened StoreModel
  import opened RemoteAttemptStores

  /** What a transition tries to write. */
  datatype Goal = Goal(state: AttemptState, result: Option<ExecutionResult>, epoch: nat)

  /** Transitions of one attempt run one at a time; this is the one in progress. */
  datatype Work =
    | Idle
    | Creating(reply: CommitReply)
    | Writing(goal: Goal)
    | Sent(goal: Goal, reply: CommitReply)
    | Loading(goal: Goal)
    | Loaded(goal: Goal, record: AttemptRecord)

  /** An executor's object for the attempt; `durable` tells whether `terminal` came from the store. */
  datatype Attempt = Attempt(
    handle: nat, state: AttemptState, terminal: Option<ExecutionResult>, durable: bool,
    revision: nat, epoch: nat, cancellation: Option<Cancellation>,
    settled: Option<ExecutionResult>, persistenceFailed: bool, work: Work)

  datatype AttemptIdentity = AttemptIdentity(workerId: JsString, taskId: JsString, attemptId: JsString,
                                             fingerprint: JsString)

  /** `writes` is every record the store ever held for the key, oldest first. */
  datatype Machine = Machine(
    identity: AttemptIdentity, cell: Option<AttemptRecord>, writes: seq<AttemptRecord>,
    attempts: map<nat, Attempt>, recovering: map<nat, AttemptRecord>, handles: nat)

  datatype Step =
    | Create(x: nat, epoch: nat)
    | Created(x: nat)
    | Recover(x: nat)
    | Install(x: nat)
    | BeginTransition(x: nat, state: AttemptState, epoch: nat)
    | BeginCancel(x: nat)
    | BeginPublish(x: nat, result: ExecutionResult)
    | BeginPrune(x: nat)
    | Write(x: nat)
    | Reply(x: nat)
    | Load(x: nat)
    | Adopt(x: nat)
    | Retry(x: nat)
    | GiveUp(x: nat)
    | Deadline(x: nat)
    | Volatile(x: nat, result: ExecutionResult, failed: bool)
    | Revoke(x: nat, result: ExecutionResult)
    | Settle(x: nat)
    | Forget(x: nat)

  function Initial(identity: AttemptIdentity): Machine { Machine(identity, None, [], map[], map[], 0) }

  // ----- The attempt object

  function RecordOf(id: AttemptIdentity, a: Attempt, goal: Goal): AttemptRecord {
    AttemptRecord(id.workerId, id.taskId, id.attemptId, id.fingerprint, goal.state, goal.epoch, a.revision,
                  goal.result, a.cancellation)
  }

  /** What parsing a stored record demands of its result. */
  predicate WellFormed(r: AttemptRecord) {
    (r.state == Terminal ==> r.result.Some?) && (r.state != Terminal && r.state != Expired ==> r.result.None?)
  }

  function NewAttempt(handle: nat, epoch: nat, reply: CommitReply): Attempt {
    Attempt(handle, Assigned, None, false, 0, epoch, None, None, false, Creating(reply))
  }

  /** An attempt rebuilt from a recovered record; a recovered result settles it at once. */
  function Recovered(handle: nat, r: AttemptRecord): Attempt {
    Attempt(handle, r.state, r.result, r.result.Some?, r.revision, r.epoch, r.cancellation, r.result, false, Idle)
  }

  /** The commit's record came back. */
  function OnCommitted(a: Attempt, goal: Goal, r: AttemptRecord): Attempt {
    if a.persistenceFailed then a.(work := Idle)
    else if !WellFormed(r) then a.(work := Writing(goal))
    else if a.terminal.Some? && goal.state != Terminal then a.(work := Idle)
    else a.(revision := r.revision, state := goal.state, epoch := goal.epoch,
            terminal := if goal.result.Some? then goal.result else a.terminal,
            durable := goal.result.Some? || a.durable, work := Idle)
  }

  /** The record found after a conflict. */
  function OnLoaded(a: Attempt, goal: Goal, r: AttemptRecord): Attempt {
    if !WellFormed(r) then a.(work := Writing(goal))
    else if r.revision <= a.revision then a.(work := Idle)
    else a.(revision := r.revision, epoch := r.epoch, cancellation := r.cancellation,
            state := if r.state == Expired || r.result.Some? then Terminal else r.state,
            terminal := if r.result.Some? then r.result else a.terminal,
            durable := r.result.Some? || a.durable, work := Idle)
  }

  function Settled(a: Attempt): Attempt {
    if a.settled.Some? || a.terminal.None? then a else a.(settled := a.terminal)
  }

  function PublishedVolatile(a: Attempt, result: ExecutionResult, failed: bool): Attempt {
    var marked := a.(persistenceFailed := a.persistenceFailed || failed);
    Settled(if a.terminal.None? then marked.(terminal := Some(result), state := Terminal, durable := false) else marked)
  }

  function Revoked(a: Attempt, result: ExecutionResult): Attempt {
    Settled(a.(terminal := Some(result), state := Terminal, durable := false))
  }

  // ----- Steps

  predicate Live(m: Machine, x: nat) { x in m.attempts && !m.attempts[x].work.Creating? }

  predicate IdleAt(m: Machine, x: nat) { x in m.attempts && m.attempts[x].work.Idle? }

  predicate Enabled(m: Machine, step: Step) {
    match step
    case Create(x, _) => x !in m.attempts && x !in m.recovering
    case Created(x) => x in m.attempts && m.attempts[x].work.Creating?
    case Recover(x) => x !in m.attempts && m.cell.Some? && m.cell.value.state != Expired
    case Install(x) => x in m.recovering && x !in m.attempts && WellFormed(m.recovering[x])
    case BeginTransition(x, state, _) =>
      IdleAt(m, x) && m.attempts[x].state != Terminal && state != Terminal && state != Expired
    case BeginCancel(x) => IdleAt(m, x) && m.attempts[x].state != Terminal
    case BeginPublish(x, _) => IdleAt(m, x) && m.attempts[x].terminal.None?
    case BeginPrune(x) => IdleAt(m, x) && m.attempts[x].terminal.Some? && m.attempts[x].state == Terminal
    case Write(x) => x in m.attempts && m.attempts[x].work.Writing?
    case Reply(x) => x in m.attempts && m.attempts[x].work.Sent?
    case Load(x) => x in m.attempts && m.attempts[x].work.Loading? && m.cell.Some?
    case Adopt(x) => x in m.attempts && m.attempts[x].work.Loaded?
    case Retry(x) =>
      && x in m.attempts && (m.attempts[x].work.Sent? || m.attempts[x].work.Loading? || m.attempts[x].work.Loaded?)
      && m.attempts[x].work.goal.state != Expired
    case GiveUp(x) => Live(m, x)
    case Deadline(x) => Live(m, x) && m.attempts[x].state != Terminal
    case Volatile(x, _, _) => Live(m, x)
    case Revoke(x, _) => Live(m, x) && m.attempts[x].state != Terminal
    case Settle(x) => Live(m, x)
    case Forget(x) => true
  }

  function With(m: Machine, x: nat, a: Attempt): Machine { m.(attempts := m.attempts[x := a]) }

  function Committing(m: Machine, reply: CommitReply): Machine {
    if reply.Committed? then m.(cell := Some(reply.record), writes := m.writes + [reply.record]) else m
  }

  function Submitted(m: Machine, x: nat, epoch: nat): Machine {
    var blank := NewAttempt(m.handles, epoch, Conflict);
    var reply := CommitCell(m.cell, RecordOf(m.identity, blank, Goal(Assigned, None, epoch)), Condition(None, None));
    With(Committing(m, reply), x, NewAttempt(m.handles, epoch, reply)).(handles := m.handles + 1)
  }

  function Written(m: Machine, x: nat): Machine
    requires Enabled(m, Write(x))
  {
    var a := m.attempts[x];
    var reply := CommitCell(m.cell, RecordOf(m.identity, a, a.work.goal), Condition(Some(a.revision), Some(a.epoch)));
    With(Committing(m, reply), x, a.(work := Sent(a.work.goal, reply)))
  }

  /** A prune's reply either drops the attempt or leaves it as it was. */
  function Replied(m: Machine, x: nat): Machine
    requires Enabled(m, Reply(x))
  {
    var a := m.attempts[x];
    match a.work.reply
    case Committed(r) =>
      if a.work.goal.state == Expired then m.(attempts := m.attempts - {x})
      else With(m, x, OnCommitted(a, a.work.goal, r))
    case Conflict => With(m, x, a.(work := if a.work.goal.state == Expired then Idle else Loading(a.work.goal)))
    case RevisionExhausted => With(m, x, a.(work := Idle))
  }

  function Began(m: Machine, x: nat, goal: Goal): Machine
    requires x in m.attempts
  {
    With(m, x, m.attempts[x].(work := Writing(goal)))
  }

  function Apply(m: Machine, step: Step): Machine
    requires Enabled(m, step)
  {
    match step
    case Create(x, epoch) => Submitted(m, x, epoch)
    case Created(x) =>
      var a := m.attempts[x];
      if a.work.reply.Committed? then With(m, x, a.(revision := a.work.reply.record.revision, work := Idle))
      else m.(attempts := m.attempts - {x})
    case Recover(x) => m.(recovering := m.recovering[x := m.cell.value])
    case Install(x) =>
      With(m, x, Recovered(m.handles, m.recovering[x])).(recovering := m.recovering - {x}, handles := m.handles + 1)
    case BeginTransition(x, state, epoch) => Began(m, x, Goal(state, m.attempts[x].terminal, epoch))
    case BeginCancel(x) =>
      var a := m.attempts[x];
      Began(With(m, x, a.(cancellation := if a.cancellation.Some? then a.cancellation else Some(Cancelled))), x,
            Goal(a.state, a.terminal, a.epoch))
    case BeginPublish(x, result) => Began(m, x, Goal(Terminal, Some(result), m.attempts[x].epoch))
    case BeginPrune(x) => Began(m, x, Goal(Expired, None, m.attempts[x].epoch))
    case Write(x) => Written(m, x)
    case Reply(x) => Replied(m, x)
    case Load(x) => With(m, x, m.attempts[x].(work := Loaded(m.attempts[x].work.goal, m.cell.value)))
    case Adopt(x) => With(m, x, OnLoaded(m.attempts[x], m.attempts[x].work.goal, m.attempts[x].work.record))
    case Retry(x) => With(m, x, m.attempts[x].(work := Writing(m.attempts[x].work.goal)))
    case GiveUp(x) => With(m, x, m.attempts[x].(work := Idle))
    case Deadline(x) => With(m, x, m.attempts[x].(cancellation := Some(TimedOut)))
    case Volatile(x, result, failed) => With(m, x, PublishedVolatile(m.attempts[x], result, failed))
    case Revoke(x, result) => With(m, x, Revoked(m.attempts[x], result))
    case Settle(x) => With(m, x, Settled(m.attempts[x]))
    case Forget(x) => m.(attempts := m.attempts - {x}, recovering := m.recovering - {x})
  }

  ghost predicate Run(states: seq<Machine>, steps: seq<Step>) {
    && |states| == |steps| + 1
    && (exists identity :: states[0] == Initial(identity))
    && forall i | 0 <= i < |steps| :: Enabled(states[i], steps[i]) && states[i + 1] == Apply(states[i], steps[i])
  }

  // ----- Invariants

  /** A finished attempt's record is only ever replaced by its tombstone. */
  ghost predicate Final(writes: seq<AttemptRecord>) {
    forall i | 0 <= i < |writes| - 1 && writes[i].state == Terminal ::
      writes[i + 1].state == Expired && writes[i + 1].epoch == writes[i].epoch
  }

  ghost predicate Numbered(writes: seq<AttemptRecord>) {
    && |writes| <= MAXIMUM_UNSIGNED_64
    && (forall i | 0 <= i < |writes| :: writes[i].revision == i + 1)
    && (forall i | 0 <= i < |writes| && writes[i].state == Terminal :: writes[i].result.Some?)
    && (forall i | 0 <= i < |writes| && writes[i].state == Expired :: writes[i].result.None?)
  }

  ghost predicate Stored(writes: seq<AttemptRecord>, r: AttemptRecord) {
    0 < r.revision <= |writes| && writes[r.revision - 1] == r
  }

  ghost predicate GoalOk(a: Attempt, goal: Goal) {
    && (goal.state == Terminal ==> goal.result.Some?)
    && (goal.state == Expired ==> goal.result.None? && goal.epoch == a.epoch && a.terminal.Some?)
  }

  ghost predicate WorkOk(writes: seq<AttemptRecord>, a: Attempt) {
    match a.work
    case Idle => true
    case Creating(reply) =>
      && a.terminal.None? && a.settled.None? && !a.durable
      && (reply.Committed? ==>
          Stored(writes, reply.record) && reply.record.state == Assigned && reply.record.epoch == a.epoch)
    case Writing(goal) => GoalOk(a, goal)
    case Sent(goal, reply) =>
      GoalOk(a, goal) && (reply.Committed? ==>
        Stored(writes, reply.record) && reply.record.state == goal.state && reply.record.epoch == goal.epoch
          && reply.record.result == goal.result)
    case Loading(goal) => GoalOk(a, goal) && goal.state != Expired
    case Loaded(goal, r) => GoalOk(a, goal) && goal.state != Expired && Stored(writes, r)
  }

  predicate Towards(a: Attempt, state: AttemptState) {
    !a.work.Idle? && !a.work.Creating? && a.work.goal.state == state
  }

  /** The record whose revision the attempt holds. */
  ghost predicate BaseOk(writes: seq<AttemptRecord>, a: Attempt) {
    && 0 < a.revision <= |writes|
    && var base := writes[a.revision - 1];
    && base.epoch == a.epoch
    && (base.state == Terminal ==> a.state == Terminal && a.terminal.Some? && (a.work.Idle? || Towards(a, Expired)))
    && (base.state == Expired ==> a.state == Terminal && (a.work.Idle? || Towards(a, Expired) || Towards(a, Terminal)))
  }

  /** A durable result was written as terminal. */
  ghost predicate WasWritten(writes: seq<AttemptRecord>, result: Option<ExecutionResult>) {
    exists i :: 0 <= i < |writes| && writes[i].state == Terminal && writes[i].result == result
  }

  ghost predicate AttemptOk(writes: seq<AttemptRecord>, a: Attempt) {
    && WorkOk(writes, a)
    && (!a.work.Creating? ==> BaseOk(writes, a))
    && a.state != Expired
    && (a.durable ==> a.terminal.Some? && WasWritten(writes, a.terminal))
  }

  ghost predicate HandlesOk(m: Machine) {
    && (forall x | x in m.attempts :: m.attempts[x].handle < m.handles)
    && (forall x, y | x in m.attempts && y in m.attempts && x != y :: m.attempts[x].handle != m.attempts[y].handle)
  }

  ghost predicate MachineOk(m: Machine) {
    && Numbered(m.writes) && Final(m.writes)
    && m.cell == (if m.writes == [] then None else Some(m.writes[|m.writes| - 1]))
    && (forall x | x in m.attempts :: AttemptOk(m.writes, m.attempts[x]))
    && HandlesOk(m)
    && (forall x | x in m.recovering :: Stored(m.writes, m.recovering[x]) && m.recovering[x].state != Expired)
  }

  /** Writing one more record keeps what is known of an attempt. */
  lemma WriteKeepsAttemptOk(writes: seq<AttemptRecord>, r: AttemptRecord, a: Attempt)
    requires AttemptOk(writes, a)
    ensures AttemptOk(writes + [r], a)
  {
    var longer := writes + [r];
    assert forall i | 0 <= i < |writes| :: longer[i] == writes[i];
    if a.durable {
      var i :| 0 <= i < |writes| && writes[i].state == Terminal && writes[i].result == a.terminal;
      assert longer[i].result == a.terminal;
    }
  }

  lemma OnCommittedKeepsOk(writes: seq<AttemptRecord>, a: Attempt)
    requires AttemptOk(writes, a) && Numbered(writes) && a.work.Sent? && a.work.reply.Committed?
      && a.work.goal.state != Expired
    ensures AttemptOk(writes, OnCommitted(a, a.work.goal, a.work.reply.record))
  {
    var r := a.work.reply.record;
    if r.result.Some? && WellFormed(r) { assert writes[r.revision - 1].result == r.result; }
  }

  lemma OnLoadedKeepsOk(writes: seq<AttemptRecord>, a: Attempt)
    requires AttemptOk(writes, a) && Numbered(writes) && a.work.Loaded?
    ensures AttemptOk(writes, OnLoaded(a, a.work.goal, a.work.record))
  {
    var r := a.work.record;
    if r.result.Some? && WellFormed(r) { assert writes[r.revision - 1].result == r.result; }
  }

  /** The store's decision on a write, given a coherent history. */
  lemma CommittingKeepsHistory(m: Machine, record: AttemptRecord, c: Condition, reply: CommitReply)
    requires Numbered(m.writes) && Final(m.writes)
      && m.cell == (if m.writes == [] then None else Some(m.writes[|m.writes| - 1]))
    requires reply == CommitCell(m.cell, record, c)
    requires record.state == Terminal ==> record.result.Some?
    requires record.state == Expired ==> record.result.None?
    requires reply.Committed? && m.cell.Some? && m.cell.value.state == Terminal ==>
      record.state == Expired && record.epoch == m.cell.value.epoch
    ensures var next := Committing(m, reply);
      && Numbered(next.writes) && Final(next.writes)
      && next.cell == (if next.writes == [] then None else Some(next.writes[|next.writes| - 1]))
      && (reply.Committed? ==> Stored(next.writes, reply.record) && next.writes == m.writes + [reply.record])
  {
    assert RevisionOf(m.cell) == |m.writes|;
  }

  /** Replacing one attempt and possibly appending one record. */
  lemma StepKeepsMachineOk(m: Machine, next: Machine, x: nat)
    requires MachineOk(m)
    requires Numbered(next.writes) && Final(next.writes)
    requires next.cell == (if next.writes == [] then None else Some(next.writes[|next.writes| - 1]))
    requires next.writes == m.writes || exists r :: next.writes == m.writes + [r]
    requires forall y | y in next.attempts && y != x :: y in m.attempts && next.attempts[y] == m.attempts[y]
    requires forall y | y in next.recovering :: y in m.recovering && next.recovering[y] == m.recovering[y]
    requires m.handles <= next.handles
    requires x in next.attempts ==> AttemptOk(next.writes, next.attempts[x]) && next.attempts[x].handle < next.handles
    requires x in next.attempts ==>
      (if x in m.attempts then next.attempts[x].handle == m.attempts[x].handle
       else next.attempts[x].handle >= m.handles)
    ensures MachineOk(next)
  {
    hide Numbered, Final, AttemptOk;
    forall y | y in next.attempts ensures AttemptOk(next.writes, next.attempts[y]) {
      if y != x && next.writes != m.writes {
        var r :| next.writes == m.writes + [r];
        WriteKeepsAttemptOk(m.writes, r, m.attempts[y]);
      }
    }
  }

  lemma CreateKeepsOk(m: Machine, x: nat, epoch: nat)
    requires MachineOk(m) && Enabled(m, Create(x, epoch))
    ensures MachineOk(Submitted(m, x, epoch))
  {
    hide Final, AttemptOk;
    var next := Submitted(m, x, epoch);
    var blank := NewAttempt(m.handles, epoch, Conflict);
    var record := RecordOf(m.identity, blank, Goal(Assigned, None, epoch));
    var reply := CommitCell(m.cell, record, Condition(None, None));
    CommittingKeepsHistory(m, record, Condition(None, None), reply);
    assert AttemptOk(next.writes, next.attempts[x]) by { NewAttemptOk(next.writes, m.handles, epoch, reply); }
    StepKeepsMachineOk(m, next, x);
  }

  lemma NewAttemptOk(writes: seq<AttemptRecord>, handle: nat, epoch: nat, reply: CommitReply)
    requires reply.Committed? ==>
      Stored(writes, reply.record) && reply.record.state == Assigned && reply.record.epoch == epoch
    ensures AttemptOk(writes, NewAttempt(handle, epoch, reply))
  {
  }

  /** A write that commits was made by an attempt holding the newest record. */
  lemma WriterHoldsNewest(m: Machine, x: nat)
    requires MachineOk(m) && Enabled(m, Write(x))
    requires CommitCell(m.cell, RecordOf(m.identity, m.attempts[x], m.attempts[x].work.goal),
                        Condition(Some(m.attempts[x].revision), Some(m.attempts[x].epoch))).Committed?
    ensures m.writes != [] && m.attempts[x].revision == |m.writes| && m.cell == Some(m.writes[|m.writes| - 1])
    ensures m.cell.value.state == Terminal ==>
      m.attempts[x].work.goal.state == Expired && m.attempts[x].work.goal.epoch == m.cell.value.epoch
  {
    hide Final;
    assert AttemptOk(m.writes, m.attempts[x]);
  }

  lemma SentKeepsOk(writes: seq<AttemptRecord>, a: Attempt, reply: CommitReply)
    requires AttemptOk(writes, a) && a.work.Writing?
    requires reply.Committed? ==>
      && Stored(writes, reply.record) && reply.record.state == a.work.goal.state
      && reply.record.epoch == a.work.goal.epoch && reply.record.result == a.work.goal.result
    ensures AttemptOk(writes, a.(work := Sent(a.work.goal, reply)))
  {
  }

  lemma WriteKeepsOk(m: Machine, x: nat)
    requires MachineOk(m) && Enabled(m, Write(x))
    ensures MachineOk(Written(m, x))
  {
    hide Final, Numbered, BaseOk, Stored;
    var a, next := m.attempts[x], Written(m, x);
    assert AttemptOk(m.writes, a);
    var record, c := RecordOf(m.identity, a, a.work.goal), Condition(Some(a.revision), Some(a.epoch));
    var reply := CommitCell(m.cell, record, c);
    if reply.Committed? { WriterHoldsNewest(m, x); }
    CommittingKeepsHistory(m, record, c, reply);
    if reply.Committed? { WriteKeepsAttemptOk(m.writes, reply.record, a); }
    SentKeepsOk(next.writes, a, reply);
    StepKeepsMachineOk(m, next, x);
  }

  lemma RefusalKeepsOk(writes: seq<AttemptRecord>, a: Attempt)
    requires AttemptOk(writes, a) && a.work.Sent?
    ensures AttemptOk(writes, a.(work := Idle))
    ensures a.work.goal.state != Expired ==> AttemptOk(writes, a.(work := Loading(a.work.goal)))
  {
  }

  lemma ReplyKeepsOk(m: Machine, x: nat)
    requires MachineOk(m) && Enabled(m, Reply(x))
    ensures MachineOk(Replied(m, x))
  {
    hide WellFormed, Final, Numbered, AttemptOk;
    var a := m.attempts[x];
    RefusalKeepsOk(m.writes, a);
    if a.work.reply.Committed? && a.work.goal.state != Expired { OnCommittedKeepsOk(m.writes, a); }
    StepKeepsMachineOk(m, Replied(m, x), x);
  }

  lemma CellIsStored(m: Machine)
    requires MachineOk(m) && m.cell.Some?
    ensures Stored(m.writes, m.cell.value)
  {
    hide AttemptOk, Final;
  }

  lemma RecoveredOk(writes: seq<AttemptRecord>, handle: nat, r: AttemptRecord)
    requires Stored(writes, r) && r.state != Expired && WellFormed(r)
    ensures AttemptOk(writes, Recovered(handle, r))
  {
    if r.result.Some? { assert writes[r.revision - 1].result == r.result; }
  }

  /** Steps that touch only the executor's own attempt. */
  lemma LocalKeepsAttemptOk(m: Machine, step: Step, x: nat)
    requires MachineOk(m) && Enabled(m, step) && x == step.x
    requires !step.Create? && !step.Write? && !step.Reply? && !step.Recover? && !step.Forget?
    ensures x in Apply(m, step).attempts ==> AttemptOk(m.writes, Apply(m, step).attempts[x])
  {
    hide HandlesOk;
    hide Final, Numbered;
    if x in m.attempts { assert AttemptOk(m.writes, m.attempts[x]); }
    if step.Adopt? { OnLoadedKeepsOk(m.writes, m.attempts[x]); }
    if step.Load? { CellIsStored(m); }
    if step.Install? { RecoveredOk(m.writes, m.handles, m.recovering[x]); }
  }

  lemma LocalFrame(m: Machine, step: Step, x: nat)
    requires MachineOk(m) && Enabled(m, step) && x == step.x
    requires !step.Create? && !step.Write? && !step.Reply? && !step.Recover? && !step.Forget?
    ensures var next := Apply(m, step);
      && next.writes == m.writes && next.cell == m.cell && m.handles <= next.handles
      && (forall y | y in next.attempts && y != x :: y in m.attempts && next.attempts[y] == m.attempts[y])
      && (forall y | y in next.recovering :: y in m.recovering && next.recovering[y] == m.recovering[y])
      && (x in next.attempts ==>
            (if x in m.attempts then next.attempts[x].handle == m.attempts[x].handle < next.handles
             else next.attempts[x].handle == m.handles < next.handles))
  {
    hide AttemptOk, Numbered, Final, Stored;
  }

  lemma RecoverKeepsOk(m: Machine, x: nat)
    requires MachineOk(m) && Enabled(m, Recover(x))
    ensures MachineOk(Apply(m, Recover(x)))
  {
    hide AttemptOk, Final;
  }

  lemma LocalKeepsOk(m: Machine, step: Step)
    requires MachineOk(m) && Enabled(m, step)
    requires !step.Create? && !step.Write? && !step.Reply? && !step.Recover? && !step.Forget?
    ensures MachineOk(Apply(m, step))
  {
    hide Final, Numbered, AttemptOk, Stored, Apply, Enabled;
    LocalKeepsAttemptOk(m, step, step.x);
    LocalFrame(m, step, step.x);
    StepKeepsMachineOk(m, Apply(m, step), step.x);
  }

  lemma ForgetKeepsOk(m: Machine, x: nat)
    requires MachineOk(m)
    ensures MachineOk(Apply(m, Forget(x)))
  {
    hide Final, Numbered, AttemptOk, Stored;
  }

  lemma ApplyKeepsOk(m: Machine, step: Step)
    requires MachineOk(m) && Enabled(m, step)
    ensures MachineOk(Apply(m, step))
  {
    hide MachineOk, Enabled;
    match step
    case Create(x, epoch) => CreateKeepsOk(m, x, epoch);
    case Write(x) => WriteKeepsOk(m, x);
    case Reply(x) => ReplyKeepsOk(m, x);
    case Recover(x) => RecoverKeepsOk(m, x);
    case Forget(x) => ForgetKeepsOk(m, x);
    case _ => LocalKeepsOk(m, step);
  }

  // ----- Main results

  lemma RunStep(states: seq<Machine>, steps: seq<Step>, k: nat)
    requires Run(states, steps) && k + 1 < |states|
    ensures |states| == |steps| + 1 && Enabled(states[k], steps[k]) && states[k + 1] == Apply(states[k], steps[k])
  {
  }

  lemma StartsOk(states: seq<Machine>, steps: seq<Step>)
    requires Run(states, steps)
    ensures |states| > 0 && MachineOk(states[0]) && states[0].writes == []
  {
  }

  lemma {:induction false} RunKeepsOk(states: seq<Machine>, steps: seq<Step>, i: nat)
    requires Run(states, steps) && i < |states|
    ensures MachineOk(states[i])
  {
    hide Run, MachineOk, Enabled, Apply;
    if i == 0 {
      StartsOk(states, steps);
    } else {
      RunStep(states, steps, i - 1);
      RunKeepsOk(states, steps, i - 1);
      ApplyKeepsOk(states[i - 1], steps[i - 1]);
    }
  }

  /** Durable finality, for any interleaving of any number of executors: every write raises
      the revision by one, and a terminal record is only ever overwritten by its tombstone. */
  lemma TerminalIsFinal(states: seq<Machine>, steps: seq<Step>, i: nat)
    requires Run(states, steps) && i < |states|
    ensures forall k | 0 <= k < |states[i].writes| :: states[i].writes[k].revision == k + 1
    ensures forall k | 0 <= k < |states[i].writes| - 1 && states[i].writes[k].state == Terminal ::
      states[i].writes[k + 1].state == Expired && states[i].writes[k + 1].epoch == states[i].writes[k].epoch
  {
    RunKeepsOk(states, steps, i);
  }

  ghost predicate WriteCommits(m: Machine, step: Step) {
    step.Write? && Enabled(m, step) && |Apply(m, step).writes| > |m.writes|
  }

  lemma CommitTakesNewest(m: Machine, step: Step)
    requires MachineOk(m) && WriteCommits(m, step)
    ensures m.attempts[step.x].revision == |m.writes| && |Apply(m, step).writes| == |m.writes| + 1
  {
    WriterHoldsNewest(m, step.x);
  }

  lemma WritesGrow(m: Machine, step: Step)
    requires Enabled(m, step)
    ensures m.writes <= Apply(m, step).writes
  {
  }

  lemma {:induction false} WritesGrowAlong(states: seq<Machine>, steps: seq<Step>, i: nat, j: nat)
    requires Run(states, steps) && i <= j < |states|
    ensures states[i].writes <= states[j].writes
  {
    if i < j {
      hide Run, Enabled, Apply;
      RunStep(states, steps, j - 1);
      WritesGrowAlong(states, steps, i, j - 1);
      WritesGrow(states[j - 1], steps[j - 1]);
    }
  }

  /** Of several conditional writes that expect one revision, at most one succeeds. */
  lemma OneCommitPerRevision(states: seq<Machine>, steps: seq<Step>, i: nat, j: nat)
    requires Run(states, steps) && i < j < |steps|
    requires WriteCommits(states[i], steps[i]) && WriteCommits(states[j], steps[j])
    ensures |states| == |steps| + 1 && states[i].attempts[steps[i].x].revision < states[j].attempts[steps[j].x].revision
  {
    hide Enabled, Apply;
    RunStep(states, steps, i);
    RunKeepsOk(states, steps, i);
    RunKeepsOk(states, steps, j);
    CommitTakesNewest(states[i], steps[i]);
    CommitTakesNewest(states[j], steps[j]);
    WritesGrowAlong(states, steps, i + 1, j);
  }

  // ----- Settlement

  /** A handle stays with the executor that holds it. */
  lemma StepKeepsHandle(m: Machine, step: Step, x: nat, y: nat)
    requires HandlesOk(m) && Enabled(m, step)
    requires x in m.attempts && y in Apply(m, step).attempts
      && m.attempts[x].handle == Apply(m, step).attempts[y].handle
    ensures x == y
  {
    hide CommitCell, RecordOf, WellFormed;
  }

  lemma SettledStays(m: Machine, step: Step, x: nat, y: nat)
    requires HandlesOk(m) && Enabled(m, step)
    requires x in m.attempts && y in Apply(m, step).attempts
      && m.attempts[x].handle == Apply(m, step).attempts[y].handle
    ensures x == y
    ensures m.attempts[x].settled.Some? ==> Apply(m, step).attempts[y].settled == m.attempts[x].settled
    ensures Apply(m, step).attempts[y].settled.Some? && m.attempts[x].settled.None? ==>
      Apply(m, step).attempts[y].settled == Apply(m, step).attempts[y].terminal
  {
    StepKeepsHandle(m, step, x, y);
    hide HandlesOk, CommitCell, RecordOf, WellFormed;
  }

  ghost predicate Unheld(m: Machine, h: nat) {
    h < m.handles && forall x | x in m.attempts :: m.attempts[x].handle != h
  }

  lemma HandlesAreNew(m: Machine, step: Step, h: nat)
    requires Enabled(m, step) && Unheld(m, h)
    ensures Unheld(Apply(m, step), h)
  {
    hide CommitCell, RecordOf, WellFormed;
  }

  lemma HandlesGrow(m: Machine, step: Step)
    requires Enabled(m, step)
    ensures m.handles <= Apply(m, step).handles
  {
  }

  ghost predicate Holds(m: Machine, x: nat, h: nat) { x in m.attempts && m.attempts[x].handle == h }

  /** A handle belongs to one attempt for as long as it exists. */
  lemma {:induction false} HandleStays(states: seq<Machine>, steps: seq<Step>, i: nat, j: nat, x: nat, y: nat, h: nat)
    requires Run(states, steps) && i <= j < |states| && Holds(states[i], x, h) && Holds(states[j], y, h)
    ensures x == y
    ensures forall k | i <= k <= j :: Holds(states[k], x, h)
    decreases j - i
  {
    RunKeepsOk(states, steps, i);
    if i < j {
      hide Run, Enabled, Apply, AttemptOk, Numbered, Final;
      RunStep(states, steps, i);
      var m, next := states[i], states[i + 1];
      ApplyKeepsOk(m, steps[i]);
      if z :| Holds(next, z, h) {
        SettledStays(m, steps[i], x, z);
        HandleStays(states, steps, i + 1, j, z, y, h);
      } else {
        assert forall z | z in next.attempts :: !Holds(next, z, h);
        HandlesGrow(m, steps[i]);
        HandleGone(states, steps, i + 1, j, h);
      }
    }
  }

  lemma {:induction false} HandleGone(states: seq<Machine>, steps: seq<Step>, i: nat, j: nat, h: nat)
    requires Run(states, steps) && i <= j < |states| && Unheld(states[i], h)
    ensures Unheld(states[j], h)
  {
    hide Run, Enabled, Apply, Unheld;
    if i < j {
      RunStep(states, steps, j - 1);
      HandleGone(states, steps, i, j - 1, h);
      HandlesAreNew(states[j - 1], steps[j - 1], h);
    }
  }

  /** Each handle settles at most once: its result never changes. */
  lemma {:induction false} SettledOnce(states: seq<Machine>, steps: seq<Step>, i: nat, j: nat, x: nat, y: nat)
    requires Run(states, steps) && i <= j < |states|
    requires x in states[i].attempts && y in states[j].attempts
      && states[i].attempts[x].handle == states[j].attempts[y].handle
    requires states[i].attempts[x].settled.Some?
    ensures states[j].attempts[y].settled == states[i].attempts[x].settled
  {
    hide Run, Enabled, Apply, AttemptOk, Numbered, Final, HandlesOk;
    HandleStays(states, steps, i, j, x, y, states[i].attempts[x].handle);
    if i < j {
      assert Holds(states[j - 1], x, states[i].attempts[x].handle);
      RunStep(states, steps, j - 1);
      RunKeepsOk(states, steps, j - 1);
      SettledOnce(states, steps, i, j - 1, x, x);
      SettledStays(states[j - 1], steps[j - 1], x, y);
    }
  }

  lemma TerminalIsLast(writes: seq<AttemptRecord>, k: nat)
    requires Final(writes) && k < |writes| && writes[k].state == Terminal
    requires k + 1 < |writes| ==> writes[k + 1].state != Expired
    ensures k == |writes| - 1
  {
  }

  /** While nothing has expired, all results known from the store are one and the same. */
  lemma DurableResultsAgree(states: seq<Machine>, steps: seq<Step>, i: nat, x: nat)
    requires Run(states, steps) && i < |states| && x in states[i].attempts && states[i].attempts[x].durable
    requires forall k | 0 <= k < |states[i].writes| :: states[i].writes[k].state != Expired
    ensures states[i].cell.Some? && states[i].cell.value.state == Terminal
      && states[i].attempts[x].terminal == states[i].cell.value.result
  {
    RunKeepsOk(states, steps, i);
    var m := states[i];
    assert AttemptOk(m.writes, m.attempts[x]);
    var k :| 0 <= k < |m.writes| && m.writes[k].state == Terminal && m.writes[k].result == m.attempts[x].terminal;
    TerminalIsLast(m.writes, k);
  }

  // ----- What settles a handle, and with what

  /** The attempt of every other executor stays, and so does the store. */
  ghost predicate OnlyAttempt(m: Machine, next: Machine, x: nat) {
    && next.cell == m.cell && next.writes == m.writes && next.handles == m.handles && next.recovering == m.recovering
    && next.attempts.Keys == m.attempts.Keys
    && forall y | y in m.attempts && y != x :: next.attempts[y] == m.attempts[y]
  }

  /** Settling resolves the handle with the terminal result, unless it is resolved or there is none. */
  lemma SettleResolves(m: Machine, x: nat)
    requires Enabled(m, Settle(x))
    ensures var next := Apply(m, Settle(x));
      && OnlyAttempt(m, next, x)
      && next.attempts[x].(settled := m.attempts[x].settled) == m.attempts[x]
      && next.attempts[x].settled ==
           if m.attempts[x].settled.Some? then m.attempts[x].settled else m.attempts[x].terminal
  {
  }

  /** A volatile failure is the terminal result only when there was none, and resolves the handle with
      the terminal result; it is known not to come from the store. */
  lemma VolatileResolves(m: Machine, x: nat, result: ExecutionResult, failed: bool)
    requires Enabled(m, Volatile(x, result, failed))
    ensures var next, a := Apply(m, Volatile(x, result, failed)), m.attempts[x];
      && OnlyAttempt(m, next, x)
      && var a' := next.attempts[x];
      && a'.terminal == (if a.terminal.Some? then a.terminal else Some(result))
      && a'.settled == (if a.settled.Some? then a.settled else a'.terminal)
      && (a.terminal.None? ==> a'.state == Terminal && !a'.durable)
      && (a.terminal.Some? ==> a'.state == a.state && a'.durable == a.durable)
      && a'.persistenceFailed == (a.persistenceFailed || failed)
      && a'.revision == a.revision && a'.epoch == a.epoch && a'.cancellation == a.cancellation && a'.work == a.work
  {
  }

  /** Revoking an attempt that is not terminal gives it the result and resolves the handle. */
  lemma RevokeResolves(m: Machine, x: nat, result: ExecutionResult)
    requires Enabled(m, Revoke(x, result))
    ensures var next, a := Apply(m, Revoke(x, result)), m.attempts[x];
      && OnlyAttempt(m, next, x)
      && var a' := next.attempts[x];
      && a'.terminal == Some(result) && a'.state == Terminal && !a'.durable
      && a'.settled == (if a.settled.Some? then a.settled else Some(result))
      && a'.revision == a.revision && a'.epoch == a.epoch && a'.work == a.work
  {
  }

  // ----- What a write stores and what comes back

  /** A conditional write is stored, one revision up, exactly when the key holds the revision and epoch
      it names, or holds nothing when it names none; at the last revision it is refused for good. */
  lemma CommitCellOutcome(cell: Option<AttemptRecord>, record: AttemptRecord, revision: Option<nat>, epoch: Option<nat>)
    ensures var reply := CommitCell(cell, record, Condition(revision, epoch));
      var expected := if revision.None? then cell.None? else
        cell.Some? && cell.value.revision == revision.value && (epoch.Some? ==> cell.value.epoch == epoch.value);
      var held := if cell.Some? then cell.value.revision else 0;
      && (reply.Committed? <==> expected && held != 0xffff_ffff_ffff_ffff)
      && (reply.RevisionExhausted? <==> expected && held == 0xffff_ffff_ffff_ffff)
      && (reply.Committed? ==> reply.record == record.(revision := held + 1))
  {
  }

  /** What each transition sets out to write: a new state or epoch; the same with a cancellation, the first
      one there was; or the tombstone. A deadline that passes marks the attempt as timed out. */
  lemma TransitionsStart(m: Machine, x: nat, state: AttemptState, epoch: nat)
    ensures Enabled(m, BeginTransition(x, state, epoch)) ==>
      var next, a := Apply(m, BeginTransition(x, state, epoch)), m.attempts[x];
      OnlyAttempt(m, next, x) && next.attempts[x] == a.(work := Writing(Goal(state, a.terminal, epoch)))
    ensures Enabled(m, BeginCancel(x)) ==>
      var next, a := Apply(m, BeginCancel(x)), m.attempts[x];
      && OnlyAttempt(m, next, x)
      && next.attempts[x] == a.(work := Writing(Goal(a.state, a.terminal, a.epoch)),
                                cancellation := if a.cancellation.None? then Some(Cancelled) else a.cancellation)
    ensures Enabled(m, BeginPrune(x)) ==>
      var next, a := Apply(m, BeginPrune(x)), m.attempts[x];
      OnlyAttempt(m, next, x) && next.attempts[x] == a.(work := Writing(Goal(Expired, None, a.epoch)))
    ensures Enabled(m, Deadline(x)) ==>
      var next, a := Apply(m, Deadline(x)), m.attempts[x];
      OnlyAttempt(m, next, x) && next.attempts[x] == a.(cancellation := Some(TimedOut))
  {
  }

  /** What an attempt writes: its own identity, what the transition is for, and what it knows of the
      cancellation, on the condition that the store still holds what it holds. */
  lemma WriteStores(m: Machine, x: nat)
    requires Enabled(m, Write(x))
    ensures var next, a := Apply(m, Write(x)), m.attempts[x];
      && x in next.attempts && next.attempts[x].work.Sent? && next.attempts[x].work.goal == a.work.goal
      && next.attempts[x].(work := a.work) == a
      && var reply := next.attempts[x].work.reply;
      && (reply.Committed? ==>
            && m.cell.Some? && m.cell.value.revision == a.revision && m.cell.value.epoch == a.epoch
            && next.cell == Some(reply.record) && next.writes == m.writes + [reply.record]
            && reply.record == AttemptRecord(m.identity.workerId, m.identity.taskId, m.identity.attemptId,
                                             m.identity.fingerprint, a.work.goal.state, a.work.goal.epoch,
                                             a.revision + 1, a.work.goal.result, a.cancellation))
      && (!reply.Committed? ==> next.cell == m.cell && next.writes == m.writes)
      && (m.cell.Some? && m.cell.value.revision == a.revision != MAXIMUM_UNSIGNED_64
          && m.cell.value.epoch == a.epoch ==>
            reply.Committed?)
  {
  }

  /** What a new attempt stores, and that it fails when the key is taken. */
  lemma CreateStores(m: Machine, x: nat, epoch: nat)
    requires Enabled(m, Create(x, epoch))
    ensures var next := Apply(m, Create(x, epoch));
      && x in next.attempts && next.attempts[x].work.Creating? && next.attempts[x].state == Assigned
      && next.attempts[x].epoch == epoch && next.attempts[x].terminal.None? && next.attempts[x].settled.None?
      && next.attempts[x].handle == m.handles && next.handles == m.handles + 1
      && var reply := next.attempts[x].work.reply;
      && (reply.Committed? <==> m.cell.None?)
      && (reply.Committed? ==>
            && next.cell == Some(reply.record) && next.writes == m.writes + [reply.record]
            && reply.record == AttemptRecord(m.identity.workerId, m.identity.taskId, m.identity.attemptId,
                                             m.identity.fingerprint, Assigned, epoch, 1, None, None))
      && (!reply.Committed? ==> next.cell == m.cell && next.writes == m.writes)
  {
  }

  /** A committed transition takes effect in the attempt, unless persistence failed or a result came in
      between; a committed tombstone drops the attempt. */
  lemma CommittedReplyTakesEffect(m: Machine, x: nat)
    requires Enabled(m, Reply(x)) && m.attempts[x].work.reply.Committed?
    ensures var next, a, goal := Apply(m, Reply(x)), m.attempts[x], m.attempts[x].work.goal;
      var record := a.work.reply.record;
      && (goal.state == Expired ==> next == m.(attempts := m.attempts - {x}))
      && (goal.state != Expired ==> OnlyAttempt(m, next, x) && TookEffect(a, goal, record, next.attempts[x]))
  {
  }

  ghost predicate TookEffect(a: Attempt, goal: Goal, record: AttemptRecord, a': Attempt) {
    if a.persistenceFailed then a' == a.(work := Idle)
    else if !WellFormed(record) then a' == a.(work := Writing(goal))
    else if a.terminal.Some? && goal.state != Terminal then a' == a.(work := Idle)
    else
      && a'.work.Idle? && a'.revision == record.revision && a'.state == goal.state && a'.epoch == goal.epoch
      && a'.handle == a.handle && a'.settled == a.settled && a'.cancellation == a.cancellation && !a'.persistenceFailed
      && (goal.result.Some? ==> a'.terminal == goal.result && a'.durable)
      && (goal.result.None? ==> a'.terminal == a.terminal && a'.durable == a.durable)
  }

  /** A refused transition looks at what is stored; a refused tombstone and an exhausted revision end. */
  lemma RefusedReply(m: Machine, x: nat)
    requires Enabled(m, Reply(x)) && !m.attempts[x].work.reply.Committed?
    ensures var next, a := Apply(m, Reply(x)), m.attempts[x];
      && OnlyAttempt(m, next, x)
      && next.attempts[x] == a.(work :=
           if a.work.reply.Conflict? && a.work.goal.state != Expired then Loading(a.work.goal) else Idle)
  {
  }

  /** A newer record that was found is adopted: its revision, epoch and cancellation, its result as a
      durable one if it has one, and its state, where a tombstone reads as terminal. */
  lemma NewerRecordIsAdopted(m: Machine, x: nat)
    requires Enabled(m, Adopt(x))
    ensures var next, a, record := Apply(m, Adopt(x)), m.attempts[x], m.attempts[x].work.record;
      && OnlyAttempt(m, next, x)
      && var a' := next.attempts[x];
      && a'.handle == a.handle && a'.settled == a.settled && a'.persistenceFailed == a.persistenceFailed
      && (!WellFormed(record) ==> a' == a.(work := Writing(a.work.goal)))
      && (WellFormed(record) && record.revision <= a.revision ==> a' == a.(work := Idle))
      && (WellFormed(record) && record.revision > a.revision ==>
            && a'.work.Idle? && a'.revision == record.revision && a'.epoch == record.epoch
            && a'.cancellation == record.cancellation
            && (record.result.Some? ==> a'.terminal == record.result && a'.durable && a'.state == Terminal)
            && (record.result.None? ==>
                  && a'.terminal == a.terminal && a'.durable == a.durable
                  && a'.state == if record.state == Expired then Terminal else record.state))
  {
  }

  /** What an executor rebuilds from a recovered record: an attempt in the record's state whose handle
      is resolved at once when the record has a result. */
  lemma InstallRestores(m: Machine, x: nat)
    requires Enabled(m, Install(x))
    ensures var next, r := Apply(m, Install(x)), m.recovering[x];
      && next.cell == m.cell && next.writes == m.writes && x !in next.recovering && next.handles == m.handles + 1
      && (forall y | y in m.attempts :: y in next.attempts && next.attempts[y] == m.attempts[y])
      && x in next.attempts
      && var a := next.attempts[x];
      && a.handle == m.handles && a.work.Idle? && !a.persistenceFailed
      && a.state == r.state && a.revision == r.revision && a.epoch == r.epoch && a.cancellation == r.cancellation
      && a.terminal == r.result && a.settled == r.result && a.durable == r.result.Some?
  {
  }

  // ----- Tombstones are not final

  /** An idle executor that adopted the tombstone without ever seeing a result. */
  predicate HoldsTombstone(m: Machine, x: nat) {
    && IdleAt(m, x) && m.attempts[x].terminal.None?
    && m.cell.Some? && m.cell.value.state == Expired && m.attempts[x].revision == m.cell.value.revision
  }

  /** A tombstone can be overwritten by a publication exactly when its executor holds it so. */
  lemma TombstoneOverwritten(m: Machine, x: nat, result: ExecutionResult)
    requires MachineOk(m) && m.cell.Some? && m.cell.value.state == Expired && |m.writes| < MAXIMUM_UNSIGNED_64
    requires Enabled(m, BeginPublish(x, result))
    ensures Enabled(Apply(m, BeginPublish(x, result)), Write(x))
    ensures var next := Apply(Apply(m, BeginPublish(x, result)), Write(x));
      next.cell.Some? && (next.cell.value.state == Terminal <==> HoldsTombstone(m, x))
    ensures HoldsTombstone(m, x) ==>
      Apply(Apply(m, BeginPublish(x, result)), Write(x)).cell.value.result == Some(result)
  {
    assert AttemptOk(m.writes, m.attempts[x]);
  }

  /** An attempt that is terminal without a result has met the tombstone. */
  ghost predicate MetTombstone(writes: seq<AttemptRecord>, a: Attempt) {
    && (a.work.Creating? ==> a.state == Assigned)
    && (a.state == Terminal && a.terminal.None? ==>
        0 < a.revision <= |writes| && writes[a.revision - 1].state == Expired)
  }

  lemma LoadedMeets(writes: seq<AttemptRecord>, a: Attempt)
    requires MetTombstone(writes, a) && a.work.Loaded? && Stored(writes, a.work.record)
    ensures MetTombstone(writes, OnLoaded(a, a.work.goal, a.work.record))
  {
  }

  lemma CommittedMeets(writes: seq<AttemptRecord>, a: Attempt)
    requires MetTombstone(writes, a) && WorkOk(writes, a) && a.work.Sent? && a.work.reply.Committed?
    ensures MetTombstone(writes, OnCommitted(a, a.work.goal, a.work.reply.record))
  {
  }

  lemma RecoveredMeets(writes: seq<AttemptRecord>, handle: nat, r: AttemptRecord)
    requires r.state != Expired && WellFormed(r)
    ensures MetTombstone(writes, Recovered(handle, r))
  {
  }

  lemma LongerMeets(writes: seq<AttemptRecord>, longer: seq<AttemptRecord>, a: Attempt)
    requires MetTombstone(writes, a) && writes <= longer
    ensures MetTombstone(longer, a)
  {
  }

  lemma OwnStepMeets(m: Machine, step: Step, x: nat)
    requires Enabled(m, step) && x in Apply(m, step).attempts && x == step.x
    requires !step.Create? && !step.Write? && !step.Recover? && !step.Forget?
    requires x in m.attempts ==> WorkOk(m.writes, m.attempts[x]) && MetTombstone(m.writes, m.attempts[x])
    requires step.Install? ==> m.recovering[x].state != Expired
    ensures MetTombstone(m.writes, Apply(m, step).attempts[x])
  {
    hide OnLoaded, OnCommitted, Recovered, Stored, GoalOk, CommitCell, RecordOf;
    match step
    case Adopt(_) => LoadedMeets(m.writes, m.attempts[x]);
    case Reply(_) => if m.attempts[x].work.reply.Committed? { CommittedMeets(m.writes, m.attempts[x]); }
    case Install(_) => RecoveredMeets(m.writes, m.handles, m.recovering[x]);
    case _ =>
  }

  lemma MachineKnows(m: Machine, x: nat)
    requires MachineOk(m)
    ensures x in m.attempts ==> WorkOk(m.writes, m.attempts[x])
    ensures x in m.recovering ==> m.recovering[x].state != Expired
  {
    hide Numbered, Final, HandlesOk, WorkOk, BaseOk;
    if x in m.attempts { assert AttemptOk(m.writes, m.attempts[x]); }
  }

  lemma StepMeets(m: Machine, step: Step, x: nat)
    requires MachineOk(m) && Enabled(m, step) && x in Apply(m, step).attempts
    requires x in m.attempts ==> MetTombstone(m.writes, m.attempts[x])
    ensures MetTombstone(Apply(m, step).writes, Apply(m, step).attempts[x])
  {
    hide MachineOk, WorkOk, OnLoaded, OnCommitted, Recovered, CommitCell, RecordOf;
    MachineKnows(m, x);
    WritesGrow(m, step);
    if x in m.attempts { LongerMeets(m.writes, Apply(m, step).writes, m.attempts[x]); }
    if x == step.x && !step.Create? && !step.Write? && !step.Recover? && !step.Forget? { OwnStepMeets(m, step, x); }
  }

  ghost predicate AllMet(m: Machine) {
    forall x | x in m.attempts :: MetTombstone(m.writes, m.attempts[x])
  }

  lemma {:induction false} RunMeets(states: seq<Machine>, steps: seq<Step>, i: nat)
    requires Run(states, steps) && i < |states|
    ensures AllMet(states[i])
  {
    hide Run, Enabled, Apply, MachineOk, MetTombstone;
    if i == 0 {
      StartsQuiet(states, steps);
    } else {
      RunStep(states, steps, i - 1);
      RunKeepsOk(states, steps, i - 1);
      RunMeets(states, steps, i - 1);
      forall x | x in states[i].attempts ensures MetTombstone(states[i].writes, states[i].attempts[x]) {
        StepMeets(states[i - 1], steps[i - 1], x);
      }
    }
  }

  /** What an executor can see of itself decides whether it would overwrite a tombstone: an
      attempt without a result holds an expired record if and only if its own state is terminal. */
  lemma TerminalWithoutResultIsExpired(states: seq<Machine>, steps: seq<Step>, i: nat, x: nat)
    requires Run(states, steps) && i < |states| && IdleAt(states[i], x) && states[i].attempts[x].terminal.None?
    ensures var a, writes := states[i].attempts[x], states[i].writes;
      && 0 < a.revision <= |writes|
      && (a.state == Terminal <==> writes[a.revision - 1].state == Expired)
      && (HoldsTombstone(states[i], x) <==> a.state == Terminal && a.revision == |writes|)
  {
    hide Run, Final;
    RunKeepsOk(states, steps, i);
    RunMeets(states, steps, i);
    assert AttemptOk(states[i].writes, states[i].attempts[x]);
    assert MetTombstone(states[i].writes, states[i].attempts[x]);
  }

  /** The check a publication leaves out: that the attempt is not terminal already. */
  predicate Guarded(m: Machine, step: Step) {
    step.BeginPublish? ==> step.x in m.attempts && m.attempts[step.x].state != Terminal
  }

  ghost predicate GuardedRun(states: seq<Machine>, steps: seq<Step>) {
    Run(states, steps) && forall i | 0 <= i < |steps| :: Guarded(states[i], steps[i])
  }

  /** The record an attempt with a publication in progress holds is unfinished. */
  ghost predicate FromUnfinished(writes: seq<AttemptRecord>, a: Attempt) {
    Towards(a, Terminal) ==>
      && 0 < a.revision <= |writes|
      && writes[a.revision - 1].state != Expired && writes[a.revision - 1].state != Terminal
  }

  /** Publications in progress started from an unfinished record. */
  ghost predicate PublishesUnfinished(m: Machine) {
    forall x | x in m.attempts :: FromUnfinished(m.writes, m.attempts[x])
  }

  ghost predicate TombstonesStay(writes: seq<AttemptRecord>) {
    forall i | 0 <= i < |writes| - 1 && writes[i].state == Expired :: writes[i + 1].state == Expired
  }

  lemma GuardKeepsOne(m: Machine, step: Step, x: nat)
    requires Enabled(m, step) && Guarded(m, step) && x in Apply(m, step).attempts
    requires x in m.attempts ==> AttemptOk(m.writes, m.attempts[x]) && FromUnfinished(m.writes, m.attempts[x])
    ensures FromUnfinished(m.writes, Apply(m, step).attempts[x])
  {
    hide WorkOk, CommitCell, RecordOf;
  }

  lemma GuardKeepsPublications(m: Machine, step: Step)
    requires MachineOk(m) && Enabled(m, step) && Guarded(m, step) && PublishesUnfinished(m)
    ensures PublishesUnfinished(Apply(m, step))
  {
    hide Final, Numbered, AttemptOk, HandlesOk, Apply, Enabled, Guarded;
    var next := Apply(m, step);
    WritesGrow(m, step);
    forall x | x in next.attempts ensures FromUnfinished(next.writes, next.attempts[x]) {
      GuardKeepsOne(m, step, x);
    }
  }

  lemma GuardKeepsTombstones(m: Machine, step: Step)
    requires MachineOk(m) && Enabled(m, step) && PublishesUnfinished(m) && TombstonesStay(m.writes)
    ensures TombstonesStay(Apply(m, step).writes)
  {
    if WriteCommits(m, step) {
      CommitTakesNewest(m, step);
      assert AttemptOk(m.writes, m.attempts[step.x]);
    }
  }

  /** With that check, a tombstone would stay: no second result could ever become durable. */
  lemma {:induction false} GuardedTombstonesStay(states: seq<Machine>, steps: seq<Step>, i: nat)
    requires GuardedRun(states, steps) && i < |states|
    ensures TombstonesStay(states[i].writes) && PublishesUnfinished(states[i])
  {
    hide Run, Enabled, Apply, MachineOk, PublishesUnfinished, Guarded;
    if i == 0 {
      StartsQuiet(states, steps);
    } else {
      RunStep(states, steps, i - 1);
      RunKeepsOk(states, steps, i - 1);
      GuardedTombstonesStay(states, steps, i - 1);
      GuardKeepsPublications(states[i - 1], steps[i - 1]);
      GuardKeepsTombstones(states[i - 1], steps[i - 1]);
    }
  }

  lemma StartsQuiet(states: seq<Machine>, steps: seq<Step>)
    requires Run(states, steps)
    ensures |states| > 0 && PublishesUnfinished(states[0]) && TombstonesStay(states[0].writes) && AllMet(states[0])
  {
  }

  // ----- A run that loses finality

  function After(m: Machine, steps: seq<Step>): Option<Machine>
    decreases |steps|
  {
    if steps == [] then Some(m)
    else if Enabled(m, steps[0]) then After(Apply(m, steps[0]), steps[1..])
    else None
  }

  lemma AfterCons(m: Machine, step: Step, rest: seq<Step>)
    requires Enabled(m, step)
    ensures After(m, [step] + rest) == After(Apply(m, step), rest)
  {
    assert ([step] + rest)[1..] == rest;
  }

  lemma AfterTwo(m: Machine, a: Step, b: Step)
    requires Enabled(m, a) && Enabled(Apply(m, a), b)
    ensures After(m, [a, b]) == Some(Apply(Apply(m, a), b))
  {
    AfterCons(m, a, [b]);
    AfterCons(Apply(m, a), b, []);
    assert [a, b] == [a] + [b] && [b] == [b] + [];
  }

  // ----- Publications settle

  /** A publication by an executor that holds the newest record becomes the stored result, the
      attempt's result and the handle's. */
  lemma PublicationSettles(m: Machine, x: nat, result: ExecutionResult)
    requires MachineOk(m) && Enabled(m, BeginPublish(x, result)) && !m.attempts[x].persistenceFailed
    requires m.cell.Some? && m.cell.value.revision == m.attempts[x].revision < MAXIMUM_UNSIGNED_64
    ensures var end := After(m, [BeginPublish(x, result), Write(x), Reply(x), Settle(x)]);
      && end.Some? && end.value.cell.Some?
      && end.value.cell.value.state == Terminal && end.value.cell.value.result == Some(result)
      && x in end.value.attempts
      && end.value.attempts[x].terminal == Some(result) && end.value.attempts[x].durable
      && end.value.attempts[x].settled ==
           if m.attempts[x].settled.Some? then m.attempts[x].settled else Some(result)
  {
    NewestBase(m, x);
    BeginsPublishing(m, x, result);
    hide MachineOk, After, Apply;
    var begun := Apply(m, BeginPublish(x, result));
    WriteWins(begun, x, result);
    SettleResolves(Apply(Apply(begun, Write(x)), Reply(x)), x);
    AfterFour(m, BeginPublish(x, result), Write(x), Reply(x), Settle(x));
  }

  lemma BeginsPublishing(m: Machine, x: nat, result: ExecutionResult)
    requires Enabled(m, BeginPublish(x, result))
    ensures var begun, a := Apply(m, BeginPublish(x, result)), m.attempts[x];
      && begun.cell == m.cell && Enabled(begun, Write(x))
      && begun.attempts[x] == a.(work := Writing(Goal(Terminal, Some(result), a.epoch)))
  {
  }

  /** The write of a result by the holder of the newest record. */
  lemma WriteWins(m: Machine, x: nat, result: ExecutionResult)
    requires Enabled(m, Write(x)) && !m.attempts[x].persistenceFailed
    requires m.attempts[x].work.goal == Goal(Terminal, Some(result), m.attempts[x].epoch)
    requires m.cell.Some? && m.cell.value.revision == m.attempts[x].revision < MAXIMUM_UNSIGNED_64
    requires m.cell.value.epoch == m.attempts[x].epoch
    ensures var sent := Apply(m, Write(x));
      && Enabled(sent, Reply(x))
      && var known := Apply(sent, Reply(x));
      && known.cell.Some? && known.cell.value.state == Terminal && known.cell.value.result == Some(result)
      && Enabled(known, Settle(x))
      && known.attempts[x].terminal == Some(result) && known.attempts[x].durable
      && known.attempts[x].settled == m.attempts[x].settled
  {
    hide Apply;
    WriteStores(m, x);
    CommittedReplyTakesEffect(Apply(m, Write(x)), x);
  }

  /** So the holder of the newest record stores what it sets out to: a transition its state and epoch, a
      cancellation the fact that it was cancelled, with everything else kept. */
  lemma TransitionsAreStored(m: Machine, x: nat, state: AttemptState, epoch: nat)
    requires x in m.attempts && m.cell.Some? && m.cell.value.revision == m.attempts[x].revision < MAXIMUM_UNSIGNED_64
    requires m.cell.value.epoch == m.attempts[x].epoch
    ensures Enabled(m, BeginTransition(x, state, epoch)) ==>
      var end, a := After(m, [BeginTransition(x, state, epoch), Write(x)]), m.attempts[x];
      end.Some? && end.value.cell == Some(AttemptRecord(
        m.identity.workerId, m.identity.taskId, m.identity.attemptId, m.identity.fingerprint, state, epoch,
        a.revision + 1, a.terminal, a.cancellation))
    ensures Enabled(m, BeginCancel(x)) ==>
      var end, a := After(m, [BeginCancel(x), Write(x)]), m.attempts[x];
      end.Some? && end.value.cell == Some(AttemptRecord(
        m.identity.workerId, m.identity.taskId, m.identity.attemptId, m.identity.fingerprint, a.state, a.epoch,
        a.revision + 1, a.terminal, if a.cancellation.None? then Some(Cancelled) else a.cancellation))
    ensures Enabled(m, BeginPrune(x)) ==>
      var end, a := After(m, [BeginPrune(x), Write(x)]), m.attempts[x];
      end.Some? && end.value.cell == Some(AttemptRecord(
        m.identity.workerId, m.identity.taskId, m.identity.attemptId, m.identity.fingerprint, Expired, a.epoch,
        a.revision + 1, None, a.cancellation))
  {
    TransitionsStart(m, x, state, epoch);
    IdentityStays(m, x, state, epoch);
    hide After, Apply;
    if Enabled(m, BeginTransition(x, state, epoch)) { WriteFollows(m, BeginTransition(x, state, epoch), x); }
    if Enabled(m, BeginCancel(x)) { WriteFollows(m, BeginCancel(x), x); }
    if Enabled(m, BeginPrune(x)) { WriteFollows(m, BeginPrune(x), x); }
  }

  lemma IdentityStays(m: Machine, x: nat, state: AttemptState, epoch: nat)
    ensures forall step | step in {BeginTransition(x, state, epoch), BeginCancel(x), BeginPrune(x)} &&
      Enabled(m, step) :: Apply(m, step).identity == m.identity
  {
  }

  lemma WriteFollows(m: Machine, step: Step, x: nat)
    requires Enabled(m, step) && Enabled(Apply(m, step), Write(x))
    ensures After(m, [step, Write(x)]) == Some(Apply(Apply(m, step), Write(x)))
    ensures var begun := Apply(m, step);
      var a, goal := begun.attempts[x], begun.attempts[x].work.goal;
      begun.cell.Some? && begun.cell.value.revision == a.revision != MAXIMUM_UNSIGNED_64
        && begun.cell.value.epoch == a.epoch ==>
        Apply(begun, Write(x)).cell == Some(AttemptRecord(
          begun.identity.workerId, begun.identity.taskId, begun.identity.attemptId, begun.identity.fingerprint,
          goal.state, goal.epoch, a.revision + 1, goal.result, a.cancellation))
  {
    hide Apply, After;
    AfterTwo(m, step, Write(x));
    WriteStores(Apply(m, step), x);
  }

  lemma AfterFour(m: Machine, a: Step, b: Step, c: Step, d: Step)
    requires Enabled(m, a) && Enabled(Apply(m, a), b)
    requires Enabled(Apply(Apply(m, a), b), c) && Enabled(Apply(Apply(Apply(m, a), b), c), d)
    ensures After(m, [a, b, c, d]) == Some(Apply(Apply(Apply(Apply(m, a), b), c), d))
  {
    hide Enabled, Apply;
    AfterTwo(Apply(Apply(m, a), b), c, d);
    AfterCons(Apply(m, a), b, [c, d]);
    AfterCons(m, a, [b, c, d]);
    assert [b] + [c, d] == [b, c, d] && [a] + [b, c, d] == [a, b, c, d];
  }

  lemma NewestBase(m: Machine, x: nat)
    requires MachineOk(m) && x in m.attempts && !m.attempts[x].work.Creating?
    requires m.cell.Some? && m.cell.value.revision == m.attempts[x].revision
    ensures m.cell.value.epoch == m.attempts[x].epoch
  {
    assert AttemptOk(m.writes, m.attempts[x]);
    hide Final, HandlesOk;
  }

  /** A publication that loses to a stored result ends with the stored result, and the handle with it. */
  lemma LosingPublicationAdopts(m: Machine, x: nat, result: ExecutionResult)
    requires Enabled(m, BeginPublish(x, result)) && m.cell.Some? && m.cell.value.result.Some?
    requires m.cell.value.state == Terminal && m.cell.value.revision > m.attempts[x].revision
    ensures var lost := After(m, [BeginPublish(x, result), Write(x)]);
      && lost.Some? && lost.value.cell == m.cell
      && var end := After(lost.value, [Reply(x), Load(x), Adopt(x), Settle(x)]);
      && end.Some? && end.value.cell == m.cell && x in end.value.attempts
      && end.value.attempts[x].terminal == m.cell.value.result && end.value.attempts[x].durable
      && end.value.attempts[x].settled ==
           if m.attempts[x].settled.Some? then m.attempts[x].settled else m.cell.value.result
  {
    BeginsPublishing(m, x, result);
    hide After, Apply;
    var begun := Apply(m, BeginPublish(x, result));
    WriteLoses(begun, x);
    var sent := Apply(begun, Write(x));
    var loaded := Apply(Apply(sent, Reply(x)), Load(x));
    NewerRecordIsAdopted(loaded, x);
    SettleResolves(Apply(loaded, Adopt(x)), x);
    AfterTwo(m, BeginPublish(x, result), Write(x));
    AfterFour(sent, Reply(x), Load(x), Adopt(x), Settle(x));
  }

  lemma WriteLoses(m: Machine, x: nat)
    requires Enabled(m, Write(x)) && m.attempts[x].work.goal.state != Expired
    requires m.cell.Some? && m.cell.value.revision != m.attempts[x].revision
    ensures var sent := Apply(m, Write(x));
      && sent.cell == m.cell && Enabled(sent, Reply(x))
      && var refused := Apply(sent, Reply(x));
      && refused.cell == m.cell && Enabled(refused, Load(x))
      && var loaded := Apply(refused, Load(x));
      && loaded.cell == m.cell && Enabled(loaded, Adopt(x))
      && loaded.attempts[x] == m.attempts[x].(work := Loaded(m.attempts[x].work.goal, m.cell.value))
  {
    WriteStores(m, x);
    NotExhausted(m, x);
    var sent := Apply(m, Write(x));
    RefusedReply(sent, x);
  }

  lemma NotExhausted(m: Machine, x: nat)
    requires Enabled(m, Write(x)) && m.cell.Some? && m.cell.value.revision != m.attempts[x].revision
    ensures Apply(m, Write(x)).attempts[x].work.reply.Conflict?
  {
  }

  /** Executor 0 creates the attempt and executor 1 recovers it. */
  function Shared(m: Machine): Option<Machine> {
    var created := After(m, [Create(0, 1), Step.Created(0)]);
    if created.None? then None else After(created.value, [Recover(1), Install(1)])
  }

  /** Executor 0 publishes a result and then lets it expire. */
  function Expired0(m: Machine, result: ExecutionResult): Option<Machine> {
    var published := After(m, [BeginPublish(0, result), Write(0)]);
    if published.None? then None
    else
      var replied := After(published.value, [Reply(0), BeginPrune(0)]);
      if replied.None? then None else After(replied.value, [Write(0)])
  }

  /** Executor 1 publishes its own result, is refused, and adopts the tombstone. */
  function Adopted1(m: Machine, result: ExecutionResult): Option<Machine> {
    var refused := After(m, [BeginPublish(1, result), Write(1)]);
    if refused.None? then None
    else
      var reloading := After(refused.value, [Reply(1), Load(1)]);
      if reloading.None? then None else After(reloading.value, [Adopt(1)])
  }

  ghost predicate Wrote(m: Machine, states: seq<AttemptState>) {
    |m.writes| == |states| && forall i | 0 <= i < |states| :: m.writes[i].state == states[i]
  }

  lemma SharedRuns(identity: AttemptIdentity)
    ensures var m := Shared(Initial(identity));
      && m.Some? && Wrote(m.value, [Assigned]) && m.value.cell == Some(m.value.writes[0])
      && m.value.writes[0].revision == 1 && m.value.writes[0].epoch == 1 && m.value.writes[0].result.None?
      && 0 in m.value.attempts && IdleAt(m.value, 0) && m.value.attempts[0].terminal.None?
      && m.value.attempts[0].revision == 1
      && m.value.attempts[0].epoch == 1 && !m.value.attempts[0].persistenceFailed
      && 1 in m.value.attempts && m.value.attempts[1] == Recovered(1, m.value.writes[0])
  {
    var m := Initial(identity);
    AfterTwo(m, Create(0, 1), Step.Created(0));
    var created := Apply(Apply(m, Create(0, 1)), Step.Created(0));
    AfterTwo(created, Recover(1), Install(1));
  }

  lemma Expired0Runs(m: Machine, result: ExecutionResult)
    requires |m.writes| == 1 && m.cell == Some(m.writes[0]) && m.writes[0].revision == 1 && m.writes[0].epoch == 1
    requires IdleAt(m, 0) && m.attempts[0].terminal.None? && m.attempts[0].revision == 1
    requires m.attempts[0].epoch == 1 && !m.attempts[0].persistenceFailed
    ensures var next := Expired0(m, result);
      && next.Some? && |next.value.writes| == 3 && m.writes <= next.value.writes
      && next.value.writes[1].state == Terminal && next.value.writes[1].result == Some(result)
      && next.value.writes[2].state == Expired && next.value.writes[2].result.None?
      && next.value.cell == Some(next.value.writes[2]) && next.value.writes[2].revision == 3
      && next.value.writes[2].epoch == 1
      && (1 in m.attempts ==> 1 in next.value.attempts && next.value.attempts[1] == m.attempts[1])
  {
    AfterTwo(m, BeginPublish(0, result), Write(0));
    var published := Apply(Apply(m, BeginPublish(0, result)), Write(0));
    AfterTwo(published, Reply(0), BeginPrune(0));
    var pruning := Apply(Apply(published, Reply(0)), BeginPrune(0));
    AfterCons(pruning, Write(0), []);
    assert [Write(0)] == [Write(0)] + [];
  }

  lemma Adopted1Runs(m: Machine, result: ExecutionResult)
    requires m.cell.Some? && m.cell.value.state == Expired && m.cell.value.revision == 3 && m.cell.value.result.None?
    requires IdleAt(m, 1) && m.attempts[1].terminal.None? && m.attempts[1].revision == 1
    ensures var next := Adopted1(m, result);
      next.Some? && HoldsTombstone(next.value, 1) && next.value.writes == m.writes && next.value.cell == m.cell
      && next.value.attempts[1].epoch == m.cell.value.epoch
  {
    AfterTwo(m, BeginPublish(1, result), Write(1));
    var refused := Apply(Apply(m, BeginPublish(1, result)), Write(1));
    AfterTwo(refused, Reply(1), Load(1));
    var reloading := Apply(Apply(refused, Reply(1)), Load(1));
    AfterCons(reloading, Adopt(1), []);
    assert [Adopt(1)] == [Adopt(1)] + [];
  }

  /** Finality of results does not survive the tombstone: a run in which two different
      terminal results become durable, one after the other. */
  lemma TombstoneResurrected(identity: AttemptIdentity, first: ExecutionResult, second: ExecutionResult)
    ensures var shared := Shared(Initial(identity));
      && shared.Some?
      && var expired := Expired0(shared.value, first);
      && expired.Some?
      && var adopted := Adopted1(expired.value, second);
      && adopted.Some?
      && var last := After(adopted.value, [BeginPublish(1, second), Write(1)]);
      && last.Some? && Wrote(last.value, [Assigned, Terminal, Expired, Terminal])
      && last.value.writes[1].result == Some(first) && last.value.writes[3].result == Some(second)
  {
    hide Shared, Expired0, Adopted1, After;
    SharedRuns(identity);
    var shared := Shared(Initial(identity)).value;
    Expired0Runs(shared, first);
    var expired := Expired0(shared, first).value;
    Adopted1Runs(expired, second);
    var adopted := Adopted1(expired, second).value;
    AfterTwo(adopted, BeginPublish(1, second), Write(1));
  }
}
