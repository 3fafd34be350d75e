/** Idempotent transact calls over every interleaving, re-entrant calls and failures included. */
module Idempotency {
  import opened StateStrings
  import opened StoreModel
  import opened StoreInvariants
  import opened Transactions
  import opened TransactionRuns

  ghost predicate HasKey(identity: Option<Identity>, key: JsString) {
    identity.Some? && identity.value.key == key
  }

  /** A call that may still commit owns its key's flight, and its key is not committed yet. */
  ghost predicate OwnsFlight(sys: System, id: nat, c: Call) {
    Active(c) && c.identity.Some? ==>
      && c.identity.value.key in sys.flights
      && sys.flights[c.identity.value.key] == Flight(c.identity.value.fingerprint, id)
      && c.identity.value.key !in sys.store.idempotency
  }

  /** A finished call with an identity returned what the store remembers. */
  ghost predicate ReturnsMemory(sys: System, c: Call) {
    c.identity.Some? && c.phase.Done? && c.phase.result.Value? ==>
      && c.identity.value.key in sys.store.idempotency
      && sys.store.idempotency[c.identity.value.key] ==
        IdempotencyRecord(c.identity.value.fingerprint, c.phase.result.result)
  }

  ghost predicate JoinsTwin(sys: System, c: Call) {
    c.phase.Joined? ==>
      && c.phase.runner in sys.calls
      && sys.calls[c.phase.runner].identity == c.identity
      && !sys.calls[c.phase.runner].phase.Joined?
  }

  ghost predicate FlightOk(sys: System, key: JsString) {
    key in sys.flights ==>
      && sys.flights[key].runner in sys.calls
      && sys.calls[sys.flights[key].runner].identity == Some(Identity(key, sys.flights[key].fingerprint))
      && !sys.calls[sys.flights[key].runner].phase.Joined?
  }

  ghost predicate CallsRemember(sys: System) {
    forall id | id in sys.calls ::
      OwnsFlight(sys, id, sys.calls[id]) && ReturnsMemory(sys, sys.calls[id]) && JoinsTwin(sys, sys.calls[id])
  }

  ghost predicate FlightsOk(sys: System) {
    forall key: JsString :: FlightOk(sys, key)
  }

  /** Each committed transaction with an identity is remembered, and no key was committed twice. */
  ghost predicate LogRemembered(sys: System) {
    && (forall i | 0 <= i < |sys.log| && sys.log[i].TxEntry? && sys.log[i].identity.Some? ::
          && sys.log[i].identity.value.key in sys.store.idempotency
          && sys.store.idempotency[sys.log[i].identity.value.key] ==
            IdempotencyRecord(sys.log[i].identity.value.fingerprint, sys.log[i].result))
    && (forall i, j | 0 <= i < j < |sys.log| && sys.log[i].TxEntry? && sys.log[j].TxEntry?
        && sys.log[i].identity.Some? ::
          !HasKey(sys.log[j].identity, sys.log[i].identity.value.key))
  }

  ghost predicate IdempotencyOk(sys: System) {
    CallsRemember(sys) && FlightsOk(sys) && LogRemembered(sys)
  }

  /** Memory is written by a successful commit with an identity and by nothing else. */
  lemma CommitMemory(s: Store, fencing: Option<Fencing>, identity: Option<Identity>, staged: Staged, result: Json)
    ensures var (s', outcome) := Commit(s, fencing, identity, staged, result);
      s'.idempotency ==
        if outcome.Ok? && identity.Some? then
          s.idempotency[identity.value.key := IdempotencyRecord(identity.value.fingerprint, result)]
        else s.idempotency
  {
  }

  lemma BeginKeeps(sys: System, id: nat, o: Options, program: Program)
    requires IdempotencyOk(sys) && id !in sys.calls
    ensures IdempotencyOk(BeginCall(sys, id, o, program))
  {
    var next := BeginCall(sys, id, o, program);
    forall k | k in next.calls
      ensures OwnsFlight(next, k, next.calls[k]) && ReturnsMemory(next, next.calls[k]) && JoinsTwin(next, next.calls[k])
    {
      if k != id { assert next.calls[k] == sys.calls[k]; }
      else {
        var identity := next.calls[id].identity;
        if identity.Some? { assert FlightOk(sys, identity.value.key); }
      }
    }
    forall key: JsString ensures FlightOk(next, key) { assert FlightOk(sys, key); }
  }

  /** A call moves between running and finished phases without touching the store's memory. */
  lemma PhaseKeeps(sys: System, next: System, id: nat, phase: Phase)
    requires IdempotencyOk(sys) && id in sys.calls
    requires next == WithPhase(sys, id, phase).(queue := next.queue)
    requires !phase.Joined?
    requires (phase.Running? || phase.Queued?) ==> Active(sys.calls[id])
    requires phase.Done? && phase.result.Value? ==> ReturnsMemory(sys, sys.calls[id].(phase := phase))
    ensures IdempotencyOk(next)
  {
    forall k | k in next.calls
      ensures OwnsFlight(next, k, next.calls[k]) && ReturnsMemory(next, next.calls[k]) && JoinsTwin(next, next.calls[k])
    {
      assert OwnsFlight(sys, k, sys.calls[k]) && ReturnsMemory(sys, sys.calls[k]) && JoinsTwin(sys, sys.calls[k]);
    }
    forall key: JsString ensures FlightOk(next, key) { assert FlightOk(sys, key); }
  }

  lemma CommitKeepsCalls(sys: System, id: nat)
    requires IdempotencyOk(sys) && sys.queue != [] && id in sys.calls && sys.calls[id].phase.Queued?
    requires NextOp(sys.calls[id]).Return?
    ensures CallsRemember(CommitCall(sys, id)) && FlightsOk(CommitCall(sys, id))
  {
    var c := sys.calls[id];
    var next := CommitCall(sys, id);
    var result := NextOp(c).result;
    CommitMemory(sys.store, c.fencing, c.identity, StagedBy(c), result);
    assert OwnsFlight(sys, id, c);
    forall k | k in next.calls
      ensures OwnsFlight(next, k, next.calls[k]) && ReturnsMemory(next, next.calls[k]) && JoinsTwin(next, next.calls[k])
    {
      assert OwnsFlight(sys, k, sys.calls[k]) && ReturnsMemory(sys, sys.calls[k]) && JoinsTwin(sys, sys.calls[k]);
    }
    forall key: JsString ensures FlightOk(next, key) { assert FlightOk(sys, key); }
  }

  lemma LogRememberedExtends(sys: System, next: System, e: Entry)
    requires LogRemembered(sys) && e.TxEntry? && next.log == sys.log + [e]
    requires e.identity.Some? ==> e.identity.value.key !in sys.store.idempotency
    requires next.store.idempotency ==
      if e.identity.Some? then
        sys.store.idempotency[e.identity.value.key := IdempotencyRecord(e.identity.value.fingerprint, e.result)]
      else sys.store.idempotency
    ensures LogRemembered(next)
  {
    forall i | 0 <= i < |next.log| && next.log[i].TxEntry? && next.log[i].identity.Some?
      ensures next.log[i].identity.value.key in next.store.idempotency
      ensures next.store.idempotency[next.log[i].identity.value.key] ==
        IdempotencyRecord(next.log[i].identity.value.fingerprint, next.log[i].result)
    {
      if i < |sys.log| { assert next.log[i] == sys.log[i]; }
    }
    forall i, j | 0 <= i < j < |next.log| && next.log[i].TxEntry? && next.log[j].TxEntry? && next.log[i].identity.Some?
      ensures !HasKey(next.log[j].identity, next.log[i].identity.value.key)
    {
      assert next.log[i] == sys.log[i];
      if j < |sys.log| { assert next.log[j] == sys.log[j]; }
    }
  }

  lemma CommitKeepsLog(sys: System, id: nat)
    requires IdempotencyOk(sys) && sys.queue != [] && id in sys.calls && sys.calls[id].phase.Queued?
    requires NextOp(sys.calls[id]).Return?
    ensures LogRemembered(CommitCall(sys, id))
  {
    var c := sys.calls[id];
    var next := CommitCall(sys, id);
    var result := NextOp(c).result;
    CommitMemory(sys.store, c.fencing, c.identity, StagedBy(c), result);
    assert OwnsFlight(sys, id, c);
    if Commit(sys.store, c.fencing, c.identity, StagedBy(c), result).1.Ok? {
      LogRememberedExtends(sys, next,
                           TxEntry(id, c.fencing, c.identity, c.program, c.phase.snapshot, c.phase.steps, result));
    }
  }

  lemma DeliveryKeeps(sys: System, next: System)
    requires IdempotencyOk(sys)
    requires next.calls == sys.calls && next.flights == sys.flights && next.store.idempotency == sys.store.idempotency
    requires next.log == sys.log || exists e: Entry :: !e.TxEntry? && next.log == sys.log + [e]
    ensures IdempotencyOk(next)
  {
    forall k | k in next.calls
      ensures OwnsFlight(next, k, next.calls[k]) && ReturnsMemory(next, next.calls[k]) && JoinsTwin(next, next.calls[k])
    {
      assert OwnsFlight(sys, k, sys.calls[k]) && ReturnsMemory(sys, sys.calls[k]) && JoinsTwin(sys, sys.calls[k]);
    }
    forall key: JsString ensures FlightOk(next, key) { assert FlightOk(sys, key); }
  }

  lemma ForgetKeeps(sys: System, key: JsString)
    requires IdempotencyOk(sys) && Enabled(sys, Forget(key))
    ensures IdempotencyOk(sys.(flights := sys.flights - {key}))
  {
    var next := sys.(flights := sys.flights - {key});
    assert FlightOk(sys, key);
    forall k | k in next.calls
      ensures OwnsFlight(next, k, next.calls[k]) && ReturnsMemory(next, next.calls[k]) && JoinsTwin(next, next.calls[k])
    {
      assert OwnsFlight(sys, k, sys.calls[k]) && ReturnsMemory(sys, sys.calls[k]) && JoinsTwin(sys, sys.calls[k]);
    }
    forall other: JsString ensures FlightOk(next, other) { assert FlightOk(sys, other); }
  }

  lemma ConcludedMemory(s: Store, r: ClaimRequest, now: int, plan: ClaimPlan)
    ensures ConcludeClaims(s, r, now, plan).0.idempotency == s.idempotency
  {
  }

  lemma ClaimMemory(s: Store, r: ClaimRequest, now: int)
    ensures ClaimOutbox(s, r, now).0.idempotency == s.idempotency
  {
    hide PlanClaims, WithClaims, ConcludeClaims;
    if ValidClaimRequest(r) { ConcludedMemory(s, r, now, PlanClaims(s.outbox, r, now)); }
  }

  lemma RunJobKeeps(sys: System, now: int)
    requires IdempotencyOk(sys) && Enabled(sys, RunJob(now))
    ensures IdempotencyOk(RunHead(sys, now))
  {
    var next := RunHead(sys, now);
    match sys.queue[0]
    case CommitJob(id) =>
      if NextOp(sys.calls[id]).Return? {
        CommitKeepsCalls(sys, id);
        CommitKeepsLog(sys, id);
      } else {
        DeliveryKeeps(sys, next);
      }
    case ClaimJob(r) =>
      ClaimMemory(sys.store, r, now);
      assert next.log == sys.log + [ClaimEntry(r, now)];
      DeliveryKeeps(sys, next);
    case AckJob(r) =>
      assert next.log == sys.log + [AckEntry(r, now)];
      DeliveryKeeps(sys, next);
  }

  lemma ApplyKeepsIdempotency(sys: System, step: Step)
    requires IdempotencyOk(sys) && Enabled(sys, step)
    ensures IdempotencyOk(Apply(sys, step))
  {
    var next := Apply(sys, step);
    match step
    case Begin(id, o, program) => BeginKeeps(sys, id, o, program);
    case Advance(id) => PhaseKeeps(sys, next, id, next.calls[id].phase);
    case Conclude(id) => PhaseKeeps(sys, next, id, next.calls[id].phase);
    case RunJob(now) => RunJobKeeps(sys, now);
    case Resume(id) =>
      var runner := sys.calls[id].phase.runner;
      assert JoinsTwin(sys, sys.calls[id]) && ReturnsMemory(sys, sys.calls[runner]);
      PhaseKeeps(sys, next, id, next.calls[id].phase);
    case Forget(key) => ForgetKeeps(sys, key);
    case Ask(_) => DeliveryKeeps(sys, next);
    case CloseStore =>
      assert next.log == sys.log + [CloseEntry];
      DeliveryKeeps(sys, next);
  }

  lemma {:induction false} RunKeepsIdempotency(states: seq<System>, steps: seq<Step>, i: nat)
    requires Run(states, steps) && i < |states|
    ensures IdempotencyOk(states[i])
  {
    if i > 0 {
      RunKeepsIdempotency(states, steps, i - 1);
      ApplyKeepsIdempotency(states[i - 1], steps[i - 1]);
    }
  }

  /** Each idempotency key commits at most once, whatever calls share it. */
  lemma CommitsAtMostOnce(states: seq<System>, steps: seq<Step>, i: nat, a: nat, b: nat, key: JsString)
    requires Run(states, steps) && i < |states| && a < |states[i].log| && b < |states[i].log|
    requires states[i].log[a].TxEntry? && HasKey(states[i].log[a].identity, key)
    requires states[i].log[b].TxEntry? && HasKey(states[i].log[b].identity, key)
    ensures a == b
  {
    RunKeepsIdempotency(states, steps, i);
  }

  lemma ApplyKeepsMemory(sys: System, step: Step, key: JsString)
    requires IdempotencyOk(sys) && Enabled(sys, step) && key in sys.store.idempotency
    ensures key in Apply(sys, step).store.idempotency
    ensures Apply(sys, step).store.idempotency[key] == sys.store.idempotency[key]
  {
    if step.RunJob? {
      match sys.queue[0]
      case CommitJob(id) =>
        var c := sys.calls[id];
        assert OwnsFlight(sys, id, c);
        if NextOp(c).Return? { CommitMemory(sys.store, c.fencing, c.identity, StagedBy(c), NextOp(c).result); }
      case ClaimJob(r) => ClaimMemory(sys.store, r, step.now);
      case AckJob(r) =>
    }
  }

  /** Once a key is committed its fingerprint and result never change. */
  lemma {:induction false} MemoryIsPermanent(states: seq<System>, steps: seq<Step>, i: nat, j: nat, key: JsString)
    requires Run(states, steps) && i <= j < |states| && key in states[i].store.idempotency
    ensures key in states[j].store.idempotency
    ensures states[j].store.idempotency[key] == states[i].store.idempotency[key]
  {
    if i < j {
      MemoryIsPermanent(states, steps, i, j - 1, key);
      RunKeepsIdempotency(states, steps, j - 1);
      ApplyKeepsMemory(states[j - 1], steps[j - 1], key);
    }
  }

  /** All successful calls with one key, runners and joiners alike, used the same
      fingerprint and returned the same result. */
  lemma CallsAgree(states: seq<System>, steps: seq<Step>, i: nat, a: nat, b: nat)
    requires Run(states, steps) && i < |states| && a in states[i].calls && b in states[i].calls
    requires var c, d := states[i].calls[a], states[i].calls[b];
      && c.identity.Some? && HasKey(d.identity, c.identity.value.key)
      && c.phase.Done? && c.phase.result.Value? && d.phase.Done? && d.phase.result.Value?
    ensures states[i].calls[a].identity == states[i].calls[b].identity
    ensures states[i].calls[a].phase.result == states[i].calls[b].phase.result
  {
    RunKeepsIdempotency(states, steps, i);
    assert ReturnsMemory(states[i], states[i].calls[a]);
    assert ReturnsMemory(states[i], states[i].calls[b]);
  }

  ghost predicate KnownKey(sys: System, key: JsString) {
    key in sys.store.idempotency || key in sys.flights
  }

  function KnownFingerprint(sys: System, key: JsString): JsString
    requires key in sys.store.idempotency || key in sys.flights
  {
    if key in sys.store.idempotency then sys.store.idempotency[key].fingerprint else sys.flights[key].fingerprint
  }

  /** A call whose key is committed or in flight never starts a second transaction: a different
      fingerprint is rejected, a committed one returns at once, and the store is not touched. */
  lemma KnownKeyIsNotRunAgain(sys: System, id: nat, o: Options, program: Program)
    requires sys.store.lifecycle == Open && ParseIdentity(o).Ok? && ParseIdentity(o).value.Some?
    requires KnownKey(sys, ParseIdentity(o).value.value.key)
    ensures var key, fingerprint := ParseIdentity(o).value.value.key, ParseIdentity(o).value.value.fingerprint;
      var next := BeginCall(sys, id, o, program);
      && next.store == sys.store && next.flights == sys.flights && next.queue == sys.queue && next.log == sys.log
      && !Active(next.calls[id])
      && (next.calls[id].phase == Done(Refused(IdempotencyConflict)) <==> fingerprint != KnownFingerprint(sys, key))
      && (key in sys.store.idempotency && fingerprint == KnownFingerprint(sys, key) ==>
            next.calls[id].phase == Done(Value(sys.store.idempotency[key].result)))
  {
  }

  // ----- What a call that begins gets

  /** What is remembered was committed: each key has an entry in the log. */
  ghost predicate Committed(log: seq<Entry>, key: JsString) {
    exists i :: 0 <= i < |log| && log[i].TxEntry? && HasKey(log[i].identity, key)
  }

  ghost predicate MemoryLogged(sys: System) {
    forall key: JsString :: key in sys.store.idempotency ==> Committed(sys.log, key)
  }

  lemma LoggedStays(log: seq<Entry>, longer: seq<Entry>, key: JsString)
    requires log <= longer && Committed(log, key)
    ensures Committed(longer, key)
  {
    var i :| 0 <= i < |log| && log[i].TxEntry? && HasKey(log[i].identity, key);
    assert longer[i] == log[i];
  }

  /** A step remembers a key only by committing a transaction that has it. */
  lemma StepRemembers(sys: System, step: Step)
    requires Enabled(sys, step)
    ensures sys.log <= Apply(sys, step).log
    ensures forall key: JsString :: key in Apply(sys, step).store.idempotency && key !in sys.store.idempotency ==>
      var log := Apply(sys, step).log;
      |log| > 0 && log[|log| - 1].TxEntry? && HasKey(log[|log| - 1].identity, key)
  {
    if step.RunJob? {
      match sys.queue[0]
      case CommitJob(id) =>
        var c := sys.calls[id];
        if NextOp(c).Return? { CommitMemory(sys.store, c.fencing, c.identity, StagedBy(c), NextOp(c).result); }
      case ClaimJob(r) => ClaimMemory(sys.store, r, step.now);
      case AckJob(r) =>
    }
  }

  lemma {:induction false} RememberedIsLogged(states: seq<System>, steps: seq<Step>, i: nat)
    requires Run(states, steps) && i < |states|
    ensures MemoryLogged(states[i])
  {
    if i > 0 {
      hide Enabled, Apply, Committed;
      RunStep(states, steps, i - 1);
      RememberedIsLogged(states, steps, i - 1);
      var sys, next := states[i - 1], states[i];
      StepRemembers(sys, steps[i - 1]);
      forall key: JsString | key in next.store.idempotency ensures Committed(next.log, key) {
        if key in sys.store.idempotency { LoggedStays(sys.log, next.log, key); }
        else { LastHasKey(next.log, key); }
      }
    }
  }

  lemma LastHasKey(log: seq<Entry>, key: JsString)
    requires |log| > 0 && log[|log| - 1].TxEntry? && HasKey(log[|log| - 1].identity, key)
    ensures Committed(log, key)
  {
  }

  /** What becomes of a new call with a key: once the key is committed, it gets the committed result if it
      says the same and is refused if not; while a call with the key is in flight it joins that call or is
      refused; and only when neither is so does it run, on the records there are, as the call in flight. */
  lemma CallBegins(states: seq<System>, steps: seq<Step>, i: nat, key: JsString, fingerprint: JsString)
    requires Run(states, steps) && i < |steps| && steps[i].Begin? && states[i].store.lifecycle == Open
    requires steps[i].options.key == Some(key) && steps[i].options.fingerprint == Some(fingerprint)
    requires key != [] && fingerprint != []
    ensures var sys, next := states[i], states[i + 1];
      && steps[i].id in next.calls
      && var begun := next.calls[steps[i].id];
      && begun.identity == Some(Identity(key, fingerprint)) && begun.program == steps[i].program
      && begun.fencing == steps[i].options.fencing && next.store == sys.store && next.queue == sys.queue
      && next.calls == sys.calls[steps[i].id := begun]
      && (forall a | 0 <= a < |sys.log| && sys.log[a].TxEntry? && HasKey(sys.log[a].identity, key) ::
            begun.phase == Done(if sys.log[a].identity.value.fingerprint == fingerprint then Value(sys.log[a].result)
                                else Refused(IdempotencyConflict)))
      && ((forall a | 0 <= a < |sys.log| && sys.log[a].TxEntry? :: !HasKey(sys.log[a].identity, key)) ==>
            if key !in sys.flights then
              && begun.phase == Running(sys.store.records, 0)
              && next.flights == sys.flights[key := Flight(fingerprint, steps[i].id)]
            else
              && sys.flights[key].runner in sys.calls && next.flights == sys.flights
              && sys.calls[sys.flights[key].runner].identity.Some?
              && begun.phase ==
                if sys.calls[sys.flights[key].runner].identity.value.fingerprint == fingerprint
                then Joined(sys.flights[key].runner) else Done(Refused(IdempotencyConflict)))
  {
    RunKeepsIdempotency(states, steps, i);
    RememberedIsLogged(states, steps, i);
    RunStep(states, steps, i);
    assert FlightOk(states[i], key);
  }

  /** A call without key and fingerprint always runs; one with only half of that, or with an empty half,
      is refused, and a closed store refuses every call. */
  lemma CallWithoutKeyBegins(sys: System, id: nat, o: Options, program: Program)
    requires Enabled(sys, Begin(id, o, program))
    ensures var next := Apply(sys, Begin(id, o, program));
      && id in next.calls
      && next == sys.(calls := sys.calls[id := next.calls[id]], flights := next.flights)
      && (sys.store.lifecycle != Open ==> next.calls[id].phase == Done(Refused(Closed)))
      && (sys.store.lifecycle == Open && o.key.None? && o.fingerprint.None? ==>
            next.calls[id] == Call(o.fencing, None, program, Running(sys.store.records, 0)))
      && (sys.store.lifecycle == Open && !(o.key.None? && o.fingerprint.None?)
          && (o.key in {None, Some([])} || o.fingerprint in {None, Some([])}) ==>
            next.calls[id].phase == Done(Refused(IdempotencyConflict)))
  {
  }
}
