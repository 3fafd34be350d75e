/** The durable state of the memory state store and its atomic transitions:
    committing a staged transaction, claiming from the outbox, acknowledging a claim. */
module StoreModel {
  import opened Order
  import opened StateStrings

  datatype Option<+T> = None | Some(value: T)

  datatype StoreError =
    Closed | DataInvalid | FenceStale | IdempotencyConflict | QueryInvalid | RevisionConflict

  datatype Outcome<+T> = Ok(value: T) | Err(error: StoreError)

  /** The first elements of a result, when there is a limit. */
  function Limited<T>(xs: seq<T>, limit: Option<int>): (taken: seq<T>)
    requires limit.Some? ==> limit.value >= 0
    ensures taken <= xs
  {
    if limit.Some? && limit.value < |xs| then xs[..limit.value] else xs
  }

  datatype Json =
    | Null
    | Bool(b: bool)
    | Number(x: real)
    | Text(s: JsString)
    | List(items: seq<Json>)
    | Object(fields: map<JsString, Json>)

  datatype Record = Record(value: Json, revision: nat)

  /** The revision a write expects its record to have. */
  datatype Expected = Any | Absent | At(revision: nat)

  datatype Mutation =
    | Put(key: StateKey, value: Json, expected: Expected)
    | Delete(key: StateKey, expected: Expected)

  datatype OperationStatus = Completed | Executing | Failed | Planned
  datatype Operation = Operation(operationId: JsString, kind: JsString, status: OperationStatus, state: Json,
                                 updatedAt: JsString)
  datatype JournalEntry = JournalEntry(operation: Operation, revision: nat)

  /** A timestamp string: canonical ones are their instant in milliseconds. */
  datatype Instant = Canonical(ms: int) | Malformed

  datatype OutboxMessage = OutboxMessage(
    messageId: JsString, operationId: JsString, topic: JsString,
    payload: Json, payloadBytes: nat, createdAt: Instant, availableAt: Instant)

  datatype Claim = Claim(message: OutboxMessage, owner: JsString, claimEpoch: nat, attempt: nat, claimedAt: int,
                         expiresAt: int)
  datatype AckOutcome = AckCompleted | AckRetry
  datatype Ack = Ack(messageId: JsString, outcome: AckOutcome, attempt: nat, acknowledgedAt: int, duplicate: bool,
                     retryAt: Option<Instant>)

  datatype OutboxEntry = OutboxEntry(
    message: OutboxMessage, enqueueSequence: nat, attempt: nat,
    claim: Option<Claim>, acknowledgement: Option<Ack>, acknowledgedClaim: Option<Claim>)

  datatype Fencing = Fencing(resource: JsString, epoch: nat)
  datatype Identity = Identity(key: JsString, fingerprint: JsString)
  datatype IdempotencyRecord = IdempotencyRecord(fingerprint: JsString, result: Json)

  /** One entry of the change log; a deletion carries no value. */
  datatype Change = Change(revision: nat, key: StateKey, value: Option<Json>)

  datatype Lifecycle = Created | Open | Shut

  datatype Store = Store(
    lifecycle: Lifecycle,
    records: map<StateKey, Record>,
    operations: map<JsString, JournalEntry>,
    history: seq<JournalEntry>,
    outbox: map<JsString, OutboxEntry>,
    outboxSequence: nat,
    fences: map<JsString, nat>,
    changes: seq<Change>,
    idempotency: map<JsString, IdempotencyRecord>,
    revision: nat)

  const EmptyStore: Store := Store(Open, map[], map[], [], map[], 0, map[], [], map[], 0)

  /** What a finished transaction hands to its commit. */
  datatype Staged = Staged(mutations: seq<Mutation>, operations: seq<Operation>, outbox: seq<OutboxMessage>)

  predicate MutationLess(a: Mutation, b: Mutation) { KeyLess(a.key, b.key) }

  /** Mutations come sorted with one per key, and an operation is appended once. */
  ghost predicate WellStaged(staged: Staged) {
    && Ascending(MutationLess, staged.mutations)
    && forall i, j | 0 <= i < j < |staged.operations| ::
      staged.operations[i].operationId != staged.operations[j].operationId
  }

  // ----- Record mutations

  predicate Matches(records: map<StateKey, Record>, key: StateKey, expected: Expected) {
    match expected
    case Any => true
    case Absent => key !in records
    case At(revision) => key in records && records[key].revision == revision
  }

  predicate AllMatch(records: map<StateKey, Record>, mutations: seq<Mutation>) {
    forall i | 0 <= i < |mutations| :: Matches(records, mutations[i].key, mutations[i].expected)
  }

  predicate Effective(records: map<StateKey, Record>, m: Mutation) {
    m.Put? || m.key in records
  }

  /** Deleting an absent record is not a change. */
  function Applied(records: map<StateKey, Record>, mutations: seq<Mutation>): seq<Mutation> {
    if mutations == [] then []
    else (if Effective(records, mutations[0]) then [mutations[0]] else []) + Applied(records, mutations[1..])
  }

  function MutationOn(mutations: seq<Mutation>, key: StateKey): (m: Option<Mutation>)
    ensures m.Some? ==> m.value in mutations && m.value.key == key
    ensures m.None? ==> forall n | n in mutations :: n.key != key
  {
    if mutations == [] then None
    else if mutations[0].key == key then Some(mutations[0])
    else MutationOn(mutations[1..], key)
  }

  function KeysOf(mutations: seq<Mutation>): set<StateKey> {
    set m | m in mutations :: m.key
  }

  predicate Remains(records: map<StateKey, Record>, mutations: seq<Mutation>, key: StateKey) {
    var m := MutationOn(mutations, key);
    if m.None? then key in records else m.value.Put?
  }

  /** The records after the mutations, key by key. */
  function Installed(records: map<StateKey, Record>, mutations: seq<Mutation>, revision: nat): map<StateKey, Record> {
    map key | key in records.Keys + KeysOf(mutations) && Remains(records, mutations, key) ::
      var m := MutationOn(mutations, key);
      if m.None? then records[key] else Record(m.value.value, revision)
  }

  function ChangeOf(m: Mutation, revision: nat): Change {
    Change(revision, m.key, if m.Put? then Some(m.value) else None)
  }

  function ChangesOf(applied: seq<Mutation>, revision: nat): (cs: seq<Change>)
    ensures |cs| == |applied|
    ensures forall i | 0 <= i < |cs| :: cs[i] == ChangeOf(applied[i], revision)
  {
    seq(|applied|, i requires 0 <= i < |applied| => ChangeOf(applied[i], revision))
  }

  // ----- Fencing

  predicate FenceIsStale(fences: map<JsString, nat>, fencing: Option<Fencing>) {
    fencing.Some? && fencing.value.resource in fences && fencing.value.epoch < fences[fencing.value.resource]
  }

  predicate AdvancesFence(fences: map<JsString, nat>, fencing: Option<Fencing>) {
    fencing.Some? && (fencing.value.resource !in fences || fencing.value.epoch > fences[fencing.value.resource])
  }

  function Fenced(fences: map<JsString, nat>, fencing: Option<Fencing>): map<JsString, nat> {
    if fencing.None? then fences else fences[fencing.value.resource := fencing.value.epoch]
  }

  // ----- Outbox staging

  const OUTBOX_TOPIC_MAX_LENGTH: nat := 128
  const OUTBOX_PAYLOAD_MAX_BYTES: nat := 1_048_576
  const MAX_SAFE_INTEGER: nat := 9_007_199_254_740_991
  const MAXIMUM_UNSIGNED_64: nat := 0xffff_ffff_ffff_ffff

  predicate IsAlphanumeric(c: CodeUnit) {
    0x30 <= c <= 0x39 || 0x41 <= c <= 0x5a || 0x61 <= c <= 0x7a
  }

  predicate IsNameTail(c: CodeUnit) {
    IsAlphanumeric(c) || c == 0x2e || c == 0x5f || c == 0x2d
  }

  /** A letter or digit followed by letters, digits, dots, underscores and hyphens. */
  predicate IsName(s: JsString) {
    |s| > 0 && IsAlphanumeric(s[0]) && forall i | 0 < i < |s| :: IsNameTail(s[i])
  }

  predicate IsPortableName(s: JsString) { IsName(s) && |s| <= 128 }

  predicate WithinOutboxBounds(m: OutboxMessage) {
    && |m.topic| <= OUTBOX_TOPIC_MAX_LENGTH
    && IsName(m.topic)
    && m.payloadBytes <= OUTBOX_PAYLOAD_MAX_BYTES
    && m.createdAt.Canonical?
    && m.availableAt.Canonical?
  }

  /** Identity of content: timestamps do not count. */
  predicate SameOutboxMessage(a: OutboxMessage, b: OutboxMessage) {
    a.messageId == b.messageId && a.operationId == b.operationId && a.topic == b.topic && a.payload == b.payload
  }

  function FindMessage(messages: seq<OutboxMessage>, id: JsString): (m: Option<OutboxMessage>)
    ensures m.Some? ==> m.value in messages && m.value.messageId == id
    ensures m.None? ==> forall n | n in messages :: n.messageId != id
  {
    if messages == [] then None
    else if messages[0].messageId == id then Some(messages[0])
    else FindMessage(messages[1..], id)
  }

  predicate AwaitsRetry(e: OutboxEntry) {
    e.acknowledgement.Some? && e.acknowledgement.value.outcome == AckRetry
  }

  predicate IsCompleted(e: OutboxEntry) {
    e.acknowledgement.Some? && e.acknowledgement.value.outcome == AckCompleted
  }

  /** One staged message against the outbox and the messages already planned. */
  function PlanOne(outbox: map<JsString, OutboxEntry>, planned: seq<OutboxMessage>,
                   m: OutboxMessage): Outcome<seq<OutboxMessage>>
  {
    if !WithinOutboxBounds(m) then Err(DataInvalid)
    else
      var twin := FindMessage(planned, m.messageId);
      if twin.Some? then
        if SameOutboxMessage(twin.value, m) then Ok(planned) else Err(IdempotencyConflict)
      else if m.messageId !in outbox || AwaitsRetry(outbox[m.messageId]) then Ok(planned + [m])
      else if SameOutboxMessage(outbox[m.messageId].message, m) then Ok(planned)
      else Err(IdempotencyConflict)
  }

  function PlanOutbox(outbox: map<JsString, OutboxEntry>, planned: seq<OutboxMessage>,
                      messages: seq<OutboxMessage>): Outcome<seq<OutboxMessage>>
    decreases messages
  {
    if messages == [] then Ok(planned)
    else
      var next := PlanOne(outbox, planned, messages[0]);
      if next.Err? then next else PlanOutbox(outbox, next.value, messages[1..])
  }

  function FreshEntry(m: OutboxMessage, sequence: nat): OutboxEntry {
    OutboxEntry(m, sequence, 0, None, None, None)
  }

  function Enqueued(outbox: map<JsString, OutboxEntry>, sequence: nat,
                    messages: seq<OutboxMessage>): map<JsString, OutboxEntry>
    decreases messages
  {
    if messages == [] then outbox
    else Enqueued(outbox[messages[0].messageId := FreshEntry(messages[0], sequence + 1)], sequence + 1, messages[1..])
  }

  // ----- Journal

  function JournalOf(operations: seq<Operation>, revision: nat): (es: seq<JournalEntry>)
    ensures |es| == |operations|
    ensures forall i | 0 <= i < |es| :: es[i] == JournalEntry(operations[i], revision)
  {
    seq(|operations|, i requires 0 <= i < |operations| => JournalEntry(operations[i], revision))
  }

  function Journaled(current: map<JsString, JournalEntry>, entries: seq<JournalEntry>): map<JsString, JournalEntry>
    decreases entries
  {
    if entries == [] then current
    else Journaled(current[entries[0].operation.operationId := entries[0]], entries[1..])
  }

  // ----- Commit

  predicate Mutates(s: Store, fencing: Option<Fencing>, staged: Staged, added: seq<OutboxMessage>) {
    Applied(s.records, staged.mutations) != [] || staged.operations != [] || added != []
      || AdvancesFence(s.fences, fencing)
  }

  /** The store after a mutating commit, before the idempotency record. */
  function Written(s: Store, fencing: Option<Fencing>, staged: Staged, added: seq<OutboxMessage>): Store {
    var revision := s.revision + 1;
    var entries := JournalOf(staged.operations, revision);
    s.(records := Installed(s.records, staged.mutations, revision),
       operations := Journaled(s.operations, entries),
       history := s.history + entries,
       outbox := Enqueued(s.outbox, s.outboxSequence, added),
       outboxSequence := s.outboxSequence + |added|,
       fences := if AdvancesFence(s.fences, fencing) then Fenced(s.fences, fencing) else s.fences,
       changes := s.changes + ChangesOf(Applied(s.records, staged.mutations), revision),
       revision := revision)
  }

  function Remembered(s: Store, identity: Option<Identity>, result: Json): Store {
    if identity.None? then s
    else s.(idempotency := s.idempotency[identity.value.key := IdempotencyRecord(identity.value.fingerprint, result)])
  }

  function Commit(s: Store, fencing: Option<Fencing>, identity: Option<Identity>, staged: Staged,
                  result: Json): (Store, Outcome<Json>)
  {
    if s.lifecycle != Open then (s, Err(Closed))
    else if !AllMatch(s.records, staged.mutations) then (s, Err(RevisionConflict))
    else
      var plan := PlanOutbox(s.outbox, [], staged.outbox);
      if plan.Err? then (s, Err(plan.error))
      else if FenceIsStale(s.fences, fencing) then (s, Err(FenceStale))
      else
        var written := if Mutates(s, fencing, staged, plan.value) then Written(s, fencing, staged, plan.value) else s;
        (Remembered(written, identity, result), Ok(result))
  }

  // ----- Outbox claims

  datatype ClaimRequest = ClaimRequest(owner: JsString, leaseDurationMs: int, limit: Option<int>,
                                       topic: Option<JsString>, fencing: Option<Fencing>)

  predicate ValidClaimRequest(r: ClaimRequest) {
    && IsPortableName(r.owner)
    && (r.topic.Some? ==> IsPortableName(r.topic.value))
    && 0 < r.leaseDurationMs <= 86_400_000
    && (r.limit.Some? ==> 0 < r.limit.value <= 100)
  }

  function ClaimLimit(r: ClaimRequest): (n: nat)
    requires ValidClaimRequest(r)
    ensures n > 0
  {
    if r.limit.None? then 1 else r.limit.value
  }

  function Ms(t: Instant): int { if t.Canonical? then t.ms else 0 }

  /** Where an entry stands in delivery order. */
  datatype Position = Position(availableAt: int, sequence: nat, id: JsString)

  predicate PositionLess(a: Position, b: Position) {
    || a.availableAt < b.availableAt
    || (a.availableAt == b.availableAt
        && (a.sequence < b.sequence || (a.sequence == b.sequence && LexLess(a.id, b.id))))
  }

  lemma PositionOrder()
    ensures StrictTotal(PositionLess)
  {
    forall a: Position ensures !PositionLess(a, a) { LexIrreflexive(a.id); }
    forall a: Position, b: Position, c: Position | PositionLess(a, b) && PositionLess(b, c) ensures PositionLess(a, c) {
      if a.id != b.id && LexLess(a.id, b.id) && LexLess(b.id, c.id) { LexTransitive(a.id, b.id, c.id); }
      else if LexLess(a.id, b.id) && LexLess(b.id, c.id) { LexTransitive(a.id, b.id, c.id); }
    }
    forall a: Position, b: Position | a != b ensures PositionLess(a, b) || PositionLess(b, a) {
      if a.id != b.id { LexConnected(a.id, b.id); }
    }
  }

  function PositionOf(e: OutboxEntry, id: JsString): Position {
    Position(Ms(e.message.availableAt), e.enqueueSequence, id)
  }

  predicate Eligible(e: OutboxEntry, topic: Option<JsString>, now: int) {
    && !IsCompleted(e)
    && (topic.Some? ==> e.message.topic == topic.value)
    && Ms(e.message.availableAt) <= now
    && (e.claim.Some? ==> e.claim.value.expiresAt <= now)
  }

  function EligiblePositions(outbox: map<JsString, OutboxEntry>, topic: Option<JsString>, now: int): set<Position> {
    set id | id in outbox && Eligible(outbox[id], topic, now) :: PositionOf(outbox[id], id)
  }

  /** Eligible messages in delivery order. */
  ghost function Queue(outbox: map<JsString, OutboxEntry>, topic: Option<JsString>, now: int): (queue: seq<Position>)
    ensures forall p | p in queue :: p.id in outbox
  {
    PositionOrder();
    Enumerate(PositionLess, EligiblePositions(outbox, topic, now))
  }

  predicate AttemptsExhausted(e: OutboxEntry) { e.attempt + 1 > MAX_SAFE_INTEGER }

  /** How many claims are made before the limit, the end of the queue, or an exhausted entry. */
  function ClaimCount(outbox: map<JsString, OutboxEntry>, queue: seq<Position>, limit: nat): (n: nat)
    requires forall p | p in queue :: p.id in outbox
    ensures n <= limit && n <= |queue|
    ensures forall i | 0 <= i < n :: !AttemptsExhausted(outbox[queue[i].id])
    ensures n < limit && n < |queue| ==> AttemptsExhausted(outbox[queue[n].id])
  {
    if limit == 0 || queue == [] || AttemptsExhausted(outbox[queue[0].id]) then 0
    else 1 + ClaimCount(outbox, queue[1..], limit - 1)
  }

  function ClaimOf(e: OutboxEntry, r: ClaimRequest, now: int): Claim {
    Claim(e.message, r.owner, e.attempt + 1, e.attempt + 1, now, now + r.leaseDurationMs)
  }

  function Claimed(e: OutboxEntry, r: ClaimRequest, now: int): OutboxEntry {
    e.(attempt := e.attempt + 1, claim := Some(ClaimOf(e, r, now)), acknowledgement := None, acknowledgedClaim := None)
  }

  function IdsOf(queue: seq<Position>): set<JsString> {
    set p | p in queue :: p.id
  }

  function WithClaims(outbox: map<JsString, OutboxEntry>, chosen: set<JsString>, r: ClaimRequest,
                      now: int): map<JsString, OutboxEntry>
  {
    map id | id in outbox :: if id in chosen then Claimed(outbox[id], r, now) else outbox[id]
  }

  function ClaimsOf(outbox: map<JsString, OutboxEntry>, queue: seq<Position>, r: ClaimRequest,
                    now: int): (cs: seq<Claim>)
    requires forall p | p in queue :: p.id in outbox
    ensures |cs| == |queue|
    ensures forall i | 0 <= i < |cs| :: cs[i] == ClaimOf(outbox[queue[i].id], r, now)
  {
    seq(|queue|, i requires 0 <= i < |queue| => ClaimOf(outbox[queue[i].id], r, now))
  }

  /** The messages a claim takes; exhausted when it stopped at an entry whose attempts ran out. */
  datatype ClaimPlan = ClaimPlan(chosen: set<JsString>, claims: seq<Claim>, exhausted: bool)

  /** Claims down a delivery queue: up to the limit, stopping at an exhausted entry. */
  function PlanAlong(outbox: map<JsString, OutboxEntry>, queue: seq<Position>, r: ClaimRequest, now: int): ClaimPlan
    requires ValidClaimRequest(r) && forall p | p in queue :: p.id in outbox
  {
    var n := ClaimCount(outbox, queue, ClaimLimit(r));
    ClaimPlan(IdsOf(queue[..n]), ClaimsOf(outbox, queue[..n], r, now), n < ClaimLimit(r) && n < |queue|)
  }

  ghost function PlanClaims(outbox: map<JsString, OutboxEntry>, r: ClaimRequest, now: int): ClaimPlan
    requires ValidClaimRequest(r)
  {
    PlanAlong(outbox, Queue(outbox, r.topic, now), r, now)
  }

  /** An attempt overflow leaves the claims made before it in place, without a new revision. */
  function ConcludeClaims(s: Store, r: ClaimRequest, now: int, plan: ClaimPlan): (Store, Outcome<seq<Claim>>) {
    var claimed := s.(outbox := WithClaims(s.outbox, plan.chosen, r, now));
    if plan.exhausted then (claimed, Err(DataInvalid))
    else if plan.claims != [] || AdvancesFence(s.fences, r.fencing) then
      (claimed.(revision := s.revision + 1, fences := Fenced(s.fences, r.fencing)), Ok(plan.claims))
    else (claimed, Ok([]))
  }

  ghost function ClaimOutbox(s: Store, r: ClaimRequest, now: int): (Store, Outcome<seq<Claim>>) {
    if s.lifecycle != Open then (s, Err(Closed))
    else if !ValidClaimRequest(r) then (s, Err(QueryInvalid))
    else if FenceIsStale(s.fences, r.fencing) then (s, Err(FenceStale))
    else ConcludeClaims(s, r, now, PlanClaims(s.outbox, r, now))
  }

  // ----- Outbox acknowledgements

  datatype AckRequest = AckRequest(
    messageId: JsString, owner: JsString, claimEpoch: nat, outcome: AckOutcome, retryAt: Option<Instant>,
        fencing: Option<Fencing>)

  predicate ValidAckRequest(r: AckRequest) {
    && IsPortableName(r.owner)
    && (r.outcome == AckRetry ==> r.retryAt.Some? && r.retryAt.value.Canonical?)
    && (r.outcome == AckCompleted ==> r.retryAt.None?)
  }

  predicate HoldsClaim(claim: Option<Claim>, owner: JsString, epoch: nat) {
    claim.Some? && claim.value.owner == owner && claim.value.claimEpoch == epoch
  }

  function Acknowledged(e: OutboxEntry, r: AckRequest, now: int): OutboxEntry
    requires e.claim.Some?
    requires ValidAckRequest(r)
  {
    OutboxEntry(
      if r.outcome == AckRetry then e.message.(availableAt := r.retryAt.value) else e.message,
      e.enqueueSequence, e.attempt, None,
      Some(Ack(r.messageId, r.outcome, e.claim.value.attempt, now, false, r.retryAt)),
      e.claim)
  }

  function ConcludeAck(s: Store, r: AckRequest, now: int): Store
    requires ValidAckRequest(r) && r.messageId in s.outbox && s.outbox[r.messageId].claim.Some?
  {
    s.(outbox := s.outbox[r.messageId := Acknowledged(s.outbox[r.messageId], r, now)],
       revision := s.revision + 1,
       fences := if AdvancesFence(s.fences, r.fencing) then Fenced(s.fences, r.fencing) else s.fences)
  }

  function AcknowledgeOutbox(s: Store, r: AckRequest, now: int): (Store, Outcome<Ack>) {
    if s.lifecycle != Open then (s, Err(Closed))
    else if !ValidAckRequest(r) then (s, Err(QueryInvalid))
    else if FenceIsStale(s.fences, r.fencing) then (s, Err(FenceStale))
    else if r.messageId !in s.outbox then (s, Err(QueryInvalid))
    else
      var e := s.outbox[r.messageId];
      var advances := AdvancesFence(s.fences, r.fencing);
      if e.acknowledgement.Some? && HoldsClaim(e.acknowledgedClaim, r.owner, r.claimEpoch) then
        if e.acknowledgement.value.outcome != r.outcome || e.acknowledgement.value.retryAt != r.retryAt then
          (s, Err(IdempotencyConflict))
        else
          (if advances then s.(revision := s.revision + 1, fences := Fenced(s.fences, r.fencing)) else s,
           Ok(e.acknowledgement.value.(duplicate := true)))
      else if !HoldsClaim(e.claim, r.owner, r.claimEpoch) then (s, Err(FenceStale))
      else
        (ConcludeAck(s, r, now), Ok(Acknowledged(e, r, now).acknowledgement.value))
  }

  function Close(s: Store): Store { s.(lifecycle := Shut) }
}
