/** What claims and acknowledgements say and do, in terms of their requests; and what that means
    for leases and retries over whole runs. */
module OutboxLaws {
  import opened Order
  import opened StateStrings
  import opened StoreModel
  import opened StoreInvariants
  import opened OutboxRuns

  // ----- Claims

  /** A message that may be handed out: not completed, of the topic asked for, available, and
      not under a claim that still holds. */
  ghost predicate Waits(e: OutboxEntry, topic: Option<JsString>, now: int) {
    && !(e.acknowledgement.Some? && e.acknowledgement.value.outcome == AckCompleted)
    && (topic.None? || e.message.topic == topic.value)
    && e.message.availableAt.Canonical? && e.message.availableAt.ms <= now
    && (e.claim.None? || e.claim.value.expiresAt <= now)
  }

  ghost predicate FenceBehind(fences: map<JsString, nat>, fencing: Option<Fencing>) {
    fencing.Some? && fencing.value.resource in fences && fencing.value.epoch < fences[fencing.value.resource]
  }

  ghost predicate FenceAhead(fences: map<JsString, nat>, fencing: Option<Fencing>) {
    fencing.Some? && (fencing.value.resource in fences ==> fences[fencing.value.resource] < fencing.value.epoch)
  }

  /** The presented fence is stored, the others stay. */
  ghost predicate FencesAre(fences: map<JsString, nat>, fencing: Option<Fencing>, after: map<JsString, nat>) {
    && (fencing.Some? ==> fencing.value.resource in after && after[fencing.value.resource] == fencing.value.epoch)
    && forall resource | fencing.None? || resource != fencing.value.resource ::
      (resource in after <==> resource in fences) && (resource in fences ==> after[resource] == fences[resource])
  }

  /** What the claim loop does not skip. */
  lemma WaitingIsEligible(outbox: map<JsString, OutboxEntry>, sequence: nat, id: JsString, topic: Option<JsString>,
                          now: int)
    requires OutboxOk(outbox, sequence) && id in outbox
    ensures Eligible(outbox[id], topic, now) <==> Waits(outbox[id], topic, now)
  {
    assert EntryOk(id, outbox[id]);
  }

  /** Every claim that is handed out is for its message as stored, by the one who asked, from now
      for the time asked for, with the next attempt as its epoch. */
  lemma ClaimTerms(s: Store, r: ClaimRequest, now: int, i: nat)
    requires OutboxOk(s.outbox, s.outboxSequence) && ClaimSucceeds(s, r, now) && i < |ClaimsMade(s, r, now)|
    ensures var c := ClaimsMade(s, r, now)[i];
      var id := c.message.messageId;
      && id in s.outbox && c.message == s.outbox[id].message && Waits(s.outbox[id], r.topic, now)
      && c.owner == r.owner && c.claimedAt == now && c.expiresAt == now + r.leaseDurationMs
      && c.attempt == c.claimEpoch == s.outbox[id].attempt + 1
      && id in ClaimOutbox(s, r, now).0.outbox && ClaimOutbox(s, r, now).0.outbox[id].claim == Some(c)
      && ClaimOutbox(s, r, now).0.outbox[id].acknowledgement.None?
  {
    hide ClaimOutbox, Queue, OutboxOk, EligiblePositions;
    ClaimShape(s, r, now);
    QueueMembers(s.outbox, r.topic, now);
    var c := ClaimsMade(s, r, now)[i];
    WaitingIsEligible(s.outbox, s.outboxSequence, c.message.messageId, r.topic, now);
    ClaimLeavesOthers(s, r, now, c.message.messageId);
  }

  /** A claim that hands out fewer messages than asked for has handed out all that wait, and no others. */
  lemma ClaimTakesAllThatWait(s: Store, r: ClaimRequest, now: int, id: JsString)
    requires OutboxOk(s.outbox, s.outboxSequence) && ClaimSucceeds(s, r, now)
    requires |ClaimsMade(s, r, now)| < if r.limit.Some? then r.limit.value else 1
    ensures (exists i :: 0 <= i < |ClaimsMade(s, r, now)| && ClaimsMade(s, r, now)[i].message.messageId == id) <==>
      id in s.outbox && Waits(s.outbox[id], r.topic, now)
  {
    hide ClaimOutbox, Queue, OutboxOk, EligiblePositions;
    ClaimShape(s, r, now);
    QueueMembers(s.outbox, r.topic, now);
    var queue := Queue(s.outbox, r.topic, now);
    assert |ClaimsMade(s, r, now)| == |queue|;
    if id in s.outbox { WaitingIsEligible(s.outbox, s.outboxSequence, id, r.topic, now); }
    if id in s.outbox && Waits(s.outbox[id], r.topic, now) {
      var i :| 0 <= i < |queue| && queue[i] == PositionOf(s.outbox[id], id);
      assert ClaimsMade(s, r, now)[i].message.messageId == id;
    }
  }

  /** An operation issues a claim on a message, as it is said over runs, when the claim is handed out. */
  lemma HandedOutIsIssued(s: Store, r: ClaimRequest, now: int, id: JsString)
    requires OutboxOk(s.outbox, s.outboxSequence) && ClaimSucceeds(s, r, now)
    ensures Issues(s, ClaimOp(r, now), id) <==>
      exists i :: 0 <= i < |ClaimsMade(s, r, now)| && ClaimsMade(s, r, now)[i].message.messageId == id
  {
    hide Queue, OutboxOk, EligiblePositions, PlanClaims;
    ClaimConcludes(s, r, now);
    PlanShape(s, r, now);
    ClaimShape(s, r, now);
    var claims, queue := ClaimsMade(s, r, now), Queue(s.outbox, r.topic, now);
    assert forall i | 0 <= i < |claims| :: queue[..|claims|][i].id == claims[i].message.messageId;
  }

  /** A message goes before another: it is available earlier, or was enqueued earlier, or has the lesser identifier. */
  ghost predicate GoesFirst(outbox: map<JsString, OutboxEntry>, x: JsString, y: JsString) {
    && x in outbox && y in outbox
    && outbox[x].message.availableAt.Canonical? && outbox[y].message.availableAt.Canonical?
    && var a, b := outbox[x].message.availableAt.ms, outbox[y].message.availableAt.ms;
    && a <= b && (a == b ==> outbox[x].enqueueSequence <= outbox[y].enqueueSequence)
    && (a == b && outbox[x].enqueueSequence == outbox[y].enqueueSequence ==> LexLess(x, y))
  }

  ghost predicate LeftWaiting(s: Store, r: ClaimRequest, now: int, id: JsString)
    requires ClaimSucceeds(s, r, now)
  {
    && id in s.outbox && Waits(s.outbox[id], r.topic, now)
    && forall k | 0 <= k < |ClaimsMade(s, r, now)| :: ClaimsMade(s, r, now)[k].message.messageId != id
  }

  /** Claims are handed out in that order, and a message that waits is left out only when as many as
      asked for were handed out, all of which go before it. */
  lemma EarliestAreHandedOut(s: Store, r: ClaimRequest, now: int, i: nat, id: JsString)
    requires OutboxOk(s.outbox, s.outboxSequence) && ClaimSucceeds(s, r, now) && i < |ClaimsMade(s, r, now)|
    ensures forall j | i < j < |ClaimsMade(s, r, now)| ::
      GoesFirst(s.outbox, ClaimsMade(s, r, now)[i].message.messageId, ClaimsMade(s, r, now)[j].message.messageId)
    ensures LeftWaiting(s, r, now, id) ==>
      && |ClaimsMade(s, r, now)| == (if r.limit.Some? then r.limit.value else 1)
      && GoesFirst(s.outbox, ClaimsMade(s, r, now)[i].message.messageId, id)
  {
    hide ClaimOutbox, Queue, OutboxOk, EligiblePositions, Eligible;
    var claims := ClaimsMade(s, r, now);
    ClaimShape(s, r, now);
    ClaimTakesFirstEligible(s, r, now);
    ClaimTerms(s, r, now, i);
    forall j | i < j < |claims| ensures GoesFirst(s.outbox, claims[i].message.messageId, claims[j].message.messageId) {
      ClaimTerms(s, r, now, j);
    }
    if LeftWaiting(s, r, now, id) {
      WaitingIsEligible(s.outbox, s.outboxSequence, id, r.topic, now);
      ClaimSkipsNoOne(s, r, now, id, i);
      if |claims| < (if r.limit.Some? then r.limit.value else 1) { ClaimTakesAllThatWait(s, r, now, id); }
    }
  }

  /** Which claims are refused, and what a successful one does to the rest of the store. */
  lemma ClaimOutcome(s: Store, r: ClaimRequest, now: int)
    ensures var (s', answer) := ClaimOutbox(s, r, now);
      var valid :=
        && IsPortableName(r.owner) && (r.topic.Some? ==> IsPortableName(r.topic.value))
        && 0 < r.leaseDurationMs <= 86_400_000 && (r.limit.Some? ==> 0 < r.limit.value <= 100);
      && (answer == Err(Closed) <==> s.lifecycle != Open)
      && (answer == Err(QueryInvalid) <==> s.lifecycle == Open && !valid)
      && (answer == Err(FenceStale) <==> s.lifecycle == Open && valid && FenceBehind(s.fences, r.fencing))
      && (answer.Ok? ==>
            && FencesAre(s.fences, r.fencing, s'.fences)
            && s'.revision == s.revision + if answer.value != [] || FenceAhead(s.fences, r.fencing) then 1 else 0)
      && s'.(outbox := s.outbox, fences := s.fences, revision := s.revision) == s
      && (answer.Err? ==> s'.fences == s.fences && s'.revision == s.revision)
  {
    hide IsPortableName;
    if ValidClaimRequest(r) && !FenceBehind(s.fences, r.fencing) {
      hide PlanClaims, WithClaims;
      ConcludedRest(s, r, now, PlanClaims(s.outbox, r, now));
    }
  }

  lemma ConcludedRest(s: Store, r: ClaimRequest, now: int, plan: ClaimPlan)
    requires !FenceBehind(s.fences, r.fencing)
    ensures var (s', answer) := ConcludeClaims(s, r, now, plan);
      && (answer.Ok? ==>
            && FencesAre(s.fences, r.fencing, s'.fences)
            && s'.revision == s.revision + if answer.value != [] || FenceAhead(s.fences, r.fencing) then 1 else 0)
      && s'.(outbox := s.outbox, fences := s.fences, revision := s.revision) == s
      && (answer.Err? ==> s'.fences == s.fences && s'.revision == s.revision && answer.error == DataInvalid)
  {
    hide WithClaims;
  }

  // ----- Acknowledgements

  ghost predicate AckIsValid(r: AckRequest) {
    && IsPortableName(r.owner)
    && (r.outcome == AckRetry ==> r.retryAt.Some? && r.retryAt.value.Canonical?)
    && (r.outcome == AckCompleted ==> r.retryAt.None?)
  }

  ghost predicate Held(claim: Option<Claim>, r: AckRequest) {
    claim.Some? && claim.value.owner == r.owner && claim.value.claimEpoch == r.claimEpoch
  }

  /** The claim was acknowledged before. */
  ghost predicate AckedBefore(e: OutboxEntry, r: AckRequest) { e.acknowledgement.Some? && Held(e.acknowledgedClaim, r) }

  ghost predicate SameAck(e: OutboxEntry, r: AckRequest) {
    && e.acknowledgement.Some? && e.acknowledgement.value.outcome == r.outcome
    && e.acknowledgement.value.retryAt == r.retryAt
  }

  ghost predicate MayAcknowledge(e: OutboxEntry, r: AckRequest) {
    if AckedBefore(e, r) then SameAck(e, r) else Held(e.claim, r)
  }

  /** Which acknowledgements are accepted, and the error of every one that is not. */
  lemma AcknowledgeOutcome(s: Store, r: AckRequest, now: int)
    ensures var (s', answer) := AcknowledgeOutbox(s, r, now);
      var checked := s.lifecycle == Open && AckIsValid(r) && !FenceBehind(s.fences, r.fencing);
      var known := checked && r.messageId in s.outbox;
      && (answer == Err(Closed) <==> s.lifecycle != Open)
      && (answer == Err(QueryInvalid) <==>
            s.lifecycle == Open && (!AckIsValid(r) || (checked && r.messageId !in s.outbox)))
      && (answer == Err(IdempotencyConflict) <==>
            known && AckedBefore(s.outbox[r.messageId], r) && !SameAck(s.outbox[r.messageId], r))
      && (answer == Err(FenceStale) <==>
            || (s.lifecycle == Open && AckIsValid(r) && FenceBehind(s.fences, r.fencing))
            || (known && !AckedBefore(s.outbox[r.messageId], r) && !Held(s.outbox[r.messageId].claim, r)))
      && (answer.Ok? <==> known && MayAcknowledge(s.outbox[r.messageId], r))
      && (answer.Err? ==> s' == s)
  {
    hide IsPortableName;
  }

  /** A repeated acknowledgement repeats the answer and changes no entry. */
  lemma RepeatedAcknowledgement(s: Store, r: AckRequest, now: int)
    requires AcknowledgeOutbox(s, r, now).1.Ok? && r.messageId in s.outbox && AckedBefore(s.outbox[r.messageId], r)
    ensures var (s', answer) := AcknowledgeOutbox(s, r, now);
      && answer.value == s.outbox[r.messageId].acknowledgement.value.(duplicate := true)
      && s'.(fences := s.fences, revision := s.revision) == s && FencesAre(s.fences, r.fencing, s'.fences)
      && s'.revision == s.revision + if FenceAhead(s.fences, r.fencing) then 1 else 0
  {
    hide IsPortableName;
  }

  /** A first acknowledgement takes the claim off the message, keeps it as the acknowledged one and
      records the outcome; a message to be retried becomes available when the request says. */
  lemma FirstAcknowledgement(s: Store, r: AckRequest, now: int)
    requires AcknowledgeOutbox(s, r, now).1.Ok? && r.messageId in s.outbox && !AckedBefore(s.outbox[r.messageId], r)
    ensures s.outbox[r.messageId].claim.Some?
    ensures var (s', answer) := AcknowledgeOutbox(s, r, now);
      var e, ack := s.outbox[r.messageId], answer.value;
      && ack.messageId == r.messageId && ack.outcome == r.outcome && ack.attempt == e.claim.value.attempt
      && ack.acknowledgedAt == now && !ack.duplicate && ack.retryAt == r.retryAt
      && s'.outbox.Keys == s.outbox.Keys
      && (forall id | id in s.outbox && id != r.messageId :: s'.outbox[id] == s.outbox[id])
      && var e' := s'.outbox[r.messageId];
      && e'.claim.None? && e'.acknowledgedClaim == e.claim && e'.acknowledgement == Some(ack)
      && e'.attempt == e.attempt && e'.enqueueSequence == e.enqueueSequence
      && e'.message.availableAt == (if r.outcome == AckRetry then r.retryAt.value else e.message.availableAt)
      && e'.message.(availableAt := e.message.availableAt) == e.message
      && s'.(outbox := s.outbox, fences := s.fences, revision := s.revision) == s
      && s'.revision == s.revision + 1 && FencesAre(s.fences, r.fencing, s'.fences)
  {
    hide IsPortableName;
  }

  // ----- Over runs

  /** No claim on the message was given back for retry in between. */
  ghost predicate NoRetry(stores: seq<Store>, ops: seq<StoreOp>, i: nat, j: nat, id: JsString)
    requires |stores| == |ops| + 1 && j <= |ops|
  {
    forall k | i < k < j && Acks(stores[k], ops[k], id) :: ops[k].ack.outcome != AckRetry
  }

  lemma IssueTime(s: Store, op: StoreOp, id: JsString)
    requires StoreOk(s) && id in s.outbox && Issues(s, op, id)
    ensures op.claim.leaseDurationMs > 0
    ensures s.outbox[id].claim.Some? ==> s.outbox[id].claim.value.expiresAt <= op.now
    ensures s.outbox[id].message.availableAt.Canonical? && s.outbox[id].message.availableAt.ms <= op.now
    ensures ClaimOf(s.outbox[id], op.claim, op.now).expiresAt == op.now + op.claim.leaseDurationMs
  {
    EntryIsOk(s, id);
    EntryStep(s, op, id);
    hide StoreOk, Do;
  }

  lemma ConsecutiveLeases(stores: seq<Store>, ops: seq<StoreOp>, i: nat, j: nat, id: JsString)
    requires StoreRun(stores, ops) && i < j < |ops| && SameIncarnation(stores, i, j, id)
    requires Issues(stores[i], ops[i], id) && Issues(stores[j], ops[j], id)
    requires NoneIssued(stores, ops, i, j, id) && NoRetry(stores, ops, i, j, id)
    ensures ops[i].claim.leaseDurationMs > 0
    ensures ops[i].now + ops[i].claim.leaseDurationMs <= ops[j].now
  {
    hide StoreRun, Issues, Acks, StoreOk, Do;
    StoreRunBounds(stores, ops);
    IssuedClaimStands(stores, ops, i, j, id);
    StoreRunOk(stores, ops, i);
    StoreRunOk(stores, ops, j);
    IssueTime(stores[i], ops[i], id);
    IssueTime(stores[j], ops[j], id);
    NotCompletedWhenIssued(stores[j], ops[j], id);
  }

  lemma NotCompletedWhenIssued(s: Store, op: StoreOp, id: JsString)
    requires StoreOk(s) && id in s.outbox && Issues(s, op, id)
    ensures s.outbox[id].acknowledgement.Some? ==> s.outbox[id].acknowledgement.value.outcome == AckRetry
  {
    EntryStep(s, op, id);
    hide StoreOk, Do, Issues;
  }

  /** Two claims on one incarnation, however many lie between them: unless one was given back for
      retry in between, the later is issued only when the earlier's lease has run out. */
  lemma {:induction false} LeasesAreExclusive(stores: seq<Store>, ops: seq<StoreOp>, i: nat, j: nat, id: JsString)
    requires StoreRun(stores, ops) && i < j < |ops| && SameIncarnation(stores, i, j, id)
    requires Issues(stores[i], ops[i], id) && Issues(stores[j], ops[j], id) && NoRetry(stores, ops, i, j, id)
    ensures ops[i].claim.leaseDurationMs > 0
    ensures ops[i].now + ops[i].claim.leaseDurationMs <= ops[j].now
    decreases j - i
  {
    hide StoreRun, Issues, Acks;
    StoreRunBounds(stores, ops);
    if NoneIssued(stores, ops, i, j, id) {
      ConsecutiveLeases(stores, ops, i, j, id);
    } else {
      var k :| i < k < j && Issues(stores[k], ops[k], id);
      LeasesAreExclusive(stores, ops, i, k, id);
      LeasesAreExclusive(stores, ops, k, j, id);
    }
  }

  ghost predicate WaitsUntil(stores: seq<Store>, j: nat, id: JsString, t: Instant)
    requires j < |stores|
  {
    id in stores[j].outbox && stores[j].outbox[id].message.availableAt == t && stores[j].outbox[id].claim.None?
  }

  lemma {:induction false} RetryStands(stores: seq<Store>, ops: seq<StoreOp>, i: nat, j: nat, id: JsString)
    requires StoreRun(stores, ops) && i < j < |stores| && i < |ops|
    requires SameIncarnation(stores, i, j, id) && Acks(stores[i], ops[i], id) && ops[i].ack.outcome == AckRetry
    requires NoneIssued(stores, ops, i, j, id)
    ensures ops[i].ack.retryAt.Some? && WaitsUntil(stores, j, id, ops[i].ack.retryAt.value)
  {
    hide StoreRun, StoreOk, Do, Issues, Acks, Enqueues;
    StoreRunBounds(stores, ops);
    StoreRunStep(stores, ops, j - 1);
    StoreRunOk(stores, ops, j - 1);
    EntryStep(stores[j - 1], ops[j - 1], id);
    if j > i + 1 {
      assert SameIncarnation(stores, i, j - 1, id);
      RetryStands(stores, ops, i, j - 1, id);
    }
  }

  /** The next claim of a message given back for retry comes at the time the acknowledgement named, or later. */
  lemma RetryWaits(stores: seq<Store>, ops: seq<StoreOp>, i: nat, j: nat, id: JsString)
    requires StoreRun(stores, ops) && i < j < |ops| && SameIncarnation(stores, i, j, id)
    requires Acks(stores[i], ops[i], id) && ops[i].ack.outcome == AckRetry
    requires NoneIssued(stores, ops, i, j, id) && Issues(stores[j], ops[j], id)
    ensures ops[i].ack.retryAt.Some? && ops[i].ack.retryAt.value.Canonical?
    ensures ops[i].ack.retryAt.value.ms <= ops[j].now
  {
    hide StoreRun, StoreOk, Do, Issues, Acks;
    StoreRunBounds(stores, ops);
    RetryStands(stores, ops, i, j, id);
    StoreRunOk(stores, ops, j);
    IssueTime(stores[j], ops[j], id);
  }
}
