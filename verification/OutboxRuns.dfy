/** Outbox delivery: which messages a claim takes, and exclusivity of claims over whole runs. */
module OutboxRuns {
  import opened Order
  import opened StateStrings
  import opened StoreModel
  import opened StoreInvariants
  import opened TransactionRuns

  // ----- One claim

  ghost predicate ClaimSucceeds(s: Store, r: ClaimRequest, now: int) {
    ClaimOutbox(s, r, now).1.Ok?
  }

  ghost function EligibleIds(outbox: map<JsString, OutboxEntry>, topic: Option<JsString>, now: int): set<JsString> {
    set id | id in outbox && Eligible(outbox[id], topic, now)
  }

  lemma {:induction false} PositionsCount(outbox: map<JsString, OutboxEntry>, ids: set<JsString>)
    requires ids <= outbox.Keys
    ensures |(set id | id in ids :: PositionOf(outbox[id], id))| == |ids|
  {
    var positions := set id | id in ids :: PositionOf(outbox[id], id);
    if ids != {} {
      var id :| id in ids;
      var rest := ids - {id};
      PositionsCount(outbox, rest);
      assert positions == (set k | k in rest :: PositionOf(outbox[k], k)) + {PositionOf(outbox[id], id)};
    }
  }

  function Min(a: nat, b: nat): nat { if a < b then a else b }

  lemma QueueMembers(outbox: map<JsString, OutboxEntry>, topic: Option<JsString>, now: int)
    ensures |Queue(outbox, topic, now)| == |EligibleIds(outbox, topic, now)|
    ensures Ascending(PositionLess, Queue(outbox, topic, now))
    ensures forall i | 0 <= i < |Queue(outbox, topic, now)| ::
      var p := Queue(outbox, topic, now)[i];
      p.id in outbox && Eligible(outbox[p.id], topic, now) && p == PositionOf(outbox[p.id], p.id)
    ensures forall id | id in outbox && Eligible(outbox[id], topic, now) ::
      PositionOf(outbox[id], id) in Queue(outbox, topic, now)
  {
    PositionOrder();
    PositionsCount(outbox, EligibleIds(outbox, topic, now));
    var positions := EligiblePositions(outbox, topic, now);
    assert positions == set id | id in EligibleIds(outbox, topic, now) :: PositionOf(outbox[id], id);
    forall i | 0 <= i < |Queue(outbox, topic, now)|
      ensures var p := Queue(outbox, topic, now)[i];
        p.id in outbox && Eligible(outbox[p.id], topic, now) && p == PositionOf(outbox[p.id], p.id)
    {
      assert Queue(outbox, topic, now)[i] in positions;
    }
  }

  ghost function ClaimsMade(s: Store, r: ClaimRequest, now: int): seq<Claim>
    requires ClaimSucceeds(s, r, now)
  {
    ClaimOutbox(s, r, now).1.value
  }

  /** Where a claimed message stood in delivery order before the claim. */
  function StoodAt(outbox: map<JsString, OutboxEntry>, id: JsString): Position
    requires id in outbox
  {
    PositionOf(outbox[id], id)
  }

  ghost predicate TakesPrefix(s: Store, r: ClaimRequest, now: int, queue: seq<Position>, claims: seq<Claim>) {
    && |claims| <= |queue|
    && (forall i | 0 <= i < |claims| :: queue[i].id in s.outbox
          && claims[i] == ClaimOf(s.outbox[queue[i].id], r, now) && claims[i].message.messageId == queue[i].id)
  }

  lemma ClaimConcludes(s: Store, r: ClaimRequest, now: int)
    requires ClaimSucceeds(s, r, now)
    ensures ValidClaimRequest(r) && !PlanClaims(s.outbox, r, now).exhausted
    ensures ClaimsMade(s, r, now) == PlanClaims(s.outbox, r, now).claims
    ensures ClaimOutbox(s, r, now).0.outbox == WithClaims(s.outbox, PlanClaims(s.outbox, r, now).chosen, r, now)
  {
    if ValidClaimRequest(r) && !FenceIsStale(s.fences, r.fencing) && s.lifecycle == Open {
      ConcludedClaims(s, r, now, PlanClaims(s.outbox, r, now));
    }
  }

  lemma ConcludedClaims(s: Store, r: ClaimRequest, now: int, plan: ClaimPlan)
    ensures ConcludeClaims(s, r, now, plan).0.outbox == WithClaims(s.outbox, plan.chosen, r, now)
    ensures ConcludeClaims(s, r, now, plan).0.outbox.Keys == s.outbox.Keys
    ensures ConcludeClaims(s, r, now, plan).1 == if plan.exhausted then Err(DataInvalid) else Ok(plan.claims)
  {
  }

  lemma PlanShape(s: Store, r: ClaimRequest, now: int)
    requires OutboxOk(s.outbox, s.outboxSequence) && ValidClaimRequest(r) && !PlanClaims(s.outbox, r, now).exhausted
    ensures var queue, plan := Queue(s.outbox, r.topic, now), PlanClaims(s.outbox, r, now);
      && TakesPrefix(s, r, now, queue, plan.claims)
      && |plan.claims| == Min(ClaimLimit(r), |queue|)
      && plan.chosen == IdsOf(queue[..|plan.claims|])
  {
    hide Queue, EligiblePositions;
    var queue := Queue(s.outbox, r.topic, now);
    var n := ClaimCount(s.outbox, queue, ClaimLimit(r));
    var plan := PlanClaims(s.outbox, r, now);
    assert plan.claims == ClaimsOf(s.outbox, queue[..n], r, now);
    forall i | 0 <= i < n ensures plan.claims[i].message.messageId == queue[i].id {
      assert queue[i] in queue;
      assert EntryOk(queue[i].id, s.outbox[queue[i].id]);
    }
  }

  lemma ClaimShape(s: Store, r: ClaimRequest, now: int)
    requires OutboxOk(s.outbox, s.outboxSequence) && ClaimSucceeds(s, r, now)
    ensures ValidClaimRequest(r)
    ensures var queue := Queue(s.outbox, r.topic, now);
      && TakesPrefix(s, r, now, queue, ClaimsMade(s, r, now))
      && |ClaimsMade(s, r, now)| == Min(ClaimLimit(r), |queue|)
      && ClaimOutbox(s, r, now).0.outbox == WithClaims(s.outbox, IdsOf(queue[..|ClaimsMade(s, r, now)|]), r, now)
  {
    ClaimConcludes(s, r, now);
    PlanShape(s, r, now);
  }

  ghost predicate QueueOf(outbox: map<JsString, OutboxEntry>, topic: Option<JsString>, now: int, queue: seq<Position>) {
    && Ascending(PositionLess, queue)
    && (forall i | 0 <= i < |queue| ::
          queue[i].id in outbox && Eligible(outbox[queue[i].id], topic, now)
            && queue[i] == StoodAt(outbox, queue[i].id))
    && (forall id | id in outbox && Eligible(outbox[id], topic, now) :: StoodAt(outbox, id) in queue)
  }

  lemma PrefixSkipsNoOne(s: Store, r: ClaimRequest, now: int, queue: seq<Position>, claims: seq<Claim>, id: JsString,
                         i: nat)
    requires TakesPrefix(s, r, now, queue, claims) && QueueOf(s.outbox, r.topic, now, queue)
    requires id in s.outbox && Eligible(s.outbox[id], r.topic, now) && i < |claims|
    requires forall k | 0 <= k < |claims| :: claims[k].message.messageId != id
    ensures claims[i].message.messageId in s.outbox
    ensures PositionLess(StoodAt(s.outbox, claims[i].message.messageId), StoodAt(s.outbox, id))
  {
    var j :| 0 <= j < |queue| && queue[j] == StoodAt(s.outbox, id);
    assert queue[j].id == id;
    assert j >= |claims|;
  }

  lemma PrefixLeavesOthers(s: Store, r: ClaimRequest, now: int, queue: seq<Position>, claims: seq<Claim>, id: JsString)
    requires TakesPrefix(s, r, now, queue, claims) && id in s.outbox
    ensures id in IdsOf(queue[..|claims|]) <==> exists i :: 0 <= i < |claims| && claims[i].message.messageId == id
    ensures forall i | 0 <= i < |claims| && claims[i].message.messageId == id ::
      claims[i] == ClaimOf(s.outbox[id], r, now)
  {
    var taken := queue[..|claims|];
    forall i | 0 <= i < |claims| ensures queue[i].id in IdsOf(taken) { assert taken[i] in taken; }
    if id in IdsOf(taken) {
      var i :| 0 <= i < |claims| && taken[i].id == id;
      assert claims[i].message.messageId == id;
    }
  }

  /** A successful claim takes exactly the first eligible messages in delivery order, each once. */
  lemma ClaimTakesFirstEligible(s: Store, r: ClaimRequest, now: int)
    requires OutboxOk(s.outbox, s.outboxSequence) && ClaimSucceeds(s, r, now)
    ensures ValidClaimRequest(r)
    ensures var claims := ClaimsMade(s, r, now);
      && |claims| == Min(ClaimLimit(r), |EligibleIds(s.outbox, r.topic, now)|)
      && (forall i | 0 <= i < |claims| :: claims[i].message.messageId in EligibleIds(s.outbox, r.topic, now))
      && (forall i, j | 0 <= i < j < |claims| ::
            PositionLess(StoodAt(s.outbox, claims[i].message.messageId),
                         StoodAt(s.outbox, claims[j].message.messageId)))
  {
    ClaimShape(s, r, now);
    QueueMembers(s.outbox, r.topic, now);
    var queue, claims := Queue(s.outbox, r.topic, now), ClaimsMade(s, r, now);
    forall i | 0 <= i < |claims| ensures StoodAt(s.outbox, claims[i].message.messageId) == queue[i] {
      assert claims[i].message.messageId == queue[i].id;
    }
  }

  /** Whatever eligible message was left behind comes after every message taken. */
  lemma ClaimSkipsNoOne(s: Store, r: ClaimRequest, now: int, id: JsString, i: nat)
    requires OutboxOk(s.outbox, s.outboxSequence) && ClaimSucceeds(s, r, now)
    requires id in EligibleIds(s.outbox, r.topic, now) && i < |ClaimsMade(s, r, now)|
    requires forall k | 0 <= k < |ClaimsMade(s, r, now)| :: ClaimsMade(s, r, now)[k].message.messageId != id
    ensures ClaimsMade(s, r, now)[i].message.messageId in s.outbox
    ensures PositionLess(StoodAt(s.outbox, ClaimsMade(s, r, now)[i].message.messageId), StoodAt(s.outbox, id))
  {
    ClaimShape(s, r, now);
    QueueMembers(s.outbox, r.topic, now);
    PrefixSkipsNoOne(s, r, now, Queue(s.outbox, r.topic, now), ClaimsMade(s, r, now), id, i);
  }

  /** Taken entries carry their claim with the next epoch; every other entry is untouched. */
  lemma ClaimLeavesOthers(s: Store, r: ClaimRequest, now: int, id: JsString)
    requires OutboxOk(s.outbox, s.outboxSequence) && ClaimSucceeds(s, r, now) && id in s.outbox
    ensures var outbox, claims := ClaimOutbox(s, r, now).0.outbox, ClaimsMade(s, r, now);
      && id in outbox
      && ((forall i | 0 <= i < |claims| :: claims[i].message.messageId != id) ==> outbox[id] == s.outbox[id])
      && (forall i | 0 <= i < |claims| && claims[i].message.messageId == id ::
            && claims[i].claimEpoch == s.outbox[id].attempt + 1
            && outbox[id] == s.outbox[id].(attempt := s.outbox[id].attempt + 1, claim := Some(claims[i]),
                                           acknowledgement := None, acknowledgedClaim := None))
  {
    ClaimShape(s, r, now);
    PrefixLeavesOthers(s, r, now, Queue(s.outbox, r.topic, now), ClaimsMade(s, r, now), id);
  }

  // ----- Claims that run out of attempts

  ghost predicate MayClaim(s: Store, r: ClaimRequest) {
    s.lifecycle == Open && ValidClaimRequest(r) && !FenceIsStale(s.fences, r.fencing)
  }

  /** An exhausted entry stands within the limit in delivery order. */
  ghost predicate MeetsExhausted(outbox: map<JsString, OutboxEntry>, queue: seq<Position>, limit: nat)
    requires forall p | p in queue :: p.id in outbox
  {
    exists i :: 0 <= i < limit && i < |queue| && AttemptsExhausted(outbox[queue[i].id])
  }

  lemma ExhaustedStopsCount(outbox: map<JsString, OutboxEntry>, queue: seq<Position>, limit: nat)
    requires forall p | p in queue :: p.id in outbox
    ensures var n := ClaimCount(outbox, queue, limit);
      && (n < limit && n < |queue| <==> MeetsExhausted(outbox, queue, limit))
      && (n == 0 <==> limit == 0 || queue == [] || AttemptsExhausted(outbox[queue[0].id]))
  {
  }

  lemma ClaimsChange(outbox: map<JsString, OutboxEntry>, chosen: set<JsString>, r: ClaimRequest, now: int, id: JsString)
    requires id in outbox
    ensures (WithClaims(outbox, chosen, r, now)[id] == outbox[id]) <==> id !in chosen
  {
  }

  /** A claim fails for lack of attempts if and only if an exhausted entry stands within its limit;
      it then leaves the store as it was if and only if that is the first eligible entry. Otherwise
      the entries before it stay claimed. */
  lemma OverflowKeepsEarlierClaims(s: Store, r: ClaimRequest, now: int)
    requires MayClaim(s, r)
    ensures var queue, after := Queue(s.outbox, r.topic, now), ClaimOutbox(s, r, now);
      && (after.1 == Err(DataInvalid) <==> MeetsExhausted(s.outbox, queue, ClaimLimit(r)))
      && (after.1 == Err(DataInvalid) ==> queue != [] && (after.0 == s <==> AttemptsExhausted(s.outbox[queue[0].id])))
      && (after.1 == Err(DataInvalid) ==>
          after.0 == s.(outbox := WithClaims(s.outbox, PlanClaims(s.outbox, r, now).chosen, r, now)))
  {
    hide Queue, EligiblePositions, MeetsExhausted, WithClaims, ClaimsOf, AttemptsExhausted;
    var queue := Queue(s.outbox, r.topic, now);
    var n := ClaimCount(s.outbox, queue, ClaimLimit(r));
    ExhaustedStopsCount(s.outbox, queue, ClaimLimit(r));
    var plan := PlanClaims(s.outbox, r, now);
    if n > 0 {
      assert queue[..n][0] in queue[..n] && queue[0].id in plan.chosen;
      ClaimsChange(s.outbox, plan.chosen, r, now, queue[0].id);
    } else {
      assert queue[..n] == [] && IdsOf([]) == {};
      NoClaims(s.outbox, r, now);
    }
  }

  lemma NoClaims(outbox: map<JsString, OutboxEntry>, r: ClaimRequest, now: int)
    ensures WithClaims(outbox, {}, r, now) == outbox
  {
  }

  /** Behind a first message with attempts left stands one without: claiming two fails, and the
      first message stays claimed. */
  lemma FirstStaysClaimed(s: Store, r: ClaimRequest, now: int)
    requires MayClaim(s, r) && ClaimLimit(r) >= 2 && |Queue(s.outbox, r.topic, now)| >= 2
    requires var queue := Queue(s.outbox, r.topic, now);
      !AttemptsExhausted(s.outbox[queue[0].id]) && AttemptsExhausted(s.outbox[queue[1].id])
    ensures var (after, outcome) := ClaimOutbox(s, r, now);
      var id := Queue(s.outbox, r.topic, now)[0].id;
      && outcome == Err(DataInvalid) && after.revision == s.revision
      && id in after.outbox && after.outbox[id] == Claimed(s.outbox[id], r, now)
  {
    var queue := Queue(s.outbox, r.topic, now);
    assert MeetsExhausted(s.outbox, queue, ClaimLimit(r)) by { assert AttemptsExhausted(s.outbox[queue[1].id]); }
    OverflowKeepsEarlierClaims(s, r, now);
    hide Queue, EligiblePositions, ClaimOutbox, MeetsExhausted, ClaimsOf, AttemptsExhausted, Claimed;
    ExhaustedStopsCount(s.outbox, queue, ClaimLimit(r));
    var n := ClaimCount(s.outbox, queue, ClaimLimit(r));
    assert queue[..n][0] in queue[..n];
    assert queue[0].id in PlanClaims(s.outbox, r, now).chosen;
  }

  function Plain(id: JsString): OutboxMessage { OutboxMessage(id, id, id, Null, 0, Canonical(0), Canonical(0)) }

  /** A fresh message enqueued before one whose last claim, with the last safe attempt, has expired. */
  function SpentSecond(a: JsString, b: JsString): Store {
    EmptyStore.(
      outbox := map[a := OutboxEntry(Plain(a), 1, 0, None, None, None),
                    b := OutboxEntry(Plain(b), 2, MAX_SAFE_INTEGER,
                                     Some(Claim(Plain(b), a, MAX_SAFE_INTEGER, MAX_SAFE_INTEGER, -1, 0)), None, None)],
      outboxSequence := 2)
  }

  lemma SpentQueue(a: JsString, b: JsString)
    requires a != b
    ensures var outbox := SpentSecond(a, b).outbox;
      && OutboxOk(outbox, 2) && |Queue(outbox, None, 0)| == 2
      && Queue(outbox, None, 0)[0].id == a && Queue(outbox, None, 0)[1].id == b
  {
    hide Queue, EligiblePositions;
    var outbox := SpentSecond(a, b).outbox;
    QueueMembers(outbox, None, 0);
    assert EligibleIds(outbox, None, 0) == {a, b};
    var queue := Queue(outbox, None, 0);
    assert PositionLess(queue[0], queue[1]);
    PositionOrder();
    assert queue[0].id in {a, b} && queue[1].id in {a, b};
  }

  lemma FailedClaimLeavesClaim(a: JsString, b: JsString, owner: JsString)
    requires a != b && IsPortableName(owner)
    ensures var s, r := SpentSecond(a, b), ClaimRequest(owner, 1, Some(2), None, None);
      var (after, outcome) := ClaimOutbox(s, r, 0);
      && OutboxOk(s.outbox, s.outboxSequence) && outcome == Err(DataInvalid) && after.revision == s.revision
      && a in after.outbox && after.outbox[a] == Claimed(s.outbox[a], r, 0) != s.outbox[a]
  {
    hide Queue, ClaimOutbox, OutboxOk, IsPortableName;
    SpentQueue(a, b);
    FirstStaysClaimed(SpentSecond(a, b), ClaimRequest(owner, 1, Some(2), None, None), 0);
  }

  // ----- Runs of store operations

  datatype StoreOp =
    | CommitOp(fencing: Option<Fencing>, identity: Option<Identity>, staged: Staged, result: Json)
    | ClaimOp(claim: ClaimRequest, now: int)
    | AckOp(ack: AckRequest, now: int)
    | OtherOp(lifecycle: Lifecycle)

  ghost function Do(s: Store, op: StoreOp): Store {
    match op
    case CommitOp(fencing, identity, staged, result) => Commit(s, fencing, identity, staged, result).0
    case ClaimOp(r, now) => ClaimOutbox(s, r, now).0
    case AckOp(r, now) => AcknowledgeOutbox(s, r, now).0
    case OtherOp(lifecycle) => s.(lifecycle := lifecycle)
  }

  ghost predicate StoreRun(stores: seq<Store>, ops: seq<StoreOp>) {
    && |stores| == |ops| + 1
    && stores[0] == EmptyStore
    && forall i | 0 <= i < |ops| ::
      (ops[i].CommitOp? ==> WellStaged(ops[i].staged)) && stores[i + 1] == Do(stores[i], ops[i])
  }

  lemma {:induction false} StoreRunOk(stores: seq<Store>, ops: seq<StoreOp>, i: nat)
    requires StoreRun(stores, ops) && i < |stores|
    ensures StoreOk(stores[i])
  {
    if i == 0 {
      EmptyStoreOk();
    } else {
      StoreRunOk(stores, ops, i - 1);
      match ops[i - 1]
      case CommitOp(fencing, identity, staged, result) =>
        CommitKeepsOk(stores[i - 1], fencing, identity, staged, result);
      case ClaimOp(r, now) => ClaimKeepsOk(stores[i - 1], r, now);
      case AckOp(r, now) => AcknowledgeKeepsOk(stores[i - 1], r, now);
      case OtherOp(_) =>
    }
  }

  /** The operation hands out a claim on the message. */
  ghost predicate Issues(s: Store, op: StoreOp, id: JsString) {
    && op.ClaimOp? && s.lifecycle == Open && ValidClaimRequest(op.claim) && !FenceIsStale(s.fences, op.claim.fencing)
    && id in PlanClaims(s.outbox, op.claim, op.now).chosen
  }

  /** The operation acknowledges the message's claim for the first time. */
  ghost predicate Acks(s: Store, op: StoreOp, id: JsString) {
    && op.AckOp? && op.ack.messageId == id
    && AcknowledgeOutbox(s, op.ack, op.now).1.Ok?
    && !AcknowledgeOutbox(s, op.ack, op.now).1.value.duplicate
  }

  /** The operation starts a new incarnation of the message. */
  ghost predicate Enqueues(s: Store, op: StoreOp, id: JsString) {
    op.CommitOp? && id in Do(s, op).outbox && (id !in s.outbox || Do(s, op).outbox[id] != s.outbox[id])
  }

  lemma {:induction false} EnqueuedEntries(outbox: map<JsString, OutboxEntry>, sequence: nat,
                                           messages: seq<OutboxMessage>, id: JsString)
    ensures id in outbox ==> id in Enqueued(outbox, sequence, messages)
    ensures id in Enqueued(outbox, sequence, messages) ==>
      || (id in outbox && Enqueued(outbox, sequence, messages)[id] == outbox[id])
      || (exists m :: m in messages && m.messageId == id
            && Enqueued(outbox, sequence, messages)[id] ==
              FreshEntry(m, Enqueued(outbox, sequence, messages)[id].enqueueSequence)
            && Enqueued(outbox, sequence, messages)[id].enqueueSequence > sequence)
    decreases messages
  {
    if messages != [] {
      var m := messages[0];
      var next := outbox[m.messageId := FreshEntry(m, sequence + 1)];
      EnqueuedEntries(next, sequence + 1, messages[1..], id);
      assert m in messages;
    }
  }

  lemma EnqueueStartsAfresh(s: Store, op: StoreOp, id: JsString)
    requires StoreOk(s) && Enqueues(s, op, id)
    ensures var e := Do(s, op).outbox[id];
      && e.attempt == 0 && e.claim.None? && e.acknowledgement.None? && e.enqueueSequence > s.outboxSequence
      && (id in s.outbox ==> AwaitsRetry(s.outbox[id]))
  {
    hide LogRefinesRecords, LogOrdered, RecordsBounded, CurrentIsLast, JournalOrdered, Installed, Applied, Journaled,
        Enqueued, PlanOutbox;
    var plan := PlanOutbox(s.outbox, [], op.staged.outbox);
    PlanIsOk(s.outbox, [], op.staged.outbox);
    EnqueuedEntries(s.outbox, s.outboxSequence, plan.value, id);
  }

  lemma CommitKeepsEntries(s: Store, op: StoreOp, id: JsString)
    requires op.CommitOp? && id in s.outbox
    ensures id in Do(s, op).outbox
  {
    var plan := PlanOutbox(s.outbox, [], op.staged.outbox);
    if plan.Ok? { EnqueuedEntries(s.outbox, s.outboxSequence, plan.value, id); }
  }

  lemma IssueEffect(s: Store, op: StoreOp, id: JsString)
    requires StoreOk(s) && op.ClaimOp? && id in s.outbox
    ensures id in Do(s, op).outbox
    ensures Do(s, op).outbox[id] == if Issues(s, op, id) then Claimed(s.outbox[id], op.claim, op.now) else s.outbox[id]
    ensures Issues(s, op, id) ==> Eligible(s.outbox[id], op.claim.topic, op.now)
  {
    hide StoreOk, Queue, EligiblePositions;
    if Issues(s, op, id) {
      var queue := Queue(s.outbox, op.claim.topic, op.now);
      QueueMembers(s.outbox, op.claim.topic, op.now);
      var n := ClaimCount(s.outbox, queue, ClaimLimit(op.claim));
      assert id in IdsOf(queue[..n]);
    }
  }

  lemma EntryIsOk(s: Store, id: JsString)
    requires StoreOk(s) && id in s.outbox
    ensures EntryOk(id, s.outbox[id])
  {
  }

  lemma AckElsewhere(s: Store, r: AckRequest, now: int, id: JsString)
    requires id in s.outbox && r.messageId != id
    ensures id in AcknowledgeOutbox(s, r, now).0.outbox && AcknowledgeOutbox(s, r, now).0.outbox[id] == s.outbox[id]
  {
  }

  lemma AckHere(s: Store, r: AckRequest, now: int)
    requires r.messageId in s.outbox && EntryOk(r.messageId, s.outbox[r.messageId])
    ensures var (s', answer) := AcknowledgeOutbox(s, r, now);
      && r.messageId in s'.outbox
      && (answer.Ok? && !answer.value.duplicate ==>
            && ValidAckRequest(r) && HoldsClaim(s.outbox[r.messageId].claim, r.owner, r.claimEpoch)
            && s'.outbox[r.messageId] == Acknowledged(s.outbox[r.messageId], r, now))
      && (answer.Err? || answer.value.duplicate ==> s'.outbox[r.messageId] == s.outbox[r.messageId])
  {
  }

  lemma AckEffect(s: Store, op: StoreOp, id: JsString)
    requires StoreOk(s) && op.AckOp? && id in s.outbox
    ensures id in Do(s, op).outbox
    ensures Acks(s, op, id) ==>
      && ValidAckRequest(op.ack) && HoldsClaim(s.outbox[id].claim, op.ack.owner, op.ack.claimEpoch)
      && Do(s, op).outbox[id] == Acknowledged(s.outbox[id], op.ack, op.now)
    ensures !Acks(s, op, id) ==> Do(s, op).outbox[id] == s.outbox[id]
  {
    EntryIsOk(s, id);
    hide StoreOk, AcknowledgeOutbox, EntryOk;
    if op.ack.messageId == id { AckHere(s, op.ack, op.now); } else { AckElsewhere(s, op.ack, op.now, id); }
  }

  lemma AckKeepsKeys(s: Store, r: AckRequest, now: int)
    ensures AcknowledgeOutbox(s, r, now).0.outbox.Keys == s.outbox.Keys
  {
  }

  /** Entries appear only by commits. */
  lemma EntriesAppearByCommit(s: Store, op: StoreOp, id: JsString)
    requires id in Do(s, op).outbox && id !in s.outbox
    ensures Enqueues(s, op, id)
  {
    match op
    case ClaimOp(r, now) =>
      if ValidClaimRequest(r) {
        ConcludedClaims(s, r, now, PlanClaims(s.outbox, r, now));
      }
    case AckOp(r, now) => AckKeepsKeys(s, r, now);
    case _ =>
  }

  /** Everything an operation can do to one entry. */
  lemma EntryStep(s: Store, op: StoreOp, id: JsString)
    requires StoreOk(s) && id in s.outbox
    ensures id in Do(s, op).outbox
    ensures Issues(s, op, id) ==>
      Eligible(s.outbox[id], op.claim.topic, op.now) && Do(s, op).outbox[id] == Claimed(s.outbox[id], op.claim, op.now)
    ensures Acks(s, op, id) ==>
      && ValidAckRequest(op.ack) && HoldsClaim(s.outbox[id].claim, op.ack.owner, op.ack.claimEpoch)
      && Do(s, op).outbox[id] == Acknowledged(s.outbox[id], op.ack, op.now)
    ensures Enqueues(s, op, id) ==>
      Do(s, op).outbox[id].attempt == 0 && Do(s, op).outbox[id].enqueueSequence > s.outbox[id].enqueueSequence
        && AwaitsRetry(s.outbox[id])
    ensures !Issues(s, op, id) && !Acks(s, op, id) && !Enqueues(s, op, id) ==> Do(s, op).outbox[id] == s.outbox[id]
  {
    match op
    case CommitOp(_, _, _, _) =>
      CommitKeepsEntries(s, op, id);
      if Enqueues(s, op, id) { EnqueueStartsAfresh(s, op, id); }
    case ClaimOp(_, _) => IssueEffect(s, op, id);
    case AckOp(_, _) => AckEffect(s, op, id);
    case OtherOp(_) =>
  }

  // ----- Finality of completion

  /** A completed message is never claimed, changed or enqueued again. */
  lemma {:induction false} CompletedForever(stores: seq<Store>, ops: seq<StoreOp>, i: nat, j: nat, id: JsString)
    requires StoreRun(stores, ops) && i <= j < |stores|
    requires id in stores[i].outbox && IsCompleted(stores[i].outbox[id])
    ensures id in stores[j].outbox && stores[j].outbox[id] == stores[i].outbox[id]
  {
    hide LogRefinesRecords, LogOrdered, RecordsBounded, CurrentIsLast, JournalOrdered;
    if i < j {
      CompletedForever(stores, ops, i, j - 1, id);
      StoreRunOk(stores, ops, j - 1);
      EntryStep(stores[j - 1], ops[j - 1], id);
      assert EntryOk(id, stores[j - 1].outbox[id]);
    }
  }

  // ----- Claim epochs count claims

  ghost predicate IssuesIn(stores: seq<Store>, ops: seq<StoreOp>, i: nat, id: JsString, incarnation: nat)
    requires |stores| == |ops| + 1 && i < |ops|
  {
    Issues(stores[i], ops[i], id) && id in stores[i].outbox && stores[i].outbox[id].enqueueSequence == incarnation
  }

  /** How many claims the first n operations issued on one incarnation of a message. */
  ghost function ClaimsIssued(stores: seq<Store>, ops: seq<StoreOp>, n: nat, id: JsString, incarnation: nat): nat
    requires |stores| == |ops| + 1 && n <= |ops|
  {
    if n == 0 then 0
    else if IssuesIn(stores, ops, n - 1, id, incarnation) then ClaimsIssued(stores, ops, n - 1, id, incarnation) + 1
    else ClaimsIssued(stores, ops, n - 1, id, incarnation)
  }

  lemma SequenceGrows(s: Store, op: StoreOp)
    ensures s.outboxSequence <= Do(s, op).outboxSequence
  {
    hide PlanClaims, WithClaims, Applied, Installed;
    match op
    case ClaimOp(r, now) =>
      if ValidClaimRequest(r) {
        assert ConcludeClaims(s, r, now, PlanClaims(s.outbox, r, now)).0.outboxSequence == s.outboxSequence;
      }
    case _ =>
  }

  lemma {:induction false} FutureIncarnationUnclaimed(stores: seq<Store>, ops: seq<StoreOp>, n: nat, id: JsString,
      incarnation: nat)
    requires StoreRun(stores, ops) && n <= |ops| && incarnation > stores[n].outboxSequence
    ensures ClaimsIssued(stores, ops, n, id, incarnation) == 0
  {
    if n > 0 {
      SequenceGrows(stores[n - 1], ops[n - 1]);
      FutureIncarnationUnclaimed(stores, ops, n - 1, id, incarnation);
      StoreRunOk(stores, ops, n - 1);
    }
  }

  lemma StoreRunStep(stores: seq<Store>, ops: seq<StoreOp>, k: nat)
    requires StoreRun(stores, ops) && k < |ops|
    ensures |stores| == |ops| + 1 && stores[0] == EmptyStore && stores[k + 1] == Do(stores[k], ops[k])
  {
  }

  lemma StoreRunBounds(stores: seq<Store>, ops: seq<StoreOp>)
    requires StoreRun(stores, ops)
    ensures |stores| == |ops| + 1 && stores[0] == EmptyStore
  {
  }

  /** An operation that does not restart a message adds one to its attempt exactly when it issues a claim. */
  lemma AttemptStep(s: Store, op: StoreOp, id: JsString)
    requires StoreOk(s) && id in Do(s, op).outbox && !Enqueues(s, op, id)
    ensures id in s.outbox && Do(s, op).outbox[id].enqueueSequence == s.outbox[id].enqueueSequence
    ensures Do(s, op).outbox[id].attempt == s.outbox[id].attempt + if Issues(s, op, id) then 1 else 0
  {
    hide StoreOk;
    if id !in s.outbox { EntriesAppearByCommit(s, op, id); }
    EntryStep(s, op, id);
    hide Do, Issues, Enqueues, Acks;
  }

  lemma CommitsDoNotIssue(s: Store, op: StoreOp, id: JsString)
    requires Enqueues(s, op, id)
    ensures !Issues(s, op, id)
  {
  }

  /** Within an incarnation the attempt, and so the newest claim's epoch, is the number of claims issued. */
  lemma {:induction false} EpochsCountClaims(stores: seq<Store>, ops: seq<StoreOp>, n: nat, id: JsString)
    requires StoreRun(stores, ops) && n <= |ops| && id in stores[n].outbox
    ensures stores[n].outbox[id].attempt == ClaimsIssued(stores, ops, n, id, stores[n].outbox[id].enqueueSequence)
  {
    hide StoreRun, StoreOk, Do, Issues, Enqueues;
    StoreRunBounds(stores, ops);
    if n > 0 {
      var s, op := stores[n - 1], ops[n - 1];
      StoreRunStep(stores, ops, n - 1);
      StoreRunOk(stores, ops, n - 1);
      if Enqueues(s, op, id) {
        EnqueueStartsAfresh(s, op, id);
        CommitsDoNotIssue(s, op, id);
        FutureIncarnationUnclaimed(stores, ops, n - 1, id, stores[n].outbox[id].enqueueSequence);
      } else {
        AttemptStep(s, op, id);
        EpochsCountClaims(stores, ops, n - 1, id);
      }
    }
  }

  // ----- Exclusivity

  /** The claim issued at step i is still the one the entry knows, held or acknowledged since. */
  ghost predicate ClaimStands(stores: seq<Store>, ops: seq<StoreOp>, i: nat, j: nat, id: JsString, claim: Claim)
    requires |stores| == |ops| + 1 && i < j < |stores|
  {
    && id in stores[j].outbox
    && var e := stores[j].outbox[id];
       || (e.claim == Some(claim) && e.acknowledgement.None?)
       || (e.claim.None? && e.acknowledgedClaim == Some(claim)
           && exists k :: i < k < j && Acks(stores[k], ops[k], id) && ops[k].ack.claimEpoch == claim.claimEpoch
                && e.acknowledgement.Some? && e.acknowledgement.value.outcome == ops[k].ack.outcome)
  }

  ghost predicate NoneIssued(stores: seq<Store>, ops: seq<StoreOp>, i: nat, j: nat, id: JsString)
    requires |stores| == |ops| + 1 && j <= |ops|
  {
    forall k | i < k < j :: !Issues(stores[k], ops[k], id)
  }

  ghost predicate SameIncarnation(stores: seq<Store>, i: nat, j: nat, id: JsString)
    requires i <= j < |stores|
  {
    id in stores[i].outbox &&
    forall k | i <= k <= j ::
      id in stores[k].outbox && stores[k].outbox[id].enqueueSequence == stores[i].outbox[id].enqueueSequence
  }

  lemma {:induction false} IssuedClaimStands(stores: seq<Store>, ops: seq<StoreOp>, i: nat, j: nat, id: JsString)
    requires StoreRun(stores, ops) && i < j < |stores| && i < |ops|
    requires SameIncarnation(stores, i, j, id) && Issues(stores[i], ops[i], id) && NoneIssued(stores, ops, i, j, id)
    ensures ClaimStands(stores, ops, i, j, id, ClaimOf(stores[i].outbox[id], ops[i].claim, ops[i].now))
  {
    hide PlanClaims, AcknowledgeOutbox, FenceIsStale, ValidClaimRequest;
    hide LogRefinesRecords, LogOrdered, RecordsBounded, CurrentIsLast, JournalOrdered, Do;
    var claim := ClaimOf(stores[i].outbox[id], ops[i].claim, ops[i].now);
    if j == i + 1 {
      StoreRunOk(stores, ops, i);
      EntryStep(stores[i], ops[i], id);
    } else {
      assert SameIncarnation(stores, i, j - 1, id);
      IssuedClaimStands(stores, ops, i, j - 1, id);
      var s, op := stores[j - 1], ops[j - 1];
      StoreRunOk(stores, ops, j - 1);
      EntryStep(s, op, id);
      assert EntryOk(id, s.outbox[id]);
      if Acks(s, op, id) {
        assert s.outbox[id].claim == Some(claim);
      } else {
        assert stores[j].outbox[id] == s.outbox[id];
      }
    }
  }

  /** Two consecutive claims on one incarnation have consecutive epochs, and the second was
      issued only because the first was acknowledged for retry or had expired. */
  lemma ClaimsAreExclusive(stores: seq<Store>, ops: seq<StoreOp>, i: nat, j: nat, id: JsString)
    requires StoreRun(stores, ops) && i < j < |ops| && SameIncarnation(stores, i, j, id)
    requires Issues(stores[i], ops[i], id) && Issues(stores[j], ops[j], id) && NoneIssued(stores, ops, i, j, id)
    ensures var first := ClaimOf(stores[i].outbox[id], ops[i].claim, ops[i].now);
      var second := ClaimOf(stores[j].outbox[id], ops[j].claim, ops[j].now);
      && second.claimEpoch == first.claimEpoch + 1
      && (first.expiresAt <= second.claimedAt
          || exists k ::
               i < k < j && Acks(stores[k], ops[k], id) && ops[k].ack.outcome == AckRetry
               && ops[k].ack.claimEpoch == first.claimEpoch)
  {
    IssuedClaimStands(stores, ops, i, j, id);
    StoreRunOk(stores, ops, j);
    EntryStep(stores[j], ops[j], id);
    assert EntryOk(id, stores[j].outbox[id]);
  }

  /** A held claim was issued by some earlier operation, and nothing was issued or
      acknowledged on the message since. */
  ghost predicate IssuedBefore(stores: seq<Store>, ops: seq<StoreOp>, i: nat, j: nat, id: JsString, claim: Claim)
    requires |stores| == |ops| + 1 && j <= |ops|
  {
    && i < j && id in stores[i].outbox && Issues(stores[i], ops[i], id)
    && claim == ClaimOf(stores[i].outbox[id], ops[i].claim, ops[i].now)
    && forall k | i < k < j ::
      !Issues(stores[k], ops[k], id) && !Acks(stores[k], ops[k], id) && !Enqueues(stores[k], ops[k], id)
  }

  /** A claim that is held after an operation was issued by it, or held before and left alone. */
  lemma ClaimAppears(s: Store, op: StoreOp, id: JsString)
    requires StoreOk(s) && id in Do(s, op).outbox && Do(s, op).outbox[id].claim.Some?
    ensures id in s.outbox
    ensures Issues(s, op, id) ==> Do(s, op).outbox[id].claim == Some(ClaimOf(s.outbox[id], op.claim, op.now))
    ensures !Issues(s, op, id) ==>
      && s.outbox[id].claim == Do(s, op).outbox[id].claim && !Acks(s, op, id) && !Enqueues(s, op, id)
  {
    hide Do, Issues, Acks, StoreOk;
    if id !in s.outbox { EntriesAppearByCommit(s, op, id); }
    if Enqueues(s, op, id) { EnqueueStartsAfresh(s, op, id); }
    EntryStep(s, op, id);
  }

  lemma HeldNeedsOperations(stores: seq<Store>, ops: seq<StoreOp>, j: nat, id: JsString)
    requires StoreRun(stores, ops) && j <= |ops| && id in stores[j].outbox
    ensures j > 0 && |stores| == |ops| + 1
  {
  }

  lemma JustIssued(stores: seq<Store>, ops: seq<StoreOp>, i: nat, id: JsString)
    requires |stores| == |ops| + 1 && i < |ops| && id in stores[i].outbox && Issues(stores[i], ops[i], id)
    ensures ops[i].ClaimOp?
      && IssuedBefore(stores, ops, i, i + 1, id, ClaimOf(stores[i].outbox[id], ops[i].claim, ops[i].now))
  {
  }

  lemma StillIssued(stores: seq<Store>, ops: seq<StoreOp>, i: nat, j: nat, id: JsString, claim: Claim)
    requires |stores| == |ops| + 1 && j < |ops| && IssuedBefore(stores, ops, i, j, id, claim)
    requires !Issues(stores[j], ops[j], id) && !Acks(stores[j], ops[j], id) && !Enqueues(stores[j], ops[j], id)
    ensures IssuedBefore(stores, ops, i, j + 1, id, claim)
  {
    var op := ops[i];
    assert op.ClaimOp?;
    hide Issues, Acks, Enqueues;
  }

  lemma {:induction false} HeldClaimWasIssued(stores: seq<Store>, ops: seq<StoreOp>, j: nat, id: JsString)
    returns (i: nat)
    requires StoreRun(stores, ops) && j <= |ops|
    requires id in stores[j].outbox && stores[j].outbox[id].claim.Some?
    ensures IssuedBefore(stores, ops, i, j, id, stores[j].outbox[id].claim.value)
  {
    hide StoreRun, IssuedBefore, Issues, Acks, Enqueues, StoreOk, Do;
    HeldNeedsOperations(stores, ops, j, id);
    StoreRunStep(stores, ops, j - 1);
    StoreRunOk(stores, ops, j - 1);
    ClaimAppears(stores[j - 1], ops[j - 1], id);
    if Issues(stores[j - 1], ops[j - 1], id) {
      i := j - 1;
      JustIssued(stores, ops, i, id);
    } else {
      i := HeldClaimWasIssued(stores, ops, j - 1, id);
      StillIssued(stores, ops, i, j - 1, id, stores[j].outbox[id].claim.value);
    }
  }

  /** A first acknowledgement succeeds only for the newest claim, which nobody acknowledged before. */
  lemma AcknowledgesNewestClaim(stores: seq<Store>, ops: seq<StoreOp>, j: nat, id: JsString) returns (i: nat)
    requires StoreRun(stores, ops) && j < |ops| && Acks(stores[j], ops[j], id)
    ensures id in stores[j].outbox && stores[j].outbox[id].claim.Some?
    ensures IssuedBefore(stores, ops, i, j, id, stores[j].outbox[id].claim.value)
    ensures stores[j].outbox[id].claim.value.owner == ops[j].ack.owner
    ensures stores[j].outbox[id].claim.value.claimEpoch == ops[j].ack.claimEpoch == stores[j].outbox[id].attempt
  {
    StoreRunOk(stores, ops, j);
    EntryStep(stores[j], ops[j], id);
    assert EntryOk(id, stores[j].outbox[id]);
    i := HeldClaimWasIssued(stores, ops, j, id);
  }

  // ----- Every interleaving of calls is a run of store operations

  ghost function OpOf(sys: System, step: Step): StoreOp
    requires Enabled(sys, step)
  {
    if step.CloseStore? then OtherOp(Shut)
    else if !step.RunJob? then OtherOp(sys.store.lifecycle)
    else match sys.queue[0]
      case CommitJob(id) =>
        var c := sys.calls[id];
        if NextOp(c).Return? then CommitOp(c.fencing, c.identity, StagedBy(c), NextOp(c).result)
        else OtherOp(sys.store.lifecycle)
      case ClaimJob(r) => ClaimOp(r, step.now)
      case AckJob(r) => AckOp(r, step.now)
  }

  lemma StepIsStoreOp(sys: System, step: Step)
    requires Enabled(sys, step)
    ensures Apply(sys, step).store == Do(sys.store, OpOf(sys, step))
  {
    match step
    case RunJob(now) =>
      match sys.queue[0] {
        case CommitJob(id) =>
        case ClaimJob(r) =>
        case AckJob(r) =>
      }
    case _ =>
  }

  /** So the delivery guarantees above hold in every interleaving. */
  lemma RunIsStoreRun(states: seq<System>, steps: seq<Step>) returns (ops: seq<StoreOp>)
    requires Run(states, steps)
    ensures |ops| == |steps| && StoreRun(seq(|states|, i requires 0 <= i < |states| => states[i].store), ops)
  {
    ops := seq(|steps|, i requires 0 <= i < |steps| && Enabled(states[i], steps[i]) => OpOf(states[i], steps[i]));
    forall i | 0 <= i < |ops|
      ensures (ops[i].CommitOp? ==> WellStaged(ops[i].staged)) && states[i + 1].store == Do(states[i].store, ops[i])
    {
      StepIsStoreOp(states[i], steps[i]);
    }
  }
}
