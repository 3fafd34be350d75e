/** What a commit does to each part of the store, said of the store it finds and the one it
    leaves; and that what committed work appended and enqueued is there for good. */
module CommitLaws {
  import opened Order
  import opened StateStrings
  import opened StoreModel
  import opened StoreInvariants
  import opened Transactions
  import opened TransactionRuns
  import opened Serializability
  import opened StoreLoops
  import opened TransactionLaws

  // ----- Which commits succeed

  ghost predicate MeetsExpectation(records: map<StateKey, Record>, m: Mutation) {
    match m.expected
    case Any => true
    case Absent => m.key !in records
    case At(revision) => m.key in records && records[m.key].revision == revision
  }

  /** A staged message that is to be enqueued: new, or to replace one that awaits a retry. */
  ghost predicate IsNew(outbox: map<JsString, OutboxEntry>, id: JsString) {
    id !in outbox || (outbox[id].acknowledgement.Some? && outbox[id].acknowledgement.value.outcome == AckRetry)
  }

  ghost predicate SameContent(a: OutboxMessage, b: OutboxMessage) {
    a.messageId == b.messageId && a.operationId == b.operationId && a.topic == b.topic && a.payload == b.payload
  }

  ghost predicate Deliverable(m: OutboxMessage) {
    && 0 < |m.topic| <= 128 && IsName(m.topic) && m.payloadBytes <= 1_048_576
    && m.createdAt.Canonical? && m.availableAt.Canonical?
  }

  /** A message fits what is stored under its identity and what was staged under it before. */
  ghost predicate Fits(outbox: map<JsString, OutboxEntry>, ms: seq<OutboxMessage>, i: nat)
    requires i < |ms|
  {
    && Deliverable(ms[i])
    && (!IsNew(outbox, ms[i].messageId) ==> SameContent(outbox[ms[i].messageId].message, ms[i]))
    && (IsNew(outbox, ms[i].messageId) ==>
          forall j | 0 <= j < i && ms[j].messageId == ms[i].messageId :: SameContent(ms[j], ms[i]))
  }

  /** The messages that are enqueued: the first new one of each identity. */
  ghost predicate IsFirstNew(outbox: map<JsString, OutboxEntry>, ms: seq<OutboxMessage>, i: nat)
    requires i < |ms|
  {
    IsNew(outbox, ms[i].messageId) && forall j | 0 <= j < i :: ms[j].messageId != ms[i].messageId
  }

  ghost function FirstNew(outbox: map<JsString, OutboxEntry>, ms: seq<OutboxMessage>): seq<OutboxMessage> {
    if ms == [] then []
    else
      var last := |ms| - 1;
      FirstNew(outbox, ms[..last]) + if IsFirstNew(outbox, ms, last) then [ms[last]] else []
  }

  lemma FrontFirst(outbox: map<JsString, OutboxEntry>, ms: seq<OutboxMessage>, k: nat, i: nat)
    requires i < k <= |ms|
    ensures IsFirstNew(outbox, ms[..k], i) == IsFirstNew(outbox, ms, i) && ms[..k][i] == ms[i]
  {
  }

  /** The message is enqueued, from some place in what was staged. */
  ghost predicate EnqueuedFrom(outbox: map<JsString, OutboxEntry>, ms: seq<OutboxMessage>, m: OutboxMessage) {
    exists i :: 0 <= i < |ms| && IsFirstNew(outbox, ms, i) && ms[i] == m
  }

  lemma FrontEnqueued(outbox: map<JsString, OutboxEntry>, ms: seq<OutboxMessage>, m: OutboxMessage)
    requires ms != []
    ensures var last := |ms| - 1;
      EnqueuedFrom(outbox, ms, m) <==>
        EnqueuedFrom(outbox, ms[..last], m) || (IsFirstNew(outbox, ms, last) && ms[last] == m)
  {
    hide IsFirstNew;
    var last := |ms| - 1;
    forall i | 0 <= i < last
      ensures IsFirstNew(outbox, ms[..last], i) == IsFirstNew(outbox, ms, i) && ms[..last][i] == ms[i]
    {
      FrontFirst(outbox, ms, last, i);
    }
    if EnqueuedFrom(outbox, ms, m) {
      var i :| 0 <= i < |ms| && IsFirstNew(outbox, ms, i) && ms[i] == m;
      if i < last { assert IsFirstNew(outbox, ms[..last], i); }
    }
    if EnqueuedFrom(outbox, ms[..last], m) {
      var i :| 0 <= i < last && IsFirstNew(outbox, ms[..last], i) && ms[..last][i] == m;
      assert IsFirstNew(outbox, ms, i);
    }
  }

  lemma {:induction false} FirstNewMembers(outbox: map<JsString, OutboxEntry>, ms: seq<OutboxMessage>, m: OutboxMessage)
    ensures m in FirstNew(outbox, ms) <==> EnqueuedFrom(outbox, ms, m)
  {
    if ms != [] {
      hide EnqueuedFrom, IsFirstNew;
      FirstNewMembers(outbox, ms[..|ms| - 1], m);
      FrontEnqueued(outbox, ms, m);
    } else {
      assert !EnqueuedFrom(outbox, [], m);
    }
  }

  /** Every new identity staged so far has its first message among those enqueued. */
  lemma {:induction false} FirstOf(outbox: map<JsString, OutboxEntry>, ms: seq<OutboxMessage>, i: nat) returns (k: nat)
    requires i < |ms| && IsNew(outbox, ms[i].messageId)
    ensures k <= i && ms[k].messageId == ms[i].messageId && IsFirstNew(outbox, ms, k)
    ensures ms[k] in FirstNew(outbox, ms)
  {
    if j :| 0 <= j < i && ms[j].messageId == ms[i].messageId {
      k := FirstOf(outbox, ms, j);
    } else {
      k := i;
    }
    FirstNewMembers(outbox, ms, ms[k]);
  }

  lemma FitsInFront(outbox: map<JsString, OutboxEntry>, ms: seq<OutboxMessage>, k: nat, i: nat)
    requires i < k <= |ms|
    ensures Fits(outbox, ms[..k], i) == Fits(outbox, ms, i)
  {
    assert forall j | 0 <= j < k :: ms[..k][j] == ms[j];
  }

  /** Among messages that all fit, those of one new identity have one content. */
  lemma OneContent(outbox: map<JsString, OutboxEntry>, ms: seq<OutboxMessage>, i: nat, j: nat)
    requires i < |ms| && j < |ms| && ms[i].messageId == ms[j].messageId && IsNew(outbox, ms[i].messageId)
    requires Fits(outbox, ms, i) && Fits(outbox, ms, j)
    ensures SameContent(ms[i], ms[j])
  {
  }

  ghost predicate AllFit(outbox: map<JsString, OutboxEntry>, ms: seq<OutboxMessage>) {
    forall i | 0 <= i < |ms| :: Fits(outbox, ms, i)
  }

  /** Planning one more message after messages that fit. */
  lemma PlanNext(outbox: map<JsString, OutboxEntry>, ms: seq<OutboxMessage>)
    requires ms != [] && AllFit(outbox, ms[..|ms| - 1])
    ensures var last := |ms| - 1;
      var next := PlanOne(outbox, FirstNew(outbox, ms[..last]), ms[last]);
      && (next.Ok? <==> Fits(outbox, ms, last))
      && (next.Ok? ==> next.value == FirstNew(outbox, ms))
  {
    var last := |ms| - 1;
    var front, m := ms[..last], ms[last];
    var planned := FirstNew(outbox, front);
    var twin := FindMessage(planned, m.messageId);
    if twin.Some? {
      FirstNewMembers(outbox, front, twin.value);
      var k :| 0 <= k < last && IsFirstNew(outbox, front, k) && front[k] == twin.value;
      assert ms[k] == twin.value;
      forall j | 0 <= j < last && ms[j].messageId == m.messageId ensures SameContent(ms[j], twin.value) {
        assert front[j] == ms[j] && Fits(outbox, front, j) && Fits(outbox, front, k);
        OneContent(outbox, front, j, k);
      }
    } else if IsNew(outbox, m.messageId) {
      forall j | 0 <= j < last ensures ms[j].messageId != m.messageId {
        if ms[j].messageId == m.messageId {
          var k := FirstOf(outbox, front, j);
          assert false;
        }
      }
    }
  }

  /** Planning accepts exactly the messages that fit, and plans the first of each new identity. */
  lemma {:induction false} PlanIsFirstNew(outbox: map<JsString, OutboxEntry>, ms: seq<OutboxMessage>)
    ensures PlanOutbox(outbox, [], ms).Ok? <==> AllFit(outbox, ms)
    ensures PlanOutbox(outbox, [], ms).Ok? ==> PlanOutbox(outbox, [], ms).value == FirstNew(outbox, ms)
  {
    if ms != [] {
      hide PlanOutbox, PlanOne, Fits, FirstNew;
      var last := |ms| - 1;
      var front := ms[..last];
      assert ms == front + [ms[last]];
      PlanSnoc(outbox, [], front, ms[last]);
      PlanIsFirstNew(outbox, front);
      forall i | 0 <= i < last
        ensures Fits(outbox, front, i) == Fits(outbox, ms, i) { FitsInFront(outbox, ms, last, i); }
      if AllFit(outbox, front) { PlanNext(outbox, ms); }
    }
  }

  lemma {:induction false} FirstNewDistinct(outbox: map<JsString, OutboxEntry>, ms: seq<OutboxMessage>)
    ensures DistinctMessages(FirstNew(outbox, ms))
  {
    if ms != [] {
      var last := |ms| - 1;
      var front := FirstNew(outbox, ms[..last]);
      FirstNewDistinct(outbox, ms[..last]);
      if IsFirstNew(outbox, ms, last) {
        forall k | 0 <= k < |front| ensures front[k].messageId != ms[last].messageId {
          FirstNewMembers(outbox, ms[..last], front[k]);
          var j :| 0 <= j < last && ms[..last][j] == front[k];
          assert ms[j] == front[k];
        }
      }
    }
  }

  ghost predicate DistinctMessages(ms: seq<OutboxMessage>) {
    forall i, j | 0 <= i < j < |ms| :: ms[i].messageId != ms[j].messageId
  }

  /** Each enqueued message has a fresh entry with the next sequence, in order; no other entry changes. */
  lemma {:induction false} EnqueuedEntriesAre(outbox: map<JsString, OutboxEntry>, sequence: nat, ms: seq<OutboxMessage>)
    requires DistinctMessages(ms)
    ensures forall k | 0 <= k < |ms| ::
      && ms[k].messageId in Enqueued(outbox, sequence, ms)
      && Enqueued(outbox, sequence, ms)[ms[k].messageId] == OutboxEntry(ms[k], sequence + k + 1, 0, None, None, None)
    ensures forall id | (forall k | 0 <= k < |ms| :: ms[k].messageId != id) ::
      && (id in Enqueued(outbox, sequence, ms) <==> id in outbox)
      && (id in outbox ==> Enqueued(outbox, sequence, ms)[id] == outbox[id])
    decreases ms
  {
    if ms != [] {
      var m, rest := ms[0], ms[1..];
      var next := outbox[m.messageId := FreshEntry(m, sequence + 1)];
      EnqueuedEntriesAre(next, sequence + 1, rest);
      var after := Enqueued(outbox, sequence, ms);
      assert after == Enqueued(next, sequence + 1, rest);
      forall k | 0 <= k < |ms|
        ensures ms[k].messageId in after
          && after[ms[k].messageId] == OutboxEntry(ms[k], sequence + k + 1, 0, None, None, None)
      {
        if k > 0 {
          assert ms[k] == rest[k - 1];
        } else {
          assert forall j | 0 <= j < |rest| :: rest[j] == ms[j + 1];
        }
      }
      forall id | (forall k | 0 <= k < |ms| :: ms[k].messageId != id)
        ensures (id in after <==> id in outbox) && (id in outbox ==> after[id] == outbox[id])
      {
        assert forall j | 0 <= j < |rest| :: rest[j] == ms[j + 1];
        assert ms[0].messageId != id;
      }
    }
  }

  // ----- The outcome of a commit

  ghost predicate AllExpected(records: map<StateKey, Record>, ms: seq<Mutation>) {
    forall i | 0 <= i < |ms| :: MeetsExpectation(records, ms[i])
  }

  ghost predicate FenceHolds(fences: map<JsString, nat>, fencing: Option<Fencing>) {
    fencing.Some? && fencing.value.resource in fences ==> fences[fencing.value.resource] <= fencing.value.epoch
  }

  /** A commit succeeds exactly on an open store, when every expected revision is met, every
      message fits and the fence is not behind; otherwise it fails with the first of these that
      does not hold. Either way it returns the result or leaves everything as it was. */
  lemma CommitOutcome(s: Store, fencing: Option<Fencing>, identity: Option<Identity>, staged: Staged, result: Json)
    ensures var (s', r) := Commit(s, fencing, identity, staged, result);
      && (r.Ok? <==> s.lifecycle == Open && AllExpected(s.records, staged.mutations) && AllFit(s.outbox, staged.outbox)
                     && FenceHolds(s.fences, fencing))
      && (r.Ok? ==> r.value == result)
      && (r.Err? ==> s' == s)
      && (r == Err(Closed) <==> s.lifecycle != Open)
      && (r == Err(RevisionConflict) <==> s.lifecycle == Open && !AllExpected(s.records, staged.mutations))
      && (r == Err(FenceStale) <==> s.lifecycle == Open && AllExpected(s.records, staged.mutations)
                                    && AllFit(s.outbox, staged.outbox) && !FenceHolds(s.fences, fencing))
  {
    PlanIsFirstNew(s.outbox, staged.outbox);
    PlanErrors(s.outbox, [], staged.outbox);
    assert AllMatch(s.records, staged.mutations) == AllExpected(s.records, staged.mutations);
    hide PlanOutbox, AllFit, Written, Remembered, Mutates, AllMatch, AllExpected;
  }

  lemma {:induction false} PlanErrors(outbox: map<JsString, OutboxEntry>, planned: seq<OutboxMessage>,
                                      ms: seq<OutboxMessage>)
    ensures var plan := PlanOutbox(outbox, planned, ms);
      plan.Err? ==> plan.error == DataInvalid || plan.error == IdempotencyConflict
    decreases ms
  {
    if ms != [] {
      var next := PlanOne(outbox, planned, ms[0]);
      if next.Ok? { PlanErrors(outbox, next.value, ms[1..]); }
    }
  }

  // ----- What a successful commit writes

  ghost predicate Committed(s: Store, fencing: Option<Fencing>, identity: Option<Identity>, staged: Staged,
                            result: Json, s': Store)
  {
    Commit(s, fencing, identity, staged, result) == (s', Ok(result))
  }

  ghost function Plain(s: Store, fencing: Option<Fencing>, staged: Staged): Store {
    var added := FirstNew(s.outbox, staged.outbox);
    if Mutates(s, fencing, staged, added) then Written(s, fencing, staged, added) else s
  }

  lemma CommittedIs(s: Store, fencing: Option<Fencing>, identity: Option<Identity>, staged: Staged, result: Json,
                    s': Store)
    requires Committed(s, fencing, identity, staged, result, s')
    ensures s' == Remembered(Plain(s, fencing, staged), identity, result)
  {
    PlanIsFirstNew(s.outbox, staged.outbox);
    hide PlanOutbox, AllMatch, Written, Mutates, Remembered, FirstNew, AllFit;
  }

  /** The two logs a commit appends to. */
  lemma CommittedLogs(s: Store, fencing: Option<Fencing>, identity: Option<Identity>, staged: Staged, result: Json,
                      s': Store)
    requires Committed(s, fencing, identity, staged, result, s')
    ensures s'.history == s.history + JournalOf(staged.operations, s.revision + 1)
    ensures s'.changes == s.changes + ChangesOf(Applied(s.records, staged.mutations), s.revision + 1)
  {
    CommittedIs(s, fencing, identity, staged, result, s');
    hide Committed, FirstNew, Installed, Applied, Enqueued, Journaled, Fenced, AdvancesFence;
    if !Mutates(s, fencing, staged, FirstNew(s.outbox, staged.outbox)) {
      assert JournalOf([], s.revision + 1) == [] && ChangesOf([], s.revision + 1) == [];
    }
  }

  /** The journal gains one entry for each staged operation, in order, at the next revision. */
  lemma CommitJournals(s: Store, fencing: Option<Fencing>, identity: Option<Identity>, staged: Staged, result: Json,
                       s': Store)
    requires Committed(s, fencing, identity, staged, result, s')
    ensures |s'.history| == |s.history| + |staged.operations| && s.history <= s'.history
    ensures forall k | 0 <= k < |staged.operations| ::
      s'.history[|s.history| + k].operation == staged.operations[k]
        && s'.history[|s.history| + k].revision == s.revision + 1
  {
    CommittedLogs(s, fencing, identity, staged, result, s');
    hide Committed;
  }

  /** The place of an enqueued message among all that are enqueued. */
  lemma {:induction false} FirstNewAt(outbox: map<JsString, OutboxEntry>, ms: seq<OutboxMessage>, i: nat)
    requires i < |ms| && IsFirstNew(outbox, ms, i)
    ensures var k := |FirstNew(outbox, ms[..i])|;
      k < |FirstNew(outbox, ms)| && FirstNew(outbox, ms)[k] == ms[i]
  {
    var last := |ms| - 1;
    if i == last {
    } else {
      var front := ms[..last];
      assert front[..i] == ms[..i];
      FrontFirst(outbox, ms, last, i);
      FirstNewAt(outbox, front, i);
    }
  }

  lemma {:induction false} FirstNewRises(outbox: map<JsString, OutboxEntry>, ms: seq<OutboxMessage>, i: nat, j: nat)
    requires i < j <= |ms| && IsFirstNew(outbox, ms, i)
    ensures |FirstNew(outbox, ms[..i])| < |FirstNew(outbox, ms[..j])|
  {
    var part := ms[..j];
    FrontFirst(outbox, ms, j, i);
    FirstNewAt(outbox, part, i);
    assert part[..i] == ms[..i];
  }

  /** The outbox gains a fresh entry for the first staged message of every new identity ... */
  lemma CommitEnqueues(s: Store, fencing: Option<Fencing>, identity: Option<Identity>, staged: Staged, result: Json,
                       s': Store, i: nat)
    requires Committed(s, fencing, identity, staged, result, s')
    requires i < |staged.outbox| && IsFirstNew(s.outbox, staged.outbox, i)
    ensures EnqueuedAs(s, s', staged.outbox[i], |FirstNew(s.outbox, staged.outbox[..i])|)
  {
    var added := FirstNew(s.outbox, staged.outbox);
    CommittedOutbox(s, fencing, identity, staged, result, s');
    FirstNewDistinct(s.outbox, staged.outbox);
    EnqueuedEntriesAre(s.outbox, s.outboxSequence, added);
    hide Enqueued, FirstNew, Committed, DistinctMessages, IsNew;
    FirstNewAt(s.outbox, staged.outbox, i);
  }

  /** ... keeps every other entry ... */
  lemma CommitKeepsOthers(s: Store, fencing: Option<Fencing>, identity: Option<Identity>, staged: Staged, result: Json,
                          s': Store, id: JsString)
    requires Committed(s, fencing, identity, staged, result, s')
    requires IsNew(s.outbox, id) ==> forall i | 0 <= i < |staged.outbox| :: staged.outbox[i].messageId != id
    ensures (id in s'.outbox <==> id in s.outbox) && (id in s.outbox ==> s'.outbox[id] == s.outbox[id])
  {
    var added := FirstNew(s.outbox, staged.outbox);
    CommittedOutbox(s, fencing, identity, staged, result, s');
    FirstNewDistinct(s.outbox, staged.outbox);
    EnqueuedEntriesAre(s.outbox, s.outboxSequence, added);
    hide Enqueued, FirstNew, Committed, DistinctMessages, IsNew;
    forall k | 0 <= k < |added| ensures added[k].messageId != id {
      FirstNewMembers(s.outbox, staged.outbox, added[k]);
    }
  }

  /** A new entry that holds the message and nothing else, behind `before` others of its commit. */
  ghost predicate EnqueuedAs(s: Store, s': Store, m: OutboxMessage, before: nat) {
    && m.messageId in s'.outbox && s'.outbox[m.messageId].message == m && s'.outbox[m.messageId].attempt == 0
    && s'.outbox[m.messageId].claim.None? && s'.outbox[m.messageId].acknowledgement.None?
    && s'.outbox[m.messageId].acknowledgedClaim.None?
    && s'.outbox[m.messageId].enqueueSequence == s.outboxSequence + before + 1 <= s'.outboxSequence
  }

  /** ... in the order of staging. */
  lemma CommitKeepsOrder(s: Store, fencing: Option<Fencing>, identity: Option<Identity>, staged: Staged, result: Json,
                         s': Store, i: nat, j: nat)
    requires Committed(s, fencing, identity, staged, result, s') && i < j < |staged.outbox|
    requires IsFirstNew(s.outbox, staged.outbox, i) && IsFirstNew(s.outbox, staged.outbox, j)
    ensures staged.outbox[i].messageId in s'.outbox && staged.outbox[j].messageId in s'.outbox
    ensures var first, second := staged.outbox[i].messageId, staged.outbox[j].messageId;
      s'.outbox[first].enqueueSequence < s'.outbox[second].enqueueSequence
  {
    hide Committed, IsFirstNew;
    CommitEnqueues(s, fencing, identity, staged, result, s', i);
    CommitEnqueues(s, fencing, identity, staged, result, s', j);
    FirstNewRises(s.outbox, staged.outbox, i, j);
  }

  lemma CommittedOutbox(s: Store, fencing: Option<Fencing>, identity: Option<Identity>, staged: Staged, result: Json,
                        s': Store)
    requires Committed(s, fencing, identity, staged, result, s')
    ensures var added := FirstNew(s.outbox, staged.outbox);
      s'.outbox == Enqueued(s.outbox, s.outboxSequence, added) && s'.outboxSequence == s.outboxSequence + |added|
  {
    CommittedIs(s, fencing, identity, staged, result, s');
    hide Committed, FirstNew, Installed, Applied, Journaled, Fenced, AdvancesFence;
  }

  /** A put stores its value at the next revision, a delete removes its record, and no other record changes. */
  lemma CommitInstalls(s: Store, fencing: Option<Fencing>, identity: Option<Identity>, staged: Staged, result: Json,
                       s': Store)
    requires Committed(s, fencing, identity, staged, result, s') && WellStaged(staged)
    ensures forall m | m in staged.mutations ::
      if m.Put? then m.key in s'.records && s'.records[m.key].value == m.value
        && s'.records[m.key].revision == s.revision + 1
      else m.key !in s'.records
    ensures forall key | (forall m | m in staged.mutations :: m.key != key) ::
      (key in s'.records <==> key in s.records) && (key in s.records ==> s'.records[key] == s.records[key])
  {
    CommittedIs(s, fencing, identity, staged, result, s');
    NothingApplied(s.records, staged.mutations);
    hide Committed, FirstNew, Applied, Journaled, Enqueued, Fenced, AdvancesFence;
    forall m | m in staged.mutations ensures MutationOn(staged.mutations, m.key) == Some(m) {
      OnlyMutation(staged.mutations, m);
    }
  }

  lemma {:induction false} NothingApplied(records: map<StateKey, Record>, ms: seq<Mutation>)
    ensures Applied(records, ms) == [] <==> forall m | m in ms :: m.Delete? && m.key !in records
  {
    if ms != [] {
      NothingApplied(records, ms[1..]);
      assert forall m :: m in ms <==> m == ms[0] || m in ms[1..];
    }
  }

  lemma OnlyMutation(ms: seq<Mutation>, m: Mutation)
    requires Ascending(MutationLess, ms) && m in ms
    ensures MutationOn(ms, m.key) == Some(m)
  {
    var n := MutationOn(ms, m.key).value;
    var i :| 0 <= i < |ms| && ms[i] == m;
    var j :| 0 <= j < |ms| && ms[j] == n;
    assert i < j ==> MutationLess(ms[i], ms[j]);
    assert j < i ==> MutationLess(ms[j], ms[i]);
    KeyOrder();
  }

  /** The change log gains, in key order and at the next revision, exactly one change for each
      mutation that changes something: the value that was put, or a deletion. */
  lemma CommitPublishes(s: Store, fencing: Option<Fencing>, identity: Option<Identity>, staged: Staged, result: Json,
                        s': Store)
    requires Committed(s, fencing, identity, staged, result, s') && WellStaged(staged)
    ensures s.changes <= s'.changes
    ensures var added := s'.changes[|s.changes|..];
      && (forall i, j | 0 <= i < j < |added| :: KeyLess(added[i].key, added[j].key))
      && (forall c | c in added :: c.revision == s.revision + 1)
      && (forall m | m in staged.mutations && (m.Put? || m.key in s.records) ::
            Change(s.revision + 1, m.key, if m.Put? then Some(m.value) else None) in added)
      && (forall c | c in added :: exists m ::
          m in staged.mutations && m.key == c.key && (m.Put? || m.key in s.records))
  {
    CommittedLogs(s, fencing, identity, staged, result, s');
    AppliedAre(s.records, staged.mutations);
    hide Committed, Applied;
    var applied := Applied(s.records, staged.mutations);
    var added := s'.changes[|s.changes|..];
    assert added == ChangesOf(applied, s.revision + 1);
    PublishedAre(applied, s.revision + 1);
  }

  lemma PublishedAre(applied: seq<Mutation>, revision: nat)
    requires Ascending(MutationLess, applied)
    ensures var added := ChangesOf(applied, revision);
      && (forall i, j | 0 <= i < j < |added| :: KeyLess(added[i].key, added[j].key))
      && (forall m | m in applied :: Change(revision, m.key, if m.Put? then Some(m.value) else None) in added)
      && (forall c | c in added :: c.revision == revision && exists m :: m in applied && m.key == c.key)
  {
    hide KeyLess;
    var added := ChangesOf(applied, revision);
    forall i, j | 0 <= i < j < |added| ensures KeyLess(added[i].key, added[j].key) {
      assert MutationLess(applied[i], applied[j]);
    }
    forall m | m in applied ensures Change(revision, m.key, if m.Put? then Some(m.value) else None) in added {
      var i :| 0 <= i < |applied| && applied[i] == m;
      assert added[i] == ChangeOf(m, revision);
    }
    forall c | c in added ensures exists m :: m in applied && m.key == c.key {
      var i :| 0 <= i < |added| && added[i] == c;
      assert applied[i] in applied;
    }
  }

  lemma {:induction false} AppliedAre(records: map<StateKey, Record>, ms: seq<Mutation>)
    requires Ascending(MutationLess, ms)
    ensures Ascending(MutationLess, Applied(records, ms))
    ensures forall m :: m in Applied(records, ms) <==> m in ms && (m.Put? || m.key in records)
  {
    if ms != [] {
      AscendingTail(ms);
      AppliedAre(records, ms[1..]);
      assert forall m :: m in ms <==> m == ms[0] || m in ms[1..];
      var rest := Applied(records, ms[1..]);
      forall i | 0 <= i < |rest| ensures MutationLess(ms[0], rest[i]) {
        assert rest[i] in ms[1..];
        var j :| 0 <= j < |ms| - 1 && ms[1..][j] == rest[i];
        assert MutationLess(ms[0], ms[j + 1]);
      }
    }
  }

  /** The fence that was presented is stored; the others stay. */
  lemma CommitFencesAre(s: Store, fencing: Option<Fencing>, identity: Option<Identity>, staged: Staged, result: Json,
                        s': Store)
    requires Committed(s, fencing, identity, staged, result, s')
    ensures fencing.Some? ==>
      fencing.value.resource in s'.fences && s'.fences[fencing.value.resource] == fencing.value.epoch
    ensures forall resource | fencing.None? || resource != fencing.value.resource ::
      (resource in s'.fences <==> resource in s.fences)
        && (resource in s.fences ==> s'.fences[resource] == s.fences[resource])
  {
    CommittedIs(s, fencing, identity, staged, result, s');
    CommitOutcome(s, fencing, identity, staged, result);
    hide FirstNew, Journaled, Enqueued, Installed, Applied, AllFit, AllExpected, Commit;
  }

  /** The revision moves by one exactly when something was written. */
  lemma CommitMoves(s: Store, fencing: Option<Fencing>, identity: Option<Identity>, staged: Staged, result: Json,
                    s': Store)
    requires Committed(s, fencing, identity, staged, result, s')
    ensures var writes :=
        || (exists m :: m in staged.mutations && (m.Put? || m.key in s.records))
        || staged.operations != []
        || (exists i :: 0 <= i < |staged.outbox| && IsFirstNew(s.outbox, staged.outbox, i))
        || (fencing.Some?
            && (fencing.value.resource !in s.fences || s.fences[fencing.value.resource] < fencing.value.epoch));
      s'.revision == s.revision + if writes then 1 else 0
    ensures s'.lifecycle == s.lifecycle
    ensures s'.idempotency == if identity.None? then s.idempotency
      else s.idempotency[identity.value.key := IdempotencyRecord(identity.value.fingerprint, result)]
  {
    CommittedIs(s, fencing, identity, staged, result, s');
    NothingApplied(s.records, staged.mutations);
    NothingNew(s.outbox, staged.outbox);
    hide Committed, FirstNew, Journaled, Enqueued, Installed, Applied, IsFirstNew;
  }

  lemma NothingNew(outbox: map<JsString, OutboxEntry>, ms: seq<OutboxMessage>)
    ensures FirstNew(outbox, ms) == [] <==> forall i | 0 <= i < |ms| :: !IsFirstNew(outbox, ms, i)
  {
    hide IsFirstNew;
    if FirstNew(outbox, ms) != [] { FirstNewMembers(outbox, ms, FirstNew(outbox, ms)[0]); }
    if i :| 0 <= i < |ms| && IsFirstNew(outbox, ms, i) { FirstNewMembers(outbox, ms, ms[i]); }
  }

  // ----- Committed work is recorded for good

  ghost predicate InHistory(history: seq<JournalEntry>, operation: Operation) {
    exists h :: 0 <= h < |history| && history[h].operation == operation
  }

  /** Everything that committed transactions appended and enqueued is in the store. */
  ghost predicate Recorded(s: Store, e: Entry) {
    e.TxEntry? ==>
      var tx := Execute(e.snapshot, e.program, e.steps).tx;
      && (forall operation | operation in tx.operations :: InHistory(s.history, operation))
      && (forall m | m in tx.outbox :: m.messageId in s.outbox)
  }

  ghost predicate AllRecorded(sys: System) {
    forall n | 0 <= n < |sys.log| :: Recorded(sys.store, sys.log[n])
  }

  /** The store keeps its history and its outbox entries. */
  ghost predicate Keeps(s: Store, s': Store) {
    s.history <= s'.history && s.outbox.Keys <= s'.outbox.Keys
  }

  lemma KeepsRecorded(s: Store, s': Store, e: Entry)
    requires Keeps(s, s') && Recorded(s, e)
    ensures Recorded(s', e)
  {
    hide Execute;
    if e.TxEntry? {
      forall operation | operation in Execute(e.snapshot, e.program, e.steps).tx.operations
        ensures InHistory(s'.history, operation)
      {
        var h :| 0 <= h < |s.history| && s.history[h].operation == operation;
        assert s'.history[h] == s.history[h];
      }
    }
  }

  lemma CommitRecords(s: Store, fencing: Option<Fencing>, identity: Option<Identity>, staged: Staged, result: Json)
    ensures var s' := Commit(s, fencing, identity, staged, result).0;
      && Keeps(s, s')
      && (Commit(s, fencing, identity, staged, result).1.Ok? ==>
            && (forall operation | operation in staged.operations :: InHistory(s'.history, operation))
            && (forall m | m in staged.outbox :: m.messageId in s'.outbox))
  {
    var (s', r) := Commit(s, fencing, identity, staged, result);
    CommitOutcome(s, fencing, identity, staged, result);
    hide Commit, AllFit, AllExpected, FenceHolds, InHistory, FirstNew, IsNew, IsFirstNew;
    if r.Ok? {
      assert Committed(s, fencing, identity, staged, result, s');
      CommitJournals(s, fencing, identity, staged, result, s');
      forall operation | operation in staged.operations ensures InHistory(s'.history, operation) {
        var k :| 0 <= k < |staged.operations| && staged.operations[k] == operation;
        FoundAt(s'.history, |s.history| + k);
      }
      forall m | m in staged.outbox ensures m.messageId in s'.outbox {
        StagedIsThere(s, fencing, identity, staged, result, s', m);
      }
      forall id | id in s.outbox ensures id in s'.outbox { EntryIsThere(s, fencing, identity, staged, result, s', id); }
    }
  }

  lemma FoundAt(history: seq<JournalEntry>, h: nat)
    requires h < |history|
    ensures InHistory(history, history[h].operation)
  {
  }

  lemma StagedIsThere(s: Store, fencing: Option<Fencing>, identity: Option<Identity>, staged: Staged, result: Json,
                      s': Store, m: OutboxMessage)
    requires Committed(s, fencing, identity, staged, result, s') && m in staged.outbox
    ensures m.messageId in s'.outbox
  {
    hide Committed, FirstNew, IsFirstNew;
    var i :| 0 <= i < |staged.outbox| && staged.outbox[i] == m;
    if IsNew(s.outbox, m.messageId) {
      var k := FirstOf(s.outbox, staged.outbox, i);
      CommitEnqueues(s, fencing, identity, staged, result, s', k);
    } else {
      CommitKeepsOthers(s, fencing, identity, staged, result, s', m.messageId);
    }
  }

  lemma EntryIsThere(s: Store, fencing: Option<Fencing>, identity: Option<Identity>, staged: Staged, result: Json,
                     s': Store, id: JsString)
    requires Committed(s, fencing, identity, staged, result, s') && id in s.outbox
    ensures id in s'.outbox
  {
    hide Committed, IsNew;
    if i :| 0 <= i < |staged.outbox| && staged.outbox[i].messageId == id {
      StagedIsThere(s, fencing, identity, staged, result, s', staged.outbox[i]);
    } else {
      CommitKeepsOthers(s, fencing, identity, staged, result, s', id);
    }
  }

  lemma ClaimKeeps(s: Store, r: ClaimRequest, now: int)
    ensures Keeps(s, ClaimOutbox(s, r, now).0)
  {
    hide PlanClaims;
    if ValidClaimRequest(r) {
      var plan := PlanClaims(s.outbox, r, now);
      assert Keeps(s, ConcludeClaims(s, r, now, plan).0);
    }
  }

  lemma StepRecords(sys: System, step: Step)
    requires Enabled(sys, step)
    ensures Keeps(sys.store, Apply(sys, step).store)
    ensures |Apply(sys, step).log| <= |sys.log| + 1 && sys.log <= Apply(sys, step).log
    ensures |Apply(sys, step).log| > |sys.log| ==> Recorded(Apply(sys, step).store, Apply(sys, step).log[|sys.log|])
  {
    hide Execute, Commit, ClaimOutbox, NextOp, InHistory;
    if step.RunJob? {
      match sys.queue[0]
      case CommitJob(id) =>
        var c := sys.calls[id];
        if NextOp(c).Return? { CommitRecords(sys.store, c.fencing, c.identity, StagedBy(c), NextOp(c).result); }
      case ClaimJob(r) => ClaimKeeps(sys.store, r, step.now);
      case AckJob(r) =>
    }
  }

  lemma {:induction false} RunRecords(states: seq<System>, steps: seq<Step>, i: nat)
    requires Run(states, steps) && i < |states|
    ensures AllRecorded(states[i])
  {
    hide Run, Enabled, Apply, Recorded;
    if i == 0 {
      RunStarts(states, steps);
    } else {
      RunStep(states, steps, i - 1);
      RunRecords(states, steps, i - 1);
      StepRecords(states[i - 1], steps[i - 1]);
      forall n | 0 <= n < |states[i].log| ensures Recorded(states[i].store, states[i].log[n]) {
        if n < |states[i - 1].log| {
          KeepsRecorded(states[i - 1].store, states[i].store, states[i - 1].log[n]);
        }
      }
    }
  }

  // ----- From requests to staging

  /** What was accepted before the n-th request is in what the n requests appended and enqueued. */
  lemma {:induction false} RequestsStay(snapshot: map<StateKey, Record>, program: Program, k: nat, n: nat)
    requires k < n && Answered(snapshot, program, k)
    ensures var op := RequestAt(snapshot, program, k);
      && (op.AppendOp? ==> op.operation in Appended(snapshot, program, n))
      && (op.EnqueueOp? ==> op.message in Enqueuing(snapshot, program, n))
    decreases n
  {
    hide Execute, RequestAt, Answered;
    if n > k + 1 { RequestsStay(snapshot, program, k, n - 1); }
  }

  /** Whatever runs, every operation that a committed transaction's work appended is in the
      history from then on, and every message it enqueued has an entry. */
  lemma CommittedWorkIsRecorded(states: seq<System>, steps: seq<Step>, i: nat, n: nat, k: nat)
    requires Run(states, steps) && i < |states| && n < |states[i].log| && states[i].log[n].TxEntry?
    requires var e := states[i].log[n]; k < e.steps && Answered(e.snapshot, e.program, k)
    ensures var e := states[i].log[n];
      var op := RequestAt(e.snapshot, e.program, k);
      && (op.AppendOp? ==>
          exists h :: 0 <= h < |states[i].store.history| && states[i].store.history[h].operation == op.operation)
      && (op.EnqueueOp? ==> op.message.messageId in states[i].store.outbox)
  {
    hide Run, Answered, Execute;
    RunRecords(states, steps, i);
    var e := states[i].log[n];
    assert Recorded(states[i].store, e);
    RequestsStay(e.snapshot, e.program, k, e.steps);
    StagedInOrder(e.snapshot, e.program, e.steps);
  }

  // ----- A closed store

  lemma StepStaysClosed(sys: System, step: Step)
    requires Enabled(sys, step) && (step.CloseStore? || sys.store.lifecycle != Open)
    ensures Apply(sys, step).store.lifecycle != Open
    ensures Apply(sys, step).store.(lifecycle := sys.store.lifecycle) == sys.store
  {
    hide Execute, PlanOutbox, PlanClaims;
  }

  /** Once closed, a store stays closed and holds what it held; every call, commit, claim and
      acknowledgement that comes later is refused. */
  lemma {:induction false} ClosedForGood(states: seq<System>, steps: seq<Step>, i: nat, j: nat)
    requires Run(states, steps) && i < j < |states| && steps[i] == CloseStore
    ensures states[j].store.lifecycle != Open
    ensures states[j].store.(lifecycle := states[i].store.lifecycle) == states[i].store
    ensures j < |steps| && steps[j].Begin? ==>
      steps[j].id in states[j + 1].calls && states[j + 1].calls[steps[j].id].phase == Done(Refused(Closed))
    ensures forall fencing, identity, staged, result ::
      Commit(states[j].store, fencing, identity, staged, result) == (states[j].store, Err(Closed))
    ensures forall r: ClaimRequest, now :: ClaimOutbox(states[j].store, r, now) == (states[j].store, Err(Closed))
    ensures forall r: AckRequest, now :: AcknowledgeOutbox(states[j].store, r, now) == (states[j].store, Err(Closed))
  {
    hide Apply;
    RunStep(states, steps, j - 1);
    if i + 1 < j { ClosedForGood(states, steps, i, j - 1); }
    StepStaysClosed(states[j - 1], steps[j - 1]);
    if j < |steps| && steps[j].Begin? {
      RunStep(states, steps, j);
      ClosedCalls(states[j], steps[j]);
    }
  }

  lemma ClosedCalls(sys: System, step: Step)
    requires Enabled(sys, step) && step.Begin? && sys.store.lifecycle != Open
    ensures step.id in Apply(sys, step).calls && Apply(sys, step).calls[step.id].phase == Done(Refused(Closed))
  {
  }
}
