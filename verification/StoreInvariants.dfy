/** What every commit, claim and acknowledgement keeps: the change log replays to the
    records, revisions bound everything stored, the journal's current entries are its
    last ones, outbox entries are coherent, and fences never fall. */
module StoreInvariants {
  import opened Order
  import opened StateStrings
  import opened StoreModel

  // ----- Change log

  function ApplyChange(records: map<StateKey, Record>, c: Change): map<StateKey, Record> {
    if c.value.Some? then records[c.key := Record(c.value.value, c.revision)] else records - {c.key}
  }

  /** A reader that starts from some records and follows the log. */
  function Replay(records: map<StateKey, Record>, changes: seq<Change>): map<StateKey, Record>
    decreases changes
  {
    if changes == [] then records else Replay(ApplyChange(records, changes[0]), changes[1..])
  }

  lemma {:induction false} ReplayConcat(records: map<StateKey, Record>, a: seq<Change>, b: seq<Change>)
    ensures Replay(records, a + b) == Replay(Replay(records, a), b)
    decreases a
  {
    if a == [] {
      assert a + b == b;
    } else {
      assert (a + b)[1..] == a[1..] + b;
      ReplayConcat(ApplyChange(records, a[0]), a[1..], b);
    }
  }

  lemma {:induction false} AppliedIgnoresOtherKeys(a: map<StateKey, Record>, b: map<StateKey, Record>,
      mutations: seq<Mutation>)
    requires forall m | m in mutations :: m.key in a <==> m.key in b
    ensures Applied(a, mutations) == Applied(b, mutations)
  {
    if mutations != [] { AppliedIgnoresOtherKeys(a, b, mutations[1..]); }
  }

  lemma AscendingTail(mutations: seq<Mutation>)
    requires Ascending(MutationLess, mutations) && mutations != []
    ensures Ascending(MutationLess, mutations[1..])
    ensures forall m | m in mutations[1..] :: m.key != mutations[0].key
  {
    forall m | m in mutations[1..] ensures m.key != mutations[0].key {
      var i :| 0 <= i < |mutations| - 1 && mutations[1..][i] == m;
      assert MutationLess(mutations[0], mutations[i + 1]);
      KeyOrder();
    }
    forall i, j | 0 <= i < j < |mutations[1..]| ensures MutationLess(mutations[1..][i], mutations[1..][j]) {
      assert MutationLess(mutations[i + 1], mutations[j + 1]);
    }
  }

  /** Following one commit's changes gives exactly the records the commit installed. */
  lemma {:induction false} ReplayInstalls(records: map<StateKey, Record>, mutations: seq<Mutation>, revision: nat)
    requires Ascending(MutationLess, mutations)
    ensures Replay(records, ChangesOf(Applied(records, mutations), revision)) == Installed(records, mutations, revision)
    decreases mutations
  {
    if mutations == [] {
      assert Installed(records, mutations, revision) == records;
    } else {
      var m, rest := mutations[0], mutations[1..];
      AscendingTail(mutations);
      var changes := ChangesOf(Applied(records, mutations), revision);
      var next := if Effective(records, m) then ApplyChange(records, ChangeOf(m, revision)) else records;
      AppliedIgnoresOtherKeys(records, next, rest);
      ReplayInstalls(next, rest, revision);
      if Effective(records, m) {
        assert Applied(records, mutations)[1..] == Applied(next, rest);
        assert changes[1..] == ChangesOf(Applied(next, rest), revision);
        assert changes[0] == ChangeOf(m, revision);
      } else {
        assert Applied(records, mutations) == Applied(next, rest);
      }
      InstalledStep(records, mutations, revision, next);
    }
  }

  lemma MutationOnCons(mutations: seq<Mutation>, key: StateKey)
    requires mutations != []
    ensures MutationOn(mutations, key) == if mutations[0].key == key then Some(mutations[0])
      else MutationOn(mutations[1..], key)
  {
  }

  lemma InstalledAt(records: map<StateKey, Record>, mutations: seq<Mutation>, revision: nat, key: StateKey)
    ensures key in Installed(records, mutations, revision) <==> Remains(records, mutations, key)
    ensures var m := MutationOn(mutations, key);
      Remains(records, mutations, key) ==>
        Installed(records, mutations, revision)[key] == if m.None? then records[key]
        else Record(m.value.value, revision)
  {
    if MutationOn(mutations, key).Some? { assert MutationOn(mutations, key).value in mutations; }
  }

  lemma InstalledStep(records: map<StateKey, Record>, mutations: seq<Mutation>, revision: nat,
                      next: map<StateKey, Record>)
    requires mutations != [] && forall m | m in mutations[1..] :: m.key != mutations[0].key
    requires next == if Effective(records, mutations[0]) then ApplyChange(records, ChangeOf(mutations[0], revision))
      else records
    ensures Installed(next, mutations[1..], revision) == Installed(records, mutations, revision)
  {
    hide Ascending, MutationOn, Installed;
    var a, b := Installed(next, mutations[1..], revision), Installed(records, mutations, revision);
    forall key ensures (key in a <==> key in b) && (key in a ==> a[key] == b[key]) {
      MutationOnCons(mutations, key);
      InstalledAt(next, mutations[1..], revision, key);
      InstalledAt(records, mutations, revision, key);
    }
  }

  ghost predicate LogRefinesRecords(s: Store) {
    Replay(map[], s.changes) == s.records
  }

  /** Log revisions never decrease and never exceed the store's. */
  ghost predicate LogOrdered(s: Store) {
    && (forall i | 0 <= i < |s.changes| :: 0 < s.changes[i].revision <= s.revision)
    && (forall i, j | 0 <= i < j < |s.changes| :: s.changes[i].revision <= s.changes[j].revision)
  }

  ghost predicate RecordsBounded(s: Store) {
    forall key | key in s.records :: 0 < s.records[key].revision <= s.revision
  }

  // ----- Journal

  function LastEntry(history: seq<JournalEntry>, id: JsString): Option<JournalEntry> {
    if history == [] then None
    else
      var last := history[|history| - 1];
      if last.operation.operationId == id then Some(last) else LastEntry(history[..|history| - 1], id)
  }

  ghost predicate CurrentIsLast(s: Store) {
    forall id: JsString ::
      var last := LastEntry(s.history, id);
      (id in s.operations <==> last.Some?) && (last.Some? ==> s.operations[id] == last.value)
  }

  /** Positions in the journal are bounded and pairwise distinct. */
  ghost predicate JournalOrdered(s: Store) {
    && (forall i | 0 <= i < |s.history| :: 0 < s.history[i].revision <= s.revision)
    && (forall i, j | 0 <= i < j < |s.history| ::
          && s.history[i].revision <= s.history[j].revision
          && (s.history[i].revision == s.history[j].revision ==>
                s.history[i].operation.operationId != s.history[j].operation.operationId))
  }

  lemma {:induction false} JournaledIsLast(current: map<JsString, JournalEntry>, history: seq<JournalEntry>,
                                           entries: seq<JournalEntry>)
    requires forall id: JsString ::
      (id in current <==> LastEntry(history, id).Some?)
        && (id in current ==> current[id] == LastEntry(history, id).value)
    ensures forall id: JsString ::
      var last := LastEntry(history + entries, id);
      (id in Journaled(current, entries) <==> last.Some?)
        && (last.Some? ==> Journaled(current, entries)[id] == last.value)
    decreases entries
  {
    if entries == [] {
      assert history + entries == history;
    } else {
      var e := entries[0];
      var next := current[e.operation.operationId := e];
      var extended := history + [e];
      assert extended[..|extended| - 1] == history;
      assert history + entries == extended + entries[1..];
      JournaledIsLast(next, extended, entries[1..]);
    }
  }

  // ----- Outbox

  ghost predicate EntryOk(id: JsString, e: OutboxEntry) {
    && e.message.messageId == id
    && e.message.availableAt.Canonical?
    && (e.acknowledgement.Some? <==> e.acknowledgedClaim.Some?)
    && !(e.claim.Some? && e.acknowledgement.Some?)
    && (e.attempt == 0 <==> e.claim.None? && e.acknowledgement.None?)
    && (e.claim.Some? ==> e.claim.value.claimEpoch == e.attempt == e.claim.value.attempt)
    && (e.acknowledgedClaim.Some? ==> e.acknowledgedClaim.value.claimEpoch == e.attempt)
  }

  ghost predicate OutboxOk(outbox: map<JsString, OutboxEntry>, sequence: nat) {
    && (forall id | id in outbox :: EntryOk(id, outbox[id]) && 0 < outbox[id].enqueueSequence <= sequence)
    && (forall a, b | a in outbox && b in outbox && a != b :: outbox[a].enqueueSequence != outbox[b].enqueueSequence)
  }

  ghost predicate PlannedOk(outbox: map<JsString, OutboxEntry>, planned: seq<OutboxMessage>) {
    && (forall m | m in planned ::
        m.availableAt.Canonical? && (m.messageId in outbox ==> AwaitsRetry(outbox[m.messageId])))
    && (forall i, j | 0 <= i < j < |planned| :: planned[i].messageId != planned[j].messageId)
  }

  lemma {:induction false} PlanIsOk(outbox: map<JsString, OutboxEntry>, planned: seq<OutboxMessage>,
                                    messages: seq<OutboxMessage>)
    requires PlannedOk(outbox, planned)
    ensures PlanOutbox(outbox, planned, messages).Ok? ==> PlannedOk(outbox, PlanOutbox(outbox, planned, messages).value)
    decreases messages
  {
    if messages != [] {
      var next := PlanOne(outbox, planned, messages[0]);
      if next.Ok? { PlanIsOk(outbox, next.value, messages[1..]); }
    }
  }

  lemma {:induction false} EnqueuedOk(outbox: map<JsString, OutboxEntry>, sequence: nat, messages: seq<OutboxMessage>)
    requires OutboxOk(outbox, sequence)
    requires forall m | m in messages :: m.availableAt.Canonical?
    ensures OutboxOk(Enqueued(outbox, sequence, messages), sequence + |messages|)
    decreases messages
  {
    if messages != [] {
      var m := messages[0];
      EnqueuedOk(outbox[m.messageId := FreshEntry(m, sequence + 1)], sequence + 1, messages[1..]);
    }
  }

  // ----- The store invariant

  ghost predicate StoreOk(s: Store) {
    && LogRefinesRecords(s)
    && LogOrdered(s)
    && RecordsBounded(s)
    && CurrentIsLast(s)
    && JournalOrdered(s)
    && OutboxOk(s.outbox, s.outboxSequence)
  }

  lemma EmptyStoreOk()
    ensures StoreOk(EmptyStore)
  {
  }

  lemma WrittenKeepsLog(s: Store, fencing: Option<Fencing>, staged: Staged, added: seq<OutboxMessage>)
    requires StoreOk(s) && WellStaged(staged)
    ensures LogRefinesRecords(Written(s, fencing, staged, added)) && LogOrdered(Written(s, fencing, staged, added))
    ensures RecordsBounded(Written(s, fencing, staged, added))
  {
    hide CurrentIsLast, JournalOrdered, OutboxOk, Enqueued, Journaled, Ascending;
    var revision := s.revision + 1;
    var changes := ChangesOf(Applied(s.records, staged.mutations), revision);
    ReplayInstalls(s.records, staged.mutations, revision);
    ReplayConcat(map[], s.changes, changes);
  }

  lemma WrittenKeepsJournal(s: Store, fencing: Option<Fencing>, staged: Staged, added: seq<OutboxMessage>)
    requires StoreOk(s) && WellStaged(staged)
    ensures CurrentIsLast(Written(s, fencing, staged, added)) && JournalOrdered(Written(s, fencing, staged, added))
  {
    hide LogRefinesRecords, LogOrdered, RecordsBounded, OutboxOk, Enqueued, Installed, Applied, Ascending;
    var entries := JournalOf(staged.operations, s.revision + 1);
    JournaledIsLast(s.operations, s.history, entries);
  }

  lemma WrittenKeepsOutbox(s: Store, fencing: Option<Fencing>, staged: Staged, added: seq<OutboxMessage>)
    requires OutboxOk(s.outbox, s.outboxSequence) && PlannedOk(s.outbox, added)
    ensures OutboxOk(Written(s, fencing, staged, added).outbox, Written(s, fencing, staged, added).outboxSequence)
  {
    EnqueuedOk(s.outbox, s.outboxSequence, added);
  }

  lemma WrittenKeepsOk(s: Store, fencing: Option<Fencing>, staged: Staged, added: seq<OutboxMessage>)
    requires StoreOk(s) && WellStaged(staged) && PlannedOk(s.outbox, added)
    ensures StoreOk(Written(s, fencing, staged, added))
  {
    hide Written, LogRefinesRecords, LogOrdered, RecordsBounded, CurrentIsLast, JournalOrdered, OutboxOk, WellStaged,
        PlannedOk;
    WrittenKeepsLog(s, fencing, staged, added);
    WrittenKeepsJournal(s, fencing, staged, added);
    WrittenKeepsOutbox(s, fencing, staged, added);
  }

  lemma RememberedKeepsOk(s: Store, identity: Option<Identity>, result: Json)
    requires StoreOk(s)
    ensures StoreOk(Remembered(s, identity, result))
  {
  }

  /** A commit keeps the invariant, and one that fails changes nothing. */
  lemma CommitKeepsOk(s: Store, fencing: Option<Fencing>, identity: Option<Identity>, staged: Staged, result: Json)
    requires StoreOk(s) && WellStaged(staged)
    ensures StoreOk(Commit(s, fencing, identity, staged, result).0)
    ensures Commit(s, fencing, identity, staged, result).1.Err? ==> Commit(s, fencing, identity, staged, result).0 == s
  {
    hide StoreOk, Written, Remembered, PlanOutbox, Mutates, WellStaged, AllMatch;
    var plan := PlanOutbox(s.outbox, [], staged.outbox);
    if plan.Ok? {
      PlanIsOk(s.outbox, [], staged.outbox);
      WrittenKeepsOk(s, fencing, staged, plan.value);
      RememberedKeepsOk(Written(s, fencing, staged, plan.value), identity, result);
      RememberedKeepsOk(s, identity, result);
    }
  }

  lemma WithClaimsOk(outbox: map<JsString, OutboxEntry>, sequence: nat, chosen: set<JsString>, r: ClaimRequest,
                     now: int)
    requires OutboxOk(outbox, sequence)
    ensures OutboxOk(WithClaims(outbox, chosen, r, now), sequence)
  {
  }

  lemma ConcludeClaimsKeepsOk(s: Store, r: ClaimRequest, now: int, plan: ClaimPlan)
    requires StoreOk(s)
    ensures StoreOk(ConcludeClaims(s, r, now, plan).0)
  {
    WithClaimsOk(s.outbox, s.outboxSequence, plan.chosen, r, now);
  }

  lemma ClaimKeepsOk(s: Store, r: ClaimRequest, now: int)
    requires StoreOk(s)
    ensures StoreOk(ClaimOutbox(s, r, now).0)
  {
    hide StoreOk, PlanClaims, ConcludeClaims;
    if ValidClaimRequest(r) {
      ConcludeClaimsKeepsOk(s, r, now, PlanClaims(s.outbox, r, now));
    }
  }

  lemma AcknowledgedOk(outbox: map<JsString, OutboxEntry>, sequence: nat, r: AckRequest, now: int)
    requires OutboxOk(outbox, sequence) && ValidAckRequest(r)
    requires r.messageId in outbox && outbox[r.messageId].claim.Some?
    ensures OutboxOk(outbox[r.messageId := Acknowledged(outbox[r.messageId], r, now)], sequence)
  {
    var e := outbox[r.messageId];
    assert EntryOk(r.messageId, e);
    assert EntryOk(r.messageId, Acknowledged(e, r, now));
  }

  lemma AcknowledgeKeepsOk(s: Store, r: AckRequest, now: int)
    requires StoreOk(s)
    ensures StoreOk(AcknowledgeOutbox(s, r, now).0)
  {
    if ValidAckRequest(r) && r.messageId in s.outbox && s.outbox[r.messageId].claim.Some? {
      AcknowledgedOk(s.outbox, s.outboxSequence, r, now);
      assert StoreOk(ConcludeAck(s, r, now));
    }
  }

  lemma WrittenOwnsItsRevision(s: Store, fencing: Option<Fencing>, staged: Staged, added: seq<OutboxMessage>)
    ensures var s' := Written(s, fencing, staged, added);
      && s.changes <= s'.changes && s'.revision == s.revision + 1
      && (forall i | |s.changes| <= i < |s'.changes| :: s'.changes[i].revision == s'.revision)
  {
    var changes := ChangesOf(Applied(s.records, staged.mutations), s.revision + 1);
    assert forall i | 0 <= i < |changes| :: changes[i].revision == s.revision + 1;
  }

  /** The changes of one commit share one revision that no earlier change has,
      and the counter moves past it so that no later change can have it. */
  lemma CommitOwnsItsRevision(s: Store, fencing: Option<Fencing>, identity: Option<Identity>, staged: Staged,
                              result: Json)
    requires LogOrdered(s)
    ensures var s' := Commit(s, fencing, identity, staged, result).0;
      && s.changes <= s'.changes
      && (s'.revision == s.revision || s'.revision == s.revision + 1)
      && (forall i | |s.changes| <= i < |s'.changes| :: s'.changes[i].revision == s'.revision == s.revision + 1)
      && (forall i | 0 <= i < |s.changes| :: s'.changes[i].revision <= s.revision)
  {
    var plan := PlanOutbox(s.outbox, [], staged.outbox);
    if plan.Ok? { WrittenOwnsItsRevision(s, fencing, staged, plan.value); }
  }

  /** Claims and acknowledgements advance the same counter but never touch the log or the records. */
  lemma ClaimLeavesLogAlone(s: Store, r: ClaimRequest, now: int)
    ensures var s' := ClaimOutbox(s, r, now).0;
      s'.changes == s.changes && s'.records == s.records && s.revision <= s'.revision <= s.revision + 1
  {
    hide PlanClaims, WithClaims;
    if ValidClaimRequest(r) {
      var plan := PlanClaims(s.outbox, r, now);
      assert ConcludeClaims(s, r, now, plan).0.changes == s.changes;
    }
  }

  lemma AcknowledgeLeavesLogAlone(s: Store, r: AckRequest, now: int)
    ensures var s' := AcknowledgeOutbox(s, r, now).0;
      s'.changes == s.changes && s'.records == s.records && s.revision <= s'.revision <= s.revision + 1
  {
  }

  /** Every fence that is stored stays stored and never decreases. */
  ghost predicate FencesGrow(a: map<JsString, nat>, b: map<JsString, nat>) {
    forall resource | resource in a :: resource in b && a[resource] <= b[resource]
  }

  lemma CommitFences(s: Store, fencing: Option<Fencing>, identity: Option<Identity>, staged: Staged, result: Json)
    ensures FencesGrow(s.fences, Commit(s, fencing, identity, staged, result).0.fences)
  {
    var plan := PlanOutbox(s.outbox, [], staged.outbox);
    if plan.Ok? { assert FencesGrow(s.fences, Written(s, fencing, staged, plan.value).fences); }
  }

  lemma ClaimFences(s: Store, r: ClaimRequest, now: int)
    ensures FencesGrow(s.fences, ClaimOutbox(s, r, now).0.fences)
  {
    hide PlanClaims, WithClaims;
    if ValidClaimRequest(r) && !FenceIsStale(s.fences, r.fencing) {
      var plan := PlanClaims(s.outbox, r, now);
      assert FencesGrow(s.fences, ConcludeClaims(s, r, now, plan).0.fences);
    }
  }

  lemma AcknowledgeFences(s: Store, r: AckRequest, now: int)
    ensures FencesGrow(s.fences, AcknowledgeOutbox(s, r, now).0.fences)
  {
  }
}
