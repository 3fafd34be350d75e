/** The loops of a commit and a claim, each proved against the declarative transition. */
module StoreLoops {
  import opened Order
  import opened StateStrings
  import opened StoreModel
  import opened StoreInvariants

  // ----- Record mutations

  /** Deletions only, as the conflict check applies them before any put. */
  function WithoutDeleted(records: map<StateKey, Record>, mutations: seq<Mutation>): map<StateKey, Record> {
    map key | key in records && !(MutationOn(mutations, key).Some? && MutationOn(mutations, key).value.Delete?) ::
      records[key]
  }

  lemma {:induction false} AppliedSnoc(records: map<StateKey, Record>, mutations: seq<Mutation>, m: Mutation)
    ensures Applied(records, mutations + [m]) == Applied(records, mutations)
      + (if Effective(records, m) then [m] else [])
  {
    if mutations == [] {
      assert mutations + [m] == [m];
    } else {
      assert (mutations + [m])[1..] == mutations[1..] + [m];
      AppliedSnoc(records, mutations[1..], m);
    }
  }

  lemma {:induction false} MutationOnSnoc(mutations: seq<Mutation>, m: Mutation, key: StateKey)
    ensures MutationOn(mutations + [m], key) ==
      if MutationOn(mutations, key).Some? then MutationOn(mutations, key) else if m.key == key then Some(m) else None
  {
    if mutations == [] {
      assert mutations + [m] == [m];
    } else {
      assert (mutations + [m])[1..] == mutations[1..] + [m];
      MutationOnSnoc(mutations[1..], m, key);
    }
  }

  lemma {:induction false} MutationOnApplied(records: map<StateKey, Record>, mutations: seq<Mutation>, key: StateKey)
    requires Ascending(MutationLess, mutations)
    ensures MutationOn(Applied(records, mutations), key) ==
      var m := MutationOn(mutations, key);
      if m.Some? && Effective(records, m.value) then m else None
  {
    if mutations != [] {
      AscendingTail(mutations);
      MutationOnApplied(records, mutations[1..], key);
      var rest := Applied(records, mutations[1..]);
      if mutations[0].key == key {
        assert MutationOn(mutations[1..], key).None?;
        if Effective(records, mutations[0]) { assert (([mutations[0]] + rest))[0].key == key; }
      } else if Effective(records, mutations[0]) {
        assert Applied(records, mutations)[1..] == rest;
      } else {
        assert Applied(records, mutations) == rest;
      }
    }
  }

  /** Puts laid over the records that survived the deletions. */
  function PutsOver(base: map<StateKey, Record>, applied: seq<Mutation>, revision: nat): map<StateKey, Record>
    decreases |applied|
  {
    if applied == [] then base
    else
      var last := applied[|applied| - 1];
      var before := PutsOver(base, applied[..|applied| - 1], revision);
      if last.Put? then before[last.key := Record(last.value, revision)] else before
  }

  lemma {:induction false} PutsOverLookup(base: map<StateKey, Record>, applied: seq<Mutation>, revision: nat,
                                          key: StateKey)
    requires forall i, j | 0 <= i < j < |applied| :: applied[i].key != applied[j].key
    ensures var m := MutationOn(applied, key);
      var result := PutsOver(base, applied, revision);
      if m.Some? && m.value.Put? then key in result && result[key] == Record(m.value.value, revision)
      else (key in result <==> key in base) && (key in base ==> result[key] == base[key])
    decreases |applied|
  {
    if applied != [] {
      var init, last := applied[..|applied| - 1], applied[|applied| - 1];
      assert applied == init + [last];
      MutationOnSnoc(init, last, key);
      PutsOverLookup(base, init, revision, key);
    }
  }

  lemma {:induction false} AppliedDistinct(records: map<StateKey, Record>, mutations: seq<Mutation>)
    requires Ascending(MutationLess, mutations)
    ensures forall m | m in Applied(records, mutations) :: m in mutations
    ensures forall i, j | 0 <= i < j < |Applied(records, mutations)| ::
      Applied(records, mutations)[i].key != Applied(records, mutations)[j].key
  {
    if mutations != [] {
      AscendingTail(mutations);
      AppliedDistinct(records, mutations[1..]);
    }
  }

  /** Deleting first and putting afterwards installs the same records. */
  lemma DeleteThenPut(records: map<StateKey, Record>, mutations: seq<Mutation>, revision: nat)
    requires Ascending(MutationLess, mutations)
    ensures PutsOver(WithoutDeleted(records, mutations), Applied(records, mutations), revision) ==
      Installed(records, mutations, revision)
  {
    hide PutsOver, Ascending, KeyLess, Applied, MutationOn;
    var base, applied := WithoutDeleted(records, mutations), Applied(records, mutations);
    var a, b := PutsOver(base, applied, revision), Installed(records, mutations, revision);
    AppliedDistinct(records, mutations);
    forall key ensures (key in a <==> key in b) && (key in a ==> a[key] == b[key]) {
      PutsOverLookup(base, applied, revision, key);
      MutationOnApplied(records, mutations, key);
      if MutationOn(mutations, key).Some? { assert key in KeysOf(mutations); }
    }
  }

  lemma {:induction false} PlanSnoc(outbox: map<JsString, OutboxEntry>, planned: seq<OutboxMessage>,
                                    messages: seq<OutboxMessage>, m: OutboxMessage)
    ensures PlanOutbox(outbox, planned, messages + [m]) ==
      var before := PlanOutbox(outbox, planned, messages);
      if before.Err? then before else PlanOne(outbox, before.value, m)
    decreases messages
  {
    if messages == [] {
      assert messages + [m] == [m];
      assert [m][1..] == [];
    } else {
      assert (messages + [m])[1..] == messages[1..] + [m];
      var next := PlanOne(outbox, planned, messages[0]);
      if next.Ok? { PlanSnoc(outbox, next.value, messages[1..], m); }
    }
  }

  lemma {:induction false} PlanErrPersists(outbox: map<JsString, OutboxEntry>, planned: seq<OutboxMessage>,
                                           messages: seq<OutboxMessage>, i: nat)
    requires i <= |messages| && PlanOutbox(outbox, planned, messages[..i]).Err?
    ensures PlanOutbox(outbox, planned, messages) == PlanOutbox(outbox, planned, messages[..i])
    decreases messages
  {
    if messages != [] && i > 0 {
      assert messages[..i][1..] == messages[1..][..i - 1];
      var next := PlanOne(outbox, planned, messages[0]);
      if next.Ok? { PlanErrPersists(outbox, next.value, messages[1..], i - 1); }
    }
  }

  lemma {:induction false} EnqueuedSnoc(outbox: map<JsString, OutboxEntry>, sequence: nat,
                                        messages: seq<OutboxMessage>, m: OutboxMessage)
    ensures Enqueued(outbox, sequence, messages + [m]) ==
      Enqueued(outbox, sequence, messages)[m.messageId := FreshEntry(m, sequence + |messages| + 1)]
    decreases messages
  {
    if messages == [] {
      assert messages + [m] == [m];
      assert [m][1..] == [];
    } else {
      assert (messages + [m])[1..] == messages[1..] + [m];
      EnqueuedSnoc(outbox[messages[0].messageId := FreshEntry(messages[0], sequence + 1)], sequence + 1, messages[1..],
                   m);
    }
  }

  lemma {:induction false} JournaledSnoc(current: map<JsString, JournalEntry>, entries: seq<JournalEntry>,
                                         e: JournalEntry)
    ensures Journaled(current, entries + [e]) == Journaled(current, entries)[e.operation.operationId := e]
    decreases entries
  {
    if entries == [] {
      assert entries + [e] == [e];
      assert [e][1..] == [];
    } else {
      assert (entries + [e])[1..] == entries[1..] + [e];
      JournaledSnoc(current[entries[0].operation.operationId := entries[0]], entries[1..], e);
    }
  }

  /** The eligible positions of an ordered outbox, in order. */
  function EligibleAlong(outbox: map<JsString, OutboxEntry>, order: seq<Position>, topic: Option<JsString>,
                         now: int): (queue: seq<Position>)
    requires forall p | p in order :: p.id in outbox
    ensures forall p :: p in queue <==> p in order && Eligible(outbox[p.id], topic, now)
    decreases |order|
  {
    if order == [] then []
    else
      var init, last := order[..|order| - 1], order[|order| - 1];
      assert order == init + [last];
      EligibleAlong(outbox, init, topic, now) + (if Eligible(outbox[last.id], topic, now) then [last] else [])
  }

  lemma {:induction false} EligibleAlongAscends(outbox: map<JsString, OutboxEntry>, order: seq<Position>,
                                                topic: Option<JsString>, now: int)
    requires (forall p | p in order :: p.id in outbox) && Ascending(PositionLess, order)
    ensures Ascending(PositionLess, EligibleAlong(outbox, order, topic, now))
    decreases |order|
  {
    if order != [] {
      var init := order[..|order| - 1];
      EligibleAlongAscends(outbox, init, topic, now);
    }
  }

  lemma {:induction false} EligibleAlongPrefix(outbox: map<JsString, OutboxEntry>, order: seq<Position>, i: nat,
                                               topic: Option<JsString>, now: int)
    requires (forall p | p in order :: p.id in outbox) && i <= |order|
    ensures EligibleAlong(outbox, order[..i], topic, now) <= EligibleAlong(outbox, order, topic, now)
    decreases |order|
  {
    if i < |order| {
      var init := order[..|order| - 1];
      assert order[..i] == init[..i];
      EligibleAlongPrefix(outbox, init, i, topic, now);
    } else {
      assert order[..i] == order;
    }
  }

  /** The whole outbox in delivery order, filtered, is the delivery queue. */
  lemma FilteredOrderIsQueue(outbox: map<JsString, OutboxEntry>, order: seq<Position>, topic: Option<JsString>,
                             now: int)
    requires Ascending(PositionLess, order)
    requires forall p :: p in order <==> p.id in outbox && p == PositionOf(outbox[p.id], p.id)
    ensures EligibleAlong(outbox, order, topic, now) == Queue(outbox, topic, now)
  {
    var queue := EligibleAlong(outbox, order, topic, now);
    EligibleAlongAscends(outbox, order, topic, now);
    PositionOrder();
    forall p ensures p in queue <==> p in Queue(outbox, topic, now) {
      assert p in EligiblePositions(outbox, topic, now)
        <==> p.id in outbox && Eligible(outbox[p.id], topic, now) && p == PositionOf(outbox[p.id], p.id);
    }
    AscendingUnique(PositionLess, queue, Queue(outbox, topic, now));
  }

  method DeliveryOrder(outbox: map<JsString, OutboxEntry>) returns (order: seq<Position>)
    ensures Ascending(PositionLess, order)
    ensures forall p :: p in order <==> p.id in outbox && p == PositionOf(outbox[p.id], p.id)
  {
    var positions: seq<Position> := [];
    var rest := outbox.Keys;
    while rest != {}
      invariant rest <= outbox.Keys
      invariant Distinct(positions)
      invariant forall p :: p in positions <==> p.id in outbox && p.id !in rest && p == PositionOf(outbox[p.id], p.id)
      decreases rest
    {
      var id :| id in rest;
      rest := rest - {id};
      positions := positions + [PositionOf(outbox[id], id)];
    }
    order := Sort(PositionLess, positions);
    PositionOrder();
    assert NoTies(PositionLess, positions);
    SortDistinct(PositionLess, positions);
  }

  // ----- The loops

  /** The conflict check: deletions take effect as it goes, puts are only collected. */
  method CheckMutations(records: map<StateKey, Record>, mutations: seq<Mutation>)
    returns (ok: bool, nextRecords: map<StateKey, Record>, applied: seq<Mutation>)
    requires Ascending(MutationLess, mutations)
    ensures ok <==> AllMatch(records, mutations)
    ensures ok ==> applied == Applied(records, mutations) && nextRecords == WithoutDeleted(records, mutations)
  {
    hide KeyLess, Ascending, MutationOn;
    nextRecords, applied := records, [];
    var i := 0;
    while i < |mutations|
      invariant 0 <= i <= |mutations|
      invariant AllMatch(records, mutations[..i])
      invariant applied == Applied(records, mutations[..i])
      invariant nextRecords == WithoutDeleted(records, mutations[..i])
    {
      var mutation := mutations[i];
      assert mutations[..i + 1] == mutations[..i] + [mutation];
      AppliedSnoc(records, mutations[..i], mutation);
      EarlierKeysDiffer(mutations, i);
      forall key ensures MutationOn(mutations[..i + 1], key) ==
        if MutationOn(mutations[..i], key).Some? then MutationOn(mutations[..i], key)
        else if mutation.key == key then Some(mutation) else None
      {
        MutationOnSnoc(mutations[..i], mutation, key);
      }
      if !Matches(nextRecords, mutation.key, mutation.expected) {
        assert !Matches(records, mutations[i].key, mutations[i].expected);
        return false, nextRecords, applied;
      }
      if mutation.Delete? {
        if mutation.key in nextRecords {
          nextRecords := nextRecords - {mutation.key};
          applied := applied + [mutation];
        }
      } else {
        applied := applied + [mutation];
      }
      i := i + 1;
    }
    assert mutations[..i] == mutations;
    ok := true;
  }

  lemma EarlierKeysDiffer(mutations: seq<Mutation>, i: nat)
    requires Ascending(MutationLess, mutations) && i < |mutations|
    ensures MutationOn(mutations[..i], mutations[i].key).None?
  {
    forall j | 0 <= j < i ensures mutations[j].key != mutations[i].key {
      assert MutationLess(mutations[j], mutations[i]);
      KeyOrder();
    }
  }

  method InstallPuts(survivors: map<StateKey, Record>, applied: seq<Mutation>, revision: nat)
    returns (records: map<StateKey, Record>)
    ensures records == PutsOver(survivors, applied, revision)
  {
    records := survivors;
    var i := 0;
    while i < |applied|
      invariant 0 <= i <= |applied|
      invariant records == PutsOver(survivors, applied[..i], revision)
    {
      assert applied[..i + 1][..i] == applied[..i];
      if applied[i].Put? {
        records := records[applied[i].key := Record(applied[i].value, revision)];
      }
      i := i + 1;
    }
    assert applied[..i] == applied;
  }

  method PlanMessages(outbox: map<JsString, OutboxEntry>, messages: seq<OutboxMessage>)
    returns (plan: Outcome<seq<OutboxMessage>>)
    ensures plan == PlanOutbox(outbox, [], messages)
  {
    var byId: map<JsString, OutboxMessage> := map[];
    var planned: seq<OutboxMessage> := [];
    var i := 0;
    while i < |messages|
      invariant 0 <= i <= |messages|
      invariant PlanOutbox(outbox, [], messages[..i]) == Ok(planned)
      invariant forall id: JsString :: FindMessage(planned, id) == if id in byId then Some(byId[id]) else None
    {
      var message := messages[i];
      assert messages[..i + 1] == messages[..i] + [message];
      PlanSnoc(outbox, [], messages[..i], message);
      if !WithinOutboxBounds(message) {
        PlanErrPersists(outbox, [], messages, i + 1);
        return Err(DataInvalid);
      }
      if message.messageId in byId {
        if !SameOutboxMessage(byId[message.messageId], message) {
          PlanErrPersists(outbox, [], messages, i + 1);
          return Err(IdempotencyConflict);
        }
      } else if message.messageId !in outbox || AwaitsRetry(outbox[message.messageId]) {
        forall id: JsString ensures FindMessage(planned + [message], id) ==
          if FindMessage(planned, id).Some? then FindMessage(planned, id)
          else if message.messageId == id then Some(message) else None
        {
          FindMessageSnoc(planned, message, id);
        }
        byId := byId[message.messageId := message];
        planned := planned + [message];
      } else if !SameOutboxMessage(outbox[message.messageId].message, message) {
        PlanErrPersists(outbox, [], messages, i + 1);
        return Err(IdempotencyConflict);
      }
      i := i + 1;
    }
    assert messages[..i] == messages;
    plan := Ok(planned);
  }

  lemma {:induction false} FindMessageSnoc(messages: seq<OutboxMessage>, m: OutboxMessage, id: JsString)
    ensures FindMessage(messages + [m], id) ==
      if FindMessage(messages, id).Some? then FindMessage(messages, id) else if m.messageId == id then Some(m) else None
  {
    if messages == [] {
      assert messages + [m] == [m];
    } else {
      assert (messages + [m])[1..] == messages[1..] + [m];
      FindMessageSnoc(messages[1..], m, id);
    }
  }

  lemma PlanStopsAt(outbox: map<JsString, OutboxEntry>, queue: seq<Position>, r: ClaimRequest, now: int,
                    taken: seq<Position>)
    requires ValidClaimRequest(r) && forall p | p in queue :: p.id in outbox
    requires taken <= queue && |taken| <= ClaimLimit(r)
    requires forall i | 0 <= i < |taken| :: !AttemptsExhausted(outbox[taken[i].id])
    requires |taken| == ClaimLimit(r) || |taken| == |queue| || AttemptsExhausted(outbox[queue[|taken|].id])
    ensures forall p | p in taken :: p.id in outbox
    ensures PlanAlong(outbox, queue, r, now) ==
      ClaimPlan(IdsOf(taken), ClaimsOf(outbox, taken, r, now), |taken| < ClaimLimit(r) && |taken| < |queue|)
  {
    var m := ClaimCount(outbox, queue, ClaimLimit(r));
    assert forall i | 0 <= i < |taken| :: taken[i] == queue[i];
    assert m >= |taken|;
    assert m == |taken|;
    assert queue[..m] == taken;
  }

  ghost predicate OrderOf(outbox: map<JsString, OutboxEntry>, order: seq<Position>) {
    && Ascending(PositionLess, order)
    && forall p :: p in order <==> p.id in outbox && p == PositionOf(outbox[p.id], p.id)
  }

  /** After the first i entries of the order: those taken, and the outbox and claims they make. */
  ghost predicate Taking(before: map<JsString, OutboxEntry>, order: seq<Position>, i: nat, r: ClaimRequest, now: int,
                         taken: seq<Position>, outbox: map<JsString, OutboxEntry>, claimed: seq<Claim>)
    requires forall p | p in order :: p.id in before
  {
    && i <= |order|
    && taken == EligibleAlong(before, order[..i], r.topic, now)
    && taken <= EligibleAlong(before, order, r.topic, now)
    && outbox == WithClaims(before, IdsOf(taken), r, now)
    && claimed == ClaimsOf(before, taken, r, now)
    && forall k | 0 <= k < |taken| :: !AttemptsExhausted(before[taken[k].id])
  }

  lemma TakeStep(before: map<JsString, OutboxEntry>, order: seq<Position>, i: nat, r: ClaimRequest, now: int,
                 taken: seq<Position>, outbox: map<JsString, OutboxEntry>, claimed: seq<Claim>)
    requires OrderOf(before, order) && i < |order| && Taking(before, order, i, r, now, taken, outbox, claimed)
    ensures order[i].id in outbox && outbox[order[i].id] == before[order[i].id]
    ensures !Eligible(before[order[i].id], r.topic, now) ==>
      Taking(before, order, i + 1, r, now, taken, outbox, claimed)
    ensures Eligible(before[order[i].id], r.topic, now) ==>
      && taken + [order[i]] <= EligibleAlong(before, order, r.topic, now)
      && (!AttemptsExhausted(before[order[i].id]) ==>
            Taking(before, order, i + 1, r, now, taken + [order[i]],
                   outbox[order[i].id := Claimed(before[order[i].id], r, now)], claimed
                     + [ClaimOf(before[order[i].id], r, now)]))
  {
    var p := order[i];
    assert p in order;
    assert order[..i + 1][..i] == order[..i];
    EligibleAlongPrefix(before, order, i + 1, r.topic, now);
    LaterNotTaken(before, order, i, taken, r, now);
    OneMoreClaim(before, taken, p, r, now);
  }

  /** Nothing is taken before the first entry. */
  lemma TakeNone(before: map<JsString, OutboxEntry>, order: seq<Position>, r: ClaimRequest, now: int)
    requires OrderOf(before, order)
    ensures Taking(before, order, 0, r, now, [], before, [])
  {
    assert WithClaims(before, {}, r, now) == before;
  }

  /** The loop stops at the limit, at an exhausted entry, or at the end: as planned. */
  lemma TakeStops(before: map<JsString, OutboxEntry>, order: seq<Position>, i: nat, r: ClaimRequest, now: int,
                  taken: seq<Position>, outbox: map<JsString, OutboxEntry>, claimed: seq<Claim>)
    requires ValidClaimRequest(r) && OrderOf(before, order) && Taking(before, order, i, r, now, taken, outbox, claimed)
    requires |claimed| <= ClaimLimit(r)
    requires |claimed| == ClaimLimit(r) || i == |order|
             || (Eligible(before[order[i].id], r.topic, now) && AttemptsExhausted(before[order[i].id]))
    ensures var plan := PlanAlong(before, EligibleAlong(before, order, r.topic, now), r, now);
      && outbox == WithClaims(before, plan.chosen, r, now) && claimed == plan.claims
      && plan.exhausted == (|claimed| < ClaimLimit(r) && |taken| < |EligibleAlong(before, order, r.topic, now)|)
      && (i < |order| && |claimed| < ClaimLimit(r) ==> plan.exhausted)
  {
    hide PlanAlong, WithClaims, ClaimCount;
    if i == |order| {
      assert order[..i] == order;
    } else if |claimed| < ClaimLimit(r) {
      TakeStep(before, order, i, r, now, taken, outbox, claimed);
    }
    PlanStopsAt(before, EligibleAlong(before, order, r.topic, now), r, now, taken);
  }

  lemma TakenAll(before: map<JsString, OutboxEntry>, order: seq<Position>, r: ClaimRequest, now: int,
                 taken: seq<Position>, outbox: map<JsString, OutboxEntry>, claimed: seq<Claim>)
    requires OrderOf(before, order) && Taking(before, order, |order|, r, now, taken, outbox, claimed)
    ensures |taken| == |EligibleAlong(before, order, r.topic, now)|
  {
    assert order[..|order|] == order;
  }

  /** The claim loop over a sorted outbox, updating entries as it goes. */
  method TakeClaims(before: map<JsString, OutboxEntry>, order: seq<Position>, r: ClaimRequest, now: int)
    returns (outbox: map<JsString, OutboxEntry>, claimed: seq<Claim>, exhausted: bool)
    requires ValidClaimRequest(r) && OrderOf(before, order)
    ensures var plan := PlanAlong(before, EligibleAlong(before, order, r.topic, now), r, now);
      outbox == WithClaims(before, plan.chosen, r, now) && claimed == plan.claims && exhausted == plan.exhausted
  {
    hide EligibleAlong, PlanAlong, WithClaims, Taking, ClaimCount, Eligible, ClaimLimit;
    outbox, claimed, exhausted := before, [], false;
    ghost var taken: seq<Position> := [];
    TakeNone(before, order, r, now);
    var i := 0;
    while i < |order|
      invariant 0 <= i <= |order|
      invariant Taking(before, order, i, r, now, taken, outbox, claimed)
      invariant |claimed| < ClaimLimit(r) && !exhausted
    {
      var id := order[i].id;
      TakeStep(before, order, i, r, now, taken, outbox, claimed);
      var record := outbox[id];
      if Eligible(record, r.topic, now) {
        if record.attempt + 1 > MAX_SAFE_INTEGER {
          TakeStops(before, order, i, r, now, taken, outbox, claimed);
          exhausted := true;
          return;
        }
        outbox := outbox[id := Claimed(record, r, now)];
        claimed := claimed + [ClaimOf(record, r, now)];
        taken := taken + [order[i]];
        if |claimed| == ClaimLimit(r) {
          TakeStops(before, order, i + 1, r, now, taken, outbox, claimed);
          return;
        }
      }
      i := i + 1;
    }
    TakeStops(before, order, i, r, now, taken, outbox, claimed);
    TakenAll(before, order, r, now, taken, outbox, claimed);
  }

  /** Sort the outbox into delivery order and claim along it. */
  method ComputeClaims(before: map<JsString, OutboxEntry>, r: ClaimRequest, now: int)
    returns (outbox: map<JsString, OutboxEntry>, claimed: seq<Claim>, exhausted: bool)
    requires ValidClaimRequest(r)
    ensures claimed == PlanClaims(before, r, now).claims && exhausted == PlanClaims(before, r, now).exhausted
    ensures outbox == WithClaims(before, PlanClaims(before, r, now).chosen, r, now)
  {
    var order := DeliveryOrder(before);
    FilteredOrderIsQueue(before, order, r.topic, now);
    outbox, claimed, exhausted := TakeClaims(before, order, r, now);
  }

  lemma LaterNotTaken(before: map<JsString, OutboxEntry>, order: seq<Position>, i: nat, along: seq<Position>,
                      r: ClaimRequest, now: int)
    requires OrderOf(before, order) && i < |order|
    requires along == EligibleAlong(before, order[..i], r.topic, now)
    ensures order[i].id !in IdsOf(along)
  {
    PositionOrder();
    forall p | p in along ensures p.id != order[i].id {
      var k :| 0 <= k < i && order[k] == p;
      assert PositionLess(order[k], order[i]);
      assert order[k] in order && order[i] in order;
    }
  }

  lemma OneMoreClaim(before: map<JsString, OutboxEntry>, along: seq<Position>, p: Position, r: ClaimRequest, now: int)
    requires (forall q | q in along :: q.id in before) && p.id in before && p.id !in IdsOf(along)
    ensures WithClaims(before, IdsOf(along + [p]), r, now) ==
      WithClaims(before, IdsOf(along), r, now)[p.id := Claimed(before[p.id], r, now)]
    ensures ClaimsOf(before, along + [p], r, now) == ClaimsOf(before, along, r, now) + [ClaimOf(before[p.id], r, now)]
  {
    assert IdsOf(along + [p]) == IdsOf(along) + {p.id} by {
      assert forall q :: q in along + [p] <==> q in along || q == p;
    }
  }

  /** Everything a commit decides before it writes. */
  datatype Prepared = Prepared(survivors: map<StateKey, Record>, applied: seq<Mutation>, added: seq<OutboxMessage>,
                               advances: bool)

  ghost predicate PreparedFor(s: Store, fencing: Option<Fencing>, staged: Staged, p: Prepared) {
    && s.lifecycle == Open && AllMatch(s.records, staged.mutations) && !FenceIsStale(s.fences, fencing)
    && PlanOutbox(s.outbox, [], staged.outbox) == Ok(p.added)
    && p.applied == Applied(s.records, staged.mutations)
    && p.survivors == WithoutDeleted(s.records, staged.mutations)
    && p.advances == AdvancesFence(s.fences, fencing)
  }

  predicate Writes(staged: Staged, p: Prepared) {
    |p.applied| > 0 || |staged.operations| > 0 || |p.added| > 0 || p.advances
  }

  lemma CommitPrepared(s: Store, fencing: Option<Fencing>, identity: Option<Identity>, staged: Staged, result: Json,
                       p: Prepared)
    requires PreparedFor(s, fencing, staged, p)
    ensures Commit(s, fencing, identity, staged, result) ==
      (Remembered(if Writes(staged, p) then Written(s, fencing, staged, p.added) else s,
                  identity, result), Ok(result))
  {
  }

  lemma CommitRefused(s: Store, fencing: Option<Fencing>, identity: Option<Identity>, staged: Staged, result: Json)
    requires Commit(s, fencing, None, staged, Null).1.Err?
    ensures Commit(s, fencing, identity, staged, result) == (s, Err(Commit(s, fencing, None, staged, Null).1.error))
  {
  }

  /** The checks of a commit in their order; the first that fails is the error. */
  method PrepareCommit(s: Store, fencing: Option<Fencing>, staged: Staged) returns (r: Outcome<Prepared>)
    requires Ascending(MutationLess, staged.mutations)
    ensures r.Err? <==> Commit(s, fencing, None, staged, Null).1.Err?
    ensures r.Err? ==> r.error == Commit(s, fencing, None, staged, Null).1.error
    ensures r.Ok? ==> PreparedFor(s, fencing, staged, r.value)
  {
    if s.lifecycle != Open {
      return Err(Closed);
    }
    var ok, survivors, applied := CheckMutations(s.records, staged.mutations);
    if !ok {
      return Err(RevisionConflict);
    }
    var plan := PlanMessages(s.outbox, staged.outbox);
    if plan.Err? {
      return Err(plan.error);
    }
    var advances := false;
    if fencing.Some? {
      if fencing.value.resource in s.fences && fencing.value.epoch < s.fences[fencing.value.resource] {
        return Err(FenceStale);
      }
      advances := fencing.value.resource !in s.fences || fencing.value.epoch > s.fences[fencing.value.resource];
    }
    r := Ok(Prepared(survivors, applied, plan.value, advances));
  }
}
