/** Requests of a session: who waits for an answer, which identifiers are remembered so that a
    late answer is not an error, and the pruning that keeps that memory bounded. */
module RequestTables {
  import opened Order
  import opened StateStrings

  /** `delivered` are the requests that got their answer, oldest first. */
  datatype Table = Table(pending: set<JsString>, issued: set<JsString>, order: seq<JsString>, delivered: seq<JsString>,
                         used: set<JsString>)

  const Fresh: Table := Table({}, {}, [], [], {})

  datatype Limits = Limits(replayRetention: nat, maxInflight: nat)

  function Retention(limits: Limits): nat { limits.replayRetention + limits.maxInflight }

  /** Walk the order once: pending entries move to the back, the others are forgotten, until
      few enough identifiers are left. */
  function Walk(rest: seq<JsString>, passed: seq<JsString>, issued: set<JsString>, pending: set<JsString>,
                retention: nat)
    : (seq<JsString>, set<JsString>)
    decreases rest
  {
    if |issued| <= retention || rest == [] then (rest + passed, issued)
    else if rest[0] in pending then Walk(rest[1..], passed + [rest[0]], issued, pending, retention)
    else Walk(rest[1..], passed, issued - {rest[0]}, pending, retention)
  }

  function Pruned(t: Table, limits: Limits): Table {
    var (order, issued) := Walk(t.order, [], t.issued, t.pending, Retention(limits));
    t.(order := order, issued := issued)
  }

  /** Everything pending is remembered, everything remembered is in the order, and no more
      requests are pending than may be in flight. */
  ghost predicate TableOk(t: Table, limits: Limits) {
    && t.pending <= t.issued && (forall id | id in t.issued :: id in t.order)
    && |t.pending| <= limits.maxInflight
    && (forall id | id in t.order :: id in t.used) && Distinct(t.order)
    && (forall id | id in t.delivered :: id in t.used && id !in t.pending)
    && Distinct(t.delivered)
  }

  /** The walk ends within bounds, forgets only what is not pending, keeps everything
      remembered in the order, and forgets the oldest first. */
  lemma {:induction false} WalkOk(rest: seq<JsString>, passed: seq<JsString>, issued: set<JsString>,
                                  pending: set<JsString>, retention: nat)
    requires pending <= issued && |pending| <= retention
    requires (forall id | id in issued :: id in rest || id in passed) && (forall id | id in passed :: id in pending)
    requires Distinct(rest + passed)
    ensures var (order, kept) := Walk(rest, passed, issued, pending, retention);
      && |kept| <= retention && pending <= kept <= issued
      && (forall id | id in kept :: id in order)
      && (forall id | id in order :: id in rest || id in passed)
      && Distinct(order)
      && (forall i, j | 0 <= i < j < |rest| && rest[i] in kept && rest[i] !in pending && rest[j] in issued ::
          rest[j] in kept)
    decreases rest
  {
    if |issued| > retention {
      if rest == [] {
        SubsetSize(issued, pending);
      } else {
        var id := rest[0];
        var next := if id in pending then issued else issued - {id};
        Rotated(rest, passed);
        WalkOk(rest[1..], if id in pending then passed + [id] else passed, next, pending, retention);
        var (order, kept) := Walk(rest, passed, issued, pending, retention);
        forall i, j | 0 <= i < j < |rest| && rest[i] in kept && rest[i] !in pending && rest[j] in issued
          ensures rest[j] in kept
        {
          if i > 0 {
            assert rest[1..][i - 1] == rest[i] && rest[1..][j - 1] == rest[j];
            assert (rest + passed)[0] == id && (rest + passed)[j] == rest[j];
          }
        }
      }
    }
  }

  lemma Rotated(rest: seq<JsString>, passed: seq<JsString>)
    requires rest != [] && Distinct(rest + passed)
    ensures Distinct(rest[1..] + (passed + [rest[0]])) && Distinct(rest[1..] + passed)
    ensures forall j | 0 < j < |rest| :: rest[j] != rest[0]
  {
    var all := rest + passed;
    assert rest[1..] + (passed + [rest[0]]) == all[1..] + [all[0]];
    assert rest[1..] + passed == all[1..];
    assert forall j | 0 < j < |rest| :: all[j] == rest[j];
  }

  lemma SubsetSize(a: set<JsString>, b: set<JsString>)
    requires a <= b
    ensures |a| <= |b|
  {
    assert b == a + (b - a);
  }

  lemma WalkStep(rest: seq<JsString>, passed: seq<JsString>, issued: set<JsString>, pending: set<JsString>,
                 retention: nat)
    requires |issued| > retention && rest != []
    ensures Walk(rest, passed, issued, pending, retention) ==
      if rest[0] in pending then Walk(rest[1..], passed + [rest[0]], issued, pending, retention)
      else Walk(rest[1..], passed, issued - {rest[0]}, pending, retention)
  {
  }

  /** Pruning always ends with the memory within its retention and never forgets a pending request. */
  lemma PruneIsSafe(t: Table, limits: Limits)
    requires TableOk(t, limits)
    ensures TableOk(Pruned(t, limits), limits) && |Pruned(t, limits).issued| <= Retention(limits)
    ensures t.pending <= Pruned(t, limits).issued <= t.issued
  {
    assert t.order + [] == t.order;
    WalkOk(t.order, [], t.issued, t.pending, Retention(limits));
  }

  /** What is forgotten is older than every identifier that is kept without being pending. */
  lemma PruneForgetsOldest(t: Table, limits: Limits, i: nat, j: nat)
    requires TableOk(t, limits) && i < j < |t.order|
    requires t.order[i] in Pruned(t, limits).issued && t.order[i] !in t.pending && t.order[j] in t.issued
    ensures t.order[j] in Pruned(t, limits).issued
  {
    assert t.order + [] == t.order;
    WalkOk(t.order, [], t.issued, t.pending, Retention(limits));
  }

  lemma {:induction false} WalkCount(rest: seq<JsString>, passed: seq<JsString>, issued: set<JsString>,
                                     pending: set<JsString>, retention: nat)
    requires pending <= issued && |pending| <= retention
    requires (forall id | id in issued :: id in rest || id in passed) && (forall id | id in passed :: id in pending)
    ensures |Walk(rest, passed, issued, pending, retention).1| == if |issued| <= retention then |issued| else retention
    decreases rest
  {
    if |issued| > retention {
      if rest == [] {
        SubsetSize(issued, pending);
      } else {
        var id := rest[0];
        WalkStep(rest, passed, issued, pending, retention);
        WalkCount(rest[1..], if id in pending then passed + [id] else passed,
                  if id in pending then issued else issued - {id}, pending, retention);
      }
    }
  }

  /** No more is forgotten than has to be: as many stay as the retention allows, and all when all may. */
  lemma PruneForgetsNoMore(t: Table, limits: Limits)
    requires TableOk(t, limits)
    ensures |Pruned(t, limits).issued| ==
      if |t.issued| <= limits.replayRetention + limits.maxInflight then |t.issued|
      else limits.replayRetention + limits.maxInflight
    ensures |t.issued| <= limits.replayRetention + limits.maxInflight ==> Pruned(t, limits) == t
  {
    assert t.order + [] == t.order;
    WalkCount(t.order, [], t.issued, t.pending, Retention(limits));
  }

  datatype Answer = Delivered | Ignored | Unknown

  function Responded(t: Table, id: JsString, limits: Limits): (Table, Answer) {
    if id in t.pending then
      (Pruned(t.(pending := t.pending - {id}, delivered := t.delivered + [id]), limits), Delivered)
    else if id in t.issued then (t, Ignored)
    else (t, Unknown)
  }

  datatype Event =
    | Request(id: JsString)
    | SendFailed(id: JsString)
    | TimedOut(id: JsString)
    | Respond(id: JsString)
    | RejectAll

  /** New identifiers are fresh ones, and a send fails in the same stretch that issued it. */
  predicate Enabled(t: Table, e: Event) {
    match e
    case Request(id) => id !in t.used
    case SendFailed(id) => id in t.pending
    case _ => true
  }

  function Issued(t: Table, id: JsString): Table {
    t.(pending := t.pending + {id}, issued := t.issued + {id}, order := t.order + [id], used := t.used + {id})
  }

  function Apply(t: Table, e: Event, limits: Limits): Table
    requires Enabled(t, e)
  {
    match e
    case Request(id) =>
      if |t.pending| >= limits.maxInflight then t
      else Pruned(Issued(t, id), limits)
    case SendFailed(id) => t.(pending := t.pending - {id}, issued := t.issued - {id})
    case TimedOut(id) => if id in t.pending then Pruned(t.(pending := t.pending - {id}), limits) else t
    case Respond(id) => Responded(t, id, limits).0
    case RejectAll => t.(pending := {}, issued := {}, order := [])
  }

  lemma IssuedOk(t: Table, id: JsString, limits: Limits)
    requires TableOk(t, limits) && id !in t.used && |t.pending| < limits.maxInflight
    ensures TableOk(Issued(t, id), limits)
  {
  }

  lemma SettledOk(t: Table, id: JsString, delivered: seq<JsString>, limits: Limits)
    requires TableOk(t, limits) && id in t.pending && (delivered == t.delivered || delivered == t.delivered + [id])
    ensures TableOk(t.(pending := t.pending - {id}, delivered := delivered), limits)
  {
    SubsetSize(t.pending - {id}, t.pending);
    assert id in t.used;
  }

  lemma DroppedOk(t: Table, id: JsString, limits: Limits)
    requires TableOk(t, limits) && id in t.pending
    ensures TableOk(t.(pending := t.pending - {id}, issued := t.issued - {id}), limits)
    ensures |t.issued - {id}| <= |t.issued|
  {
    SubsetSize(t.issued - {id}, t.issued);
    SubsetSize(t.pending - {id}, t.pending);
  }

  lemma ApplyKeepsOk(t: Table, e: Event, limits: Limits)
    requires TableOk(t, limits) && |t.issued| <= Retention(limits) && Enabled(t, e)
    ensures TableOk(Apply(t, e, limits), limits) && |Apply(t, e, limits).issued| <= Retention(limits)
    ensures t.delivered <= Apply(t, e, limits).delivered
  {
    hide Pruned, TableOk;
    match e
    case Request(id) =>
      if |t.pending| < limits.maxInflight {
        IssuedOk(t, id, limits);
        PruneIsSafe(Issued(t, id), limits);
        PrunedKeeps(Issued(t, id), limits);
      }
    case SendFailed(id) => DroppedOk(t, id, limits);
    case TimedOut(id) =>
      if id in t.pending {
        var settled := t.(pending := t.pending - {id});
        SettledOk(t, id, t.delivered, limits);
        PruneIsSafe(settled, limits);
        PrunedKeeps(settled, limits);
      }
    case Respond(id) =>
      if id in t.pending {
        var settled := t.(pending := t.pending - {id}, delivered := t.delivered + [id]);
        SettledOk(t, id, settled.delivered, limits);
        PruneIsSafe(settled, limits);
        PrunedKeeps(settled, limits);
      }
    case RejectAll => AllRejectedOk(t, limits);
  }

  lemma AllRejectedOk(t: Table, limits: Limits)
    requires TableOk(t, limits)
    ensures TableOk(t.(pending := {}, issued := {}, order := []), limits)
  {
  }

  lemma PrunedKeeps(t: Table, limits: Limits)
    ensures Pruned(t, limits).pending == t.pending && Pruned(t, limits).delivered == t.delivered
      && Pruned(t, limits).used == t.used
  {
  }

  ghost predicate Run(states: seq<Table>, events: seq<Event>, limits: Limits) {
    && |states| == |events| + 1 && states[0] == Fresh
    && forall i | 0 <= i < |events| ::
      Enabled(states[i], events[i]) && states[i + 1] == Apply(states[i], events[i], limits)
  }

  /** Along any run each request is answered at most once, pending requests are always
      remembered, and the memory never exceeds its retention. */
  lemma {:induction false} AnsweredAtMostOnce(states: seq<Table>, events: seq<Event>, limits: Limits, i: nat)
    requires Run(states, events, limits) && i < |states|
    ensures Distinct(states[i].delivered)
    ensures states[i].pending <= states[i].issued && |states[i].issued| <= Retention(limits)
      && |states[i].pending| <= limits.maxInflight
    ensures TableOk(states[i], limits)
  {
    if i > 0 {
      AnsweredAtMostOnce(states, events, limits, i - 1);
      ApplyKeepsOk(states[i - 1], events[i - 1], limits);
    }
  }

  /** A response is delivered exactly when its request still waits, ignored when the request is
      only remembered, and an error otherwise; a second response is never delivered. */
  lemma ResponseOutcome(t: Table, id: JsString, limits: Limits)
    requires TableOk(t, limits)
    ensures Responded(t, id, limits).1 == Delivered <==> id in t.pending
    ensures Responded(t, id, limits).1 == Unknown <==> id !in t.issued
    ensures Responded(Responded(t, id, limits).0, id, limits).1 != Delivered
  {
    hide Walk;
  }

  // ----- What each event does

  /** A request with room waits and is remembered; one without room is refused and leaves no trace. */
  lemma RequestsWait(t: Table, id: JsString, limits: Limits)
    requires TableOk(t, limits) && Enabled(t, Request(id))
    ensures var next := Apply(t, Request(id), limits);
      && (|t.pending| >= limits.maxInflight ==> next == t)
      && (|t.pending| < limits.maxInflight ==>
            && next.pending == t.pending + {id} && id in next.issued && id in next.order && next.used == t.used + {id}
            && next.delivered == t.delivered && next.issued <= t.issued + {id})
  {
    if |t.pending| < limits.maxInflight {
      IssuedOk(t, id, limits);
      PruneIsSafe(Issued(t, id), limits);
      PrunedKeeps(Issued(t, id), limits);
    }
  }

  /** A response, a timeout or a failed send ends exactly its own request; rejecting ends all. Only a
      response to a waiting request delivers anything, and a failed send is forgotten at once. */
  lemma RequestsEnd(t: Table, id: JsString, limits: Limits)
    requires TableOk(t, limits)
    ensures var next := Apply(t, Respond(id), limits);
      && next.pending == t.pending - {id} && next.used == t.used && next.issued <= t.issued
      && next.delivered == t.delivered + if id in t.pending then [id] else []
    ensures var next := Apply(t, TimedOut(id), limits);
      && next.pending == t.pending - {id} && next.used == t.used && next.issued <= t.issued
      && next.delivered == t.delivered
    ensures id in t.pending ==>
      var next := Apply(t, SendFailed(id), limits);
      && next.pending == t.pending - {id} && next.issued == t.issued - {id}
      && next.used == t.used && next.delivered == t.delivered
    ensures var next := Apply(t, RejectAll, limits);
      && next.pending == {} && next.issued == {} && next.order == []
      && next.used == t.used && next.delivered == t.delivered
  {
    if id in t.pending {
      SettledOk(t, id, t.delivered, limits);
      SettledOk(t, id, t.delivered + [id], limits);
      PruneIsSafe(t.(pending := t.pending - {id}), limits);
      PruneIsSafe(t.(pending := t.pending - {id}, delivered := t.delivered + [id]), limits);
      PrunedKeeps(t.(pending := t.pending - {id}), limits);
      PrunedKeeps(t.(pending := t.pending - {id}, delivered := t.delivered + [id]), limits);
    } else {
      assert t.pending - {id} == t.pending;
    }
  }

  /** The event ends the request. */
  predicate Ends(e: Event, id: JsString) {
    e == SendFailed(id) || e == TimedOut(id) || e == Respond(id) || e == RejectAll
  }

  lemma StillWaits(t: Table, e: Event, id: JsString, limits: Limits)
    requires TableOk(t, limits) && Enabled(t, e) && id in t.pending && !Ends(e, id)
    ensures id in Apply(t, e, limits).pending
  {
    hide TableOk, Apply;
    match e
    case Request(other) => RequestsWait(t, other, limits);
    case SendFailed(other) => RequestsEnd(t, other, limits);
    case TimedOut(other) => RequestsEnd(t, other, limits);
    case Respond(other) => RequestsEnd(t, other, limits);
    case RejectAll =>
  }

  /** A request that was made with room waits until it is answered, times out, its send fails or all
      are rejected, whatever else happens; and an answer that comes until then is delivered. */
  lemma {:induction false} RequestsWaitForAnswers(states: seq<Table>, events: seq<Event>, limits: Limits, i: nat,
                                                  j: nat,
                                                  id: JsString)
    requires Run(states, events, limits) && i < j < |states|
    requires events[i] == Request(id) && |states[i].pending| < limits.maxInflight
    requires forall k | i < k < j :: !Ends(events[k], id)
    ensures id in states[j].pending && id in states[j].issued
    ensures Apply(states[j], Respond(id), limits).delivered == states[j].delivered + [id]
  {
    hide Apply, TableOk, Ends;
    AnsweredAtMostOnce(states, events, limits, i);
    AnsweredAtMostOnce(states, events, limits, j - 1);
    AnsweredAtMostOnce(states, events, limits, j);
    if j == i + 1 {
      RequestsWait(states[i], id, limits);
    } else {
      RequestsWaitForAnswers(states, events, limits, i, j - 1, id);
      StillWaits(states[j - 1], events[j - 1], id, limits);
    }
    RequestsEnd(states[j], id, limits);
  }

  // ----- The table as the session keeps it

  class RequestTable {
    const limits: Limits
    var pendingRequests: set<JsString>
    var issuedRequestIds: set<JsString>
    var issuedRequestOrder: seq<JsString>
    ghost var delivered: seq<JsString>
    ghost var used: set<JsString>

    ghost function View(): Table
      reads this
    {
      Table(pendingRequests, issuedRequestIds, issuedRequestOrder, delivered, used)
    }

    constructor (limits: Limits)
      ensures View() == Fresh && this.limits == limits
    {
      this.limits := limits;
      pendingRequests, issuedRequestIds, issuedRequestOrder, delivered, used := {}, {}, [], [], {};
    }

    /** Rotate what is pending, forget the rest, until the memory is within its retention. */
    method PruneIssuedRequests()
      requires TableOk(View(), limits)
      modifies this`issuedRequestIds, this`issuedRequestOrder
      ensures View() == Pruned(old(View()), limits) && TableOk(View(), limits)
      ensures |issuedRequestIds| <= Retention(limits)
    {
      PruneIsSafe(View(), limits);
      PruneLoop();
    }

    method PruneLoop()
      requires pendingRequests <= issuedRequestIds && |pendingRequests| <= limits.maxInflight
      requires forall id | id in issuedRequestIds :: id in issuedRequestOrder
      modifies this`issuedRequestIds, this`issuedRequestOrder
      ensures View() == Pruned(old(View()), limits)
    {
      var retention := limits.replayRetention + limits.maxInflight;
      ghost var rest, passed := issuedRequestOrder, [];
      while |issuedRequestIds| > retention
        invariant issuedRequestOrder == rest + passed
        invariant Walk(rest, passed, issuedRequestIds, pendingRequests, retention) ==
          Walk(old(issuedRequestOrder), [], old(issuedRequestIds), pendingRequests, retention)
        invariant pendingRequests <= issuedRequestIds && forall id | id in passed :: id in pendingRequests
        invariant forall id | id in issuedRequestIds :: id in rest || id in passed
        decreases rest
      {
        hide Walk;
        if rest == [] { SubsetSize(issuedRequestIds, pendingRequests); }
        WalkStep(rest, passed, issuedRequestIds, pendingRequests, retention);
        assert issuedRequestOrder[1..] == rest[1..] + passed;
        var removed := issuedRequestOrder[0];
        issuedRequestOrder := issuedRequestOrder[1..];
        rest := rest[1..];
        if removed in pendingRequests {
          issuedRequestOrder := issuedRequestOrder + [removed];
          passed := passed + [removed];
        } else {
          issuedRequestIds := issuedRequestIds - {removed};
        }
      }
    }

    method Request(id: JsString) returns (ok: bool)
      requires TableOk(View(), limits) && id !in used
      modifies this
      ensures ok == (|old(pendingRequests)| < limits.maxInflight)
      ensures View() == Apply(old(View()), Event.Request(id), limits) && TableOk(View(), limits)
    {
      if |pendingRequests| >= limits.maxInflight {
        return false;
      }
      hide TableOk, Pruned;
      IssuedOk(View(), id, limits);
      pendingRequests := pendingRequests + {id};
      issuedRequestIds := issuedRequestIds + {id};
      issuedRequestOrder := issuedRequestOrder + [id];
      used := used + {id};
      PruneIssuedRequests();
      ok := true;
    }

    method TimedOut(id: JsString)
      requires TableOk(View(), limits)
      modifies this
      ensures View() == Apply(old(View()), Event.TimedOut(id), limits) && TableOk(View(), limits)
    {
      if id !in pendingRequests {
        return;
      }
      SubsetSize(pendingRequests - {id}, pendingRequests);
      pendingRequests := pendingRequests - {id};
      PruneIssuedRequests();
    }

    method Respond(id: JsString) returns (answer: Answer)
      requires TableOk(View(), limits)
      modifies this
      ensures (View(), answer) == Responded(old(View()), id, limits) && TableOk(View(), limits)
    {
      if id in pendingRequests {
        SubsetSize(pendingRequests - {id}, pendingRequests);
        pendingRequests := pendingRequests - {id};
        delivered := delivered + [id];
        PruneIssuedRequests();
        return Delivered;
      }
      answer := if id in issuedRequestIds then Ignored else Unknown;
    }
  }
}
