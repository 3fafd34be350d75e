/** What one session receives: control messages pass the replay window, and those that announce
    a binary part reach the reassembly, as do all chunks. */
module SessionTraffics {
  import opened StateStrings
  import opened StoreModel
  import opened BinaryCodecs
  import opened BinaryTransfers
  import Replay = ReplayWindows

  /** The size of the binary part that follows a control message, if one does. */
  datatype BinarySize = BinarySize(bytes: nat, total: nat)
  type BinaryPart = Json -> Option<BinarySize>

  datatype Traffic = Control(envelope: Replay.Envelope) | Binary(chunk: Chunk)

  datatype Session = Session(window: Replay.Window, assembly: Assembly)

  datatype Limits = Limits(replay: Replay.Limits, transfer: TransferLimits)

  const Start: Session := Session(Replay.Fresh, Empty)

  predicate IsOpen(s: Session) { s.window.open && s.assembly.open }

  /** The arrival that reaches the reassembly, if any. */
  function Reaching(s: Session, t: Traffic, part: BinaryPart, limits: Limits): Option<Arrival> {
    if !IsOpen(s) then None
    else
      match t
      case Binary(chunk) => Some(Piece(chunk))
      case Control(e) =>
        if Replay.Judge(s.window, e, limits.replay) != Replay.Accepted then None
        else
          match part(e.content)
          case None => None
          case Some(size) => Some(Announce(e.messageId, size.bytes, size.total))
  }

  function Receive(s: Session, t: Traffic, part: BinaryPart, limits: Limits): Session {
    if !IsOpen(s) then s
    else
      var arrival := Reaching(s, t, part, limits);
      Session(if t.Control? then Replay.Receive(s.window, t.envelope, limits.replay) else s.window,
              if arrival.Some? then Arrive(s.assembly, arrival.value, limits.transfer) else s.assembly)
  }

  function Feed(ts: seq<Traffic>, part: BinaryPart, limits: Limits): Session {
    if ts == [] then Start else Receive(Feed(ts[..|ts| - 1], part, limits), ts[|ts| - 1], part, limits)
  }

  /** Everything that reached the reassembly. */
  function Arrivals(ts: seq<Traffic>, part: BinaryPart, limits: Limits): seq<Arrival> {
    if ts == [] then []
    else
      var front := ts[..|ts| - 1];
      var arrival := Reaching(Feed(front, part, limits), ts[|ts| - 1], part, limits);
      Arrivals(front, part, limits) + if arrival.Some? then [arrival.value] else []
  }

  ghost predicate WasAccepted(accepted: seq<Replay.Envelope>, id: JsString) {
    exists k :: 0 <= k < |accepted| && accepted[k].messageId == id
  }

  /** Every pending message was announced by an accepted control message. */
  ghost predicate SessionOk(s: Session, limits: Limits) {
    && Replay.WindowOk(s.window, limits.replay.replayRetention)
    && AssemblyOk(s.assembly, limits.transfer)
    && forall id | id in s.assembly.pending :: WasAccepted(s.window.accepted, id)
  }

  lemma AcceptedGrows(w: Replay.Window, e: Replay.Envelope, limits: Replay.Limits)
    ensures var next := Replay.Receive(w, e, limits);
      next.accepted == if w.open && Replay.Judge(w, e, limits) == Replay.Accepted then w.accepted + [e] else w.accepted
  {
  }

  lemma ArrivePending(a: Assembly, arrival: Arrival, limits: TransferLimits, id: JsString)
    requires id in Arrive(a, arrival, limits).pending
    ensures id in a.pending || (arrival.Announce? && arrival.id == id)
  {
  }

  lemma JustAccepted(e: Replay.Envelope)
    ensures WasAccepted([e], e.messageId)
  {
    assert [e][0] == e;
  }

  lemma StillAccepted(accepted: seq<Replay.Envelope>, more: seq<Replay.Envelope>, id: JsString)
    requires WasAccepted(accepted, id) || WasAccepted(more, id)
    ensures WasAccepted(accepted + more, id)
  {
    if WasAccepted(accepted, id) {
      var k :| 0 <= k < |accepted| && accepted[k].messageId == id;
      assert (accepted + more)[k].messageId == id;
    } else {
      var k :| 0 <= k < |more| && more[k].messageId == id;
      assert (accepted + more)[|accepted| + k].messageId == id;
    }
  }

  lemma ReceiveKeepsOk(s: Session, t: Traffic, part: BinaryPart, limits: Limits)
    requires limits.replay.replayRetention > 0 && SessionOk(s, limits)
    ensures SessionOk(Receive(s, t, part, limits), limits)
  {
    hide Replay.WindowOk, AssemblyOk, Replay.Receive, Replay.Judge, Arrive, WasAccepted;
    var arrival := Reaching(s, t, part, limits);
    if arrival.Some? { ArriveAccounts(s.assembly, arrival.value, limits.transfer); }
    if t.Control? {
      Replay.ReceiveKeepsOk(s.window, t.envelope, limits.replay);
      AcceptedGrows(s.window, t.envelope, limits.replay);
    }
    var next := Receive(s, t, part, limits);
    forall id | id in next.assembly.pending ensures WasAccepted(next.window.accepted, id) {
      if arrival.Some? { ArrivePending(s.assembly, arrival.value, limits.transfer, id); }
      if id !in s.assembly.pending {
        JustAccepted(t.envelope);
        StillAccepted(s.window.accepted, [t.envelope], id);
      } else if next.window.accepted != s.window.accepted {
        StillAccepted(s.window.accepted, [t.envelope], id);
      }
    }
  }

  lemma {:induction false} FeedOk(ts: seq<Traffic>, part: BinaryPart, limits: Limits)
    requires limits.replay.replayRetention > 0
    ensures SessionOk(Feed(ts, part, limits), limits)
    ensures Feed(ts, part, limits).assembly == BinaryTransfers.Feed(Arrivals(ts, part, limits), limits.transfer)
  {
    hide SessionOk, Receive, Arrive;
    if ts == [] {
      assert SessionOk(Start, limits) by { StartOk(limits); }
    } else {
      var front := ts[..|ts| - 1];
      FeedOk(front, part, limits);
      ReceiveKeepsOk(Feed(front, part, limits), ts[|ts| - 1], part, limits);
      ReachingArrives(Feed(front, part, limits), ts[|ts| - 1], part, limits);
      var before, now := Arrivals(front, part, limits), Arrivals(ts, part, limits);
      assert now != before ==> now[..|now| - 1] == before;
    }
  }

  lemma StartOk(limits: Limits)
    ensures SessionOk(Start, limits)
  {
    assert Announced(map[]) == 0;
  }

  lemma ReachingArrives(s: Session, t: Traffic, part: BinaryPart, limits: Limits)
    ensures var arrival := Reaching(s, t, part, limits);
      Receive(s, t, part, limits).assembly == if arrival.Some? then Arrive(s.assembly, arrival.value, limits.transfer)
      else s.assembly
  {
  }

  /** Whatever one session receives, its pending total stays within the limits, and is what its
      pending messages announced plus what was abandoned. */
  lemma SessionTotals(ts: seq<Traffic>, part: BinaryPart, limits: Limits)
    requires limits.replay.replayRetention > 0
    ensures var a := Feed(ts, part, limits).assembly;
      && a.pendingBytes == Announced(a.pending) + AllAbandoned(Arrivals(ts, part, limits), limits.transfer)
      && a.pendingBytes <= limits.transfer.codec.maxBinaryBytes && |a.pending| <= limits.transfer.maxPendingCorrelations
  {
    hide Feed, Arrivals, Announced, AllAbandoned;
    FeedOk(ts, part, limits);
    PendingStaysBounded(Arrivals(ts, part, limits), limits.transfer);
  }

  /** A pending message is announced again only after the replay memory has forgotten it: at
      least `replayRetention` messages were accepted after its announcement. */
  lemma ReannouncedOnceForgotten(ts: seq<Traffic>, t: Traffic, part: BinaryPart, limits: Limits)
    requires limits.replay.replayRetention > 0
    requires var s := Feed(ts, part, limits);
      Reaching(s, t, part, limits).Some? && Reannounces(s.assembly, Reaching(s, t, part, limits).value, limits.transfer)
    ensures var accepted := Feed(ts, part, limits).window.accepted;
      && t.Control? && WasAccepted(accepted, t.envelope.messageId)
      && forall k | 0 <= k < |accepted| && accepted[k].messageId == t.envelope.messageId ::
           k + limits.replay.replayRetention < |accepted|
  {
    hide Feed, Replay.WindowOk, Replay.Judge, Replay.StillKnown, AssemblyOk, WasAccepted;
    FeedOk(ts, part, limits);
    Replay.WhatHappens(Feed(ts, part, limits).window, t.envelope, limits.replay);
  }

  /** With a memory of one message, any message but a repeat of the last is accepted. */
  lemma AcceptsNext(accepted: seq<Replay.Envelope>, e: Replay.Envelope, limits: Replay.Limits)
    requires limits.replayRetention == 1 && e.sequence == |accepted|
    requires accepted != [] ==> accepted[|accepted| - 1].messageId != e.messageId
    ensures Replay.Judge(Replay.Opened(accepted, 1), e, limits) == Replay.Accepted
    ensures Replay.Receive(Replay.Opened(accepted, 1), e, limits) == Replay.Opened(accepted + [e], 1)
  {
    var kept := Replay.StillKnown(accepted, 1);
    if accepted != [] {
      assert kept == [accepted[|accepted| - 1]];
      assert kept[..0] == [];
      assert Replay.FingerprintsOf(kept) == map[kept[0].messageId := kept[0]];
    }
  }

  lemma FeedNext(ts: seq<Traffic>, t: Traffic, part: BinaryPart, limits: Limits)
    ensures Feed(ts + [t], part, limits) == Receive(Feed(ts, part, limits), t, part, limits)
  {
    assert (ts + [t])[..|ts + [t]| - 1] == ts;
  }

  lemma ReceivesNext(accepted: seq<Replay.Envelope>, a: Assembly, e: Replay.Envelope, part: BinaryPart, limits: Limits)
    requires limits.replay.replayRetention == 1 && e.sequence == |accepted| && a.open
    requires accepted != [] ==> accepted[|accepted| - 1].messageId != e.messageId
    ensures var size := part(e.content);
      Receive(Session(Replay.Opened(accepted, 1), a), Control(e), part, limits) ==
        Session(Replay.Opened(accepted + [e], 1),
                if size.Some? then OnAnnounce(a, e.messageId, size.value.bytes, size.value.total, limits.transfer)
                else a)
  {
    hide Replay.FingerprintsOf, Replay.RetainedOf, Replay.Receive, Replay.Judge, OnAnnounce;
    AcceptsNext(accepted, e, limits.replay);
  }

  lemma FeedThree(t0: Traffic, t1: Traffic, t2: Traffic, part: BinaryPart, limits: Limits)
    ensures Feed([t0, t1, t2], part, limits) ==
      Receive(Receive(Receive(Start, t0, part, limits), t1, part, limits), t2, part, limits)
  {
    hide Receive;
    assert Feed([], part, limits) == Start;
    FeedNext([], t0, part, limits);
    FeedNext([t0], t1, part, limits);
    FeedNext([t0, t1], t2, part, limits);
    assert [] + [t0] == [t0] && [t0] + [t1] == [t0, t1] && [t0, t1] + [t2] == [t0, t1, t2];
  }

  lemma AnnouncesTwice(a: Assembly, x: JsString, bytes: nat, limits: TransferLimits)
    requires a == Empty && limits.maxPendingCorrelations >= 2 && 2 * bytes <= limits.codec.maxBinaryBytes
    ensures var p := Pending(bytes, 1, [], 0);
      && OnAnnounce(a, x, bytes, 1, limits) == Assembly(true, map[x := p], bytes, [])
      && OnAnnounce(Assembly(true, map[x := p], bytes, []), x, bytes, 1, limits) ==
        Assembly(true, map[x := p], 2 * bytes, [])
  {
  }

  lemma PayloadDelivered(a: Assembly, x: JsString, payload: Bytes, limits: TransferLimits)
    requires a.open && x in a.pending && a.pending[x] == Pending(|payload|, 1, [], 0)
      && |payload| <= limits.codec.maxBinaryBytes
    ensures Arrive(a, Piece(Chunk(x, 0, 1, payload)), limits) ==
      a.(pending := a.pending - {x}, pendingBytes := a.pendingBytes - |payload|,
         delivered := a.delivered + [Delivery(x, payload)])
  {
    JoinedPush([], payload);
    assert Joined([]) + payload == payload;
  }

  lemma StartsOpened()
    ensures Start == Session(Replay.Opened([], 1), Empty)
  {
    assert Replay.StillKnown([], 1) == [];
  }

  lemma AnnouncedAgain(e0: Replay.Envelope, e1: Replay.Envelope, e2: Replay.Envelope, bytes: nat, part: BinaryPart,
                       limits: Limits)
    requires e0.messageId == e2.messageId != e1.messageId && e0.sequence == 0 && e1.sequence == 1 && e2.sequence == 2
    requires part(e0.content) == part(e2.content) == Some(BinarySize(bytes, 1)) && part(e1.content) == None
    requires limits.replay.replayRetention == 1 && limits.transfer.maxPendingCorrelations >= 2
    requires 2 * bytes <= limits.transfer.codec.maxBinaryBytes
    ensures Feed([Control(e0), Control(e1), Control(e2)], part, limits) ==
      Session(Replay.Opened([e0, e1, e2], 1),
              Assembly(true, map[e0.messageId := Pending(bytes, 1, [], 0)], 2 * bytes, []))
  {
    hide Replay.Opened, Receive, OnAnnounce, Feed;
    StartsOpened();
    var once := Assembly(true, map[e0.messageId := Pending(bytes, 1, [], 0)], bytes, []);
    AnnouncesTwice(Empty, e0.messageId, bytes, limits.transfer);
    ReceivesNext([], Empty, e0, part, limits);
    ReceivesNext([e0], once, e1, part, limits);
    ReceivesNext([e0, e1], once, e2, part, limits);
    assert [] + [e0] == [e0] && [e0] + [e1] == [e0, e1] && [e0, e1] + [e2] == [e0, e1, e2];
    FeedThree(Control(e0), Control(e1), Control(e2), part, limits);
  }

  /** With a memory of one message: an announcement, any other message, the same announcement
      again, and the payload. Nothing is pending afterwards, yet the first size is still held
      against the limit. */
  lemma AbandonedTotalIsHeld(x: JsString, y: JsString, c: Json, d: Json, payload: Bytes, part: BinaryPart,
                             limits: Limits)
    requires x != y && |payload| > 0 && part(c) == Some(BinarySize(|payload|, 1)) && part(d) == None
    requires limits.replay.replayRetention == 1 && limits.transfer.maxPendingCorrelations >= 2
    requires 2 * |payload| <= limits.transfer.codec.maxBinaryBytes
    ensures var ts := [Control(Replay.Envelope(x, 0, c)), Control(Replay.Envelope(y, 1, d)),
                       Control(Replay.Envelope(x, 2, c))];
      var twice, after := Feed(ts, part, limits), Feed(ts + [Binary(Chunk(x, 0, 1, payload))], part, limits);
      && IsOpen(twice) && twice.assembly.pending == map[x := Pending(|payload|, 1, [], 0)]
      && twice.assembly.pendingBytes == 2 * |payload| && Announced(twice.assembly.pending) == |payload|
      && IsOpen(after) && after.assembly.pending == map[] && after.assembly.pendingBytes == |payload|
      && after.assembly.delivered == [Delivery(x, payload)]
  {
    AnnouncedWith(map[], x, Pending(|payload|, 1, [], 0));
    hide Feed, Announced, Arrive, Replay.FingerprintsOf, Replay.RetainedOf;
    var e0, e1, e2 := Replay.Envelope(x, 0, c), Replay.Envelope(y, 1, d), Replay.Envelope(x, 2, c);
    var ts := [Control(e0), Control(e1), Control(e2)];
    AnnouncedAgain(e0, e1, e2, |payload|, part, limits);
    FeedNext(ts, Binary(Chunk(x, 0, 1, payload)), part, limits);
    PayloadDelivered(Feed(ts, part, limits).assembly, x, payload, limits.transfer);
  }
}
