/** Sequenced delivery of control messages with a bounded memory of what was accepted. */
module ReplayWindows {
  import opened StateStrings
  import opened StoreModel

  /** A control message as far as sequencing is concerned. */
  datatype Envelope = Envelope(messageId: JsString, sequence: nat, content: Json)

  /** The hash of a message's canonical form, taken to identify the message. */
  type Fingerprint = Envelope

  function FingerprintOf(e: Envelope): Fingerprint { e }

  datatype Retained = Retained(messageId: JsString, fingerprint: Fingerprint)

  datatype Verdict = Accepted | Duplicate | Replayed | OutOfOrder | GapTooLarge

  /** `accepted` is everything that was ever accepted, oldest first. */
  datatype Window = Window(
    open: bool, expected: nat, fingerprints: map<JsString, Fingerprint>, order: seq<Retained>, accepted: seq<Envelope>)

  const Fresh: Window := Window(true, 0, map[], [], [])

  datatype Limits = Limits(replayRetention: nat, maxSequenceGap: nat)

  function Judge(w: Window, e: Envelope, limits: Limits): Verdict {
    var retained := e.messageId in w.fingerprints;
    if e.sequence < w.expected then
      if retained && w.fingerprints[e.messageId] == FingerprintOf(e) then Duplicate else Replayed
    else if e.sequence > w.expected then
      if e.sequence - w.expected > limits.maxSequenceGap then GapTooLarge else OutOfOrder
    else if retained then Replayed
    else Accepted
  }

  /** The newest messages that are still remembered. */
  function StillKnown(accepted: seq<Envelope>, retention: nat): seq<Envelope> {
    if |accepted| <= retention then accepted else accepted[|accepted| - retention..]
  }

  function RetainedOf(es: seq<Envelope>): (rs: seq<Retained>)
    ensures |rs| == |es| && forall i | 0 <= i < |es| :: rs[i] == Retained(es[i].messageId, FingerprintOf(es[i]))
  {
    seq(|es|, i requires 0 <= i < |es| => Retained(es[i].messageId, FingerprintOf(es[i])))
  }

  ghost predicate DistinctIds(es: seq<Envelope>) {
    forall i, j | 0 <= i < j < |es| :: es[i].messageId != es[j].messageId
  }

  ghost predicate HasId(order: seq<Retained>, id: JsString) {
    exists i :: 0 <= i < |order| && order[i].messageId == id
  }

  ghost predicate Indexes(fingerprints: map<JsString, Fingerprint>, order: seq<Retained>) {
    && (forall i | 0 <= i < |order| ::
        order[i].messageId in fingerprints && fingerprints[order[i].messageId] == order[i].fingerprint)
    && (forall id | id in fingerprints :: HasId(order, id))
  }

  lemma IndexPush(fingerprints: map<JsString, Fingerprint>, order: seq<Retained>, r: Retained)
    requires Indexes(fingerprints, order) && r.messageId !in fingerprints
    ensures Indexes(fingerprints[r.messageId := r.fingerprint], order + [r])
  {
    forall id | id in fingerprints[r.messageId := r.fingerprint] ensures HasId(order + [r], id) {
      if id == r.messageId {
        assert (order + [r])[|order|].messageId == id;
      } else {
        var i :| 0 <= i < |order| && order[i].messageId == id;
        assert (order + [r])[i].messageId == id;
      }
    }
  }

  lemma IndexShift(fingerprints: map<JsString, Fingerprint>, order: seq<Retained>)
    requires Indexes(fingerprints, order) && order != []
    requires forall i | 0 < i < |order| :: order[i].messageId != order[0].messageId
    ensures Indexes(fingerprints - {order[0].messageId}, order[1..])
  {
    forall id | id in fingerprints && id != order[0].messageId ensures HasId(order[1..], id) {
      var i :| 0 <= i < |order| && order[i].messageId == id;
      assert order[1..][i - 1].messageId == id;
    }
  }

  /** The fingerprint map is exactly the bounded queue of the newest accepted messages, whose
      identifiers are distinct; what was accepted carries the sequences 0, 1, 2, ... */
  ghost predicate WindowOk(w: Window, retention: nat) {
    && w.expected == |w.accepted|
    && (forall i | 0 <= i < |w.accepted| :: w.accepted[i].sequence == i)
    && w.order == RetainedOf(StillKnown(w.accepted, retention))
    && DistinctIds(StillKnown(w.accepted, retention))
    && Indexes(w.fingerprints, w.order)
  }

  /** The newest messages after one more: the old ones and it, less the oldest when there were too many. */
  lemma StillKnownPush(accepted: seq<Envelope>, e: Envelope, retention: nat)
    requires retention > 0
    ensures var kept := StillKnown(accepted, retention) + [e];
      && |kept| <= retention + 1
      && StillKnown(accepted + [e], retention) == if |kept| > retention then kept[1..] else kept
  {
  }

  lemma KeptAreDistinct(accepted: seq<Envelope>, fingerprints: map<JsString, Fingerprint>, order: seq<Retained>,
                        e: Envelope, retention: nat)
    requires order == RetainedOf(StillKnown(accepted, retention)) && DistinctIds(StillKnown(accepted, retention))
    requires Indexes(fingerprints, order) && e.messageId !in fingerprints
    ensures DistinctIds(StillKnown(accepted, retention) + [e])
    ensures |StillKnown(accepted, retention)| <= retention
  {
    var kept := StillKnown(accepted, retention);
    assert forall i | 0 <= i < |kept| :: order[i].messageId == kept[i].messageId;
  }

  class SequencedReceiver {
    const limits: Limits
    var open: bool
    var expectedSequence: nat
    var receivedFingerprints: map<JsString, Fingerprint>
    var receivedReplayOrder: seq<Retained>
    ghost var accepted: seq<Envelope>

    ghost function View(): Window
      reads this
    {
      Window(open, expectedSequence, receivedFingerprints, receivedReplayOrder, accepted)
    }

    ghost predicate Valid()
      reads this
    {
      limits.replayRetention > 0 && WindowOk(View(), limits.replayRetention)
    }

    constructor (limits: Limits)
      requires limits.replayRetention > 0
      ensures Valid() && View() == Fresh && this.limits == limits
    {
      this.limits := limits;
      open, expectedSequence, receivedFingerprints, receivedReplayOrder, accepted := true, 0, map[], [], [];
    }

    /** Remembers one more message and drops the oldest beyond the retention. */
    method RetainReplay(e: Envelope)
      requires limits.replayRetention > 0 && accepted != [] && accepted[|accepted| - 1] == e
      requires WindowOk(View().(accepted := accepted[..|accepted| - 1], expected := |accepted| - 1),
                        limits.replayRetention)
      requires e.messageId !in receivedFingerprints && e.sequence == |accepted| - 1 && expectedSequence == |accepted|
      modifies this`receivedFingerprints, this`receivedReplayOrder
      ensures Valid()
    {
      hide Indexes, StillKnown;
      ghost var kept := StillKnown(accepted[..|accepted| - 1], limits.replayRetention) + [e];
      IndexPush(receivedFingerprints, receivedReplayOrder, Retained(e.messageId, FingerprintOf(e)));
      KeptAreDistinct(accepted[..|accepted| - 1], receivedFingerprints, receivedReplayOrder, e, limits.replayRetention);
      receivedFingerprints := receivedFingerprints[e.messageId := FingerprintOf(e)];
      receivedReplayOrder := receivedReplayOrder + [Retained(e.messageId, FingerprintOf(e))];
      assert receivedReplayOrder == RetainedOf(kept);
      assert kept[0..] == kept;
      while |receivedReplayOrder| > limits.replayRetention
        invariant |receivedReplayOrder| <= |kept| <= limits.replayRetention + 1
        invariant receivedReplayOrder == RetainedOf(kept[|kept| - |receivedReplayOrder|..])
        invariant |receivedReplayOrder| >= limits.replayRetention || |receivedReplayOrder| == |kept|
        invariant Indexes(receivedFingerprints, receivedReplayOrder)
      {
        IndexShift(receivedFingerprints, receivedReplayOrder);
        var removed := receivedReplayOrder[0];
        receivedReplayOrder := receivedReplayOrder[1..];
        receivedFingerprints := receivedFingerprints - {removed.messageId};
      }
      StillKnownPush(accepted[..|accepted| - 1], e, limits.replayRetention);
      assert accepted == accepted[..|accepted| - 1] + [e];
    }

    /** Accept in sequence, ignore an exact resend of a remembered message, close on anything else. */
    method ReceiveControl(e: Envelope) returns (verdict: Verdict)
      requires Valid() && open
      modifies this
      ensures Valid() && verdict == Judge(old(View()), e, limits)
      ensures View() == Receive(old(View()), e, limits)
    {
      var fingerprint := FingerprintOf(e);
      var retained := e.messageId in receivedFingerprints;
      if e.sequence < expectedSequence {
        if retained && receivedFingerprints[e.messageId] == fingerprint {
          return Duplicate;
        }
        open := false;
        return Replayed;
      }
      if e.sequence > expectedSequence {
        open := false;
        return if e.sequence - expectedSequence > limits.maxSequenceGap then GapTooLarge else OutOfOrder;
      }
      if retained {
        open := false;
        return Replayed;
      }
      expectedSequence := expectedSequence + 1;
      accepted := accepted + [e];
      assert accepted[..|accepted| - 1] == old(accepted);
      RetainReplay(e);
      ReceiveKeepsOk(old(View()), e, limits);
      WindowDetermined(View(), Receive(old(View()), e, limits), limits.replayRetention);
      verdict := Accepted;
    }
  }

  // ----- What the receiver guarantees about whole streams

  /** The window after a message, as ReceiveControl leaves it. */
  function Receive(w: Window, e: Envelope, limits: Limits): Window {
    if !w.open then w
    else
      match Judge(w, e, limits)
      case Duplicate => w
      case Accepted => Opened(w.accepted + [e], limits.replayRetention)
      case _ => w.(open := false)
  }

  function FingerprintsOf(es: seq<Envelope>): map<JsString, Fingerprint> {
    if es == [] then map[]
    else FingerprintsOf(es[..|es| - 1])[es[|es| - 1].messageId := FingerprintOf(es[|es| - 1])]
  }

  /** The window that has accepted exactly these messages. */
  function Opened(accepted: seq<Envelope>, retention: nat): Window {
    Window(true, |accepted|, FingerprintsOf(StillKnown(accepted, retention)),
           RetainedOf(StillKnown(accepted, retention)), accepted)
  }

  lemma {:induction false} FingerprintsIndex(es: seq<Envelope>)
    requires DistinctIds(es)
    ensures Indexes(FingerprintsOf(es), RetainedOf(es))
  {
    if es != [] {
      var front, last := es[..|es| - 1], es[|es| - 1];
      FingerprintsIndex(front);
      forall id | id in FingerprintsOf(front) ensures id != last.messageId {
        assert HasId(RetainedOf(front), id);
      }
      IndexPush(FingerprintsOf(front), RetainedOf(front), Retained(last.messageId, FingerprintOf(last)));
      assert RetainedOf(es) == RetainedOf(front) + [Retained(last.messageId, FingerprintOf(last))];
    }
  }

  lemma RestIsDistinct(es: seq<Envelope>)
    requires DistinctIds(es) && es != []
    ensures DistinctIds(es[1..])
  {
  }

  lemma OpenedOk(accepted: seq<Envelope>, retention: nat)
    requires forall i | 0 <= i < |accepted| :: accepted[i].sequence == i
    requires DistinctIds(StillKnown(accepted, retention))
    ensures WindowOk(Opened(accepted, retention), retention)
  {
    hide StillKnown, DistinctIds, Indexes;
    FingerprintsIndex(StillKnown(accepted, retention));
  }

  lemma ReceiveKeepsOk(w: Window, e: Envelope, limits: Limits)
    requires WindowOk(w, limits.replayRetention) && limits.replayRetention > 0
    ensures WindowOk(Receive(w, e, limits), limits.replayRetention)
  {
    hide Indexes, StillKnown, DistinctIds, RetainedOf, FingerprintsOf;
    if w.open && Judge(w, e, limits) == Accepted {
      KeptAreDistinct(w.accepted, w.fingerprints, w.order, e, limits.replayRetention);
      StillKnownPush(w.accepted, e, limits.replayRetention);
      RestIsDistinct(StillKnown(w.accepted, limits.replayRetention) + [e]);
      OpenedOk(w.accepted + [e], limits.replayRetention);
    }
  }

  /** What was accepted determines everything that is remembered. */
  lemma WindowDetermined(a: Window, b: Window, retention: nat)
    requires WindowOk(a, retention) && WindowOk(b, retention) && a.accepted == b.accepted && a.open == b.open
    ensures a == b
  {
    hide StillKnown;
    assert a.order == b.order;
    forall id ensures id in a.fingerprints <==> id in b.fingerprints {
      assert id in a.fingerprints ==> HasId(b.order, id);
      assert id in b.fingerprints ==> HasId(a.order, id);
    }
    forall id | id in a.fingerprints ensures a.fingerprints[id] == b.fingerprints[id] {
      assert HasId(a.order, id);
    }
    assert a.fingerprints == b.fingerprints;
  }

  /** A message among the newest of those sent or accepted, as many as are remembered. */
  ghost predicate AmongNewest(es: seq<Envelope>, e: Envelope, retention: nat) {
    exists i :: 0 <= i < |es| && |es| - retention <= i && es[i] == e
  }

  /** A message that was accepted and is still remembered. */
  ghost predicate IsRemembered(w: Window, e: Envelope, retention: nat) { AmongNewest(w.accepted, e, retention) }

  /** Exactly the resends of remembered messages are ignored; the next message in sequence is
      accepted unless its identity is remembered; everything else closes the session. */
  lemma WhatHappens(w: Window, e: Envelope, limits: Limits)
    requires WindowOk(w, limits.replayRetention) && w.open
    ensures Judge(w, e, limits) == Duplicate <==> IsRemembered(w, e, limits.replayRetention)
    ensures IsRemembered(w, e, limits.replayRetention) ==> Receive(w, e, limits) == w
    ensures Judge(w, e, limits) == Accepted <==>
      e.sequence == |w.accepted| && forall i | 0 <= i < |w.accepted| && |w.accepted| - limits.replayRetention <= i ::
        w.accepted[i].messageId != e.messageId
    ensures Judge(w, e, limits) == Accepted ==>
      Receive(w, e, limits).open && Receive(w, e, limits).accepted == w.accepted + [e]
    ensures !Judge(w, e, limits).Accepted? && !Judge(w, e, limits).Duplicate? ==>
      Receive(w, e, limits) == w.(open := false)
    ensures Judge(w, e, limits) == GapTooLarge <==> e.sequence > |w.accepted| + limits.maxSequenceGap
    ensures Judge(w, e, limits) == OutOfOrder <==>
      |w.accepted| < e.sequence <= |w.accepted| + limits.maxSequenceGap
    ensures !IsRemembered(w, e, limits.replayRetention) && e.sequence != |w.accepted| ==> !Receive(w, e, limits).open
  {
    hide StillKnown, Indexes;
    var kept := StillKnown(w.accepted, limits.replayRetention);
    StillKnownAt(w.accepted, limits.replayRetention);
    IndexLookup(w.fingerprints, kept, e);
    if e in kept {
      var i :| 0 <= i < |kept| && kept[i] == e;
      assert kept[i] == w.accepted[|w.accepted| - |kept| + i];
    }
  }

  lemma StillKnownAt(accepted: seq<Envelope>, retention: nat)
    ensures var kept := StillKnown(accepted, retention);
      && |kept| == (if |accepted| <= retention then |accepted| else retention)
      && (forall i | 0 <= i < |kept| :: kept[i] == accepted[|accepted| - |kept| + i])
      && (forall i | 0 <= i < |accepted| && |accepted| - retention <= i :: accepted[i] in kept)
  {
    var kept := StillKnown(accepted, retention);
    forall i | 0 <= i < |accepted| && |accepted| - retention <= i ensures accepted[i] in kept {
      assert accepted[i] == kept[i + |kept| - |accepted|];
    }
  }

  /** Looking an identity up finds the one remembered message that has it. */
  lemma IndexLookup(fingerprints: map<JsString, Fingerprint>, kept: seq<Envelope>, e: Envelope)
    requires Indexes(fingerprints, RetainedOf(kept)) && DistinctIds(kept)
    ensures e.messageId in fingerprints <==> exists r :: r in kept && r.messageId == e.messageId
    ensures e.messageId in fingerprints && fingerprints[e.messageId] == e <==> e in kept
  {
    var order := RetainedOf(kept);
    if e.messageId in fingerprints {
      assert HasId(order, e.messageId);
      var i :| 0 <= i < |order| && order[i].messageId == e.messageId;
      assert kept[i] in kept && fingerprints[e.messageId] == kept[i];
      if e in kept {
        var j :| 0 <= j < |kept| && kept[j] == e;
        assert i == j;
      }
    } else {
      forall r | r in kept ensures r.messageId != e.messageId {
        var i :| 0 <= i < |kept| && kept[i] == r;
        assert order[i].messageId == r.messageId;
      }
    }
  }

  function Feed(w: Window, es: seq<Envelope>, limits: Limits): Window {
    if es == [] then w else Receive(Feed(w, es[..|es| - 1], limits), es[|es| - 1], limits)
  }

  /** Whatever arrives, what has been accepted is an in-order selection of it that carries
      exactly the sequences 0, 1, 2, ... with no gap and no repeat. */
  lemma {:induction false} AcceptedIsContiguous(es: seq<Envelope>, limits: Limits)
    requires limits.replayRetention > 0
    ensures WindowOk(Feed(Fresh, es, limits), limits.replayRetention)
    ensures forall i | 0 <= i < |Feed(Fresh, es, limits).accepted| :: Feed(Fresh, es, limits).accepted[i].sequence == i
    ensures forall e | e in Feed(Fresh, es, limits).accepted :: e in es
  {
    if es != [] {
      var front := es[..|es| - 1];
      AcceptedIsContiguous(front, limits);
      ReceiveKeepsOk(Feed(Fresh, front, limits), es[|es| - 1], limits);
      assert es == front + [es[|es| - 1]];
    }
  }

  /** A sender's stream arrives whole, however often each message is resent while remembered. */
  ghost predicate ResentStream(es: seq<Envelope>, sent: seq<Envelope>, retention: nat)
    decreases |es|
  {
    if es == [] then sent == []
    else
      var front, last := es[..|es| - 1], es[|es| - 1];
      || (ResentStream(front, sent, retention) && AmongNewest(sent, last, retention))
      || (sent != [] && last == sent[|sent| - 1] && ResentStream(front, sent[..|sent| - 1], retention))
  }

  ghost predicate Numbered(sent: seq<Envelope>) {
    (forall i | 0 <= i < |sent| :: sent[i].sequence == i) && DistinctIds(sent)
  }

  lemma {:induction false} ResendsAreHarmless(es: seq<Envelope>, sent: seq<Envelope>, limits: Limits)
    requires limits.replayRetention > 0 && Numbered(sent) && ResentStream(es, sent, limits.replayRetention)
    ensures Feed(Fresh, es, limits).open && Feed(Fresh, es, limits).accepted == sent
    decreases |es|
  {
    if es != [] {
      hide StillKnown, WindowOk, Judge, AmongNewest, Receive, Numbered;
      var front, last := es[..|es| - 1], es[|es| - 1];
      AcceptedIsContiguous(front, limits);
      if ResentStream(front, sent, limits.replayRetention) && AmongNewest(sent, last, limits.replayRetention) {
        ResendsAreHarmless(front, sent, limits);
        WhatHappens(Feed(Fresh, front, limits), last, limits);
      } else {
        var shorter := sent[..|sent| - 1];
        assert sent == shorter + [last];
        NewIdentity(shorter, last);
        ResendsAreHarmless(front, shorter, limits);
        WhatHappens(Feed(Fresh, front, limits), last, limits);
      }
    }
  }

  lemma NewIdentity(sent: seq<Envelope>, last: Envelope)
    requires Numbered(sent + [last])
    ensures Numbered(sent) && last.sequence == |sent|
    ensures forall i | 0 <= i < |sent| :: sent[i].messageId != last.messageId
  {
    var longer := sent + [last];
    assert longer[|sent|] == last && forall i | 0 <= i < |sent| :: longer[i] == sent[i];
  }
}
