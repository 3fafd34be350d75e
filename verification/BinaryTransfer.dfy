/** Binary payloads: split into chunks that fit a frame, and put together again from chunks
    that may interleave with those of other messages. */
module BinaryTransfers {
  import opened StateStrings
  import opened StoreModel
  import opened BinaryCodecs

  type Bytes = seq<Byte>

  /** Room kept in every frame for the header and the longest identity. */
  const CHUNK_OVERHEAD: nat := 160

  function ChunkPayload(limits: CodecLimits): (n: nat)
    ensures n >= 1
  {
    if limits.maxFrameBytes > CHUNK_OVERHEAD + 1 then limits.maxFrameBytes - CHUNK_OVERHEAD else 1
  }

  function CeilingDivision(n: nat, size: nat): nat
    requires size > 0
  {
    (n + size - 1) / size
  }

  /** The stretch of a payload that chunk k carries. */
  function Part(binary: Bytes, size: nat, k: nat): Bytes
    requires size > 0 && k * size <= |binary|
  {
    if (k + 1) * size <= |binary| then binary[k * size..(k + 1) * size] else binary[k * size..]
  }

  lemma ChunkStarts(n: nat, size: nat, k: nat)
    requires size > 0
    ensures k < CeilingDivision(n, size) <==> k * size < n
    ensures k == CeilingDivision(n, size) && n > 0 ==> k * size >= n && (k - 1) * size < n
  {
    var c := CeilingDivision(n, size);
    assert c * size <= n + size - 1 < c * size + size;
    if k < c {
      assert k * size <= (c - 1) * size;
    } else {
      assert k * size >= c * size;
    }
  }

  lemma PartIs(binary: Bytes, size: nat, k: nat)
    requires size > 0 && k * size <= |binary|
    ensures (k + 1) * size == k * size + size
    ensures Part(binary, size, k) == binary[k * size..if k * size + size < |binary| then k * size + size else |binary|]
  {
  }

  /** The chunks of a payload, or nothing when it is empty or over the limits. */
  method Split(id: JsString, binary: Bytes, limits: CodecLimits) returns (chunks: seq<Chunk>)
    ensures chunks == if Splittable(binary, limits) then ChunksOf(id, binary, ChunkPayload(limits)) else []
  {
    var maxChunkPayload := ChunkPayload(limits);
    var binaryChunks := CeilingDivision(|binary|, maxChunkPayload);
    if |binary| == 0 || |binary| > limits.maxBinaryBytes || binaryChunks > limits.maxBinaryChunks {
      return [];
    }
    chunks := [];
    for chunkIndex := 0 to binaryChunks
      invariant |chunks| == chunkIndex
      invariant chunks == ChunksOf(id, binary, maxChunkPayload)[..chunkIndex]
    {
      hide CeilingDivision, Part, ChunkPayload;
      ChunkStarts(|binary|, maxChunkPayload, chunkIndex);
      PartIs(binary, maxChunkPayload, chunkIndex);
      var start := chunkIndex * maxChunkPayload;
      var end := if start + maxChunkPayload < |binary| then start + maxChunkPayload else |binary|;
      assert ChunksOf(id, binary, maxChunkPayload)[chunkIndex].payload == binary[start..end];
      chunks := chunks + [Chunk(id, chunkIndex, binaryChunks, binary[start..end])];
    }
  }

  predicate Splittable(binary: Bytes, limits: CodecLimits) {
    && 0 < |binary| <= limits.maxBinaryBytes
    && CeilingDivision(|binary|, ChunkPayload(limits)) <= limits.maxBinaryChunks
  }

  function ChunksOf(id: JsString, binary: Bytes, size: nat): (chunks: seq<Chunk>)
    requires size > 0
    ensures |chunks| == CeilingDivision(|binary|, size)
  {
    var n := CeilingDivision(|binary|, size);
    seq(n, k requires 0 <= k < n => ChunkStarts(|binary|, size, k); Chunk(id, k, n, Part(binary, size, k)))
  }

  /** A payload is sent exactly when it is not empty and within the limits, as many chunks as allowed
      holding it when each is as long as a frame has room for beside the reserved overhead. */
  lemma SplitsWhatFits(binary: Bytes, limits: CodecLimits)
    requires limits.maxFrameBytes > 161
    ensures Splittable(binary, limits) <==>
      0 < |binary| <= limits.maxBinaryBytes && |binary| <= limits.maxBinaryChunks * (limits.maxFrameBytes - 160)
  {
    hide CeilingDivision;
    ChunkStarts(|binary|, limits.maxFrameBytes - 160, limits.maxBinaryChunks);
  }

  /** Every chunk but the last is that long. */
  lemma SplitFills(id: JsString, binary: Bytes, limits: CodecLimits, k: nat)
    requires limits.maxFrameBytes > 161 && k < |ChunksOf(id, binary, ChunkPayload(limits))|
    ensures var chunks := ChunksOf(id, binary, ChunkPayload(limits));
      && chunks[k].correlationId == id && chunks[k].chunkIndex == k && chunks[k].totalChunks == |chunks|
      && 0 < |chunks[k].payload| <= limits.maxFrameBytes - 160
      && (k + 1 < |chunks| ==> |chunks[k].payload| == limits.maxFrameBytes - 160)
  {
    var size := limits.maxFrameBytes - 160;
    assert ChunkPayload(limits) == size;
    ChunkLength(id, binary, size, k);
    hide CeilingDivision, Part, ChunkPayload;
  }

  lemma ChunkLength(id: JsString, binary: Bytes, size: nat, k: nat)
    requires size > 0 && k < |ChunksOf(id, binary, size)|
    ensures 0 < |ChunksOf(id, binary, size)[k].payload| <= size
    ensures k + 1 < |ChunksOf(id, binary, size)| ==> |ChunksOf(id, binary, size)[k].payload| == size
  {
    hide CeilingDivision, Part;
    ChunkStarts(|binary|, size, k);
    ChunkStarts(|binary|, size, k + 1);
    PartIs(binary, size, k);
  }

  /** Every chunk's frame fits the frame limit and decodes to the chunk, when frames are longer
      than the reserved overhead and the counts fit the header. */
  lemma SplitFramesFit(id: JsString, binary: Bytes, limits: CodecLimits, k: nat)
    requires IsPortableName(id) && Splittable(binary, limits) && limits.maxFrameBytes > CHUNK_OVERHEAD
    requires limits.maxFrameBytes < TWO_TO_THE_32 && limits.maxBinaryChunks < TWO_TO_THE_32
    requires k < |ChunksOf(id, binary, ChunkPayload(limits))|
    ensures var c := ChunksOf(id, binary, ChunkPayload(limits))[k];
      && Encodable(c, limits) && FrameSize(c) <= limits.maxFrameBytes && Decode(FrameOf(c), limits) == Frame(c)
  {
    var size := ChunkPayload(limits);
    ChunkStarts(|binary|, size, k);
    var c := ChunksOf(id, binary, size)[k];
    assert |c.payload| <= size by { assert (k + 1) * size == k * size + size; }
    hide IsName;
    RoundTrip(c, limits);
  }

  function Joined(parts: seq<Bytes>): Bytes {
    if parts == [] then [] else Joined(parts[..|parts| - 1]) + parts[|parts| - 1]
  }

  function Payloads(chunks: seq<Chunk>): (parts: seq<Bytes>)
    ensures |parts| == |chunks| && forall i | 0 <= i < |parts| :: parts[i] == chunks[i].payload
  {
    seq(|chunks|, i requires 0 <= i < |chunks| => chunks[i].payload)
  }

  /** The first k chunks carry the first k stretches of the payload. */
  lemma {:induction false} FirstChunks(id: JsString, binary: Bytes, size: nat, k: nat)
    requires size > 0 && k <= CeilingDivision(|binary|, size)
    ensures var taken := if k * size <= |binary| then k * size else |binary|;
      Joined(Payloads(ChunksOf(id, binary, size)[..k])) == binary[..taken]
  {
    hide CeilingDivision, Part, ChunksOf, Payloads, Joined;
    if k == 0 {
      NothingJoined(ChunksOf(id, binary, size));
    } else {
      FirstChunks(id, binary, size, k - 1);
      ChunkIs(id, binary, size, k - 1);
      var start := (k - 1) * size;
      assert k * size == start + size;
      JoinNext(ChunksOf(id, binary, size), k, binary, start,
               if start + size < |binary| then start + size else |binary|);
    }
  }

  lemma NothingJoined(chunks: seq<Chunk>)
    ensures Joined(Payloads(chunks[..0])) == []
  {
    assert Payloads(chunks[..0]) == [];
  }

  lemma JoinNext(chunks: seq<Chunk>, k: nat, binary: Bytes, start: nat, end: nat)
    requires 0 < k <= |chunks| && start <= end <= |binary|
    requires Joined(Payloads(chunks[..k - 1])) == binary[..start] && chunks[k - 1].payload == binary[start..end]
    ensures Joined(Payloads(chunks[..k])) == binary[..end]
  {
    hide Joined;
    JoinOneMore(Payloads(chunks[..k - 1]), Payloads(chunks[..k]), chunks[k - 1].payload);
    TakeMore(binary, start, end);
  }

  /** The payload of one chunk. */
  lemma ChunkIs(id: JsString, binary: Bytes, size: nat, k: nat)
    requires size > 0 && k < CeilingDivision(|binary|, size)
    ensures k * size < |binary|
    ensures ChunksOf(id, binary, size)[k].payload ==
      binary[k * size..if k * size + size < |binary| then k * size + size else |binary|]
  {
    hide CeilingDivision, Part;
    ChunkStarts(|binary|, size, k);
    PartIs(binary, size, k);
  }

  lemma TakeMore(binary: Bytes, start: nat, end: nat)
    requires start <= end <= |binary|
    ensures binary[..start] + binary[start..end] == binary[..end]
  {
  }

  lemma JoinOneMore(front: seq<Bytes>, parts: seq<Bytes>, part: Bytes)
    requires |parts| == |front| + 1 && front == parts[..|front|] && parts[|front|] == part
    ensures Joined(parts) == Joined(front) + part
  {
  }

  lemma JoinedPush(parts: seq<Bytes>, part: Bytes)
    ensures Joined(parts + [part]) == Joined(parts) + part
  {
    assert (parts + [part])[..|parts|] == parts;
  }

  /** All chunks together carry the payload. */
  lemma ChunksJoin(id: JsString, binary: Bytes, size: nat)
    requires size > 0 && |binary| > 0
    ensures Joined(Payloads(ChunksOf(id, binary, size))) == binary
    ensures |ChunksOf(id, binary, size)| > 0
  {
    var chunks := ChunksOf(id, binary, size);
    ChunkStarts(|binary|, size, |chunks|);
    FirstChunks(id, binary, size, |chunks|);
    ChunkStarts(|binary|, size, 0);
    assert chunks[..|chunks|] == chunks;
  }

  // ----- Reassembly

  /** A message whose binary part is still arriving. */
  datatype Pending = Pending(bytes: nat, total: nat, parts: seq<Bytes>, received: nat)

  datatype Delivery = Delivery(id: JsString, binary: Bytes)

  datatype Assembly = Assembly(open: bool, pending: map<JsString, Pending>, pendingBytes: int, delivered: seq<Delivery>)

  const Empty: Assembly := Assembly(true, map[], 0, [])

  /** What arrives, in any order of messages: an announcement of a binary part, or one of its chunks. */
  datatype Arrival = Announce(id: JsString, bytes: nat, total: nat) | Piece(chunk: Chunk)

  datatype TransferLimits = TransferLimits(codec: CodecLimits, maxPendingCorrelations: nat)

  /** An announcement fits beside what is pending. */
  predicate HasRoom(a: Assembly, e: Arrival, limits: TransferLimits) {
    e.Announce? ==>
      |a.pending| < limits.maxPendingCorrelations && a.pendingBytes + e.bytes <= limits.codec.maxBinaryBytes
  }

  function Closed(a: Assembly): Assembly { a.(open := false) }

  function OnAnnounce(a: Assembly, id: JsString, bytes: nat, total: nat, limits: TransferLimits): Assembly {
    if |a.pending| >= limits.maxPendingCorrelations || a.pendingBytes
      + bytes > limits.codec.maxBinaryBytes then Closed(a)
    else a.(pending := a.pending[id := Pending(bytes, total, [], 0)], pendingBytes := a.pendingBytes + bytes)
  }

  function Extended(p: Pending, part: Bytes): Pending {
    p.(parts := p.parts + [part], received := p.received + |part|)
  }

  function OnPiece(a: Assembly, c: Chunk, limits: TransferLimits): Assembly {
    if c.correlationId !in a.pending then Closed(a)
    else
      var p := a.pending[c.correlationId];
      if c.chunkIndex != |p.parts| || c.totalChunks != p.total then Closed(a)
      else
        var received := p.received + |c.payload|;
        if received > p.bytes || received > limits.codec.maxBinaryBytes then Closed(a)
        else if |p.parts| + 1 != c.totalChunks then
          a.(pending := a.pending[c.correlationId := Extended(p, c.payload)])
        else if received != p.bytes then Closed(a)
        else
          a.(pending := a.pending - {c.correlationId},
             pendingBytes := a.pendingBytes - p.bytes,
             delivered := a.delivered + [Delivery(c.correlationId, Joined(p.parts + [c.payload]))])
  }

  function Arrive(a: Assembly, e: Arrival, limits: TransferLimits): Assembly {
    if !a.open then a
    else
      match e
      case Announce(id, bytes, total) => OnAnnounce(a, id, bytes, total, limits)
      case Piece(chunk) => OnPiece(a, chunk, limits)
  }

  function Feed(es: seq<Arrival>, limits: TransferLimits): Assembly {
    if es == [] then Empty else Arrive(Feed(es[..|es| - 1], limits), es[|es| - 1], limits)
  }

  /** The bytes all pending messages have announced. */
  ghost function Announced(pending: map<JsString, Pending>): nat
    decreases |pending|
  {
    if pending == map[] then 0
    else
      var id :| id in pending;
      pending[id].bytes + Announced(pending - {id})
  }

  lemma {:induction false} AnnouncedWithout(pending: map<JsString, Pending>, id: JsString)
    requires id in pending
    ensures Announced(pending) == pending[id].bytes + Announced(pending - {id})
    decreases |pending|
  {
    var first :| first in pending && Announced(pending) == pending[first].bytes + Announced(pending - {first});
    if first != id {
      AnnouncedWithout(pending - {first}, id);
      AnnouncedWithout(pending - {id}, first);
      assert pending - {first} - {id} == pending - {id} - {first};
    }
  }

  lemma AnnouncedWith(pending: map<JsString, Pending>, id: JsString, p: Pending)
    ensures Announced(pending[id := p]) == p.bytes + Announced(pending - {id})
  {
    AnnouncedWithout(pending[id := p], id);
    assert pending[id := p] - {id} == pending - {id};
  }

  predicate PartsCounted(p: Pending) { p.received == |Joined(p.parts)| }

  ghost predicate AllCounted(pending: map<JsString, Pending>) {
    forall id | id in pending :: PartsCounted(pending[id])
  }

  /** The pending total covers what all pending messages announced and stays within the limits;
      so does their number, and what they have received is counted. */
  ghost predicate AssemblyOk(a: Assembly, limits: TransferLimits) {
    && Announced(a.pending) <= a.pendingBytes <= limits.codec.maxBinaryBytes
    && |a.pending| <= limits.maxPendingCorrelations
    && AllCounted(a.pending)
  }

  /** The session takes an announcement whose identity a non-empty message that is still pending has. */
  predicate Reannounces(a: Assembly, e: Arrival, limits: TransferLimits) {
    e.Announce? && a.open && HasRoom(a, e, limits) && e.id in a.pending && a.pending[e.id].bytes > 0
  }

  /** The size of the pending message that an announcement replaces. */
  function Abandoned(a: Assembly, e: Arrival, limits: TransferLimits): nat {
    if Reannounces(a, e, limits) then a.pending[e.id].bytes else 0
  }

  /** The total moved as the announced sizes did, except for what was abandoned. */
  ghost predicate Accounts(a: Assembly, next: Assembly, abandoned: nat) {
    next.pendingBytes - Announced(next.pending) == a.pendingBytes - Announced(a.pending) + abandoned
  }

  /** Replacing or adding one pending message. */
  lemma PendingWith(pending: map<JsString, Pending>, id: JsString, p: Pending)
    requires AllCounted(pending) && PartsCounted(p)
    ensures AllCounted(pending[id := p]) && |pending[id := p]| == |pending| + if id in pending then 0 else 1
    ensures Announced(pending[id := p]) == Announced(pending) + p.bytes - if id in pending then pending[id].bytes else 0
  {
    hide Announced, PartsCounted;
    AnnouncedWith(pending, id, p);
    if id in pending {
      AnnouncedWithout(pending, id);
      assert pending[id := p].Keys == pending.Keys;
    } else {
      assert pending - {id} == pending;
      assert pending[id := p].Keys == pending.Keys + {id};
    }
  }

  lemma PendingWithout(pending: map<JsString, Pending>, id: JsString)
    requires AllCounted(pending) && id in pending
    ensures AllCounted(pending - {id}) && |pending - {id}| < |pending|
    ensures Announced(pending - {id}) == Announced(pending) - pending[id].bytes
  {
    hide Announced, PartsCounted;
    AnnouncedWithout(pending, id);
    assert (pending - {id}).Keys == pending.Keys - {id};
  }

  lemma PendingIsCounted(a: Assembly, id: JsString, limits: TransferLimits)
    requires AssemblyOk(a, limits) && id in a.pending
    ensures PartsCounted(a.pending[id])
  {
  }

  lemma PartCounted(p: Pending, part: Bytes)
    requires PartsCounted(p)
    ensures PartsCounted(Extended(p, part)) && Extended(p, part).bytes == p.bytes
  {
    JoinedPush(p.parts, part);
  }

  lemma AnnouncementAccounts(a: Assembly, id: JsString, bytes: nat, total: nat, limits: TransferLimits)
    requires AssemblyOk(a, limits)
    ensures var next := OnAnnounce(a, id, bytes, total, limits);
      && AssemblyOk(next, limits)
      && Accounts(a, next, if HasRoom(a, Announce(id, bytes, total), limits) && id in a.pending then
                  a.pending[id].bytes else 0)
  {
    var p := Pending(bytes, total, [], 0);
    assert PartsCounted(p);
    hide Announced, PartsCounted, AllCounted;
    PendingWith(a.pending, id, p);
  }

  lemma ClosingAccounts(a: Assembly, limits: TransferLimits)
    requires AssemblyOk(a, limits)
    ensures AssemblyOk(Closed(a), limits) && Accounts(a, Closed(a), 0)
  {
  }

  lemma ExtendingAccounts(a: Assembly, id: JsString, part: Bytes, limits: TransferLimits)
    requires AssemblyOk(a, limits) && id in a.pending
    ensures var next := a.(pending := a.pending[id := Extended(a.pending[id], part)]);
      AssemblyOk(next, limits) && Accounts(a, next, 0)
  {
    PendingIsCounted(a, id, limits);
    PartCounted(a.pending[id], part);
    hide Announced, PartsCounted, AllCounted, Extended;
    PendingWith(a.pending, id, Extended(a.pending[id], part));
  }

  lemma CompletingAccounts(a: Assembly, id: JsString, delivered: seq<Delivery>, limits: TransferLimits)
    requires AssemblyOk(a, limits) && id in a.pending
    ensures var next := a.(pending := a.pending - {id}, pendingBytes := a.pendingBytes - a.pending[id].bytes,
                           delivered := delivered);
      AssemblyOk(next, limits) && Accounts(a, next, 0)
  {
    hide Announced, PartsCounted, AllCounted;
    PendingWithout(a.pending, id);
  }

  lemma PieceAccounts(a: Assembly, c: Chunk, limits: TransferLimits)
    requires AssemblyOk(a, limits)
    ensures AssemblyOk(OnPiece(a, c, limits), limits) && Accounts(a, OnPiece(a, c, limits), 0)
  {
    hide AssemblyOk, Accounts, Joined, Extended;
    ClosingAccounts(a, limits);
    if c.correlationId in a.pending {
      ExtendingAccounts(a, c.correlationId, c.payload, limits);
      CompletingAccounts(a, c.correlationId, OnPiece(a, c, limits).delivered, limits);
    }
  }

  lemma ArriveAccounts(a: Assembly, e: Arrival, limits: TransferLimits)
    requires AssemblyOk(a, limits)
    ensures AssemblyOk(Arrive(a, e, limits), limits) && Accounts(a, Arrive(a, e, limits), Abandoned(a, e, limits))
  {
    hide OnAnnounce, OnPiece, AssemblyOk, Announced;
    match e
    case Announce(id, bytes, total) => AnnouncementAccounts(a, id, bytes, total, limits);
    case Piece(c) => PieceAccounts(a, c, limits);
  }

  /** Totals that are exact before an arrival stay exact if and only if it does not announce again
      a message that is still pending. */
  lemma ExactUnlessReannounced(a: Assembly, e: Arrival, limits: TransferLimits)
    requires AssemblyOk(a, limits) && a.pendingBytes == Announced(a.pending)
    ensures var next := Arrive(a, e, limits);
      next.pendingBytes == Announced(next.pending) <==> !Reannounces(a, e, limits)
  {
    hide Arrive, AssemblyOk, Announced;
    ArriveAccounts(a, e, limits);
  }

  ghost function AllAbandoned(es: seq<Arrival>, limits: TransferLimits): nat {
    if es == [] then 0
    else AllAbandoned(es[..|es| - 1], limits) + Abandoned(Feed(es[..|es| - 1], limits), es[|es| - 1], limits)
  }

  /** Over any traffic the pending total is bounded, and is the sum of the announced sizes plus
      all that was abandoned. */
  lemma {:induction false} PendingStaysBounded(es: seq<Arrival>, limits: TransferLimits)
    ensures AssemblyOk(Feed(es, limits), limits)
    ensures Feed(es, limits).pendingBytes == Announced(Feed(es, limits).pending) + AllAbandoned(es, limits)
  {
    if es == [] {
      assert Announced(map[]) == 0;
    } else {
      hide Arrive, AssemblyOk, Announced, Abandoned;
      PendingStaysBounded(es[..|es| - 1], limits);
      ArriveAccounts(Feed(es[..|es| - 1], limits), es[|es| - 1], limits);
    }
  }

  /** What was abandoned is never released: it grows along any traffic. */
  lemma {:induction false} AbandonedForGood(es: seq<Arrival>, more: seq<Arrival>, limits: TransferLimits)
    ensures AllAbandoned(es, limits) <= AllAbandoned(es + more, limits)
  {
    if more == [] {
      assert es + more == es;
    } else {
      var last := |more| - 1;
      AbandonedForGood(es, more[..last], limits);
      assert (es + more)[..|es + more| - 1] == es + more[..last];
    }
  }

  /** The totals are exact at the end of some traffic if and only if no announcement in it named
      a non-empty message that was still pending. */
  lemma {:induction false} TotalsExactIffNothingReannounced(es: seq<Arrival>, limits: TransferLimits)
    ensures Feed(es, limits).pendingBytes == Announced(Feed(es, limits).pending) <==>
      forall i | 0 <= i < |es| :: !ReannouncedAt(es, i, limits)
  {
    hide AssemblyOk, ReannouncedAt;
    PendingStaysBounded(es, limits);
    AbandonedNothing(es, limits);
  }

  lemma AbandonedIffReannounced(a: Assembly, e: Arrival, limits: TransferLimits)
    ensures Abandoned(a, e, limits) > 0 <==> Reannounces(a, e, limits)
  {
  }

  ghost predicate ReannouncedAt(es: seq<Arrival>, i: nat, limits: TransferLimits)
    requires i < |es|
  {
    Reannounces(Feed(es[..i], limits), es[i], limits)
  }

  lemma {:induction false} AbandonedNothing(es: seq<Arrival>, limits: TransferLimits)
    ensures AllAbandoned(es, limits) == 0 <==> forall i | 0 <= i < |es| :: !ReannouncedAt(es, i, limits)
  {
    if es != [] {
      var front := es[..|es| - 1];
      AbandonedNothing(front, limits);
      AbandonedIffReannounced(Feed(front, limits), es[|front|], limits);
      hide Feed, Abandoned, Reannounces;
      forall i | 0 <= i < |front| ensures ReannouncedAt(front, i, limits) == ReannouncedAt(es, i, limits) {
        assert front[..i] == es[..i] && front[i] == es[i];
      }
      assert ReannouncedAt(es, |front|, limits) == (Abandoned(Feed(front, limits), es[|front|], limits) > 0);
      hide ReannouncedAt;
      if AllAbandoned(front, limits) > 0 {
        var i :| 0 <= i < |front| && ReannouncedAt(front, i, limits);
        assert ReannouncedAt(es, i, limits);
      }
    }
  }

  // ----- One message among many

  function IdOf(e: Arrival): JsString { if e.Announce? then e.id else e.chunk.correlationId }

  function Concerning(es: seq<Arrival>, id: JsString): seq<Arrival> {
    if es == [] then []
    else Concerning(es[..|es| - 1], id) + if IdOf(es[|es| - 1]) == id then [es[|es| - 1]] else []
  }

  /** What the sender of a payload sends. */
  function Transfer(id: JsString, binary: Bytes, size: nat): (es: seq<Arrival>)
    requires size > 0
    ensures |es| == 1 + |ChunksOf(id, binary, size)|
    ensures es[0] == Announce(id, |binary|, CeilingDivision(|binary|, size))
    ensures forall k | 0 < k < |es| :: es[k] == Piece(ChunksOf(id, binary, size)[k - 1])
  {
    var chunks := ChunksOf(id, binary, size);
    [Announce(id, |binary|, |chunks|)] + seq(|chunks|, k requires 0 <= k < |chunks| => Piece(chunks[k]))
  }

  function DeliveriesOf(ds: seq<Delivery>, id: JsString): seq<Delivery> {
    if ds == [] then []
    else DeliveriesOf(ds[..|ds| - 1], id) + if ds[|ds| - 1].id == id then [ds[|ds| - 1]] else []
  }

  /** How far one transfer has come after its first n arrivals. */
  ghost predicate Progressed(a: Assembly, id: JsString, binary: Bytes, size: nat, n: nat)
    requires size > 0 && n <= 1 + |ChunksOf(id, binary, size)|
  {
    var chunks := ChunksOf(id, binary, size);
    if n == 0 then id !in a.pending && DeliveriesOf(a.delivered, id) == []
    else if n <= |chunks| then
      && id in a.pending && DeliveriesOf(a.delivered, id) == []
      && a.pending[id].bytes == |binary| && a.pending[id].total == |chunks|
      && a.pending[id].parts == Payloads(chunks[..n - 1])
      && a.pending[id].received == |Joined(Payloads(chunks[..n - 1]))|
    else id !in a.pending && DeliveriesOf(a.delivered, id) == [Delivery(id, binary)]
  }

  lemma DeliveriesPush(ds: seq<Delivery>, d: Delivery, id: JsString)
    ensures DeliveriesOf(ds + [d], id) == DeliveriesOf(ds, id) + if d.id == id then [d] else []
  {
    assert (ds + [d])[..|ds|] == ds;
  }

  /** Arrivals of other messages do not disturb it. */
  lemma OthersDoNotDisturb(a: Assembly, e: Arrival, id: JsString, binary: Bytes, size: nat, n: nat,
                           limits: TransferLimits)
    requires size > 0 && n <= 1 + |ChunksOf(id, binary, size)| && Progressed(a, id, binary, size, n) && IdOf(e) != id
    ensures Progressed(Arrive(a, e, limits), id, binary, size, n)
  {
    hide Arrive, ChunksOf, Payloads, Joined;
    OthersLeave(a, e, id, limits);
  }

  lemma OthersLeave(a: Assembly, e: Arrival, id: JsString, limits: TransferLimits)
    requires IdOf(e) != id
    ensures var next := Arrive(a, e, limits);
      && (id in next.pending <==> id in a.pending)
      && (id in a.pending ==> next.pending[id] == a.pending[id])
      && DeliveriesOf(next.delivered, id) == DeliveriesOf(a.delivered, id)
  {
    hide Joined, DeliveriesOf;
    var next := Arrive(a, e, limits);
    if |next.delivered| > |a.delivered| {
      DeliveriesPush(a.delivered, next.delivered[|a.delivered|], id);
    }
  }

  /** Its own next arrival moves it on, and never closes the session unless an announcement
      finds no room. */
  lemma NextMovesOn(a: Assembly, id: JsString, binary: Bytes, size: nat, n: nat, limits: TransferLimits)
    requires size > 0 && 0 < |binary| <= limits.codec.maxBinaryBytes && n < |Transfer(id, binary, size)|
    requires a.open && Progressed(a, id, binary, size, n)
    ensures var next := Arrive(a, Transfer(id, binary, size)[n], limits);
      && (next.open ==> Progressed(next, id, binary, size, n + 1))
      && (next.open <==>
          n > 0 || (|a.pending| < limits.maxPendingCorrelations
                    && a.pendingBytes + |binary| <= limits.codec.maxBinaryBytes))
  {
    var chunks := ChunksOf(id, binary, size);
    ChunksJoin(id, binary, size);
    if n == 0 {
      assert Payloads(chunks[..0]) == [] && Joined([]) == [];
    } else {
      var c, p := chunks[n - 1], a.pending[id];
      FirstChunks(id, binary, size, n);
      assert Payloads(chunks[..n]) == Payloads(chunks[..n - 1]) + [c.payload];
      JoinedPush(Payloads(chunks[..n - 1]), c.payload);
      assert |Joined(Payloads(chunks[..n]))| <= |binary|;
      if n == |chunks| {
        assert chunks[..n] == chunks;
        DeliveriesPush(a.delivered, Delivery(id, Joined(p.parts + [c.payload])), id);
      }
    }
  }

  /** If, among any other traffic, what arrives about a message is what its sender sent, then
      as long as the session stays open the payload is delivered once, byte for byte, when its
      last chunk has arrived, and not before. */
  lemma {:induction false} DeliveredOnce(es: seq<Arrival>, id: JsString, binary: Bytes, size: nat,
                                         limits: TransferLimits)
    requires size > 0 && 0 < |binary| <= limits.codec.maxBinaryBytes
    requires Concerning(es, id) <= Transfer(id, binary, size) && Feed(es, limits).open
    ensures Progressed(Feed(es, limits), id, binary, size, |Concerning(es, id)|)
    ensures DeliveriesOf(Feed(es, limits).delivered, id) ==
      if Concerning(es, id) == Transfer(id, binary, size) then [Delivery(id, binary)] else []
  {
    hide ChunksOf;
    if es != [] {
      var front, last := es[..|es| - 1], es[|es| - 1];
      DeliveredOnce(front, id, binary, size, limits);
      var n := |Concerning(front, id)|;
      if IdOf(last) == id {
        assert last == Concerning(es, id)[n] == Transfer(id, binary, size)[n];
        NextMovesOn(Feed(front, limits), id, binary, size, n, limits);
      } else {
        OthersDoNotDisturb(Feed(front, limits), last, id, binary, size, n, limits);
      }
    }
  }

  /** Traffic in which every message is being sent properly, and no identity is announced twice. */
  ghost predicate Proper(es: seq<Arrival>, sent: map<JsString, Bytes>, size: nat, limits: TransferLimits)
    requires size > 0
  {
    forall i | 0 <= i < |es| ::
      IdOf(es[i]) in sent && Concerning(es, IdOf(es[i])) <= Transfer(IdOf(es[i]), sent[IdOf(es[i])], size)
  }

  /** Proper traffic closes the session exactly when an announcement finds no room. */
  lemma ProperClosesOnlyForRoom(es: seq<Arrival>, last: Arrival, sent: map<JsString, Bytes>, size: nat,
                                limits: TransferLimits)
    requires size > 0 && Proper(es + [last], sent, size, limits) && Feed(es, limits).open
    requires forall id | id in sent :: 0 < |sent[id]| <= limits.codec.maxBinaryBytes
    ensures Feed(es + [last], limits).open <==> HasRoom(Feed(es, limits), last, limits)
  {
    var all := es + [last];
    assert all[..|es|] == es && all[|es|] == last;
    var id := IdOf(last);
    var n := |Concerning(es, id)|;
    assert Concerning(all, id) == Concerning(es, id) + [last];
    DeliveredOnce(es, id, sent[id], size, limits);
    assert last == Concerning(all, id)[n] == Transfer(id, sent[id], size)[n];
    NextMovesOn(Feed(es, limits), id, sent[id], size, n, limits);
  }

  // ----- Whatever arrives, what is delivered is whole

  datatype Size = Size(bytes: nat, total: nat)

  /** What was announced for a message last, and the chunks that arrived for it since. */
  function LastAnnounced(es: seq<Arrival>, id: JsString): Option<Size> {
    if es == [] then None
    else
      var last := es[|es| - 1];
      if last.Announce? && last.id == id then Some(Size(last.bytes, last.total)) else LastAnnounced(es[..|es| - 1], id)
  }

  function ArrivedSince(es: seq<Arrival>, id: JsString): seq<Chunk> {
    if es == [] then []
    else
      var front, last := es[..|es| - 1], es[|es| - 1];
      if last.Announce? && last.id == id then []
      else if last.Piece? && last.chunk.correlationId == id then ArrivedSince(front, id) + [last.chunk]
      else ArrivedSince(front, id)
  }

  /** The chunks are numbered from zero, and each says how many there are. */
  predicate Numbered(chunks: seq<Chunk>, total: nat) {
    forall k | 0 <= k < |chunks| :: chunks[k].chunkIndex == k && chunks[k].totalChunks == total
  }

  /** The announcement and the chunks behind a pending message. */
  ghost predicate Backed(es: seq<Arrival>, id: JsString, p: Pending) {
    && LastAnnounced(es, id) == Some(Size(p.bytes, p.total))
    && Numbered(ArrivedSince(es, id), p.total) && p.parts == Payloads(ArrivedSince(es, id))
    && |Joined(p.parts)| == p.received <= p.bytes
  }

  ghost predicate AllBacked(es: seq<Arrival>, a: Assembly) {
    forall id | id in a.pending :: Backed(es, id, a.pending[id])
  }

  lemma OneMoreArrival(es: seq<Arrival>, e: Arrival, id: JsString)
    ensures LastAnnounced(es + [e], id) ==
      if e.Announce? && e.id == id then Some(Size(e.bytes, e.total)) else LastAnnounced(es, id)
    ensures ArrivedSince(es + [e], id) ==
      if e.Announce? && e.id == id then []
      else if e.Piece? && e.chunk.correlationId == id then ArrivedSince(es, id) + [e.chunk]
      else ArrivedSince(es, id)
  {
    assert (es + [e])[..|es|] == es;
  }

  /** One more chunk of a message that is pending. */
  lemma BackedExtends(es: seq<Arrival>, c: Chunk, p: Pending)
    requires Backed(es, c.correlationId, p) && c.chunkIndex == |p.parts| && c.totalChunks == p.total
    ensures var more := ArrivedSince(es + [Piece(c)], c.correlationId);
      && more == ArrivedSince(es, c.correlationId) + [c] && Numbered(more, p.total)
      && Payloads(more) == p.parts + [c.payload]
      && |Joined(Payloads(more))| == p.received + |c.payload|
      && LastAnnounced(es + [Piece(c)], c.correlationId) == Some(Size(p.bytes, p.total))
  {
    OneMoreArrival(es, Piece(c), c.correlationId);
    JoinedPush(p.parts, c.payload);
    assert Payloads(ArrivedSince(es, c.correlationId) + [c]) == p.parts + [c.payload];
  }

  lemma ArrivalKeepsBacked(es: seq<Arrival>, a: Assembly, e: Arrival, limits: TransferLimits)
    requires a.open && AllBacked(es, a) && Arrive(a, e, limits).open
    ensures AllBacked(es + [e], Arrive(a, e, limits))
  {
    hide Backed, Arrive;
    var next := Arrive(a, e, limits);
    forall id | id in next.pending ensures Backed(es + [e], id, next.pending[id]) {
      if IdOf(e) == id {
        OwnArrival(es, a, e, limits);
      } else {
        OtherArrival(es, a, e, limits, id);
      }
    }
  }

  lemma OtherArrival(es: seq<Arrival>, a: Assembly, e: Arrival, limits: TransferLimits, id: JsString)
    requires a.open && Arrive(a, e, limits).open && IdOf(e) != id && id in Arrive(a, e, limits).pending
    requires id in a.pending ==> Backed(es, id, a.pending[id])
    ensures id in a.pending && Backed(es + [e], id, Arrive(a, e, limits).pending[id])
  {
    hide Joined, ArrivedSince, LastAnnounced, Payloads, Numbered;
    OneMoreArrival(es, e, id);
  }

  lemma OwnArrival(es: seq<Arrival>, a: Assembly, e: Arrival, limits: TransferLimits)
    requires a.open && Arrive(a, e, limits).open && IdOf(e) in Arrive(a, e, limits).pending
    requires IdOf(e) in a.pending ==> Backed(es, IdOf(e), a.pending[IdOf(e)])
    ensures Backed(es + [e], IdOf(e), Arrive(a, e, limits).pending[IdOf(e)])
  {
    OneMoreArrival(es, e, IdOf(e));
    if e.Piece? {
      hide ArrivedSince, LastAnnounced, Joined, Payloads, Numbered;
      BackedExtends(es, e.chunk, a.pending[IdOf(e)]);
    } else {
      hide LastAnnounced, ArrivedSince;
      assert Payloads([]) == [];
    }
  }

  lemma {:induction false} PendingIsBacked(es: seq<Arrival>, limits: TransferLimits)
    requires Feed(es, limits).open
    ensures AllBacked(es, Feed(es, limits))
  {
    if es != [] {
      var front, last := es[..|es| - 1], es[|es| - 1];
      assert front + [last] == es;
      PendingIsBacked(front, limits);
      ArrivalKeepsBacked(front, Feed(front, limits), last, limits);
    }
  }

  /** The chunks that were announced for a message, all of them, carry the payload. */
  ghost predicate Whole(chunks: seq<Chunk>, announced: Option<Size>, d: Delivery, limits: TransferLimits) {
    && announced == Some(Size(|d.binary|, |chunks|)) && Numbered(chunks, |chunks|)
    && Joined(Payloads(chunks)) == d.binary && |d.binary| <= limits.codec.maxBinaryBytes
  }

  /** The chunk is the next one of as many as announced, and the bytes so far are no more than announced,
      and as many when it is the last. */
  predicate IsNext(before: seq<Chunk>, announced: Size, c: Chunk, limits: TransferLimits) {
    var bytes := |Joined(Payloads(before))| + |c.payload|;
    && c.chunkIndex == |before| && c.totalChunks == announced.total
    && bytes <= announced.bytes && bytes <= limits.codec.maxBinaryBytes
    && (|before| + 1 == c.totalChunks ==> bytes == announced.bytes)
  }

  /** One arrival adds the delivery, or nothing. */
  predicate Delivers(a: Assembly, next: Assembly, d: Option<Delivery>) {
    && next.delivered == a.delivered + (if d.Some? then [d.value] else [])
    && next.pending.Keys == a.pending.Keys - if d.Some? then {d.value.id} else {}
  }

  /** What a chunk of a pending message does, given what is behind the message. */
  lemma ChunkOfPending(es: seq<Arrival>, a: Assembly, c: Chunk, limits: TransferLimits)
    requires a.open && c.correlationId in a.pending && Backed(es, c.correlationId, a.pending[c.correlationId])
    ensures var next, before := OnPiece(a, c, limits), ArrivedSince(es, c.correlationId);
      && LastAnnounced(es, c.correlationId).Some?
      && (next.open <==> IsNext(before, LastAnnounced(es, c.correlationId).value, c, limits))
      && Delivers(a, next, if next.open && |before| + 1 == c.totalChunks
                           then Some(Delivery(c.correlationId, Joined(Payloads(before + [c])))) else None)
  {
    hide Backed, ArrivedSince, LastAnnounced, Joined, Payloads, Numbered;
    BehindPending(es, c, a.pending[c.correlationId]);
  }

  lemma BehindPending(es: seq<Arrival>, c: Chunk, p: Pending)
    requires Backed(es, c.correlationId, p)
    ensures LastAnnounced(es, c.correlationId) == Some(Size(p.bytes, p.total))
    ensures var before := ArrivedSince(es, c.correlationId);
      && |before| == |p.parts| && |Joined(Payloads(before))| == p.received
      && Joined(Payloads(before + [c])) == Joined(p.parts + [c.payload])
  {
    hide ArrivedSince, LastAnnounced, Joined, Numbered;
    var before := ArrivedSince(es, c.correlationId);
    assert Payloads(before + [c]) == Payloads(before) + [c.payload];
  }

  /** What one chunk does: it is taken exactly when its message is pending and it is the next one; the
      last one delivers the message, and it is whole. */
  lemma PieceIsTaken(es: seq<Arrival>, c: Chunk, limits: TransferLimits)
    requires Feed(es, limits).open
    ensures var a, next := Feed(es, limits), Feed(es + [Piece(c)], limits);
      var before, announced := ArrivedSince(es, c.correlationId), LastAnnounced(es, c.correlationId);
      var d := Delivery(c.correlationId, Joined(Payloads(before + [c])));
      && (next.open <==>
            c.correlationId in a.pending && announced.Some? && IsNext(before, announced.value, c, limits))
      && Delivers(a, next, if next.open && |before| + 1 == c.totalChunks then Some(d) else None)
      && (next.open && |before| + 1 == c.totalChunks ==> Whole(before + [c], announced, d, limits))
  {
    assert (es + [Piece(c)])[..|es|] == es;
    PendingIsBacked(es, limits);
    var a, before := Feed(es, limits), ArrivedSince(es, c.correlationId);
    assert Feed(es + [Piece(c)], limits) == OnPiece(a, c, limits);
    hide Feed, OnPiece, IsNext, Whole, Delivers, Backed, ArrivedSince, LastAnnounced, Joined, Payloads;
    if c.correlationId in a.pending {
      assert Backed(es, c.correlationId, a.pending[c.correlationId]);
      ChunkOfPending(es, a, c, limits);
      if OnPiece(a, c, limits).open && |before| + 1 == c.totalChunks {
        LastChunkMakesWhole(es, c, a.pending[c.correlationId], limits);
      }
    } else {
      UnknownChunk(a, c, limits);
    }
  }

  lemma LastChunkMakesWhole(es: seq<Arrival>, c: Chunk, p: Pending, limits: TransferLimits)
    requires Backed(es, c.correlationId, p)
    requires IsNext(ArrivedSince(es, c.correlationId), Size(p.bytes, p.total), c, limits)
    requires |ArrivedSince(es, c.correlationId)| + 1 == c.totalChunks
    ensures var chunks := ArrivedSince(es, c.correlationId) + [c];
      Whole(chunks, LastAnnounced(es, c.correlationId), Delivery(c.correlationId, Joined(Payloads(chunks))), limits)
  {
    BackedExtends(es, c, p);
    hide ArrivedSince, LastAnnounced, Joined, Payloads;
  }

  lemma UnknownChunk(a: Assembly, c: Chunk, limits: TransferLimits)
    requires c.correlationId !in a.pending
    ensures !OnPiece(a, c, limits).open && Delivers(a, OnPiece(a, c, limits), None)
  {
  }

  /** An announcement is taken exactly when there is room for it, and delivers nothing; nor does anything
      after the session closed. */
  lemma OnlyPiecesDeliver(es: seq<Arrival>, e: Arrival, limits: TransferLimits)
    requires e.Announce? || !Feed(es, limits).open
    ensures var a, next := Feed(es, limits), Feed(es + [e], limits);
      && next.delivered == a.delivered && (!a.open ==> next == a)
      && (a.open ==>
            (next.open <==> |a.pending| < limits.maxPendingCorrelations
                              && a.pendingBytes + e.bytes <= limits.codec.maxBinaryBytes))
      && (a.open && next.open ==> next.pending == a.pending[e.id := Pending(e.bytes, e.total, [], 0)])
  {
    assert (es + [e])[..|es|] == es;
  }

  /** Over any traffic: each message that was delivered was announced, and since then exactly its
      chunks arrived for it, in order, as many and with as many bytes as announced. */
  lemma {:induction false} DeliveriesAreWhole(es: seq<Arrival>, limits: TransferLimits, j: nat)
    returns (k: nat)
    requires j < |Feed(es, limits).delivered|
    ensures k < |es|
    ensures var d := Feed(es, limits).delivered[j];
      Whole(ArrivedSince(es[..k + 1], d.id), LastAnnounced(es[..k + 1], d.id), d, limits)
  {
    if es == [] {
      assert false;
    } else {
      var front, last := es[..|es| - 1], es[|es| - 1];
      assert front + [last] == es;
      hide Feed, Whole, ArrivedSince, LastAnnounced;
      if j < |Feed(front, limits).delivered| {
        DeliveredStay(front, last, limits);
        k := DeliveriesAreWhole(front, limits, j);
        assert front[..k + 1] == es[..k + 1];
      } else {
        k := |es| - 1;
        assert es[..k + 1] == es;
        NewDelivery(front, last, limits, j);
      }
    }
  }

  lemma NewDelivery(es: seq<Arrival>, e: Arrival, limits: TransferLimits, j: nat)
    requires |Feed(es, limits).delivered| <= j < |Feed(es + [e], limits).delivered|
    ensures var d := Feed(es + [e], limits).delivered[j];
      Whole(ArrivedSince(es + [e], d.id), LastAnnounced(es + [e], d.id), d, limits)
  {
    hide Feed, Whole, ArrivedSince, LastAnnounced;
    if e.Announce? || !Feed(es, limits).open {
      OnlyPiecesDeliver(es, e, limits);
    } else {
      PieceIsTaken(es, e.chunk, limits);
      OneMoreArrival(es, e, e.chunk.correlationId);
    }
  }

  lemma DeliveredStay(es: seq<Arrival>, e: Arrival, limits: TransferLimits)
    ensures Feed(es, limits).delivered <= Feed(es + [e], limits).delivered
  {
    assert (es + [e])[..|es|] == es;
  }

  // ----- The session's buffers

  class BinaryReceiver {
    const limits: TransferLimits
    var open: bool
    var pendingBinary: map<JsString, Pending>
    var pendingBinaryBytes: int
    var dispatched: seq<Delivery>

    function View(): Assembly
      reads this
    {
      Assembly(open, pendingBinary, pendingBinaryBytes, dispatched)
    }

    ghost predicate Valid()
      reads this
    {
      AssemblyOk(View(), limits)
    }

    constructor (limits: TransferLimits)
      ensures Valid() && View() == Empty && this.limits == limits
    {
      this.limits := limits;
      open, pendingBinary, pendingBinaryBytes, dispatched := true, map[], 0, [];
    }

    method ReceiveAnnouncement(id: JsString, bytes: nat, total: nat)
      requires Valid() && open
      modifies this
      ensures Valid() && View() == Arrive(old(View()), Announce(id, bytes, total), limits)
    {
      ArriveAccounts(View(), Announce(id, bytes, total), limits);
      if |pendingBinary| >= limits.maxPendingCorrelations || pendingBinaryBytes + bytes > limits.codec.maxBinaryBytes {
        open := false;
        return;
      }
      pendingBinary := pendingBinary[id := Pending(bytes, total, [], 0)];
      pendingBinaryBytes := pendingBinaryBytes + bytes;
    }

    /** The parts copied one after another into a buffer of the announced size. */
    method Concatenate(parts: seq<Bytes>, size: nat) returns (binary: array<Byte>)
      requires |Joined(parts)| == size
      ensures fresh(binary) && binary[..] == Joined(parts)
    {
      binary := new Byte[size];
      var offset, i := 0, 0;
      while i < |parts|
        invariant i <= |parts| && offset == |Joined(parts[..i])| <= size
        invariant binary[..offset] == Joined(parts[..i])
      {
        assert parts[..i + 1] == parts[..i] + [parts[i]];
        JoinedPush(parts[..i], parts[i]);
        JoinedPrefix(parts, i + 1);
        SetBytes(binary, offset, parts[i]);
        offset := offset + |parts[i]|;
        i := i + 1;
      }
      assert parts[..|parts|] == parts;
      assert binary[..size] == binary[..];
    }

    method ReceiveBinary(c: Chunk)
      requires Valid() && open
      modifies this
      ensures Valid() && View() == Arrive(old(View()), Piece(c), limits)
    {
      hide Announced, Joined, AssemblyOk, Accounts;
      ArriveAccounts(View(), Piece(c), limits);
      if c.correlationId !in pendingBinary {
        open := false;
        return;
      }
      var pending := pendingBinary[c.correlationId];
      PendingIsCounted(View(), c.correlationId, limits);
      if c.chunkIndex != |pending.parts| || c.totalChunks != pending.total {
        open := false;
        return;
      }
      var receivedBytes := pending.received + |c.payload|;
      if receivedBytes > pending.bytes || receivedBytes > limits.codec.maxBinaryBytes {
        open := false;
        return;
      }
      var parts := pending.parts + [c.payload];
      JoinedPush(pending.parts, c.payload);
      if |parts| != c.totalChunks {
        pendingBinary := pendingBinary[c.correlationId := pending.(parts := parts, received := receivedBytes)];
        return;
      }
      if receivedBytes != pending.bytes {
        open := false;
        return;
      }
      pendingBinary := pendingBinary - {c.correlationId};
      pendingBinaryBytes := pendingBinaryBytes - pending.bytes;
      var binary := Concatenate(parts, receivedBytes);
      dispatched := dispatched + [Delivery(c.correlationId, binary[..])];
    }
  }

  lemma {:induction false} JoinedPrefix(parts: seq<Bytes>, k: nat)
    requires k <= |parts|
    ensures |Joined(parts[..k])| <= |Joined(parts)|
    decreases |parts| - k
  {
    if k == |parts| {
      assert parts[..k] == parts;
    } else {
      assert parts[..k + 1] == parts[..k] + [parts[k]];
      JoinedPush(parts[..k], parts[k]);
      JoinedPrefix(parts, k + 1);
    }
  }
}
