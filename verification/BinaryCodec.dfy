/** Binary frames: a sixteen-byte header, the correlation identity, the payload. */
module BinaryCodecs {
  import opened StateStrings
  import opened StoreModel

  const BINARY_HEADER_BYTES: nat := 16
  const BINARY_MAGIC: Byte := 0x54
  const BINARY_VERSION: Byte := 1
  const TWO_TO_THE_32: nat := 0x1_0000_0000

  datatype Chunk = Chunk(correlationId: JsString, chunkIndex: nat, totalChunks: nat, payload: seq<Byte>)

  datatype CodecLimits = CodecLimits(maxFrameBytes: nat, maxBinaryBytes: nat, maxBinaryChunks: nat)

  datatype Decoded = Frame(chunk: Chunk) | FrameTooLarge | BinaryInvalid

  // ----- Fields, most significant byte first; values wrap to the field's width

  function Uint16(n: nat): (bytes: seq<Byte>)
    ensures |bytes| == 2
  {
    [n / 0x100 % 0x100, n % 0x100]
  }

  function Uint32(n: nat): (bytes: seq<Byte>)
    ensures |bytes| == 4
  {
    Uint16(n / 0x1_0000 % 0x1_0000) + Uint16(n % 0x1_0000)
  }

  function ReadUint16(bytes: seq<Byte>, at: nat): (n: nat)
    requires at + 2 <= |bytes|
    ensures n < 0x1_0000
  {
    var high: nat, low: nat := bytes[at], bytes[at + 1];
    high * 0x100 + low
  }

  function ReadUint32(bytes: seq<Byte>, at: nat): (n: nat)
    requires at + 4 <= |bytes|
    ensures n < TWO_TO_THE_32
  {
    ReadUint16(bytes, at) * 0x1_0000 + ReadUint16(bytes, at + 2)
  }

  lemma Uint16ReadsBack(bytes: seq<Byte>, at: nat, n: nat)
    requires at + 2 <= |bytes| && bytes[at..at + 2] == Uint16(n)
    ensures ReadUint16(bytes, at) == n % 0x1_0000
  {
    assert bytes[at] == bytes[at..at + 2][0] && bytes[at + 1] == bytes[at..at + 2][1];
  }

  /** A 32-bit field keeps a number modulo 2^32. */
  lemma Uint32ReadsBack(bytes: seq<Byte>, at: nat, n: nat)
    requires at + 4 <= |bytes| && bytes[at..at + 4] == Uint32(n)
    ensures ReadUint32(bytes, at) == n % TWO_TO_THE_32
  {
    hide Uint16, ReadUint16;
    assert bytes[at..at + 2] == bytes[at..at + 4][..2] && bytes[at + 2..at + 4] == bytes[at..at + 4][2..];
    Uint16ReadsBack(bytes, at, n / 0x1_0000 % 0x1_0000);
    Uint16ReadsBack(bytes, at + 2, n % 0x1_0000);
    HighAndLow(n);
  }

  lemma HighAndLow(n: nat)
    ensures n / 0x1_0000 % 0x1_0000 * 0x1_0000 + n % 0x1_0000 == n % TWO_TO_THE_32
  {
  }

  /** Names are ASCII, so their UTF-8 form is their code units. */
  function Utf8OfName(name: JsString): (bytes: seq<Byte>)
    requires IsPortableName(name)
    ensures |bytes| == |name| && forall i | 0 <= i < |bytes| :: bytes[i] == name[i]
  {
    seq(|name|, i requires 0 <= i < |name| => assert IsNameTail(name[i]); name[i])
  }

  /** Decoding UTF-8 drops one leading byte-order mark. */
  function WithoutByteOrderMark(bytes: seq<Byte>): seq<Byte> {
    if |bytes| >= 3 && bytes[..3] == [0xef, 0xbb, 0xbf] then bytes[3..] else bytes
  }

  /** What decoding and then parsing a message identity accepts: names only, and those are ASCII. */
  function NameOfUtf8(bytes: seq<Byte>): Option<JsString> {
    var text := WithoutByteOrderMark(bytes);
    if IsPortableName(text) then Some(text) else None
  }

  predicate Encodable(c: Chunk, limits: CodecLimits) {
    && IsPortableName(c.correlationId)
    && c.chunkIndex < c.totalChunks <= limits.maxBinaryChunks
    && |c.payload| <= limits.maxBinaryBytes
    && c.totalChunks <= MAX_SAFE_INTEGER
  }

  function FrameSize(c: Chunk): nat { BINARY_HEADER_BYTES + |c.correlationId| + |c.payload| }

  function Header(idBytes: nat, index: nat, total: nat, payloadBytes: nat): (h: seq<Byte>)
    ensures |h| == BINARY_HEADER_BYTES
  {
    [BINARY_MAGIC, BINARY_VERSION] + Uint16(idBytes) + Uint32(index) + Uint32(total) + Uint32(payloadBytes)
  }

  function FrameOf(c: Chunk): (frame: seq<Byte>)
    requires IsPortableName(c.correlationId)
    ensures |frame| == FrameSize(c)
  {
    Header(|c.correlationId|, c.chunkIndex, c.totalChunks, |c.payload|) + Utf8OfName(c.correlationId) + c.payload
  }

  function Decode(frame: seq<Byte>, limits: CodecLimits): Decoded {
    if |frame| > limits.maxFrameBytes then FrameTooLarge
    else if |frame| < BINARY_HEADER_BYTES then BinaryInvalid
    else if frame[0] != BINARY_MAGIC || frame[1] != BINARY_VERSION then BinaryInvalid
    else
      var correlationBytes := ReadUint16(frame, 2);
      var chunkIndex, totalChunks, payloadBytes := ReadUint32(frame, 4), ReadUint32(frame, 8), ReadUint32(frame, 12);
      if correlationBytes == 0 || totalChunks == 0 || totalChunks > limits.maxBinaryChunks || chunkIndex >= totalChunks
         || payloadBytes > limits.maxBinaryBytes || BINARY_HEADER_BYTES + correlationBytes + payloadBytes != |frame|
      then BinaryInvalid
      else
        var id := NameOfUtf8(frame[BINARY_HEADER_BYTES..BINARY_HEADER_BYTES + correlationBytes]);
        if id.None? then BinaryInvalid
        else Frame(Chunk(id.value, chunkIndex, totalChunks, frame[BINARY_HEADER_BYTES + correlationBytes..]))
  }

  /** Fills the frame in place, field by field. */
  method EncodeBinary(c: Chunk, limits: CodecLimits) returns (frame: array?<Byte>)
    ensures frame == null <==> !Encodable(c, limits) || FrameSize(c) > limits.maxFrameBytes
    ensures frame != null ==> fresh(frame) && IsPortableName(c.correlationId) && frame[..] == FrameOf(c)
  {
    if !IsPortableName(c.correlationId) || c.totalChunks > MAX_SAFE_INTEGER || c.totalChunks > limits.maxBinaryChunks
       || c.chunkIndex >= c.totalChunks || |c.payload| > limits.maxBinaryBytes
    {
      return null;
    }
    var size := BINARY_HEADER_BYTES + |c.correlationId| + |c.payload|;
    if size > limits.maxFrameBytes {
      return null;
    }
    frame := new Byte[size];
    hide Uint16, Uint32, Utf8OfName, IsPortableName;
    frame[0] := BINARY_MAGIC;
    frame[1] := BINARY_VERSION;
    assert frame[..2] == [BINARY_MAGIC, BINARY_VERSION];
    SetBytes(frame, 2, Uint16(|c.correlationId|));
    SetBytes(frame, 4, Uint32(c.chunkIndex));
    SetBytes(frame, 8, Uint32(c.totalChunks));
    SetBytes(frame, 12, Uint32(|c.payload|));
    SetBytes(frame, BINARY_HEADER_BYTES, Utf8OfName(c.correlationId));
    SetBytes(frame, BINARY_HEADER_BYTES + |c.correlationId|, c.payload);
    assert frame[..] == frame[..size];
  }

  /** Writes one field after what is already there. */
  method SetBytes(frame: array<Byte>, at: nat, bytes: seq<Byte>)
    requires at + |bytes| <= frame.Length
    modifies frame
    ensures frame[..at + |bytes|] == old(frame[..at]) + bytes
  {
    var i := 0;
    while i < |bytes|
      invariant i <= |bytes|
      invariant frame[..at + i] == old(frame[..at]) + bytes[..i]
    {
      frame[at + i] := bytes[i];
      i := i + 1;
    }
  }

  /** Reading the fields of a header gives them modulo their width. */
  lemma HeaderReadsBack(frame: seq<Byte>, idBytes: nat, index: nat, total: nat, payloadBytes: nat)
    requires |frame| >= BINARY_HEADER_BYTES
      && frame[..BINARY_HEADER_BYTES] == Header(idBytes, index, total, payloadBytes)
    ensures frame[0] == BINARY_MAGIC && frame[1] == BINARY_VERSION
    ensures ReadUint16(frame, 2) == idBytes % 0x1_0000
    ensures ReadUint32(frame, 4) == index % TWO_TO_THE_32 && ReadUint32(frame, 8) == total % TWO_TO_THE_32
    ensures ReadUint32(frame, 12) == payloadBytes % TWO_TO_THE_32
  {
    hide Uint16, Uint32, ReadUint16, ReadUint32;
    var h := frame[..16];
    assert h[0] == BINARY_MAGIC && h[1] == BINARY_VERSION;
    assert frame[2..4] == h[2..4] == Uint16(idBytes);
    assert frame[4..8] == h[4..8] == Uint32(index);
    assert frame[8..12] == h[8..12] == Uint32(total);
    assert frame[12..16] == h[12..16] == Uint32(payloadBytes);
    Uint16ReadsBack(frame, 2, idBytes);
    Uint32ReadsBack(frame, 4, index);
    Uint32ReadsBack(frame, 8, total);
    Uint32ReadsBack(frame, 12, payloadBytes);
  }

  lemma NameReadsBack(name: JsString)
    requires IsPortableName(name)
    ensures NameOfUtf8(Utf8OfName(name)) == Some(name)
    ensures NameOfUtf8([0xef, 0xbb, 0xbf] + Utf8OfName(name)) == Some(name)
  {
    var bytes := Utf8OfName(name);
    assert IsAlphanumeric(name[0]) && bytes[0] == name[0];
    assert bytes == name;
    assert ([0xef, 0xbb, 0xbf] + bytes)[..3] == [0xef, 0xbb, 0xbf] && ([0xef, 0xbb, 0xbf] + bytes)[3..] == bytes;
  }

  /** What a frame with these parts decodes to: its counts as they fit the header. */
  lemma DecodesTo(frame: seq<Byte>, idBytes: seq<Byte>, id: JsString, index: nat, total: nat, payload: seq<Byte>,
                  limits: CodecLimits)
    requires frame == Header(|idBytes|, index, total, |payload|) + idBytes + payload && |frame| <= limits.maxFrameBytes
    requires 0 < |idBytes| < 0x1_0000 && NameOfUtf8(idBytes) == Some(id)
    requires total <= limits.maxBinaryChunks && |payload| <= limits.maxBinaryBytes
    ensures Decode(frame, limits) ==
      if index % TWO_TO_THE_32 < total % TWO_TO_THE_32 && |payload| < TWO_TO_THE_32
      then Frame(Chunk(id, index % TWO_TO_THE_32, total % TWO_TO_THE_32, payload)) else BinaryInvalid
  {
    hide Header, ReadUint16, ReadUint32, NameOfUtf8;
    var n := BINARY_HEADER_BYTES + |idBytes|;
    assert frame[..BINARY_HEADER_BYTES] == Header(|idBytes|, index, total, |payload|);
    HeaderReadsBack(frame, |idBytes|, index, total, |payload|);
    assert frame[BINARY_HEADER_BYTES..n] == idBytes && frame[n..] == payload;
    Wraps(total);
    Wraps(|payload|);
  }

  lemma Wraps(n: nat)
    ensures n % TWO_TO_THE_32 <= n
    ensures n % TWO_TO_THE_32 == n <==> n < TWO_TO_THE_32
  {
  }

  /** Decoding returns exactly the encoded chunk if and only if its counts fit their header fields. */
  lemma RoundTrip(c: Chunk, limits: CodecLimits)
    requires Encodable(c, limits) && FrameSize(c) <= limits.maxFrameBytes
    ensures Decode(FrameOf(c), limits) == Frame(c) <==> c.totalChunks < TWO_TO_THE_32 && |c.payload| < TWO_TO_THE_32
  {
    hide Header, Decode, NameOfUtf8, Utf8OfName;
    NameReadsBack(c.correlationId);
    DecodesTo(FrameOf(c), Utf8OfName(c.correlationId), c.correlationId, c.chunkIndex, c.totalChunks, c.payload, limits);
    Wraps(c.totalChunks);
    Wraps(c.chunkIndex);
  }

  /** Accepted frames need not re-encode to themselves: a byte-order mark before the identity is lost. */
  lemma ByteOrderMarkIsLost(c: Chunk, limits: CodecLimits)
    requires Encodable(c, limits) && c.totalChunks < TWO_TO_THE_32 && |c.payload| < TWO_TO_THE_32
    requires FrameSize(c) + 3 <= limits.maxFrameBytes
    ensures var id := [0xef, 0xbb, 0xbf] + Utf8OfName(c.correlationId);
      var marked := Header(|id|, c.chunkIndex, c.totalChunks, |c.payload|) + id + c.payload;
      Decode(marked, limits) == Frame(c) && marked != FrameOf(c)
  {
    hide Header, Decode, NameOfUtf8;
    var id := [0xef, 0xbb, 0xbf] + Utf8OfName(c.correlationId);
    var marked := Header(|id|, c.chunkIndex, c.totalChunks, |c.payload|) + id + c.payload;
    NameReadsBack(c.correlationId);
    DecodesTo(marked, id, c.correlationId, c.chunkIndex, c.totalChunks, c.payload, limits);
    Wraps(c.totalChunks);
    Wraps(c.chunkIndex);
    assert |marked| != |FrameOf(c)|;
  }

  function BigEndian(bytes: seq<Byte>): nat {
    if bytes == [] then 0 else BigEndian(bytes[..|bytes| - 1]) * 0x100 + bytes[|bytes| - 1]
  }

  lemma BigEndianIs(bytes: seq<Byte>)
    ensures |bytes| == 2 ==> BigEndian(bytes) == ReadUint16(bytes, 0)
    ensures |bytes| == 4 ==> BigEndian(bytes) == ReadUint32(bytes, 0)
  {
    if |bytes| == 4 {
      assert BigEndian(bytes[..3]) == BigEndian(bytes[..2]) * 0x100
        + bytes[2] by { assert bytes[..3][..2] == bytes[..2]; }
    }
    if |bytes| == 2 || |bytes| == 4 {
      var one := bytes[..1];
      assert one[..0] == [] && BigEndian(one) == bytes[0];
      assert bytes[..2][..1] == one && BigEndian(bytes[..2]) == BigEndian(one) * 0x100 + bytes[1];
      assert bytes[..|bytes|] == bytes;
    }
  }

  lemma ReadField(frame: seq<Byte>, at: nat)
    ensures at + 2 <= |frame| ==> BigEndian(frame[at..at + 2]) == ReadUint16(frame, at)
    ensures at + 4 <= |frame| ==> BigEndian(frame[at..at + 4]) == ReadUint32(frame, at)
  {
    if at + 2 <= |frame| { BigEndianIs(frame[at..at + 2]); }
    if at + 4 <= |frame| { BigEndianIs(frame[at..at + 4]); }
  }

  /** The layout of a frame, byte by byte: the magic number, the version, the identity's length in two
      bytes and the three counts in four each, most significant first; then identity and payload. */
  lemma FrameLayout(c: Chunk)
    requires IsPortableName(c.correlationId) && |c.correlationId| < 0x1_0000
    requires c.chunkIndex < TWO_TO_THE_32 && c.totalChunks < TWO_TO_THE_32 && |c.payload| < TWO_TO_THE_32
    ensures var frame, n := FrameOf(c), 16 + |c.correlationId|;
      && |frame| == n + |c.payload| && frame[0] == 0x54 && frame[1] == 1
      && BigEndian(frame[2..4]) == |c.correlationId|
      && BigEndian(frame[4..8]) == c.chunkIndex && BigEndian(frame[8..12]) == c.totalChunks
      && BigEndian(frame[12..16]) == |c.payload|
      && (forall k | 0 <= k < |c.correlationId| :: frame[16 + k] == c.correlationId[k])
      && frame[n..] == c.payload
  {
    hide Header, IsPortableName, Uint16, Uint32, BigEndian, ReadUint16, ReadUint32;
    var frame := FrameOf(c);
    ReadField(frame, 2);
    ReadField(frame, 4);
    ReadField(frame, 8);
    ReadField(frame, 12);
    var header := Header(|c.correlationId|, c.chunkIndex, c.totalChunks, |c.payload|);
    assert frame[..16] == header;
    HeaderReadsBack(frame, |c.correlationId|, c.chunkIndex, c.totalChunks, |c.payload|);
    assert frame[16..16 + |c.correlationId|] == Utf8OfName(c.correlationId);
  }

  /** What is accepted is within the limits, whole, and under an identity. */
  lemma AcceptedFrames(frame: seq<Byte>, limits: CodecLimits)
    requires Decode(frame, limits).Frame?
    ensures var c := Decode(frame, limits).chunk;
      && |frame| <= limits.maxFrameBytes && IsPortableName(c.correlationId)
      && c.chunkIndex < c.totalChunks <= limits.maxBinaryChunks && |c.payload| <= limits.maxBinaryBytes
      && |c.payload| <= |frame| && c.payload == frame[|frame| - |c.payload|..]
      && (|frame| == FrameSize(c) || |frame| == FrameSize(c) + 3)
  {
    hide ReadUint16, ReadUint32, IsPortableName;
  }

  // ----- Encoding what was decoded

  lemma Uint16WritesBack(bytes: seq<Byte>, at: nat)
    requires at + 2 <= |bytes|
    ensures Uint16(ReadUint16(bytes, at)) == bytes[at..at + 2]
  {
    var high: nat, low: nat := bytes[at], bytes[at + 1];
    assert (high * 0x100 + low) / 0x100 % 0x100 == high && (high * 0x100 + low) % 0x100 == low;
  }

  lemma Uint32WritesBack(bytes: seq<Byte>, at: nat)
    requires at + 4 <= |bytes|
    ensures Uint32(ReadUint32(bytes, at)) == bytes[at..at + 4]
  {
    Uint16WritesBack(bytes, at);
    Uint16WritesBack(bytes, at + 2);
    hide Uint16, ReadUint16;
    var high, low := ReadUint16(bytes, at), ReadUint16(bytes, at + 2);
    assert (high * 0x1_0000 + low) / 0x1_0000 % 0x1_0000 == high && (high * 0x1_0000 + low) % 0x1_0000 == low;
    assert bytes[at..at + 4] == bytes[at..at + 2] + bytes[at + 2..at + 4];
  }

  lemma HeaderWritesBack(frame: seq<Byte>)
    requires |frame| >= BINARY_HEADER_BYTES && frame[0] == BINARY_MAGIC && frame[1] == BINARY_VERSION
    ensures Header(ReadUint16(frame, 2), ReadUint32(frame, 4), ReadUint32(frame, 8), ReadUint32(frame, 12)) ==
      frame[..BINARY_HEADER_BYTES]
  {
    Uint16WritesBack(frame, 2);
    Uint32WritesBack(frame, 4);
    Uint32WritesBack(frame, 8);
    Uint32WritesBack(frame, 12);
    hide Uint16, Uint32, ReadUint16, ReadUint32;
    assert frame[..16] == [frame[0], frame[1]] + frame[2..4] + frame[4..8] + frame[8..12] + frame[12..16];
  }

  predicate IsMarked(frame: seq<Byte>) {
    |frame| >= BINARY_HEADER_BYTES + 3 && frame[BINARY_HEADER_BYTES..BINARY_HEADER_BYTES + 3] == [0xef, 0xbb, 0xbf]
  }

  /** An identity that is read as its own bytes has no mark before it; a marked one loses three bytes. */
  lemma NameLosesMark(bytes: seq<Byte>, name: JsString)
    requires NameOfUtf8(bytes) == Some(name)
    ensures IsPortableName(name) && |name| > 0
    ensures if |bytes| >= 3 && bytes[..3] == [0xef, 0xbb, 0xbf] then |name| == |bytes| - 3
      else bytes == Utf8OfName(name) && bytes[0] != 0xef
  {
    assert IsAlphanumeric(name[0]);
  }

  /** An accepted frame is what its chunk encodes to if and only if no byte-order mark stands
      where its identity starts. */
  lemma ReencodesUnlessMarked(frame: seq<Byte>, limits: CodecLimits)
    requires Decode(frame, limits).Frame?
    ensures var c := Decode(frame, limits).chunk;
      IsPortableName(c.correlationId) && (frame == FrameOf(c) <==> !IsMarked(frame))
  {
    hide Uint16, Uint32, ReadUint16, ReadUint32, Header, NameOfUtf8, Utf8OfName, IsPortableName;
    var c := Decode(frame, limits).chunk;
    var n := BINARY_HEADER_BYTES + ReadUint16(frame, 2);
    var id := frame[BINARY_HEADER_BYTES..n];
    NameLosesMark(id, c.correlationId);
    HeaderWritesBack(frame);
    assert frame == frame[..BINARY_HEADER_BYTES] + id + frame[n..];
    assert id[0] == frame[BINARY_HEADER_BYTES];
    if |id| >= 3 { assert id[..3] == frame[BINARY_HEADER_BYTES..BINARY_HEADER_BYTES + 3]; }
    if IsMarked(frame) {
      assert frame[BINARY_HEADER_BYTES] == frame[BINARY_HEADER_BYTES..BINARY_HEADER_BYTES + 3][0];
      assert |FrameOf(c)| < |frame|;
    }
  }
}
