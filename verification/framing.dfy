/** Packet framing of the b291 adapter: WritePacket and ReadPacket.

    A frame is `[u16 wire id][u32 length][length compressed bytes]`. The
    outbound id is remapped to this version's wire numbering before it is
    written, and the inbound id is remapped back before it is looked up. */
module Framing {
  import opened Outcomes
  import opened Primitives
  import opened Protocol
  import opened PacketIds
  import opened Transport
  import opened Decoders

  /** The bytes WritePacket hands to the stream in its single write. The
      length is `uint32(len(compressed))`, truncated like Go's conversion. */
  function Frame(c: Compression, id: u16, data: seq<byte>): (f: seq<byte>)
    ensures |f| == 6 + |c.compress(data)|
    ensures f[..2] == EncodeU16(ConvertOutput(id))
    ensures f[6..] == c.compress(data)
  {
    var compressed := c.compress(data);
    EncodeU16(ConvertOutput(id)) + EncodeU32(|compressed| % 0x1_0000_0000) + compressed
  }

  /** WritePacket: one write call carrying the whole frame. Writes into the Go
      code's in-memory buffer cannot fail, so the only error is the stream's. */
  function WritePacket(c: Compression, s: Sink, id: u16, data: seq<byte>): (r: Written)
    ensures Transmits(s, r, Frame(c, id, data))
  {
    Send(s, Frame(c, id, data))
  }

  /** The length field of a frame counts exactly the payload bytes after it,
      as long as the compressed payload fits the 32-bit field. */
  lemma FrameLengthField(c: Compression, id: u16, data: seq<byte>)
    requires |c.compress(data)| < 0x1_0000_0000
    ensures var f := Frame(c, id, data);
            ReadU32(f[2..]) == Ok(Parsed(|f| - 6, f[6..]))
  {
    var f := Frame(c, id, data);
    var compressed := c.compress(data);
    assert f[2..] == EncodeU32(|compressed|) + compressed;
    U32RoundTrip(|compressed|, compressed);
  }

  /** The result of one ReadPacket call and the bytes it left unread. */
  datatype Received = Received(result: Result<Option<Packet>>, rest: seq<byte>)

  /** The canonical id of the frame at the front of `input`. */
  function InboundId(input: seq<byte>): u16
    requires 2 <= |input|
  {
    ConvertInput(ReadU16(input).value.value)
  }

  /** ReadPacket. A short read of a fixed-width field consumes what is left.
      A packet this version does not implement yields no packet and no error,
      and its length and payload stay unread. A negative length (a panic in
      Go's `make`) is reported as NegativeLength. A payload shorter than
      declared is an error: IoError when nothing at all is left, otherwise
      LengthMismatch. */
  function ReadPacket(c: Compression, input: seq<byte>): (r: Received)
    ensures |input| < 2 ==> r == Received(Err(IoError), [])
    ensures r.result == Ok(None) <==> 2 <= |input| && InboundId(input) !in SupportedPackets
    ensures r.result == Ok(None) ==> r.rest == input[2..]
    ensures r.result.Ok? && r.result.value.Some? ==>
              2 <= |input| && r.result.value.value.id == InboundId(input)
              && r.result.value.value.id in SupportedPackets
    ensures 6 <= |input| && InboundId(input) in SupportedPackets
            && 0 <= ReadI32(input[2..]).value.value && |input| - 6 < ReadI32(input[2..]).value.value
            ==> r.result.Err?
    ensures 2 <= |input| < 6 && InboundId(input) in SupportedPackets ==> r == Received(Err(IoError), [])
    ensures r.result.Ok? && r.result.value.Some? ==>
              AllocatedLength(input).Some? && 0 <= AllocatedLength(input).value <= |input| - 6
  {
    match ReadU16(input)
    case Err(e) => Received(Err(e), [])
    case Ok(wire) =>
      var id := ConvertInput(wire.value);
      if id !in SupportedPackets then Received(Ok(None), wire.rest)
      else
        match ReadI32(wire.rest)
        case Err(e) => Received(Err(e), [])
        case Ok(length) =>
          var available := |length.rest|;
          if length.value < 0 then Received(Err(NegativeLength(length.value)), length.rest)
          else if available < length.value then
            Received(Err(if available == 0 then IoError else LengthMismatch(length.value, available)), [])
          else
            var compressed := length.rest[..length.value];
            var rest := length.rest[length.value..];
            match c.decompress(compressed)
            case None => Received(Err(CorruptData), rest)
            case Some(data) => Received(PacketOf(id, data), rest)
  }

  /** A complete payload of a supported packet, once decompressed to `data`:
      the packet with its decoded payload, or the decoder's error. */
  function PacketOf(id: u16, data: seq<byte>): (r: Result<Option<Packet>>)
    ensures r.Ok? <==> ReadPacketType(id, data).Ok?
    ensures r.Ok? ==> r.value == Some(Packet(id, ReadPacketType(id, data).value))
    ensures r.Err? ==> r.error == ReadPacketType(id, data).error
  {
    match ReadPacketType(id, data)
    case Err(e) => Err(e)
    case Ok(payload) => Ok(Some(Packet(id, payload)))
  }

  /** The length that ReadPacket as written hands to `make([]byte, length)`,
      when it gets that far: a supported packet whose id and length field
      could be read. Go's `make` panics when that length is negative. */
  function AllocatedLength(input: seq<byte>): (r: Option<int>)
    ensures r.Some? <==> 6 <= |input| && InboundId(input) in SupportedPackets
    ensures r.Some? ==> r.value == ReadI32(input[2..]).value.value
  {
    match ReadU16(input)
    case Err(_) => None
    case Ok(wire) =>
      if ConvertInput(wire.value) !in SupportedPackets then None
      else
        match ReadI32(wire.rest)
        case Err(_) => None
        case Ok(length) => Some(length.value)
  }

  /** A status-update header that declares the length -1 reaches `make` with
      a negative length. */
  lemma NegativeLengthReachesMake()
    ensures AllocatedLength([0x00, 0x00, 0xFF, 0xFF, 0xFF, 0xFF]) == Some(-1)
  {
    assert ConvertInput(0) == OsuSendUserStatus == SupportedPackets[0];
  }

  /** ReadPacket reports a negative length as an error and leaves the payload
      unread, instead of panicking. */
  lemma NegativeLengthRejected(c: Compression, input: seq<byte>)
    requires AllocatedLength(input).Some? && AllocatedLength(input).value < 0
    ensures ReadPacket(c, input) == Received(Err(NegativeLength(AllocatedLength(input).value)), input[6..])
  {
  }

  /** A supported packet whose declared length n is non-negative and fully
      present: ReadPacket consumes exactly the n payload bytes, reports
      CorruptData when they do not decompress, and otherwise yields what the
      decoder makes of the decompressed payload. */
  lemma ReadPacketPayload(c: Compression, input: seq<byte>)
    requires AllocatedLength(input).Some? && 0 <= AllocatedLength(input).value <= |input| - 6
    ensures var n := AllocatedLength(input).value;
            ReadPacket(c, input).rest == input[6 + n..]
    ensures var n := AllocatedLength(input).value;
            c.decompress(input[6..6 + n]).None? ==> ReadPacket(c, input).result == Err(CorruptData)
    ensures var n := AllocatedLength(input).value;
            c.decompress(input[6..6 + n]).Some? ==>
              ReadPacket(c, input).result == PacketOf(InboundId(input), c.decompress(input[6..6 + n]).value)
  {
    var n := AllocatedLength(input).value;
    assert input[2..][4..] == input[6..];
    assert input[6..][..n] == input[6..6 + n];
    assert input[6..][n..] == input[6 + n..];
  }

  /** ReadPacket undoes WritePacket for every packet this version implements:
      the id comes back through the remapping, the length field delimits the
      payload exactly, and the payload is decoded as readPacketType decodes it.
      This rests on compression being invertible and on the compressed payload
      fitting the int32 that ReadPacket reads the length as. */
  lemma ReadPacketInvertsFrame(c: Compression, id: u16, data: seq<byte>, rest: seq<byte>)
    requires Inverse(c)
    requires id in SupportedPackets
    requires |c.compress(data)| < 0x8000_0000
    ensures ReadPacket(c, Frame(c, id, data) + rest) == Received(PacketOf(id, data), rest)
  {
    var compressed := c.compress(data);
    var input := Frame(c, id, data) + rest;
    assert input == EncodeU16(ConvertOutput(id)) + (EncodeI32(|compressed|) + (compressed + rest));
    U16RoundTrip(ConvertOutput(id), EncodeI32(|compressed|) + (compressed + rest));
    InputInvertsOutput(id);
    I32RoundTrip(|compressed|, compressed + rest);
    assert (compressed + rest)[..|compressed|] == compressed;
    assert (compressed + rest)[|compressed|..] == rest;
  }
}
