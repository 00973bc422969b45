/** The inbound direction end to end. The b291 game client's own encoders
    are not part of the adapter; the reference encoders here give the bytes
    the client sends for its status, chat message, spectate request, replay
    frames and error report, and the lemmas show that ReadPacket recovers exactly the canonical
    packet those bytes stand for. */
module Inbound {
  import opened Outcomes
  import opened Primitives
  import opened Protocol
  import opened PacketIds
  import opened Transport
  import opened Decoders
  import opened Framing
  import opened Encoders
  import opened Relay

  /** A status as the client sends it: the action alone when it is
      StatusUnknown, otherwise followed by text, checksum and 16-bit mods. */
  function ClientStatusBytes(action: byte, text: Str, checksum: Str, mods: u16): seq<byte> {
    if action == StatusUnknown then EncodeU8(action)
    else EncodeU8(action) + EncodeString(text) + EncodeString(checksum) + EncodeU16(mods)
  }

  /** The status the server sees: an unknown action drops the other fields,
      and the 16-bit mods widen to 32 bits unchanged. */
  function ServerStatus(action: byte, text: Str, checksum: Str, mods: u16): UserStatus {
    if action == StatusUnknown then UserStatus(StatusUnknown, [], [], 0, false)
    else UserStatus(action, text, checksum, mods, false)
  }

  lemma ReadStatusFieldsInverts(text: Str, checksum: Str, mods: u16, rest: seq<byte>)
    ensures ReadStatusFields(EncodeString(text) + (EncodeString(checksum) + (EncodeU16(mods) + rest)))
         == Ok(Parsed((text, checksum, mods), rest))
  {
    StringRoundTrip(text, EncodeString(checksum) + (EncodeU16(mods) + rest));
    StringRoundTrip(checksum, EncodeU16(mods) + rest);
    U16RoundTrip(mods, rest);
  }

  lemma ReadStatusKnown(action: byte, fields: seq<byte>, parsed: (Str, Str, u16), rest: seq<byte>)
    requires action != StatusUnknown
    requires ReadStatusFields(fields) == Ok(Parsed(parsed, rest))
    ensures ReadStatus(EncodeU8(action) + fields)
         == Ok(Parsed(UserStatus(action, parsed.0, parsed.1, parsed.2, false), rest))
  {
    U8RoundTrip(action, fields);
  }

  /** readStatus recovers every status the client can send. */
  lemma ReadStatusInverts(action: byte, text: Str, checksum: Str, mods: u16, rest: seq<byte>)
    ensures ReadStatus(ClientStatusBytes(action, text, checksum, mods) + rest)
         == Ok(Parsed(ServerStatus(action, text, checksum, mods), rest))
  {
    if action != StatusUnknown {
      var fields := EncodeString(text) + (EncodeString(checksum) + (EncodeU16(mods) + rest));
      Regroup4(EncodeU8(action), EncodeString(text), EncodeString(checksum), EncodeU16(mods), rest);
      ReadStatusFieldsInverts(text, checksum, mods, rest);
      ReadStatusKnown(action, fields, (text, checksum, mods), rest);
    } else {
      U8RoundTrip(action, rest);
    }
  }

  /** A chat message from the client is its content alone; the server reads
      it as a message to #osu with no sender. */
  lemma ReadMessageInverts(content: Str, rest: seq<byte>)
    ensures ReadMessage(EncodeString(content) + rest) == Ok(Parsed(Message([], content, OsuChannel), rest))
  {
    StringRoundTrip(content, rest);
  }

  /** The payloads of the inbound packets this version decodes, and the
      canonical payload each stands for. */
  datatype ClientPacket =
    | SendStatus(action: byte, text: Str, checksum: Str, mods: u16)
    | SendChat(content: Str)
    | StartSpectating(userId: u32)
    | SendFrames(bundle: ReplayFrameBundle)
    | ErrorReport(report: Str)

  /** The frame count of a bundle travels as 16 bits, so a client bundle holds
      fewer than 0x1_0000 frames. */
  predicate Sendable(p: ClientPacket) {
    p.SendFrames? ==> |p.bundle.frames| < 0x1_0000
  }

  function ClientPacketId(p: ClientPacket): u16 {
    match p
    case SendStatus(_, _, _, _) => OsuSendUserStatus
    case SendChat(_) => OsuSendIrcMessage
    case StartSpectating(_) => OsuStartSpectating
    case SendFrames(_) => OsuSpectateFrames
    case ErrorReport(_) => OsuErrorReport
  }

  function ClientPayload(p: ClientPacket): seq<byte> {
    match p
    case SendStatus(action, text, checksum, mods) => ClientStatusBytes(action, text, checksum, mods)
    case SendChat(content) => EncodeString(content)
    case StartSpectating(userId) => EncodeU32(userId)
    case SendFrames(bundle) => SpectateFramesBytes(bundle)
    case ErrorReport(report) => EncodeString(report)
  }

  function Meaning(p: ClientPacket): Payload {
    match p
    case SendStatus(action, text, checksum, mods) => StatusData(ServerStatus(action, text, checksum, mods))
    case SendChat(content) => MessageData(Message([], content, OsuChannel))
    case StartSpectating(userId) => UserIdData(userId)
    case SendFrames(bundle) => FramesData(ReplayFrameBundle(RelayedAll(bundle.frames), bundle.action))
    case ErrorReport(report) => TextData(report)
  }

  /** readPacketType decodes each client payload to its canonical meaning. */
  lemma ReadPacketTypeDecodes(p: ClientPacket)
    requires Sendable(p)
    ensures Decoded(ClientPacketId(p))
    ensures ReadPacketType(ClientPacketId(p), ClientPayload(p)) == Ok(Meaning(p))
  {
    match p
    case SendStatus(action, text, checksum, mods) =>
      assert ClientPayload(p) + [] == ClientPayload(p);
      ReadStatusInverts(action, text, checksum, mods, []);
    case SendChat(content) =>
      assert EncodeString(content) + [] == EncodeString(content);
      ReadMessageInverts(content, []);
    case StartSpectating(userId) =>
      assert EncodeU32(userId) + [] == EncodeU32(userId);
      U32RoundTrip(userId, []);
    case SendFrames(bundle) =>
      assert SpectateFramesBytes(bundle) + [] == SpectateFramesBytes(bundle);
      SpectateFramesRoundTrip(bundle, []);
    case ErrorReport(report) =>
      assert EncodeString(report) + [] == EncodeString(report);
      StringRoundTrip(report, []);
  }

  /** A framed client packet comes out of ReadPacket as the canonical packet
      it stands for, and the bytes after its frame stay unread. */
  lemma ReadPacketReceives(c: Compression, p: ClientPacket, rest: seq<byte>)
    requires Sendable(p)
    requires Inverse(c)
    requires |c.compress(ClientPayload(p))| < 0x8000_0000
    ensures ReadPacket(c, Frame(c, ClientPacketId(p), ClientPayload(p)) + rest)
         == Received(Ok(Some(Packet(ClientPacketId(p), Meaning(p)))), rest)
  {
    ReadPacketTypeDecodes(p);
    SupportedIds(ClientPacketId(p));
    ReadPacketInvertsFrame(c, ClientPacketId(p), ClientPayload(p), rest);
  }

  /** A client packet without a payload (exit, status request, pong, stop
      spectating, can't spectate) comes out with no payload, whatever bytes
      it carries. */
  lemma ReadPacketSignal(c: Compression, id: u16, data: seq<byte>, rest: seq<byte>)
    requires id in {OsuExit, OsuRequestStatusUpdate, OsuPong, OsuStopSpectating, OsuCantSpectate}
    requires Inverse(c)
    requires |c.compress(data)| < 0x8000_0000
    ensures ReadPacket(c, Frame(c, id, data) + rest) == Received(Ok(Some(Packet(id, NoPayload))), rest)
  {
    SupportedIds(id);
    assert ReadPacketType(id, data) == Ok(NoPayload);
    ReadPacketInvertsFrame(c, id, data, rest);
  }
}
