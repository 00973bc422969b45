/** Packet-identifier handling of the b291 adapter: the remapping between
    canonical and wire identifiers, and the set of canonical packets this
    client version supports. */
module PacketIds {
  import opened Primitives
  import opened Protocol

  /** The wire slot this version reserves for the IrcJoin notice. Canonical
      identifiers at or above it move up by one on the wire. */
  const ReservedSlot: u16 := 11

  /** Canonical to wire (convertOutputPacketId). */
  function ConvertOutput(id: u16): (w: u16)
    ensures id == IrcJoin <==> w == ReservedSlot
    ensures id < ReservedSlot ==> w == id
    ensures ReservedSlot <= id < IrcJoin ==> w == id + 1
  {
    if id == IrcJoin then ReservedSlot
    else if id >= ReservedSlot then id + 1
    else id
  }

  /** Wire to canonical (convertInputPacketId): the inverse of ConvertOutput. */
  function ConvertInput(w: u16): (id: u16)
    ensures ConvertOutput(id) == w
    ensures w == ReservedSlot <==> id == IrcJoin
    ensures w < ReservedSlot ==> id == w
  {
    if w == ReservedSlot then IrcJoin
    else if w > ReservedSlot then w - 1
    else w
  }

  /** ConvertInput undoes ConvertOutput on every 16-bit identifier,
      the IrcJoin sentinel included. */
  lemma InputInvertsOutput(id: u16)
    ensures ConvertInput(ConvertOutput(id)) == id
  {
  }

  /** No two canonical identifiers share a wire identifier. */
  lemma OutputInjective(a: u16, b: u16)
    requires ConvertOutput(a) == ConvertOutput(b)
    ensures a == b
  {
    InputInvertsOutput(a);
    InputInvertsOutput(b);
  }

  /** The canonical packets this version implements (the list SupportedPackets
      builds and caches; its value never changes, so it is a constant here). */
  const SupportedPackets: seq<u16> := [
    OsuSendUserStatus,
    OsuSendIrcMessage,
    OsuExit,
    OsuRequestStatusUpdate,
    OsuPong,
    BanchoLoginReply,
    BanchoCommandError,
    BanchoSendMessage,
    BanchoPing,
    BanchoHandleIrcChangeUsername,
    BanchoHandleIrcQuit,
    BanchoHandleOsuUpdate,
    BanchoHandleOsuQuit,
    BanchoSpectatorJoined,
    BanchoSpectatorLeft,
    BanchoSpectateFrames,
    OsuStartSpectating,
    OsuStopSpectating,
    OsuSpectateFrames,
    BanchoVersionUpdate,
    OsuErrorReport,
    OsuCantSpectate,
    BanchoSpectatorCantSpectate,
    BanchoGetAttention,
    BanchoAnnounce
  ]

  /** The linear search of ImplementsPacket. */
  method ImplementsPacket(id: u16) returns (found: bool)
    ensures found <==> id in SupportedPackets
  {
    var i := 0;
    while i < |SupportedPackets|
      invariant 0 <= i <= |SupportedPackets|
      invariant id !in SupportedPackets[..i]
    {
      if SupportedPackets[i] == id {
        return true;
      }
      i := i + 1;
    }
    return false;
  }

  /** The IrcJoin sentinel is sent but never accepted on input. */
  lemma IrcJoinNotSupported()
    ensures IrcJoin !in SupportedPackets
  {
  }

  /** The canonical identifiers this version implements: exactly 0 to 24. */
  lemma SupportedIds(id: u16)
    ensures id in SupportedPackets <==> id < 25
  {
    if id < 25 {
      assert SupportedPackets[id] == id;
    }
  }

  /** The wire identifiers ReadPacket accepts: 0 to 25 except the reserved slot. */
  lemma SupportedWireIds(w: u16)
    ensures ConvertInput(w) in SupportedPackets <==> w <= 25 && w != ReservedSlot
  {
    var id := ConvertInput(w);
    if w <= 25 && w != ReservedSlot {
      assert id <= 24;
      assert id == SupportedPackets[id];
    }
  }
}
