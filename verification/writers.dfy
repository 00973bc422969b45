/** The outbound operations of the b291 adapter. Each one either makes no
    write call and returns nil, or builds one payload and hands it to
    WritePacket under one canonical identifier. */
module Writers {
  import opened Outcomes
  import opened Primitives
  import opened Protocol
  import opened PacketIds
  import opened Transport
  import opened Encoders
  import opened Framing

  function WriteLoginReply(c: Compression, s: Sink, reply: i32): (r: Written)
    ensures Transmits(s, r, Frame(c, BanchoLoginReply, EncodeI32(reply)))
  {
    WritePacket(c, s, BanchoLoginReply, EncodeI32(reply))
  }

  /** Only messages to #osu reach this version; anything else is dropped
      without error. */
  function WriteMessage(c: Compression, s: Sink, message: Message): (r: Written)
    ensures message.target == OsuChannel ==> Transmits(s, r, Frame(c, BanchoSendMessage, MessageBytes(message)))
    ensures message.target != OsuChannel ==> Silent(s, r)
  {
    if message.target != OsuChannel then Written(s, Pass)
    else WritePacket(c, s, BanchoSendMessage, MessageBytes(message))
  }

  function WritePing(c: Compression, s: Sink): (r: Written)
    ensures Transmits(s, r, Frame(c, BanchoPing, []))
  {
    WritePacket(c, s, BanchoPing, [])
  }

  function WriteIrcChangeUsername(c: Compression, s: Sink, oldName: Str, newName: Str): (r: Written)
    ensures Transmits(s, r, Frame(c, BanchoHandleIrcChangeUsername, RenameBytes(oldName, newName)))
  {
    WritePacket(c, s, BanchoHandleIrcChangeUsername, RenameBytes(oldName, newName))
  }

  /** The payload WriteUserStats sends and the identifier it sends it under:
      an IRC user is announced by name under the IrcJoin sentinel, anyone
      else by the full statistics structure. */
  function StatsNotice(info: UserInfo): (r: (u16, seq<byte>))
    ensures r.0 == IrcJoin <==> info.presence.isIrc
    ensures !info.presence.isIrc ==> r.0 == BanchoHandleOsuUpdate
    ensures info.presence.isIrc ==> ReadString(r.1) == Ok(Parsed(info.name, []))
  {
    assert EncodeString(info.name) + [] == EncodeString(info.name);
    StringRoundTrip(info.name, []);
    if info.presence.isIrc then (IrcJoin, EncodeString(info.name))
    else (BanchoHandleOsuUpdate, StatsBytes(info))
  }

  function WriteUserStats(c: Compression, s: Sink, info: UserInfo): (r: Written)
    ensures info.presence.isIrc ==> Transmits(s, r, Frame(c, IrcJoin, EncodeString(info.name)))
    ensures !info.presence.isIrc ==> Transmits(s, r, Frame(c, BanchoHandleOsuUpdate, StatsBytes(info)))
  {
    var (id, data) := StatsNotice(info);
    WritePacket(c, s, id, data)
  }

  /** WriteUserQuit. An IRC user who is not staying on IRC gets an IRC quit
      by name; otherwise a user still on the game client gets nothing, and
      anyone else an osu! quit carrying the full statistics. */
  function WriteUserQuit(c: Compression, s: Sink, quit: UserQuit): (r: Written)
    ensures quit.info.presence.isIrc && quit.state != QuitStateIrcRemaining ==>
              Transmits(s, r, Frame(c, BanchoHandleIrcQuit, EncodeString(quit.info.name)))
    ensures !quit.info.presence.isIrc && quit.state == QuitStateOsuRemaining ==> Silent(s, r)
    ensures quit.state == QuitStateIrcRemaining
            || (!quit.info.presence.isIrc && quit.state == QuitStateGone) ==>
              Transmits(s, r, Frame(c, BanchoHandleOsuQuit, StatsBytes(quit.info)))
  {
    if quit.info.presence.isIrc && quit.state != QuitStateIrcRemaining then
      WritePacket(c, s, BanchoHandleIrcQuit, EncodeString(quit.info.name))
    else if quit.state == QuitStateOsuRemaining then Written(s, Pass)
    else WritePacket(c, s, BanchoHandleOsuQuit, StatsBytes(quit.info))
  }

  function WriteSpectatorJoined(c: Compression, s: Sink, userId: i32): (r: Written)
    ensures Transmits(s, r, Frame(c, BanchoSpectatorJoined, EncodeI32(userId)))
  {
    WritePacket(c, s, BanchoSpectatorJoined, EncodeI32(userId))
  }

  function WriteSpectatorLeft(c: Compression, s: Sink, userId: i32): (r: Written)
    ensures Transmits(s, r, Frame(c, BanchoSpectatorLeft, EncodeI32(userId)))
  {
    WritePacket(c, s, BanchoSpectatorLeft, EncodeI32(userId))
  }

  function WriteSpectateFrames(c: Compression, s: Sink, bundle: ReplayFrameBundle): (r: Written)
    ensures Transmits(s, r, Frame(c, BanchoSpectateFrames, SpectateFramesBytes(bundle)))
  {
    WritePacket(c, s, BanchoSpectateFrames, SpectateFramesBytes(bundle))
  }

  function WriteVersionUpdate(c: Compression, s: Sink): (r: Written)
    ensures Transmits(s, r, Frame(c, BanchoVersionUpdate, []))
  {
    WritePacket(c, s, BanchoVersionUpdate, [])
  }

  function WriteSpectatorCantSpectate(c: Compression, s: Sink, userId: i32): (r: Written)
    ensures Transmits(s, r, Frame(c, BanchoSpectatorCantSpectate, EncodeI32(userId)))
  {
    WritePacket(c, s, BanchoSpectatorCantSpectate, EncodeI32(userId))
  }

  function WriteGetAttention(c: Compression, s: Sink): (r: Written)
    ensures Transmits(s, r, Frame(c, BanchoGetAttention, []))
  {
    WritePacket(c, s, BanchoGetAttention, [])
  }

  function WriteAnnouncement(c: Compression, s: Sink, message: Str): (r: Written)
    ensures Transmits(s, r, Frame(c, BanchoAnnounce, EncodeString(message)))
  {
    WritePacket(c, s, BanchoAnnounce, EncodeString(message))
  }

  // ------------------------------------------------------------------ presence

  /** This version has no presence packet: presence goes out as statistics. */
  function WriteUserPresence(c: Compression, s: Sink, info: UserInfo): (r: Written)
    ensures Transmits(s, r, Frame(c, StatsNotice(info).0, StatsNotice(info).1))
  {
    WriteUserStats(c, s, info)
  }

  function WriteUserPresenceSingle(c: Compression, s: Sink, info: UserInfo): (r: Written)
    ensures Transmits(s, r, Frame(c, StatsNotice(info).0, StatsNotice(info).1))
  {
    WriteUserPresence(c, s, info)
  }

  /** The frame WriteUserPresence sends for one user. */
  function PresenceFrame(c: Compression, info: UserInfo): seq<byte> {
    Frame(c, StatsNotice(info).0, StatsNotice(info).1)
  }

  /** WriteUserPresence is one write call of the user's frame. */
  lemma PresenceIsSend(c: Compression, s: Sink, info: UserInfo)
    ensures WriteUserPresence(c, s, info) == Send(s, PresenceFrame(c, info))
  {
  }

  /** The frames for a run of users, one per user, in order. */
  function PresenceFrames(c: Compression, infos: seq<UserInfo>): (frames: seq<seq<byte>>)
    ensures |frames| == |infos|
  {
    if |infos| == 0 then [] else [PresenceFrame(c, infos[0])] + PresenceFrames(c, infos[1..])
  }

  lemma {:induction false} PresenceFrameAt(c: Compression, infos: seq<UserInfo>, i: nat)
    requires i < |infos|
    ensures PresenceFrames(c, infos)[i] == PresenceFrame(c, infos[i])
    decreases i
  {
    if i > 0 {
      PresenceFrameAt(c, infos[1..], i - 1);
    }
  }

  /** The chunks, one after another. */
  function Concat(chunks: seq<seq<byte>>): seq<byte> {
    if |chunks| == 0 then [] else chunks[0] + Concat(chunks[1..])
  }

  /** One write call per chunk, in order, returning at the first error. */
  function SendEach(s: Sink, chunks: seq<seq<byte>>): (r: Written)
    ensures r.sink.accepts == s.accepts
    ensures s.calls <= r.sink.calls <= s.calls + |chunks|
    ensures r.outcome.Pass? ==> r.sink.sent == s.sent + Concat(chunks) && r.sink.calls == s.calls + |chunks|
    decreases |chunks|
  {
    if |chunks| == 0 then Written(s, Pass)
    else
      var w := Send(s, chunks[0]);
      if w.outcome.Fail? then w else SendEach(w.sink, chunks[1..])
  }

  /** The number of write calls, out of the next `n` from call number `from`,
      that the connection accepts before the first it rejects. */
  function FirstRejected(accepts: nat -> bool, from: nat, n: nat): (k: nat)
    ensures k <= n
    ensures forall call :: from <= call < from + k ==> accepts(call)
    ensures k < n ==> !accepts(from + k)
    decreases n
  {
    if n == 0 || !accepts(from) then 0
    else 1 + FirstRejected(accepts, from + 1, n - 1)
  }

  /** What SendEach leaves behind: the chunks before the first rejected call
      are on the stream, and the rejected call, if any, is the last made. */
  ghost predicate SentUpToRejection(s: Sink, chunks: seq<seq<byte>>, r: Written) {
    var k := FirstRejected(s.accepts, s.calls, |chunks|);
    && r.sink.sent == s.sent + Concat(chunks[..k])
    && r.sink.accepts == s.accepts
    && (k == |chunks| ==> r.sink.calls == s.calls + k && r.outcome == Pass)
    && (k < |chunks| ==> r.sink.calls == s.calls + k + 1 && r.outcome == Fail(IoError))
  }

  lemma ConcatFront(chunks: seq<seq<byte>>, k: nat)
    requires 0 < k <= |chunks|
    ensures Concat(chunks[..k]) == chunks[0] + Concat(chunks[1..][..k - 1])
  {
    assert chunks[..k][1..] == chunks[1..][..k - 1];
  }

  lemma {:induction false} SendEachStopsAtFirstRejection(s: Sink, chunks: seq<seq<byte>>)
    ensures SentUpToRejection(s, chunks, SendEach(s, chunks))
    decreases |chunks|
  {
    if |chunks| > 0 && s.accepts(s.calls) {
      var w := Send(s, chunks[0]);
      SendEachStopsAtFirstRejection(w.sink, chunks[1..]);
      var k := FirstRejected(s.accepts, s.calls, |chunks|);
      assert k == 1 + FirstRejected(s.accepts, s.calls + 1, |chunks| - 1);
      ConcatFront(chunks, k);
    } else if |chunks| > 0 {
      assert chunks[..0] == [];
    } else {
      assert chunks[..0] == [];
    }
  }

  /** WriteUserPresenceBundle: one WriteUserPresence per user, in order,
      returning at the first error. The users before the first rejected
      write reach the stream; the rejected write is the last call made. */
  method WriteUserPresenceBundle(c: Compression, s: Sink, infos: seq<UserInfo>) returns (r: Written)
    ensures SentUpToRejection(s, PresenceFrames(c, infos), r)
  {
    ghost var chunks := PresenceFrames(c, infos);
    SendEachStopsAtFirstRejection(s, chunks);
    var sink := s;
    var i := 0;
    while i < |infos|
      invariant 0 <= i <= |infos|
      invariant SendEach(sink, chunks[i..]) == SendEach(s, chunks)
    {
      var w := WriteUserPresence(c, sink, infos[i]);
      PresenceIsSend(c, sink, infos[i]);
      PresenceFrameAt(c, infos, i);
      assert chunks[i..][0] == chunks[i];
      assert chunks[i..][1..] == chunks[i + 1..];
      if w.outcome.Fail? {
        return w;
      }
      sink := w.sink;
      i := i + 1;
    }
    return Written(sink, Pass);
  }

  // ------------------------------------------------------------------- stubs

  /** The outbound operations this version does not support (their
      arguments, which none of them looks at, are not modelled). */
  datatype UnsupportedWrite =
    | MatchUpdate | MatchNew | MatchDisband | LobbyJoin | LobbyPart
    | MatchJoinSuccess | MatchJoinFail | FellowSpectatorJoined | FellowSpectatorLeft
    | MatchStart | MatchScoreUpdate | MatchTransferHost | MatchAllPlayersLoaded
    | MatchPlayerFailed | MatchComplete | MatchSkip | Unauthorized
    | ChannelJoinSuccess | ChannelRevoked | ChannelAvailable | ChannelAvailableAutojoin
    | BeatmapInfoReply | LoginPermissions | FriendsList | ProtocolNegotiation
    | TitleUpdate | Monitor | MatchPlayerSkipped | Restart | Invite
    | ChannelInfoComplete | MatchChangePassword | SilenceInfo | UserSilenced
    | UserDMsBlocked | TargetIsSilenced | VersionUpdateForced | SwitchServer
    | AccountRestricted | RTX | MatchAbort | SwitchTournamentServer

  /** Every unsupported operation returns nil without touching the stream. */
  function WriteUnsupported(s: Sink, op: UnsupportedWrite): (r: Written)
    ensures Silent(s, r)
  {
    Written(s, Pass)
  }

  // --------------------------------------------------------------- dispatch

  /** One call of the adapter's outbound interface (the bundle aside). */
  datatype Operation =
    | LoginReply(reply: i32)
    | SendMessage(message: Message)
    | Ping
    | IrcChangeUsername(oldName: Str, newName: Str)
    | Stats(info: UserInfo)
    | Quit(quit: UserQuit)
    | SpectatorJoined(userId: i32)
    | SpectatorLeft(userId: i32)
    | SpectateFrames(bundle: ReplayFrameBundle)
    | VersionUpdate
    | SpectatorCantSpectate(userId: i32)
    | GetAttention
    | Announcement(text: Str)
    | Presence(info: UserInfo)
    | PresenceSingle(info: UserInfo)
    | Unsupported(stub: UnsupportedWrite)

  function Perform(c: Compression, s: Sink, op: Operation): Written {
    match op
    case LoginReply(reply) => WriteLoginReply(c, s, reply)
    case SendMessage(message) => WriteMessage(c, s, message)
    case Ping => WritePing(c, s)
    case IrcChangeUsername(oldName, newName) => WriteIrcChangeUsername(c, s, oldName, newName)
    case Stats(info) => WriteUserStats(c, s, info)
    case Quit(quit) => WriteUserQuit(c, s, quit)
    case SpectatorJoined(userId) => WriteSpectatorJoined(c, s, userId)
    case SpectatorLeft(userId) => WriteSpectatorLeft(c, s, userId)
    case SpectateFrames(bundle) => WriteSpectateFrames(c, s, bundle)
    case VersionUpdate => WriteVersionUpdate(c, s)
    case SpectatorCantSpectate(userId) => WriteSpectatorCantSpectate(c, s, userId)
    case GetAttention => WriteGetAttention(c, s)
    case Announcement(text) => WriteAnnouncement(c, s, text)
    case Presence(info) => WriteUserPresence(c, s, info)
    case PresenceSingle(info) => WriteUserPresenceSingle(c, s, info)
    case Unsupported(stub) => WriteUnsupported(s, stub)
  }

  /** Which packet, if any, each operation sends: a table written from the
      protocol's point of view, independent of the writers above. */
  function EmittedId(op: Operation): Option<u16> {
    match op
    case LoginReply(_) => Some(BanchoLoginReply)
    case SendMessage(message) => if message.target == OsuChannel then Some(BanchoSendMessage) else None
    case Ping => Some(BanchoPing)
    case IrcChangeUsername(_, _) => Some(BanchoHandleIrcChangeUsername)
    case Stats(info) => Some(if info.presence.isIrc then IrcJoin else BanchoHandleOsuUpdate)
    case Quit(quit) =>
      (match quit.state
       case QuitStateGone =>
         Some(if quit.info.presence.isIrc then BanchoHandleIrcQuit else BanchoHandleOsuQuit)
       case QuitStateOsuRemaining =>
         if quit.info.presence.isIrc then Some(BanchoHandleIrcQuit) else None
       case QuitStateIrcRemaining => Some(BanchoHandleOsuQuit))
    case SpectatorJoined(_) => Some(BanchoSpectatorJoined)
    case SpectatorLeft(_) => Some(BanchoSpectatorLeft)
    case SpectateFrames(_) => Some(BanchoSpectateFrames)
    case VersionUpdate => Some(BanchoVersionUpdate)
    case SpectatorCantSpectate(_) => Some(BanchoSpectatorCantSpectate)
    case GetAttention => Some(BanchoGetAttention)
    case Announcement(_) => Some(BanchoAnnounce)
    case Presence(info) => Some(if info.presence.isIrc then IrcJoin else BanchoHandleOsuUpdate)
    case PresenceSingle(info) => Some(if info.presence.isIrc then IrcJoin else BanchoHandleOsuUpdate)
    case Unsupported(_) => None
  }

  /** One write call of one frame under `id`, whatever its payload. */
  ghost predicate Emits(c: Compression, s: Sink, r: Written, id: u16) {
    exists data :: Transmits(s, r, Frame(c, id, data))
  }

  lemma Emitted(c: Compression, s: Sink, r: Written, id: u16, data: seq<byte>)
    requires Transmits(s, r, Frame(c, id, data))
    ensures Emits(c, s, r, id)
  {
  }

  /** `r` is what the table allows for `op`: no write call and nil when the
      table names no packet, otherwise exactly one write call of one frame
      under the named packet. */
  ghost predicate FollowsTable(c: Compression, s: Sink, op: Operation, r: Written) {
    && (EmittedId(op).None? ==> Silent(s, r))
    && (EmittedId(op).Some? ==> Emits(c, s, r, EmittedId(op).value))
  }

  lemma FixedNoticesFollowTable(c: Compression, s: Sink, op: Operation)
    requires op.LoginReply? || op.Ping? || op.IrcChangeUsername? || op.VersionUpdate? || op.GetAttention?
             || op.Announcement?
    ensures FollowsTable(c, s, op, Perform(c, s, op))
  {
    var r := Perform(c, s, op);
    match op
    case LoginReply(reply) => Emitted(c, s, r, BanchoLoginReply, EncodeI32(reply));
    case Ping => Emitted(c, s, r, BanchoPing, []);
    case IrcChangeUsername(oldName, newName) =>
      Emitted(c, s, r, BanchoHandleIrcChangeUsername, RenameBytes(oldName, newName));
    case VersionUpdate => Emitted(c, s, r, BanchoVersionUpdate, []);
    case GetAttention => Emitted(c, s, r, BanchoGetAttention, []);
    case Announcement(text) => Emitted(c, s, r, BanchoAnnounce, EncodeString(text));
  }

  lemma SpectatorNoticesFollowTable(c: Compression, s: Sink, op: Operation)
    requires op.SpectatorJoined? || op.SpectatorLeft? || op.SpectateFrames? || op.SpectatorCantSpectate?
    ensures FollowsTable(c, s, op, Perform(c, s, op))
  {
    var r := Perform(c, s, op);
    match op
    case SpectatorJoined(userId) => Emitted(c, s, r, BanchoSpectatorJoined, EncodeI32(userId));
    case SpectatorLeft(userId) => Emitted(c, s, r, BanchoSpectatorLeft, EncodeI32(userId));
    case SpectateFrames(bundle) => Emitted(c, s, r, BanchoSpectateFrames, SpectateFramesBytes(bundle));
    case SpectatorCantSpectate(userId) => Emitted(c, s, r, BanchoSpectatorCantSpectate, EncodeI32(userId));
  }

  lemma UserNoticesFollowTable(c: Compression, s: Sink, op: Operation)
    requires op.Stats? || op.Presence? || op.PresenceSingle?
    ensures FollowsTable(c, s, op, Perform(c, s, op))
  {
    var r := Perform(c, s, op);
    Emitted(c, s, r, StatsNotice(op.info).0, StatsNotice(op.info).1);
  }

  lemma QuitFollowsTable(c: Compression, s: Sink, quit: UserQuit)
    ensures FollowsTable(c, s, Quit(quit), Perform(c, s, Quit(quit)))
  {
    var r := Perform(c, s, Quit(quit));
    if quit.info.presence.isIrc && quit.state != QuitStateIrcRemaining {
      Emitted(c, s, r, BanchoHandleIrcQuit, EncodeString(quit.info.name));
    } else if quit.state != QuitStateOsuRemaining {
      Emitted(c, s, r, BanchoHandleOsuQuit, StatsBytes(quit.info));
    }
  }

  lemma MessageFollowsTable(c: Compression, s: Sink, message: Message)
    ensures FollowsTable(c, s, SendMessage(message), Perform(c, s, SendMessage(message)))
  {
    if message.target == OsuChannel {
      Emitted(c, s, Perform(c, s, SendMessage(message)), BanchoSendMessage, MessageBytes(message));
    }
  }

  /** Every operation behaves as the table says. */
  lemma PerformFollowsTable(c: Compression, s: Sink, op: Operation)
    ensures FollowsTable(c, s, op, Perform(c, s, op))
  {
    match op
    case SendMessage(message) => MessageFollowsTable(c, s, message);
    case Quit(quit) => QuitFollowsTable(c, s, quit);
    case Stats(_) => UserNoticesFollowTable(c, s, op);
    case Presence(_) => UserNoticesFollowTable(c, s, op);
    case PresenceSingle(_) => UserNoticesFollowTable(c, s, op);
    case SpectatorJoined(_) => SpectatorNoticesFollowTable(c, s, op);
    case SpectatorLeft(_) => SpectatorNoticesFollowTable(c, s, op);
    case SpectateFrames(_) => SpectatorNoticesFollowTable(c, s, op);
    case SpectatorCantSpectate(_) => SpectatorNoticesFollowTable(c, s, op);
    case Unsupported(_) =>
    case _ => FixedNoticesFollowTable(c, s, op);
  }

  /** Every packet the adapter sends is one this version implements, except
      the IrcJoin notice, which is sent but absent from SupportedPackets; it
      still lands on a wire slot no other packet uses. */
  lemma EmittedIdsSupported(op: Operation)
    requires EmittedId(op).Some?
    ensures EmittedId(op).value in SupportedPackets || EmittedId(op).value == IrcJoin
    ensures EmittedId(op).value == IrcJoin <==> ConvertOutput(EmittedId(op).value) == ReservedSlot
  {
  }
}
