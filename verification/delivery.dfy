/** End to end: what this client version gets out of each outbound operation
    when the connection accepts the write. The client takes one frame off
    the bytes the operation appended, sees the wire identifier of this
    version's numbering, and decodes the payload back to the values the
    server passed in, or to their documented lossy form.

    Each lemma rests on the compression codec being invertible and on the
    compressed payload fitting the frame's 32-bit length field. */
module Delivery {
  import opened Outcomes
  import opened Primitives
  import opened Protocol
  import opened PacketIds
  import opened Transport
  import opened Encoders
  import opened Decoders
  import opened Framing
  import opened ClientView
  import opened Writers
  import opened Relay

  /** The frame the client reads from the bytes an operation appended. */
  function ClientGets(c: Compression, s: Sink, r: Written): Result<Parsed<(u16, seq<byte>)>>
    requires |s.sent| <= |r.sink.sent|
  {
    ReadFrame(c, r.sink.sent[|s.sent|..])
  }

  /** The payload fits the frame once compressed. */
  predicate Fits(c: Compression, data: seq<byte>) {
    |c.compress(data)| < 0x1_0000_0000
  }

  /** An accepted write of a frame returns nil and delivers exactly that frame. */
  lemma Delivered(c: Compression, s: Sink, r: Written, id: u16, data: seq<byte>)
    requires Inverse(c) && Fits(c, data) && s.accepts(s.calls)
    requires Transmits(s, r, Frame(c, id, data))
    ensures r.outcome == Pass
    ensures ClientGets(c, s, r) == Ok(Parsed((ConvertOutput(id), data), []))
  {
    assert r.sink.sent[|s.sent|..] == Frame(c, id, data) + [];
    FrameDelivered(c, id, data, []);
  }

  /** A rejected write returns the connection's error and appends nothing,
      whatever the operation; an operation that sends nothing returns nil. */
  lemma RejectedWriteAppendsNothing(c: Compression, s: Sink, op: Operation)
    requires !s.accepts(s.calls)
    ensures var r := Perform(c, s, op);
            && r.sink.sent == s.sent
            && (EmittedId(op).Some? <==> r.outcome == Fail(IoError))
  {
    PerformFollowsTable(c, s, op);
  }

  lemma LoginReplyDelivered(c: Compression, s: Sink, reply: i32)
    requires Inverse(c) && Fits(c, EncodeI32(reply)) && s.accepts(s.calls)
    ensures var got := ClientGets(c, s, WriteLoginReply(c, s, reply));
            && got.Ok? && got.value.rest == [] && got.value.value.0 == 5
            && ReadI32(got.value.value.1) == Ok(Parsed(reply, []))
  {
    Delivered(c, s, WriteLoginReply(c, s, reply), BanchoLoginReply, EncodeI32(reply));
    assert EncodeI32(reply) + [] == EncodeI32(reply);
    I32RoundTrip(reply, []);
  }

  /** A #osu message arrives with its sender and content. */
  lemma MessageDelivered(c: Compression, s: Sink, message: Message)
    requires message.target == OsuChannel
    requires Inverse(c) && Fits(c, MessageBytes(message)) && s.accepts(s.calls)
    ensures var got := ClientGets(c, s, WriteMessage(c, s, message));
            && got.Ok? && got.value.rest == [] && got.value.value.0 == 7
            && ReadMessageLayout(got.value.value.1) == Ok(Parsed((message.sender, message.content), []))
  {
    Delivered(c, s, WriteMessage(c, s, message), BanchoSendMessage, MessageBytes(message));
    assert MessageBytes(message) + [] == MessageBytes(message);
    MessageRoundTrip(message, []);
  }

  lemma PingDelivered(c: Compression, s: Sink)
    requires Inverse(c) && Fits(c, []) && s.accepts(s.calls)
    ensures ClientGets(c, s, WritePing(c, s)) == Ok(Parsed((8, []), []))
  {
    Delivered(c, s, WritePing(c, s), BanchoPing, []);
  }

  /** A rename notice arrives on wire slot 9 as the one string `old>>>>new`,
      from which both names can be recovered as long as the old name holds
      no '>'. */
  lemma RenameDelivered(c: Compression, s: Sink, oldName: Str, newName: Str)
    requires Inverse(c) && Fits(c, RenameBytes(oldName, newName)) && s.accepts(s.calls)
    ensures var got := ClientGets(c, s, WriteIrcChangeUsername(c, s, oldName, newName));
            && got.Ok? && got.value.rest == [] && got.value.value.0 == 9
            && ReadString(got.value.value.1) == Ok(Parsed(oldName + RenameSeparator + newName, []))
    ensures var got := ClientGets(c, s, WriteIrcChangeUsername(c, s, oldName, newName));
            (forall i :: 0 <= i < |oldName| ==> oldName[i] != RenameSeparator[0]) ==>
              SplitRename(ReadString(got.value.value.1).value.value) == Some((oldName, newName))
  {
    Delivered(c, s, WriteIrcChangeUsername(c, s, oldName, newName), BanchoHandleIrcChangeUsername,
              RenameBytes(oldName, newName));
    assert RenameBytes(oldName, newName) + [] == RenameBytes(oldName, newName);
    RenameRoundTrip(oldName, newName, []);
  }

  /** A game-client user's statistics arrive on wire slot 12 and read back as
      the expected view; an IRC user arrives on the reserved slot 11 by name. */
  lemma UserStatsDelivered(c: Compression, s: Sink, info: UserInfo)
    requires Inverse(c) && Fits(c, StatsNotice(info).1) && s.accepts(s.calls)
    ensures var got := ClientGets(c, s, WriteUserStats(c, s, info));
            && got.Ok? && got.value.rest == []
            && (!info.presence.isIrc ==>
                  got.value.value.0 == 12
                  && ReadStatsLayout(got.value.value.1) == Ok(Parsed(ExpectedStats(info), [])))
            && (info.presence.isIrc ==>
                  got.value.value.0 == 11
                  && ReadString(got.value.value.1) == Ok(Parsed(info.name, [])))
  {
    var (id, data) := StatsNotice(info);
    Delivered(c, s, WriteUserStats(c, s, info), id, data);
    assert data + [] == data;
    if info.presence.isIrc {
      StringRoundTrip(info.name, []);
    } else {
      StatsRoundTrip(info, []);
    }
  }

  /** The quit notices: an IRC quit by name on wire slot 10, or an osu! quit
      with the full statistics on wire slot 13, following the quit table. */
  lemma UserQuitDelivered(c: Compression, s: Sink, quit: UserQuit)
    requires EmittedId(Operation.Quit(quit)).Some?
    requires Inverse(c) && s.accepts(s.calls)
    requires EmittedId(Operation.Quit(quit)) == Some(BanchoHandleIrcQuit) ==> Fits(c, EncodeString(quit.info.name))
    requires EmittedId(Operation.Quit(quit)) == Some(BanchoHandleOsuQuit) ==> Fits(c, StatsBytes(quit.info))
    ensures var got := ClientGets(c, s, WriteUserQuit(c, s, quit));
            && got.Ok? && got.value.rest == []
            && (EmittedId(Operation.Quit(quit)) == Some(BanchoHandleIrcQuit) ==>
                  got.value.value.0 == 10
                  && ReadString(got.value.value.1) == Ok(Parsed(quit.info.name, [])))
            && (EmittedId(Operation.Quit(quit)) == Some(BanchoHandleOsuQuit) ==>
                  got.value.value.0 == 13
                  && ReadStatsLayout(got.value.value.1) == Ok(Parsed(ExpectedStats(quit.info), [])))
  {
    var r := WriteUserQuit(c, s, quit);
    if quit.info.presence.isIrc && quit.state != QuitStateIrcRemaining {
      Delivered(c, s, r, BanchoHandleIrcQuit, EncodeString(quit.info.name));
      assert EncodeString(quit.info.name) + [] == EncodeString(quit.info.name);
      StringRoundTrip(quit.info.name, []);
    } else {
      Delivered(c, s, r, BanchoHandleOsuQuit, StatsBytes(quit.info));
      assert StatsBytes(quit.info) + [] == StatsBytes(quit.info);
      StatsRoundTrip(quit.info, []);
    }
  }

  /** The three spectator notices carry the user id on wire slots 14, 15
      and 23. */
  lemma SpectatorNoticesDelivered(c: Compression, s: Sink, userId: i32)
    requires Inverse(c) && Fits(c, EncodeI32(userId)) && s.accepts(s.calls)
    ensures ClientGets(c, s, WriteSpectatorJoined(c, s, userId)) == Ok(Parsed((14, EncodeI32(userId)), []))
    ensures ClientGets(c, s, WriteSpectatorLeft(c, s, userId)) == Ok(Parsed((15, EncodeI32(userId)), []))
    ensures ClientGets(c, s, WriteSpectatorCantSpectate(c, s, userId)) == Ok(Parsed((23, EncodeI32(userId)), []))
    ensures ReadI32(EncodeI32(userId)) == Ok(Parsed(userId, []))
  {
    Delivered(c, s, WriteSpectatorJoined(c, s, userId), BanchoSpectatorJoined, EncodeI32(userId));
    Delivered(c, s, WriteSpectatorLeft(c, s, userId), BanchoSpectatorLeft, EncodeI32(userId));
    Delivered(c, s, WriteSpectatorCantSpectate(c, s, userId), BanchoSpectatorCantSpectate, EncodeI32(userId));
    assert EncodeI32(userId) + [] == EncodeI32(userId);
    I32RoundTrip(userId, []);
  }

  /** Spectated frames arrive on wire slot 16 in their relayed form. */
  lemma SpectateFramesDelivered(c: Compression, s: Sink, bundle: ReplayFrameBundle)
    requires |bundle.frames| < 0x1_0000
    requires Inverse(c) && Fits(c, SpectateFramesBytes(bundle)) && s.accepts(s.calls)
    ensures var got := ClientGets(c, s, WriteSpectateFrames(c, s, bundle));
            && got.Ok? && got.value.rest == [] && got.value.value.0 == 16
            && ReadFrameBundle(got.value.value.1)
               == Ok(Parsed(ReplayFrameBundle(RelayedAll(bundle.frames), bundle.action), []))
  {
    Delivered(c, s, WriteSpectateFrames(c, s, bundle), BanchoSpectateFrames, SpectateFramesBytes(bundle));
    assert SpectateFramesBytes(bundle) + [] == SpectateFramesBytes(bundle);
    SpectateFramesRoundTrip(bundle, []);
  }

  /** The payload-free notices: version update, attention request. */
  lemma SignalsDelivered(c: Compression, s: Sink)
    requires Inverse(c) && Fits(c, []) && s.accepts(s.calls)
    ensures ClientGets(c, s, WriteVersionUpdate(c, s)) == Ok(Parsed((20, []), []))
    ensures ClientGets(c, s, WriteGetAttention(c, s)) == Ok(Parsed((24, []), []))
  {
    Delivered(c, s, WriteVersionUpdate(c, s), BanchoVersionUpdate, []);
    Delivered(c, s, WriteGetAttention(c, s), BanchoGetAttention, []);
  }

  lemma AnnouncementDelivered(c: Compression, s: Sink, message: Str)
    requires Inverse(c) && Fits(c, EncodeString(message)) && s.accepts(s.calls)
    ensures var got := ClientGets(c, s, WriteAnnouncement(c, s, message));
            && got.Ok? && got.value.rest == [] && got.value.value.0 == 25
            && ReadString(got.value.value.1) == Ok(Parsed(message, []))
  {
    Delivered(c, s, WriteAnnouncement(c, s, message), BanchoAnnounce, EncodeString(message));
    assert EncodeString(message) + [] == EncodeString(message);
    StringRoundTrip(message, []);
  }
}
