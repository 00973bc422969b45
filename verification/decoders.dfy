/** Decoders for the payloads this client version sends: its status update,
    chat message, spectate request, replay frames and error report.

    In the Go code readStatus and readReplayFrame keep reading after a failed
    field and report only the first failure. Their reader is a local buffer
    over the decompressed payload and ReadPacket discards the value whenever an
    error comes back, so what a caller can observe is exactly the first error;
    the decoders here stop at that first failure. */
module Decoders {
  import opened Outcomes
  import opened Primitives
  import opened Protocol

  /** readStatus: an action byte and, unless that action is StatusUnknown, the
      status text, the beatmap checksum and 16-bit mods. */
  function ReadStatus(data: seq<byte>): (r: Result<Parsed<UserStatus>>)
    ensures r.Ok? ==> !r.value.value.updateStats && r.value.value.mods < 0x1_0000
    ensures r.Ok? <==> 1 <= |data| && (data[0] == StatusUnknown || ReadStatusFields(data[1..]).Ok?)
    ensures 1 <= |data| && data[0] == StatusUnknown ==>
              r == Ok(Parsed(UserStatus(StatusUnknown, [], [], 0, false), data[1..]))
  {
    var action :- ReadU8(data);
    if action.value == StatusUnknown then
      Ok(Parsed(UserStatus(StatusUnknown, [], [], 0, false), action.rest))
    else
      var fields :- ReadStatusFields(action.rest);
      var (text, checksum, mods) := fields.value;
      Ok(Parsed(UserStatus(action.value, text, checksum, mods, false), fields.rest))
  }

  /** The fields of a status that follow an action other than StatusUnknown. */
  function ReadStatusFields(data: seq<byte>): (r: Result<Parsed<(Str, Str, u16)>>)
    ensures r.Ok? ==> |r.value.rest| + 4 <= |data|
  {
    var text :- ReadString(data);
    var checksum :- ReadString(text.rest);
    var mods :- ReadU16(checksum.rest);
    Ok(Parsed((text.value, checksum.value, mods.value), mods.rest))
  }

  /** readMessage: only the content is on the wire; the message is always
      addressed to #osu and its sender is left empty. */
  function ReadMessage(data: seq<byte>): (r: Result<Parsed<Message>>)
    ensures r.Ok? <==> ReadString(data).Ok?
    ensures r.Ok? ==> r.value.value.target == OsuChannel && r.value.value.sender == []
    ensures r.Ok? ==> r.value.value.content == ReadString(data).value.value
  {
    var content :- ReadString(data);
    Ok(Parsed(Message([], content.value, OsuChannel), content.rest))
  }

  /** The button state rebuilt from the two flags on the wire. */
  function ButtonsFromFlags(left: bool, right: bool): (b: bv8)
    ensures b & ButtonStateLeft1 != 0 <==> left
    ensures b & ButtonStateRight1 != 0 <==> right
    ensures PrimaryOnly(b)
  {
    (if left then ButtonStateLeft1 else 0) | (if right then ButtonStateRight1 else 0)
  }

  predicate PrimaryOnly(b: bv8) {
    b & !(ButtonStateLeft1 | ButtonStateRight1) == 0
  }

  /** A frame as this version decodes it: no secondary buttons, no legacy byte. */
  predicate Rebuilt(f: ReplayFrame) {
    f.legacyByte == 0 && PrimaryOnly(f.buttonState)
  }

  /** readReplayFrame: left flag, right flag, mouse X, mouse Y, time. */
  function ReadReplayFrame(data: seq<byte>): (r: Result<Parsed<ReplayFrame>>)
    ensures r.Ok? <==> 14 <= |data|
    ensures r.Ok? ==> r.value.rest == data[14..] && Rebuilt(r.value.value)
  {
    var left :- ReadBool(data);
    var right :- ReadBool(left.rest);
    var x :- ReadU32(right.rest);
    var y :- ReadU32(x.rest);
    var time :- ReadI32(y.rest);
    Ok(Parsed(ReplayFrame(ButtonsFromFlags(left.value, right.value), 0, x.value, y.value, time.value), time.rest))
  }

  /** Every frame of a run was rebuilt from the two wire flags. */
  predicate AllRebuilt(frames: seq<ReplayFrame>) {
    forall i :: 0 <= i < |frames| ==> Rebuilt(frames[i])
  }

  lemma PrependRebuilt(frame: ReplayFrame, frames: seq<ReplayFrame>)
    requires Rebuilt(frame) && AllRebuilt(frames)
    ensures AllRebuilt([frame] + frames)
  {
    var all := [frame] + frames;
    forall i | 0 <= i < |all|
      ensures Rebuilt(all[i])
    {
      if i > 0 {
        assert all[i] == frames[i - 1];
      }
    }
  }

  lemma DropTwice(s: seq<byte>, a: nat, b: nat)
    requires a + b <= |s|
    ensures s[a..][b..] == s[a + b..]
  {
  }

  /** The loop of readFrameBundle: `count` frames one after another. */
  function ReadFrames(data: seq<byte>, count: nat): (r: Result<Parsed<seq<ReplayFrame>>>)
    ensures r.Ok? <==> 14 * count <= |data|
    ensures r.Ok? ==> |r.value.value| == count && r.value.rest == data[14 * count..]
    ensures r.Ok? ==> AllRebuilt(r.value.value)
    decreases count
  {
    if count == 0 then Ok(Parsed([], data))
    else
      var frame :- ReadReplayFrame(data);
      var frames :- ReadFrames(frame.rest, count - 1);
      DropTwice(data, 14, 14 * (count - 1));
      PrependRebuilt(frame.value, frames.value);
      Ok(Parsed([frame.value] + frames.value, frames.rest))
  }

  /** The frame count a bundle announces in its first two bytes. */
  function FrameCount(data: seq<byte>): nat
    requires 2 <= |data|
  {
    data[0] as int + 0x100 * data[1] as int
  }

  /** One turn of the frame loop: a frame, then the remaining `count`. */
  lemma ReadFramesStep(data: seq<byte>, count: nat, frame: ReplayFrame, mid: seq<byte>,
                       frames: seq<ReplayFrame>, rest: seq<byte>)
    requires ReadReplayFrame(data) == Ok(Parsed(frame, mid))
    requires ReadFrames(mid, count) == Ok(Parsed(frames, rest))
    ensures ReadFrames(data, count + 1) == Ok(Parsed([frame] + frames, rest))
  {
  }

  /** readFrameBundle: a 16-bit frame count, the frames, the bundle action.
      It succeeds exactly when the count, that many 14-byte frames and the
      action byte are all present. */
  function ReadFrameBundle(data: seq<byte>): (r: Result<Parsed<ReplayFrameBundle>>)
    ensures r.Ok? <==> 2 <= |data| && 3 + 14 * FrameCount(data) <= |data|
    ensures r.Ok? ==> |r.value.value.frames| == FrameCount(data) && AllRebuilt(r.value.value.frames)
    ensures r.Ok? ==> r.value.value.action == data[2 + 14 * FrameCount(data)]
    ensures r.Ok? ==> r.value.rest == data[3 + 14 * FrameCount(data)..]
  {
    var count :- ReadU16(data);
    var frames :- ReadFrames(count.rest, count.value);
    var action :- ReadU8(frames.rest);
    Ok(Parsed(ReplayFrameBundle(frames.value, action.value), action.rest))
  }

  /** The canonical packets whose payload this version decodes. */
  predicate Decoded(id: u16) {
    id in {OsuSendUserStatus, OsuSendIrcMessage, OsuStartSpectating, OsuSpectateFrames, OsuErrorReport}
  }

  /** readPacketType: dispatch on the canonical identifier; bytes after the
      decoded structure are ignored, and any other packet carries no payload. */
  function ReadPacketType(id: u16, data: seq<byte>): (r: Result<Payload>)
    ensures !Decoded(id) ==> r == Ok(NoPayload)
    ensures r.Ok? && Decoded(id) ==> !r.value.NoPayload?
    ensures id == OsuStartSpectating ==> (r.Ok? <==> 4 <= |data|)
    ensures id == OsuSendUserStatus ==> (r.Ok? <==> ReadStatus(data).Ok?)
    ensures id == OsuSendUserStatus && r.Ok? ==> r.value == StatusData(ReadStatus(data).value.value)
    ensures id == OsuSendIrcMessage ==> (r.Ok? <==> ReadMessage(data).Ok?)
    ensures id == OsuSendIrcMessage && r.Ok? ==> r.value == MessageData(ReadMessage(data).value.value)
    ensures id == OsuSpectateFrames ==> (r.Ok? <==> ReadFrameBundle(data).Ok?)
    ensures id == OsuSpectateFrames && r.Ok? ==> r.value == FramesData(ReadFrameBundle(data).value.value)
    ensures id == OsuErrorReport ==> (r.Ok? <==> ReadString(data).Ok?)
    ensures id == OsuErrorReport && r.Ok? ==> r.value == TextData(ReadString(data).value.value)
  {
    if id == OsuSendUserStatus then
      var status :- ReadStatus(data);
      Ok(StatusData(status.value))
    else if id == OsuSendIrcMessage then
      var message :- ReadMessage(data);
      Ok(MessageData(message.value))
    else if id == OsuStartSpectating then
      var userId :- ReadU32(data);
      Ok(UserIdData(userId.value))
    else if id == OsuSpectateFrames then
      var bundle :- ReadFrameBundle(data);
      Ok(FramesData(bundle.value))
    else if id == OsuErrorReport then
      var text :- ReadString(data);
      Ok(TextData(text.value))
    else Ok(NoPayload)
  }
}
