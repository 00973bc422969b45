/** The payloads the adapter builds for this client version before framing:
    the status and statistics structures with their legacy quirks, the replay
    frame relay, and the small fixed-shape payloads. Each payload is the
    concatenation, in order, of the fields the Go code writes into its buffer. */
module Encoders {
  import opened Primitives
  import opened Protocol
  import Decimal

  // ------------------------------------------------------------------ status

  /** The action writeStatus sends: actions this version does not know become
      StatusUnknown, and a requested stats refresh overrides any action. */
  function WireAction(status: UserStatus): (a: byte)
    ensures status.updateStats ==> a == StatusStatsUpdate
    ensures !status.updateStats ==> a <= StatusSubmitting
    ensures !status.updateStats && status.action <= StatusSubmitting ==> a == status.action
    ensures !status.updateStats && status.action > StatusSubmitting ==> a == StatusUnknown
  {
    var known := if status.action > StatusSubmitting then StatusUnknown else status.action;
    if status.updateStats then StatusStatsUpdate else known
  }

  /** writeStatus: action, text, beatmap checksum, 32-bit mods. */
  function StatusBytes(status: UserStatus): (b: seq<byte>)
    ensures 7 <= |b| && b[0] == WireAction(status)
    ensures b[|b| - 4..] == EncodeU32(status.mods)
  {
    EncodeU8(WireAction(status))
      + EncodeString(status.text)
      + EncodeString(status.beatmapChecksum)
      + EncodeU32(status.mods)
  }

  // --------------------------------------------------------------- statistics

  /** `uint8(Timezone + 24)`: the offset shifted into 0..48 and truncated to a
      byte. The byte is the same whatever the Go width of the field. */
  function TimezoneByte(timezone: i32): (b: byte)
    ensures -24 <= timezone <= 24 ==> b == timezone + 24 && b <= 48
  {
    (timezone + 24) % 0x100
  }

  /** The scores part of writeStats: ranked score, accuracy, play count,
      total score, rank. */
  function ScoresBytes(stats: UserStats): (b: seq<byte>)
    ensures |b| == 32
  {
    EncodeU64(stats.rankedScore)
      + EncodeU64(stats.accuracy)
      + EncodeI32(stats.playcount)
      + EncodeU64(stats.totalScore)
      + EncodeI32(stats.rank)
  }

  /** writeStats: this version has no presence packet, so the presence fields
      (timezone and city) follow the statistics and the status. The user id is
      sent twice, the second time as decimal text. */
  function StatsBytes(info: UserInfo): (b: seq<byte>)
    ensures 4 <= |b| && b[..4] == EncodeI32(info.id)
    ensures var city := EncodeString(info.presence.city);
            |city| + 1 < |b| && b[|b| - |city|..] == city
            && b[|b| - |city| - 1] == TimezoneByte(info.presence.timezone)
  {
    EncodeI32(info.id)
      + EncodeString(info.name)
      + ScoresBytes(info.stats)
      + EncodeString(Decimal.Format(info.id))
      + StatusBytes(info.status)
      + EncodeU8(TimezoneByte(info.presence.timezone))
      + EncodeString(info.presence.city)
  }

  // ------------------------------------------------------------ replay frames

  /** Either left button, primary or secondary, is held. */
  predicate LeftHeld(buttons: bv8) {
    ButtonStateLeft1 & buttons > 0 || ButtonStateLeft2 & buttons > 0
  }

  /** Either right button, primary or secondary, is held. */
  predicate RightHeld(buttons: bv8) {
    ButtonStateRight1 & buttons > 0 || ButtonStateRight2 & buttons > 0
  }

  /** One frame of WriteSpectateFrames: the buttons as two flags, the mouse
      position and the time. */
  function FrameBytes(frame: ReplayFrame): (b: seq<byte>)
    ensures |b| == 14
  {
    EncodeBool(LeftHeld(frame.buttonState))
      + EncodeBool(RightHeld(frame.buttonState))
      + EncodeU32(frame.mouseX)
      + EncodeU32(frame.mouseY)
      + EncodeI32(frame.time)
  }

  function FramesBytes(frames: seq<ReplayFrame>): (b: seq<byte>)
    ensures |b| == 14 * |frames|
  {
    if |frames| == 0 then [] else FrameBytes(frames[0]) + FramesBytes(frames[1..])
  }

  /** WriteSpectateFrames: the frame count truncated to 16 bits (Go's
      `uint16(len(...))`), the frames, the bundle action. */
  function SpectateFramesBytes(bundle: ReplayFrameBundle): (b: seq<byte>)
    ensures |b| == 3 + 14 * |bundle.frames|
  {
    EncodeU16(|bundle.frames| % 0x1_0000)
      + FramesBytes(bundle.frames)
      + EncodeU8(bundle.action)
  }

  // -------------------------------------------------------- other payloads

  /** WriteMessage: sender then content; the target is not sent. */
  function MessageBytes(message: Message): (b: seq<byte>)
    ensures |b| == |EncodeString(message.sender)| + |EncodeString(message.content)|
    ensures b[..|EncodeString(message.sender)|] == EncodeString(message.sender)
  {
    EncodeString(message.sender) + EncodeString(message.content)
  }

  /** ">>>>", the separator of the IRC rename notice. */
  const RenameSeparator: Str := [0x3E, 0x3E, 0x3E, 0x3E]

  /** WriteIrcChangeUsername: the single string `old>>>>new`. */
  function RenameBytes(oldName: Str, newName: Str): (b: seq<byte>)
    ensures |oldName| + 4 + |newName| < |b| && b[0] == 0x0B
  {
    EncodeString(oldName + RenameSeparator + newName)
  }
}
