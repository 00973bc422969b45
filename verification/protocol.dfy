/** The canonical, version-independent protocol model the adapter translates
    from and to: packet identifiers, status and button constants, and the
    structures a packet carries.

    These definitions live outside b291.go in the repository; their numeric
    values here are the canonical bancho numbering, which the ordered list of
    supported packets in b291.go (lines 111-137, ids 0 to 24 in order)
    corroborates. Several results depend on these exact values: that the
    supported identifiers are exactly 0 to 24 (PacketIds.SupportedIds), the
    wire identifiers of the supported packets (PacketIds.SupportedWireIds),
    the wire slot each notice arrives on (the Delivery lemmas), and the
    status order StatusUnknown <= StatusSubmitting < StatusStatsUpdate. */
module Protocol {
  import opened Primitives

  // ------------------------------------------------------ packet identifiers

  const OsuSendUserStatus: u16 := 0
  const OsuSendIrcMessage: u16 := 1
  const OsuExit: u16 := 2
  const OsuRequestStatusUpdate: u16 := 3
  const OsuPong: u16 := 4
  const BanchoLoginReply: u16 := 5
  const BanchoCommandError: u16 := 6
  const BanchoSendMessage: u16 := 7
  const BanchoPing: u16 := 8
  const BanchoHandleIrcChangeUsername: u16 := 9
  const BanchoHandleIrcQuit: u16 := 10
  const BanchoHandleOsuUpdate: u16 := 11
  const BanchoHandleOsuQuit: u16 := 12
  const BanchoSpectatorJoined: u16 := 13
  const BanchoSpectatorLeft: u16 := 14
  const BanchoSpectateFrames: u16 := 15
  const OsuStartSpectating: u16 := 16
  const OsuStopSpectating: u16 := 17
  const OsuSpectateFrames: u16 := 18
  const BanchoVersionUpdate: u16 := 19
  const OsuErrorReport: u16 := 20
  const OsuCantSpectate: u16 := 21
  const BanchoSpectatorCantSpectate: u16 := 22
  const BanchoGetAttention: u16 := 23
  const BanchoAnnounce: u16 := 24

  /** The "IrcJoin" notice has no canonical identifier; the adapter sends it
      under this sentinel, which the remapping gives a wire slot of its own. */
  const IrcJoin: u16 := 0xFFFF

  // ---------------------------------------------------------- status actions

  const StatusUnknown: byte := 7
  /** The highest action this client version knows. */
  const StatusSubmitting: byte := 9
  /** Legacy action that makes this client refresh a user's statistics. */
  const StatusStatsUpdate: byte := 10

  // ------------------------------------------------------ replay frame buttons

  const ButtonStateLeft1: bv8 := 1
  const ButtonStateRight1: bv8 := 2
  const ButtonStateLeft2: bv8 := 4
  const ButtonStateRight2: bv8 := 8

  // ---------------------------------------------------------------- structures

  datatype UserStatus = UserStatus(
    action: byte,
    text: Str,
    beatmapChecksum: Str,
    mods: u32,
    /** Asks this client version to refresh the user's statistics. */
    updateStats: bool)

  datatype UserStats = UserStats(
    rankedScore: u64,
    accuracy: Float64Bits,
    playcount: i32,
    totalScore: u64,
    rank: i32)

  datatype UserPresence = UserPresence(
    /** The user is connected through the IRC gateway, not the game client. */
    isIrc: bool,
    /** Hours from UTC; the client expects it in -24..24. */
    timezone: i32,
    city: Str)

  datatype UserInfo = UserInfo(
    id: i32,
    name: Str,
    stats: UserStats,
    status: UserStatus,
    presence: UserPresence)

  /** Where, if anywhere, a quitting user is still connected. */
  datatype QuitState = QuitStateGone | QuitStateOsuRemaining | QuitStateIrcRemaining

  datatype UserQuit = UserQuit(info: UserInfo, state: QuitState)

  datatype Message = Message(sender: Str, content: Str, target: Str)

  datatype ReplayFrame = ReplayFrame(
    buttonState: bv8,
    legacyByte: byte,
    mouseX: Float32Bits,
    mouseY: Float32Bits,
    time: i32)

  datatype ReplayFrameBundle = ReplayFrameBundle(frames: seq<ReplayFrame>, action: byte)

  /** What a decoded inbound packet carries (Go's `any`). */
  datatype Payload =
    | NoPayload
    | StatusData(status: UserStatus)
    | MessageData(message: Message)
    | UserIdData(userId: u32)
    | FramesData(bundle: ReplayFrameBundle)
    | TextData(text: Str)

  datatype Packet = Packet(id: u16, data: Payload)

  /** The one public channel this client version knows: "#osu". */
  const OsuChannel: Str := [0x23, 0x6F, 0x73, 0x75]
}
