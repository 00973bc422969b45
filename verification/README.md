# The b291 protocol adapter, in Dafny

This project models `b291.go` from the chio bancho library. The adapter
translates between the server's canonical packets and the byte layout of
one historical osu! game client, build b291. It covers the following parts of
the adapter:

- the remapping of packet identifiers, which inserts wire slot 11 for the
  IrcJoin sentinel `0xFFFF`;
- `WritePacket` and `ReadPacket` framing: wire id, 32-bit length, compressed
  payload;
- the list of supported packets and the `ImplementsPacket` search;
- the structure encoders `writeStatus` and `writeStats`;
- the decoders `readPacketType`, `readStatus`, `readMessage`,
  `readFrameBundle` and `readReplayFrame`;
- every outbound `Write*` operation, including presence redirected to
  statistics and the bundle that stops at the first error;
- the 42 stubs of operations this version does not support.

The model is functional. A packet is an immutable datatype and a payload is
a `seq<byte>`. The outbound stream is a `Sink` holding the bytes sent so far,
a count of write calls, and an oracle that says whether the connection
accepts a given call. The inbound stream is the sequence of bytes still
unread, and each reader returns the value together with what it leaves.

Modules, in dependency order:

| module | file | contents |
|---|---|---|
| `Outcomes` | outcomes.dfy | `Option`, `Result`, the error kinds, Go's nil-or-error return |
| `Primitives` | primitives.dfy | fixed-width integer and string codecs with their round trips |
| `Decimal` | decimal.dfy | `fmt.Sprintf("%d", n)` and a reader for it |
| `Protocol` | protocol.dfy | canonical packet ids, status and button constants, structures |
| `PacketIds` | packet_ids.dfy | id remapping, `SupportedPackets`, `ImplementsPacket` |
| `Transport` | transport.dfy | compression parameter, the write side of the connection |
| `Decoders` | decoders.dfy | the inbound structure decoders and `readPacketType` |
| `Encoders` | encoders.dfy | `writeStatus`, `writeStats` and the other payload layouts |
| `Framing` | framing.dfy | `WritePacket`, `ReadPacket` |
| `ClientView` | client_view.dfy | reference readers of the outbound layouts, as the client reads them |
| `Relay` | relay.dfy | what a replay frame bundle becomes through this version |
| `Writers` | writers.dfy | every outbound operation, the bundle, the stubs, the dispatch table |
| `Delivery` | delivery.dfy | end to end: what the client reads from each operation's bytes |
| `Inbound` | inbound.dfy | end to end: what `ReadPacket` makes of each client packet |

Outbound, the partner of every writer is a reference reader in
`ClientView` (or the frame relay in `Relay`). The `Delivery` lemmas prove
that the client reads back the values the server passed, or exactly their
documented lossy form. Inbound, each of the five client packets with a
payload (status, chat message, spectate request, replay frames, error report)
has a reference encoder for the client's side in `Inbound`. `ReadPacket` is
proved to recover the canonical packet from its frame; replay frames come
back in the relayed form that `Relay` describes.

Two properties of the code worth knowing:

- The id remapping is an exact bijection on all of `uint16`.
  `convertInputPacketId` inverts `convertOutputPacketId` everywhere, the
  sentinel included.
- IrcJoin is sent by `WriteUserStats` but is not in `SupportedPackets`.

`ReadPacket` returns `(nil, nil)` for an unsupported packet. It leaves that
packet's length and payload unread, so the stream is no longer aligned. The
model keeps this behaviour (`Framing.ReadPacket`).

## Model

| member | source | states |
|---|---|---|
| PacketIds.ConvertOutput | b291.go:260-269 | Only the sentinel 0xFFFF lands on wire slot 11. Ids below 11 keep their value. Ids from 11 up to 0xFFFE move up by one. |
| PacketIds.ConvertInput | b291.go:249-258 | Inverts the output remapping on every wire id: wire slot 11 is the sentinel, wire ids below 11 are unchanged, and the output remapping gives back the wire id. |
| PacketIds.InputInvertsOutput | b291.go:249-269 | Decoding an encoded id gives the id back, for every 16-bit id including the sentinel. With ConvertInput's contract, the remapping is a bijection. |
| PacketIds.OutputInjective | b291.go:260-269 | Distinct canonical ids never share a wire id. |
| PacketIds.ImplementsPacket | b291.go:141-148 | The linear search answers true exactly when the id is in the supported list. |
| PacketIds.SupportedIds | b291.go:106-139 | The supported canonical ids are exactly 0 to 24. |
| PacketIds.IrcJoinNotSupported | b291.go:111-137 | The IrcJoin sentinel is not in the supported list. |
| PacketIds.SupportedWireIds | b291.go:72-76 | `ReadPacket` goes past the support check exactly for wire ids 0 to 25 other than the reserved slot 11. |
| Framing.Frame | b291.go:39-58 | The frame is 6 bytes longer than the compressed payload. It starts with the remapped id and ends with the compressed payload. |
| Framing.WritePacket | b291.go:39-62 | One write call carries the whole frame. If the connection accepts it, the frame is appended and nil returned. Otherwise nothing is appended and the error returned. |
| Framing.FrameLengthField | b291.go:49-50 | If the compressed payload fits 32 bits, the length field equals the number of bytes after it. |
| Framing.ReadPacket | b291.go:64-104 | Fewer than 2 bytes is an error. `(nil, nil)` comes back exactly when the remapped id is unsupported, and then only the 2 id bytes are consumed. A supported id whose length field is cut short is an IoError, with nothing left. A packet carries the remapped id, and comes back only when the header is complete and the declared length is non-negative and fully present. A supported packet with fewer payload bytes than declared is an error. |
| Framing.ReadPacketInvertsFrame | b291.go:64-104 | Reading a frame `WritePacket` built for a supported id gives that id and the payload `readPacketType` decodes from the original data. The bytes after the frame stay unread. This holds when compression is invertible and the compressed payload fits an int32. |
| Framing.AllocatedLength | b291.go:64-83 | The code as written hands `make` a length exactly for a supported packet whose header is complete. That length is the signed 32-bit field after the id. |
| Framing.NegativeLengthReachesMake | b291.go:78-83 | The header `00 00 FF FF FF FF` (a status update declaring length -1) reaches `make` with -1. |
| Framing.NegativeLengthRejected | b291.go:78-83 | In the corrected reading, a negative length is the NegativeLength error, and the payload is not read. |
| Framing.ReadPacketPayload | b291.go:83-103 | For a supported packet whose declared length n is non-negative and fully present, exactly n payload bytes are consumed. Payload bytes that do not decompress give CorruptData. Otherwise the result is what the decoder makes of the decompressed bytes. |
| Framing.PacketOf | b291.go:98-103 | A decompressed payload gives a packet exactly when `readPacketType` succeeds. The packet carries the id and the decoded payload; otherwise the decoder's error comes back. |
| Decoders.ReadPacketType | b291.go:271-286 | A packet without a decoder gets no payload. A decoded one always gets a payload. Each decoded id reaches its own decoder, and succeeds exactly when it does: status to `readStatus`, chat to `readMessage`, spectate frames (id 18) to `readFrameBundle`, error report to the string reader. A spectate request succeeds exactly when 4 bytes are present. |
| Decoders.ReadStatus | b291.go:288-306 | Decoding succeeds exactly when the action byte is present and is either StatusUnknown or followed by well-formed fields. StatusUnknown reads nothing further. Mods always fit 16 bits, and the stats-update flag is never set. |
| Decoders.ReadStatusFields | b291.go:296-302 | Text, checksum and 16-bit mods take at least four bytes. Inbound.ReadStatusFieldsInverts states what they read. |
| Decoders.ReadMessage | b291.go:308-321 | Decoding succeeds exactly when the content string reads. The target is always `#osu`, the sender is always empty, and the content is the string read. |
| Decoders.ButtonsFromFlags | b291.go:361-369 | The primary left bit is set exactly when the left flag is, and likewise on the right. No other bit is set. |
| Decoders.ReadReplayFrame | b291.go:346-372 | Decoding succeeds exactly when 14 bytes are present, and consumes exactly 14. The frame has a zero legacy byte and only primary button bits. |
| Decoders.ReadFrames | b291.go:329-336 | `count` frames succeed exactly when `14 * count` bytes are present. The result has `count` frames, every one rebuilt from two flags. |
| Decoders.ReadFrameBundle | b291.go:323-344 | Decoding succeeds exactly when the 16-bit count, that many 14-byte frames and the action byte are present. The number of frames equals the count, and every frame is rebuilt from two flags. The action is the byte after the frames, and everything after it is left unread. |
| Encoders.StatusBytes | b291.go:374-394 | The action byte leads and the mods close the layout as a full 32 bits. ClientView.StatusRoundTrip reads every field back. |
| Encoders.ScoresBytes | b291.go:399-403 | The scores take a fixed 32 bytes. ClientView.ScoresRoundTrip reads them back unchanged. |
| Encoders.StatsBytes | b291.go:396-409 | The layout starts with the int32 id and ends with the timezone byte then the city string. ClientView.StatsRoundTrip reads every field back. |
| Encoders.MessageBytes | b291.go:162-165 | The sender string leads, and only the sender and content are sent; the target is not. ClientView.MessageRoundTrip reads both back. |
| Encoders.RenameBytes | b291.go:172-176 | The notice is always a present (0x0B) string, longer than both names and the separator together. ClientView.RenameRoundTrip reads it back. |
| Encoders.WireAction | b291.go:374-387 | A stats refresh is sent as StatusStatsUpdate whatever the action. Otherwise an action above StatusSubmitting becomes StatusUnknown, and any other action is sent unchanged. |
| Encoders.TimezoneByte | b291.go:406 | An offset in -24..24 is sent as the offset plus 24, a byte of at most 48. |
| Encoders.FrameBytes | b291.go:223-233 | One spectated frame takes 14 bytes. |
| Encoders.FramesBytes | b291.go:223-233 | `n` frames take `14 * n` bytes. |
| Encoders.SpectateFramesBytes | b291.go:219-237 | A bundle takes 3 bytes plus 14 per frame. |
| Writers.WriteLoginReply | b291.go:150-154 | One frame under BanchoLoginReply, carrying the reply as int32. |
| Writers.WriteMessage | b291.go:156-166 | A `#osu` message is one frame of sender and content under BanchoSendMessage. Any other target makes no write call and returns nil. |
| Writers.WritePing | b291.go:168-170 | One frame under BanchoPing with an empty payload. |
| Writers.WriteIrcChangeUsername | b291.go:172-176 | One frame under BanchoHandleIrcChangeUsername, carrying the single string `old>>>>new`. |
| Writers.StatsNotice | b291.go:178-189 | The notice goes under IrcJoin exactly for an IRC user, and then its payload reads back as the name alone. Anyone else is sent under BanchoHandleOsuUpdate. |
| Writers.WriteUserStats | b291.go:178-189 | An IRC user is one frame of the name alone, under the IrcJoin sentinel. Anyone else is one frame of the `writeStats` layout under BanchoHandleOsuUpdate. |
| Writers.WriteUserQuit | b291.go:191-205 | An IRC user not remaining on IRC gets one IrcQuit frame of the name. A game-client user remaining on the game client makes no write and gets nil. Every other case is one OsuQuit frame with the `writeStats` layout. |
| Writers.WriteSpectatorJoined | b291.go:207-211 | One frame under BanchoSpectatorJoined, carrying the user id. |
| Writers.WriteSpectatorLeft | b291.go:213-217 | One frame under BanchoSpectatorLeft, carrying the user id. |
| Writers.WriteSpectateFrames | b291.go:219-237 | One frame under BanchoSpectateFrames, carrying the frame bundle layout. |
| Writers.WriteVersionUpdate | b291.go:239-241 | One frame under BanchoVersionUpdate with an empty payload. |
| Writers.WriteSpectatorCantSpectate | b291.go:243-247 | One frame under BanchoSpectatorCantSpectate, carrying the user id. |
| Writers.WriteGetAttention | b291.go:430-432 | One frame under BanchoGetAttention with an empty payload. |
| Writers.WriteAnnouncement | b291.go:434-438 | One frame under BanchoAnnounce, carrying the message string. |
| Writers.WriteUserPresence | b291.go:411-414 | Presence goes out exactly as `WriteUserStats` sends the same user. |
| Writers.WriteUserPresenceSingle | b291.go:416-418 | Same as `WriteUserPresence`. |
| Writers.PresenceIsSend | b291.go:411-414 | Presence for one user is a single write call of that user's statistics frame. |
| Writers.PresenceFrames | b291.go:420-428 | One frame per user. |
| Writers.PresenceFrameAt | b291.go:420-428 | The frame at each position is the presence frame of the user at that position, so the frames follow the users in order. |
| Writers.SendEach | b291.go:420-428 | Makes at most one write call per chunk. When it returns nil, every chunk was sent, in order. SendEachStopsAtFirstRejection states the failing case. |
| Writers.FirstRejected | b291.go:420-428 | Counts the write calls, from a given call number, that the connection accepts before the first one it rejects. |
| Writers.SendEachStopsAtFirstRejection | b291.go:420-428 | Writing chunks one call each and returning at the first error sends exactly the chunks before the first rejected call. Nil is returned when there is none. Otherwise the rejected call is the last one made and its error is returned. |
| Writers.WriteUserPresenceBundle | b291.go:420-428 | The loop sends one presence frame per user, in order. It stops at the first rejected write and returns that error. Exactly the frames of the users before it reach the stream. |
| Writers.WriteUnsupported | b291.go:440-482 | Each of the 42 unsupported operations makes no write call and returns nil. |
| Writers.FixedNoticesFollowTable | b291.go:150-176 | The login reply, ping, rename, version update, attention and announcement notices each make one write call under the id the dispatch table names. |
| Writers.SpectatorNoticesFollowTable | b291.go:207-247 | The spectator notices and the frame relay each make one write call under the id the table names. |
| Writers.UserNoticesFollowTable | b291.go:178-189 | Statistics and both presence calls make one write call under IrcJoin or BanchoHandleOsuUpdate, as the table says. |
| Writers.QuitFollowsTable | b291.go:191-205 | Each of the three quit states makes one write call under the id the table names, or none when the table names none. |
| Writers.MessageFollowsTable | b291.go:156-166 | A message makes one write call under BanchoSendMessage when its target is `#osu`, and none otherwise. |
| Writers.PerformFollowsTable | b291.go:150-482 | Every operation either makes no write call and returns nil, where the table names no packet, or makes one write call of one frame under the named packet. |
| Writers.EmittedIdsSupported | b291.go:106-189 | Every packet the adapter sends is in the supported list, or is the IrcJoin sentinel. The sentinel, and only the sentinel, lands on the reserved wire slot. |
| Relay.RelayedAll | b291.go:323-336 | The relayed bundle has the same number of frames, each the relayed form of the original. |
| Relay.FrameRoundTrip | b291.go:346-372 | Reading back one frame `WriteSpectateFrames` wrote gives its relayed form: the same mouse position and time, the buttons collapsed, the legacy byte cleared. Exactly 14 bytes are consumed. |
| Relay.FramesRoundTrip | b291.go:329-336 | The frame loops of writer and reader agree frame by frame. |
| Relay.SpectateFramesRoundTrip | b291.go:323-344 | For a bundle under 65536 frames, `readFrameBundle` recovers from what `WriteSpectateFrames` wrote the frame count, each frame's relayed form, and the bundle action. |
| Relay.FrameCountWraps | b291.go:221 | At 65536 frames or more, the count field is the count modulo 65536, and so is smaller than the number of frames sent. |
| Relay.RelayedButtons | b291.go:225-226 | After the relay, the primary left bit is set exactly when either left button was held, and likewise on the right. No secondary bit survives. |
| Relay.RelayIdempotent | b291.go:361-369 | Relaying an already relayed frame changes nothing. |
| ClientView.FrameDelivered | b291.go:39-62 | The client reading a frame finds the remapped id and the original payload, with the bytes that follow left unread. |
| ClientView.StatusRoundTrip | b291.go:374-394 | The client reads the collapsed or overridden action, and the text, checksum and all 32 bits of the mods unchanged. |
| ClientView.ScoresRoundTrip | b291.go:399-403 | The scores arrive unchanged. |
| ClientView.StatsRoundTrip | b291.go:396-409 | Every statistics and presence field arrives. The id comes a second time as decimal text, the action in its wire form, and the timezone as its byte. |
| ClientView.StatsQuirksRecoverable | b291.go:404-406 | The decimal copy of the id parses back to the id. A timezone in -24..24 is recovered by subtracting 24. |
| ClientView.MessageRoundTrip | b291.go:162-165 | The client reads the sender and the content. |
| ClientView.FindSeparator | b291.go:174 | A position found holds the `>>>>` separator and is the first from the start position. None means no separator starts anywhere from there. |
| ClientView.SplitRename | b291.go:174 | A notice splits exactly when it holds a separator. The two parts rejoin around the separator to the notice, and the first part holds no separator. |
| ClientView.SeparatorAfterOldName | b291.go:174 | If the old name holds no `>`, the first separator starts right after it. |
| ClientView.RenameRoundTrip | b291.go:172-176 | The rename string reads back whole. If the old name holds no `>`, splitting it at the first separator recovers both names. |
| Decimal.Format | b291.go:404 | The text is never empty, and starts with `-` exactly for a negative number. |
| Decimal.DigitsValueOfDigits | b291.go:404 | The digits of a natural number have that number as their value. |
| Decimal.FormatRoundTrip | b291.go:404 | Parsing the decimal text of any integer gives the integer. |
| Decimal.FormatInjective | b291.go:404 | Distinct ids have distinct decimal texts. |
| Inbound.ReadStatusFieldsInverts | b291.go:296-302 | Text, checksum and 16-bit mods as the client sends them read back unchanged. |
| Inbound.ReadStatusInverts | b291.go:288-306 | Every status the client sends is recovered. With StatusUnknown only the action byte is consumed and the other fields are empty. The 16-bit mods widen unchanged. |
| Inbound.ReadMessageInverts | b291.go:308-321 | A chat message from the client reads as its content, addressed to `#osu`, with no sender. |
| Inbound.ReadPacketTypeDecodes | b291.go:271-286 | Each decoded client payload (status, chat, spectate request, replay frames, error report) gives its canonical meaning. Replay frames come back in their relayed form with the bundle action. |
| Inbound.ReadPacketReceives | b291.go:64-104 | A framed client packet (any of the five with a payload, a bundle under 65536 frames) comes out of `ReadPacket` as the canonical packet it stands for, and the bytes after the frame stay unread. |
| Inbound.ReadPacketSignal | b291.go:64-104 | A packet without a payload (exit, status request, pong, stop spectating, can't spectate) comes out with no payload, whatever bytes it carries. |
| Delivery.Delivered | b291.go:39-62 | An accepted write of a frame returns nil. The client reads exactly that frame from the appended bytes. |
| Delivery.RejectedWriteAppendsNothing | b291.go:60-61 | When the connection rejects the write, no operation appends anything. The error is returned exactly when the operation sends a packet. |
| Delivery.LoginReplyDelivered | b291.go:150-154 | The client gets wire id 5 and reads back the reply. |
| Delivery.MessageDelivered | b291.go:156-166 | A `#osu` message reaches the client on wire id 7 with its sender and content. |
| Delivery.PingDelivered | b291.go:168-170 | The client gets wire id 8 with an empty payload. |
| Delivery.RenameDelivered | b291.go:172-176 | The client gets wire id 9 and reads the whole `old>>>>new` string, whatever the names. If the old name holds no `>`, it recovers both names. |
| Delivery.UserStatsDelivered | b291.go:178-189 | A game-client user arrives on wire id 12 as the expected statistics view. An IRC user arrives on the reserved wire id 11 by name. |
| Delivery.UserQuitDelivered | b291.go:191-205 | An IRC quit arrives on wire id 10 with the name. An osu! quit arrives on wire id 13 with the full statistics view. |
| Delivery.SpectatorNoticesDelivered | b291.go:207-247 | Spectator joined, left and can't-spectate arrive on wire ids 14, 15 and 23 with the user id. |
| Delivery.SpectateFramesDelivered | b291.go:219-237 | Spectated frames arrive on wire id 16 in their relayed form. |
| Delivery.SignalsDelivered | b291.go:239-241 | The version update and the attention request arrive on wire ids 20 and 24 with empty payloads. |
| Delivery.AnnouncementDelivered | b291.go:434-438 | An announcement arrives on wire id 25 with its text. |

## Left out

- Stream plumbing (`Write`, `Read`, `Close`, `Clone`, `GetStream`, `SetStream`, b291.go:15-37) only passes calls through. The connection is the `Sink` on the write side and the unread byte sequence on the read side.
- `compressData` and `decompressData` are not part of this model. Compression is a parameter. The round trips assume decompression inverts compression (`Inverse`), and nothing about the codec itself is proved.
- The primitive codecs (`writeUint16`, `writeString`, `readInt32` and the rest) are not part of this model. A concrete layout stands in for them: little-endian integers, two's-complement int32, bools as 1/0 (read as non-zero), and strings as `0x00`, or `0x0B` then a ULEB128 length then the bytes. Most results use only the widths and the round trips. The following contracts depend on the chosen layout itself:
  - the little-endian frame count in `Primitives.ReadU16`, `Decoders.FrameCount`, `Decoders.ReadFrameBundle` and `Relay.FrameCountWraps`;
  - the success conditions "exactly when 14, `14 * count` or `3 + 14 * count` bytes are present" of `Decoders.ReadReplayFrame`, `Decoders.ReadFrames` and `Decoders.ReadFrameBundle`, which hold because a bool is read from any byte;
  - the success conditions of `Decoders.ReadStatus`, `Decoders.ReadMessage` and `Decoders.ReadPacketType`, which depend on a string reader that rejects every marker other than `0x00` and `0x0B`.
- Float fields (mouse position, accuracy) are carried as raw 32- and 64-bit patterns. No arithmetic is done on them.
- A write call either appends the whole chunk or nothing. Partial writes are not modelled.
- `ReadPacket` makes a single `stream.Read` (b291.go:84). On a real connection that call may return fewer bytes than have arrived so far. The model's input holds every byte that will arrive. The exact Go error values and messages are not modelled, only their kinds.
- readStatus and readReplayFrame collect errors and report the first. The model stops at the first failure. The observable result is the same, since `ReadPacket` discards the value whenever an error comes back.
- The bytes a reader leaves after an error are not part of any contract, except in `ReadPacket`'s unsupported-packet, negative-length, corrupt-data and decoder-error cases.
- Nil pointers (`*quit.Info`, `info.Status`) are modelled as values. The panic on a nil pointer is not modelled.
- The packet id, status and button constants are defined outside b291.go, in files that are not part of this model. The model fixes them to the canonical bancho values, which the ordered supported-packet list at b291.go:111-137 corroborates. `PacketIds.SupportedIds`, `PacketIds.SupportedWireIds` and the wire ids in the Delivery lemmas rely on those exact values.
- The supported-packet list is built once and cached. Its value never changes, so it is a constant here.
- The arguments of the 42 stubs are not modelled, because none of the stubs reads them.
- Delivery.UserQuitDelivered and the other `Delivery` lemmas assume the compressed payload fits the 32-bit length field. `Framing.Frame` models the truncation `uint32(len(compressed))`, but no round trip is claimed past it.
- Framing.ReadPacketInvertsFrame assumes the compressed payload is below 2^31 bytes, because `ReadPacket` reads the length back as an int32.
- Relay.SpectateFramesRoundTrip is stated for bundles under 65536 frames. Past that, the `uint16` frame count wraps (Relay.FrameCountWraps).
- Decoders.ReadStatusFields states only how many bytes it consumes. What it reads is stated by Inbound.ReadStatusFieldsInverts.
- Encoders.FrameBytes, Encoders.FramesBytes and Encoders.SpectateFramesBytes state only lengths. Their contents are stated by the `Relay` round trips.
- Encoders.StatusBytes, Encoders.ScoresBytes, Encoders.StatsBytes, Encoders.MessageBytes and Encoders.RenameBytes state only lengths and the fields at their ends. Their full contents are stated by the `ClientView` round trips.
- Writers.SendEach states only the case where every call is accepted. Writers.SendEachStopsAtFirstRejection states the rest.
- Inbound.ReadPacketTypeDecodes and Inbound.ReadPacketReceives are stated for replay frame bundles under 65536 frames (`Inbound.Sendable`), because the frame count travels as a `uint16`.
- Framing.ReadPacket does not state the decoded payload in its own contract. Framing.ReadPacketPayload states it for every input with a complete payload, and Framing.ReadPacketInvertsFrame and the `Inbound` lemmas state it for frames `WritePacket` built.

## Findings

| source | as written | input that shows it | evidently intended | confidence | as-written member | corrected member |
|---|---|---|---|---|---|---|
| b291.go:78-83 | The signed 32-bit length is passed to `make([]byte, length)` unchecked. Go's `make` panics on a negative length. | The frame header `00 00 FF FF FF FF`: a status update declaring length -1. | Report a negative length as an error of the packet. | high (from Go's documented `make` semantics); not executed | Framing.NegativeLengthReachesMake | Framing.NegativeLengthRejected |
