/** What the b291 game client reads back from the structures the adapter sends
    it. The readers here are reference decoders for the server-to-client
    layouts (the adapter itself has no reader for them); the lemmas show that
    each field the adapter writes arrives intact, or arrives in exactly the
    altered form this version's quirks prescribe. */
module ClientView {
  import opened Outcomes
  import opened Primitives
  import opened Protocol
  import opened PacketIds
  import opened Transport
  import opened Encoders
  import opened Framing
  import Decimal

  // ------------------------------------------------------------------ frames

  /** A frame as the client takes it off the wire: wire id, declared length,
      that many bytes, decompressed. */
  function ReadFrame(c: Compression, bytes: seq<byte>): Result<Parsed<(u16, seq<byte>)>>
  {
    var wire :- ReadU16(bytes);
    var length :- ReadU32(wire.rest);
    var compressed :- ReadBytes(length.rest, length.value);
    match c.decompress(compressed.value)
    case None => Err(CorruptData)
    case Some(data) => Ok(Parsed((wire.value, data), compressed.rest))
  }

  /** Every frame WritePacket builds reaches the client whole: the client
      finds the remapped id, reads exactly the payload, and nothing of the
      bytes that follow. */
  lemma FrameDelivered(c: Compression, id: u16, data: seq<byte>, rest: seq<byte>)
    requires Inverse(c)
    requires |c.compress(data)| < 0x1_0000_0000
    ensures ReadFrame(c, Frame(c, id, data) + rest) == Ok(Parsed((ConvertOutput(id), data), rest))
  {
    var compressed := c.compress(data);
    assert Frame(c, id, data) + rest
        == EncodeU16(ConvertOutput(id)) + (EncodeU32(|compressed|) + (compressed + rest));
    U16RoundTrip(ConvertOutput(id), EncodeU32(|compressed|) + (compressed + rest));
    U32RoundTrip(|compressed|, compressed + rest);
    assert (compressed + rest)[..|compressed|] == compressed;
    assert (compressed + rest)[|compressed|..] == rest;
  }

  // ------------------------------------------------------------------ status

  datatype StatusView = StatusView(action: byte, text: Str, beatmapChecksum: Str, mods: u32)

  function ReadStatusLayout(s: seq<byte>): Result<Parsed<StatusView>>
  {
    var action :- ReadU8(s);
    var text :- ReadString(action.rest);
    var checksum :- ReadString(text.rest);
    var mods :- ReadU32(checksum.rest);
    Ok(Parsed(StatusView(action.value, text.value, checksum.value, mods.value), mods.rest))
  }

  /** The client reads the collapsed or overridden action, and the text,
      checksum and all 32 bits of the mods unchanged. */
  lemma StatusRoundTrip(status: UserStatus, rest: seq<byte>)
    ensures ReadStatusLayout(StatusBytes(status) + rest)
         == Ok(Parsed(StatusView(WireAction(status), status.text, status.beatmapChecksum, status.mods), rest))
  {
    var t3 := EncodeU32(status.mods) + rest;
    var t2 := EncodeString(status.beatmapChecksum) + t3;
    var t1 := EncodeString(status.text) + t2;
    Regroup4(EncodeU8(WireAction(status)), EncodeString(status.text), EncodeString(status.beatmapChecksum),
             EncodeU32(status.mods), rest);
    U8RoundTrip(WireAction(status), t1);
    StringRoundTrip(status.text, t2);
    StringRoundTrip(status.beatmapChecksum, t3);
    U32RoundTrip(status.mods, rest);
  }

  // --------------------------------------------------------------- statistics

  function ReadScores(s: seq<byte>): Result<Parsed<UserStats>>
  {
    var rankedScore :- ReadU64(s);
    var accuracy :- ReadU64(rankedScore.rest);
    var playcount :- ReadI32(accuracy.rest);
    var totalScore :- ReadU64(playcount.rest);
    var rank :- ReadI32(totalScore.rest);
    Ok(Parsed(UserStats(rankedScore.value, accuracy.value, playcount.value, totalScore.value, rank.value),
              rank.rest))
  }

  /** ReadScores, given what each of its field readers finds. */
  lemma ReadScoresOf(s0: seq<byte>, s1: seq<byte>, s2: seq<byte>, s3: seq<byte>, s4: seq<byte>,
                     rest: seq<byte>, stats: UserStats)
    requires ReadU64(s0) == Ok(Parsed(stats.rankedScore, s1))
    requires ReadU64(s1) == Ok(Parsed(stats.accuracy, s2))
    requires ReadI32(s2) == Ok(Parsed(stats.playcount, s3))
    requires ReadU64(s3) == Ok(Parsed(stats.totalScore, s4))
    requires ReadI32(s4) == Ok(Parsed(stats.rank, rest))
    ensures ReadScores(s0) == Ok(Parsed(stats, rest))
  {
  }

  lemma ScoresRoundTrip(stats: UserStats, rest: seq<byte>)
    ensures ReadScores(ScoresBytes(stats) + rest) == Ok(Parsed(stats, rest))
  {
    var t4 := EncodeI32(stats.rank) + rest;
    var t3 := EncodeU64(stats.totalScore) + t4;
    var t2 := EncodeI32(stats.playcount) + t3;
    var t1 := EncodeU64(stats.accuracy) + t2;
    Regroup5(EncodeU64(stats.rankedScore), EncodeU64(stats.accuracy), EncodeI32(stats.playcount),
             EncodeU64(stats.totalScore), EncodeI32(stats.rank), rest);
    U64RoundTrip(stats.rankedScore, t1);
    U64RoundTrip(stats.accuracy, t2);
    I32RoundTrip(stats.playcount, t3);
    U64RoundTrip(stats.totalScore, t4);
    I32RoundTrip(stats.rank, rest);
    ReadScoresOf(EncodeU64(stats.rankedScore) + t1, t1, t2, t3, t4, rest, stats);
  }

  datatype StatsView = StatsView(
    id: i32,
    name: Str,
    stats: UserStats,
    idText: Str,
    status: StatusView,
    timezone: byte,
    city: Str)

  function ReadStatsLayout(s: seq<byte>): Result<Parsed<StatsView>>
  {
    var id :- ReadI32(s);
    var name :- ReadString(id.rest);
    var stats :- ReadScores(name.rest);
    var idText :- ReadString(stats.rest);
    var status :- ReadStatusLayout(idText.rest);
    var timezone :- ReadU8(status.rest);
    var city :- ReadString(timezone.rest);
    Ok(Parsed(StatsView(id.value, name.value, stats.value, idText.value, status.value, timezone.value,
                        city.value), city.rest))
  }

  /** The view of a user the client should end up with. */
  function ExpectedStats(info: UserInfo): StatsView {
    StatsView(
      info.id, info.name, info.stats, Decimal.Format(info.id),
      StatusView(WireAction(info.status), info.status.text, info.status.beatmapChecksum, info.status.mods),
      TimezoneByte(info.presence.timezone), info.presence.city)
  }

  /** Every statistics and presence field reaches the client, the action in
      its collapsed or overridden form. */
  lemma StatsRoundTrip(info: UserInfo, rest: seq<byte>)
    ensures ReadStatsLayout(StatsBytes(info) + rest) == Ok(Parsed(ExpectedStats(info), rest))
  {
    var t6 := EncodeString(info.presence.city) + rest;
    var t5 := EncodeU8(TimezoneByte(info.presence.timezone)) + t6;
    var t4 := StatusBytes(info.status) + t5;
    var t3 := EncodeString(Decimal.Format(info.id)) + t4;
    var t2 := ScoresBytes(info.stats) + t3;
    var t1 := EncodeString(info.name) + t2;
    Regroup7(EncodeI32(info.id), EncodeString(info.name), ScoresBytes(info.stats),
             EncodeString(Decimal.Format(info.id)), StatusBytes(info.status),
             EncodeU8(TimezoneByte(info.presence.timezone)), EncodeString(info.presence.city), rest);
    I32RoundTrip(info.id, t1);
    StringRoundTrip(info.name, t2);
    ScoresRoundTrip(info.stats, t3);
    StringRoundTrip(Decimal.Format(info.id), t4);
    StatusRoundTrip(info.status, t5);
    U8RoundTrip(TimezoneByte(info.presence.timezone), t6);
    StringRoundTrip(info.presence.city, rest);
  }

  /** What the client can recover from the presence quirks of writeStats: the
      decimal copy of the id reads back as the id, and a timezone in -24..24
      arrives as a byte in 0..48 from which subtracting 24 restores it. */
  lemma StatsQuirksRecoverable(info: UserInfo)
    ensures Decimal.Parse(ExpectedStats(info).idText) == Some(info.id as int)
    ensures -24 <= info.presence.timezone <= 24 ==>
              ExpectedStats(info).timezone <= 48
              && ExpectedStats(info).timezone - 24 == info.presence.timezone
  {
    Decimal.FormatRoundTrip(info.id);
  }

  // ---------------------------------------------------------------- messages

  function ReadMessageLayout(s: seq<byte>): Result<Parsed<(Str, Str)>>
  {
    var sender :- ReadString(s);
    var content :- ReadString(sender.rest);
    Ok(Parsed((sender.value, content.value), content.rest))
  }

  /** The client receives the sender and the content of a #osu message. */
  lemma MessageRoundTrip(message: Message, rest: seq<byte>)
    ensures ReadMessageLayout(MessageBytes(message) + rest)
         == Ok(Parsed((message.sender, message.content), rest))
  {
    var t1 := EncodeString(message.content) + rest;
    assert MessageBytes(message) + rest == EncodeString(message.sender) + t1;
    StringRoundTrip(message.sender, t1);
    StringRoundTrip(message.content, rest);
  }

  // ---------------------------------------------------------------- renames

  /** The ">>>>" separator starts at position `j` of `s`. */
  predicate SeparatorAt(s: Str, j: int) {
    0 <= j && j + 4 <= |s| && s[j..j + 4] == RenameSeparator
  }

  /** The first position at or after `from` where the ">>>>" separator
      starts, or None when it starts nowhere from there on. */
  function FindSeparator(s: Str, from: nat): (r: Option<nat>)
    ensures r.Some? ==> from <= r.value && SeparatorAt(s, r.value)
    ensures r.Some? ==> forall j :: from <= j < r.value ==> !SeparatorAt(s, j)
    ensures r.None? ==> forall j :: from <= j ==> !SeparatorAt(s, j)
    decreases |s| - from
  {
    if |s| < from + 4 then None
    else if s[from..from + 4] == RenameSeparator then Some(from)
    else FindSeparator(s, from + 1)
  }

  /** How a reader splits an `old>>>>new` notice: at the first separator, so
      the old part never holds one, and the two parts rejoin to the notice. */
  function SplitRename(s: Str): (r: Option<(Str, Str)>)
    ensures r.None? <==> forall j :: 0 <= j ==> !SeparatorAt(s, j)
    ensures r.Some? ==> r.value.0 + RenameSeparator + r.value.1 == s
    ensures r.Some? ==> forall j :: 0 <= j < |r.value.0| ==> !SeparatorAt(s, j)
  {
    match FindSeparator(s, 0)
    case None => None
    case Some(i) =>
      assert s[..i] + RenameSeparator + s[i + 4..] == s[..i] + s[i..i + 4] + s[i + 4..] == s;
      Some((s[..i], s[i + 4..]))
  }

  lemma {:induction false} SeparatorAfterOldName(oldName: Str, newName: Str, from: nat)
    requires from <= |oldName|
    requires forall i :: 0 <= i < |oldName| ==> oldName[i] != RenameSeparator[0]
    ensures FindSeparator(oldName + RenameSeparator + newName, from) == Some(|oldName|)
    decreases |oldName| - from
  {
    var s := oldName + RenameSeparator + newName;
    if from < |oldName| {
      assert s[from] == oldName[from];
      assert s[from..from + 4][0] == s[from];
      SeparatorAfterOldName(oldName, newName, from + 1);
    } else {
      assert s[from..from + 4] == RenameSeparator;
    }
  }

  /** A reader gets the whole `old>>>>new` notice back as one string, and
      when the old name holds no '>' it recovers both names from it: the
      separator first appears right after the old name. */
  lemma RenameRoundTrip(oldName: Str, newName: Str, rest: seq<byte>)
    ensures ReadString(RenameBytes(oldName, newName) + rest)
         == Ok(Parsed(oldName + RenameSeparator + newName, rest))
    ensures (forall i :: 0 <= i < |oldName| ==> oldName[i] != RenameSeparator[0]) ==>
              SplitRename(oldName + RenameSeparator + newName) == Some((oldName, newName))
  {
    var s := oldName + RenameSeparator + newName;
    StringRoundTrip(s, rest);
    if forall i :: 0 <= i < |oldName| ==> oldName[i] != RenameSeparator[0] {
      SeparatorAfterOldName(oldName, newName, 0);
      assert s[..|oldName|] == oldName;
      assert s[|oldName| + 4..] == newName;
    }
  }
}
