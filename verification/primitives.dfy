/** The binary primitive codec the adapter writes its structures with.

    The codec itself is not part of b291.go; this module fixes one concrete
    layout so that the adapter's structures have exact bytes: every integer is
    little-endian at its Go width, int32 is two's complement, float32/float64
    fields are copied as their raw IEEE-754 bit patterns (the adapter never
    does arithmetic on them), a boolean is one byte (written 1/0, read as
    "non-zero"), and a string is either the single byte 0x00 (empty) or the
    marker 0x0B followed by its byte length in unsigned LEB128 and the bytes.
    Most of the model relies only on the fixed widths and the read-after-write
    round trips proved below. Some contracts depend on the layout itself: the
    little-endian frame count (ReadU16, Decoders.FrameCount, ReadFrameBundle,
    Relay.FrameCountWraps); the frame readers succeeding on any 14 bytes,
    because ReadBool accepts every byte; and the success conditions of
    ReadStatus, ReadMessage and ReadPacketType, because ReadString rejects
    every marker other than 0x00 and 0x0B. */
module Primitives {
  import opened Outcomes

  type byte = b: int | 0 <= b < 0x100
  type u16 = x: int | 0 <= x < 0x1_0000
  type u32 = x: int | 0 <= x < 0x1_0000_0000
  type u64 = x: int | 0 <= x < 0x1_0000_0000_0000_0000
  type i32 = x: int | -0x8000_0000 <= x < 0x8000_0000

  /** Go strings are byte strings. */
  type Str = seq<byte>

  /** The raw bit patterns of IEEE-754 floats, carried but never interpreted. */
  type Float32Bits = u32
  type Float64Bits = u64

  /** A value read from the front of a byte sequence and the bytes left after it. */
  datatype Parsed<+T> = Parsed(value: T, rest: seq<byte>)

  // ---------------------------------------------------------------- writers

  function EncodeU8(x: byte): (b: seq<byte>)
    ensures |b| == 1
  {
    [x]
  }

  function EncodeU16(x: u16): (b: seq<byte>)
    ensures |b| == 2
  {
    [x % 0x100, x / 0x100]
  }

  function EncodeU32(x: u32): (b: seq<byte>)
    ensures |b| == 4
  {
    EncodeU16(x % 0x1_0000) + EncodeU16(x / 0x1_0000)
  }

  function EncodeU64(x: u64): (b: seq<byte>)
    ensures |b| == 8
  {
    EncodeU32(x % 0x1_0000_0000) + EncodeU32(x / 0x1_0000_0000)
  }

  /** Two's complement: Dafny's `%` never yields a negative remainder. */
  function EncodeI32(x: i32): (b: seq<byte>)
    ensures |b| == 4
  {
    EncodeU32(x % 0x1_0000_0000)
  }

  function EncodeBool(v: bool): (b: seq<byte>)
    ensures |b| == 1
  {
    [if v then 1 else 0]
  }

  /** Unsigned LEB128: seven bits per byte, low group first, high bit set on
      every byte but the last. */
  function Uleb(n: nat): (b: seq<byte>)
    ensures 1 <= |b|
    decreases n
  {
    if n < 0x80 then [n] else [n % 0x80 + 0x80] + Uleb(n / 0x80)
  }

  function EncodeString(s: Str): (b: seq<byte>)
    ensures |s| < |b|
  {
    if |s| == 0 then [0x00] else [0x0B] + Uleb(|s|) + s
  }

  // ---------------------------------------------------------------- readers

  /** Takes `n` bytes, or fails with `IoError` when fewer are left. */
  function ReadBytes(s: seq<byte>, n: nat): (r: Result<Parsed<seq<byte>>>)
    ensures r.Ok? <==> n <= |s|
    ensures r.Ok? ==> r.value.value == s[..n] && r.value.rest == s[n..]
  {
    if |s| < n then Err(IoError) else Ok(Parsed(s[..n], s[n..]))
  }

  function ReadU8(s: seq<byte>): (r: Result<Parsed<byte>>)
    ensures r.Ok? <==> 1 <= |s|
    ensures r.Ok? ==> r.value.value == s[0] && r.value.rest == s[1..]
  {
    if |s| < 1 then Err(IoError) else Ok(Parsed(s[0], s[1..]))
  }

  function ReadU16(s: seq<byte>): (r: Result<Parsed<u16>>)
    ensures r.Ok? <==> 2 <= |s|
    ensures r.Ok? ==> r.value.value == s[0] as int + 0x100 * s[1] as int && r.value.rest == s[2..]
  {
    if |s| < 2 then Err(IoError) else Ok(Parsed(s[0] as int + 0x100 * s[1] as int, s[2..]))
  }

  /** The little-endian value of the first four bytes. */
  function LittleEndian32(s: seq<byte>): u32
    requires 4 <= |s|
  {
    s[0] as int + 0x100 * s[1] as int + 0x1_0000 * s[2] as int + 0x100_0000 * s[3] as int
  }

  function ReadU32(s: seq<byte>): (r: Result<Parsed<u32>>)
    ensures r.Ok? <==> 4 <= |s|
    ensures r.Ok? ==> r.value.rest == s[4..]
  {
    if |s| < 4 then Err(IoError) else Ok(Parsed(LittleEndian32(s), s[4..]))
  }

  function ReadU64(s: seq<byte>): (r: Result<Parsed<u64>>)
    ensures r.Ok? <==> 8 <= |s|
    ensures r.Ok? ==> r.value.rest == s[8..]
  {
    if |s| < 8 then Err(IoError)
    else Ok(Parsed(LittleEndian32(s) + 0x1_0000_0000 * LittleEndian32(s[4..]), s[8..]))
  }

  /** An int32 is its two's-complement bit pattern read as a uint32. */
  function ReadI32(s: seq<byte>): (r: Result<Parsed<i32>>)
    ensures r.Ok? <==> 4 <= |s|
    ensures r.Ok? ==> r.value.rest == s[4..]
  {
    if |s| < 4 then Err(IoError)
    else
      var u := LittleEndian32(s);
      Ok(Parsed(if u < 0x8000_0000 then u else u - 0x1_0000_0000, s[4..]))
  }

  function ReadBool(s: seq<byte>): (r: Result<Parsed<bool>>)
    ensures r.Ok? <==> 1 <= |s|
    ensures r.Ok? ==> r.value.value == (s[0] != 0) && r.value.rest == s[1..]
  {
    if |s| < 1 then Err(IoError) else Ok(Parsed(s[0] != 0, s[1..]))
  }

  function ReadUleb(s: seq<byte>): (r: Result<Parsed<nat>>)
    ensures r.Ok? ==> |r.value.rest| < |s|
    decreases |s|
  {
    if |s| == 0 then Err(IoError)
    else if s[0] < 0x80 then Ok(Parsed(s[0] as nat, s[1..]))
    else
      var tail :- ReadUleb(s[1..]);
      Ok(Parsed(s[0] as int - 0x80 + 0x80 * tail.value, tail.rest))
  }

  function ReadString(s: seq<byte>): (r: Result<Parsed<Str>>)
    ensures |s| == 0 ==> r == Err(IoError)
    ensures r.Ok? ==> |r.value.rest| < |s|
  {
    var marker :- ReadU8(s);
    if marker.value == 0x00 then Ok(Parsed([], marker.rest))
    else if marker.value == 0x0B then
      var n :- ReadUleb(marker.rest);
      var body :- ReadBytes(n.rest, n.value);
      Ok(body)
    else Err(MalformedString)
  }

  // ---------------------------------------------------------- round trips

  lemma U16RoundTrip(x: u16, rest: seq<byte>)
    ensures ReadU16(EncodeU16(x) + rest) == Ok(Parsed(x, rest))
  {
    assert (EncodeU16(x) + rest)[2..] == rest;
  }

  lemma U32RoundTrip(x: u32, rest: seq<byte>)
    ensures ReadU32(EncodeU32(x) + rest) == Ok(Parsed(x, rest))
  {
    var lo, hi := x % 0x1_0000, x / 0x1_0000;
    assert EncodeU32(x) + rest == EncodeU16(lo) + (EncodeU16(hi) + rest);
    U16RoundTrip(lo, EncodeU16(hi) + rest);
    U16RoundTrip(hi, rest);
  }

  lemma U64RoundTrip(x: u64, rest: seq<byte>)
    ensures ReadU64(EncodeU64(x) + rest) == Ok(Parsed(x, rest))
  {
    var lo, hi := x % 0x1_0000_0000, x / 0x1_0000_0000;
    assert EncodeU64(x) + rest == EncodeU32(lo) + (EncodeU32(hi) + rest);
    U32RoundTrip(lo, EncodeU32(hi) + rest);
    U32RoundTrip(hi, rest);
  }

  lemma I32RoundTrip(x: i32, rest: seq<byte>)
    ensures ReadI32(EncodeI32(x) + rest) == Ok(Parsed(x, rest))
  {
    U32RoundTrip(x % 0x1_0000_0000, rest);
  }

  lemma U8RoundTrip(x: byte, rest: seq<byte>)
    ensures ReadU8(EncodeU8(x) + rest) == Ok(Parsed(x, rest))
  {
    assert (EncodeU8(x) + rest)[1..] == rest;
  }

  lemma BoolRoundTrip(v: bool, rest: seq<byte>)
    ensures ReadBool(EncodeBool(v) + rest) == Ok(Parsed(v, rest))
  {
    assert (EncodeBool(v) + rest)[1..] == rest;
  }

  lemma {:induction false} UlebRoundTrip(n: nat, rest: seq<byte>)
    ensures ReadUleb(Uleb(n) + rest) == Ok(Parsed(n, rest))
    decreases n
  {
    if n < 0x80 {
      assert (Uleb(n) + rest)[1..] == rest;
    } else {
      var s := Uleb(n) + rest;
      assert s[0] == n % 0x80 + 0x80;
      assert s[1..] == Uleb(n / 0x80) + rest;
      UlebRoundTrip(n / 0x80, rest);
      assert n % 0x80 + 0x80 * (n / 0x80) == n;
    }
  }

  /** How ReadString reads a non-empty string, given what ReadUleb finds. */
  lemma ReadLongString(b: seq<byte>, n: nat, tail: seq<byte>)
    requires 1 <= |b| && b[0] == 0x0B
    requires ReadUleb(b[1..]) == Ok(Parsed(n, tail))
    requires n <= |tail|
    ensures ReadString(b) == Ok(Parsed(tail[..n], tail[n..]))
  {
  }

  // ------------------------------------------------------- concatenation

  /** Fields written one after another, regrouped from the back so that each
      reader in a chain sees one field followed by everything after it. */
  lemma Regroup3(a: seq<byte>, b: seq<byte>, c: seq<byte>, rest: seq<byte>)
    ensures a + b + c + rest == a + (b + (c + rest))
  {
  }

  lemma Regroup4(a: seq<byte>, b: seq<byte>, c: seq<byte>, d: seq<byte>, rest: seq<byte>)
    ensures a + b + c + d + rest == a + (b + (c + (d + rest)))
  {
    assert a + b + c + d + rest == (a + b + c) + (d + rest);
    Regroup3(a, b, c, d + rest);
  }

  lemma Regroup5(a: seq<byte>, b: seq<byte>, c: seq<byte>, d: seq<byte>, e: seq<byte>, rest: seq<byte>)
    ensures a + b + c + d + e + rest == a + (b + (c + (d + (e + rest))))
  {
    assert a + b + c + d + e + rest == (a + b + c + d) + (e + rest);
    Regroup4(a, b, c, d, e + rest);
  }

  lemma Regroup7(a: seq<byte>, b: seq<byte>, c: seq<byte>, d: seq<byte>, e: seq<byte>, f: seq<byte>,
                 g: seq<byte>, rest: seq<byte>)
    ensures a + b + c + d + e + f + g + rest == a + (b + (c + (d + (e + (f + (g + rest))))))
  {
    assert a + b + c + d + e + f + g + rest == (a + b + c + d + e) + (f + (g + rest));
    Regroup5(a, b, c, d, e, f + (g + rest));
  }

  /** The two halves of a concatenation, taken apart again. */
  lemma Split(a: seq<byte>, b: seq<byte>)
    ensures (a + b)[..|a|] == a && (a + b)[|a|..] == b
  {
  }

  lemma StringRoundTrip(s: Str, rest: seq<byte>)
    ensures ReadString(EncodeString(s) + rest) == Ok(Parsed(s, rest))
  {
    var b := EncodeString(s) + rest;
    if |s| == 0 {
      Split([0x00], rest);
    } else {
      var tail := s + rest;
      assert b == [0x0B] + (Uleb(|s|) + tail);
      Split([0x0B], Uleb(|s|) + tail);
      UlebRoundTrip(|s|, tail);
      ReadLongString(b, |s|, tail);
      Split(s, rest);
    }
  }
}
