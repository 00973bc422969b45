/** The spectator relay through this client version: what a replay frame
    bundle becomes after WriteSpectateFrames has written it and
    readFrameBundle has read it back.

    The four-button state is squeezed into two flags on the wire, so the
    relay is lossy in a precisely described way: a side counts as pressed when
    either of its buttons was, it comes back as that side's primary button,
    and the legacy byte is dropped. */
module Relay {
  import opened Outcomes
  import opened Primitives
  import opened Protocol
  import opened Encoders
  import opened Decoders

  /** A frame as it arrives at the spectator. */
  function Relayed(frame: ReplayFrame): ReplayFrame {
    ReplayFrame(
      ButtonsFromFlags(LeftHeld(frame.buttonState), RightHeld(frame.buttonState)),
      0, frame.mouseX, frame.mouseY, frame.time)
  }

  function RelayedAll(frames: seq<ReplayFrame>): (r: seq<ReplayFrame>)
    ensures |r| == |frames|
    ensures forall i :: 0 <= i < |frames| ==> r[i] == Relayed(frames[i])
  {
    if |frames| == 0 then [] else [Relayed(frames[0])] + RelayedAll(frames[1..])
  }

  /** One frame written by WriteSpectateFrames is read back by readReplayFrame
      as its relayed form, consuming exactly its 14 bytes. */
  lemma FrameRoundTrip(frame: ReplayFrame, rest: seq<byte>)
    ensures ReadReplayFrame(FrameBytes(frame) + rest) == Ok(Parsed(Relayed(frame), rest))
  {
    var t3 := EncodeI32(frame.time) + rest;
    var t2 := EncodeU32(frame.mouseY) + t3;
    var t1 := EncodeU32(frame.mouseX) + t2;
    var t0 := EncodeBool(RightHeld(frame.buttonState)) + t1;
    Regroup5(EncodeBool(LeftHeld(frame.buttonState)), EncodeBool(RightHeld(frame.buttonState)),
             EncodeU32(frame.mouseX), EncodeU32(frame.mouseY), EncodeI32(frame.time), rest);
    BoolRoundTrip(LeftHeld(frame.buttonState), t0);
    BoolRoundTrip(RightHeld(frame.buttonState), t1);
    U32RoundTrip(frame.mouseX, t2);
    U32RoundTrip(frame.mouseY, t3);
    I32RoundTrip(frame.time, rest);
  }

  /** The frame loops of the two sides agree frame by frame. */
  lemma {:induction false} FramesRoundTrip(frames: seq<ReplayFrame>, rest: seq<byte>)
    ensures ReadFrames(FramesBytes(frames) + rest, |frames|) == Ok(Parsed(RelayedAll(frames), rest))
    decreases |frames|
  {
    if |frames| == 0 {
      assert FramesBytes(frames) + rest == rest;
    } else {
      var data := FramesBytes(frames) + rest;
      var tail := FramesBytes(frames[1..]) + rest;
      FramesBytesFront(frames, rest);
      FrameRoundTrip(frames[0], tail);
      assert ReadReplayFrame(data) == Ok(Parsed(Relayed(frames[0]), tail));
      FramesRoundTrip(frames[1..], rest);
      ReadFramesStep(data, |frames[1..]|, Relayed(frames[0]), tail, RelayedAll(frames[1..]), rest);
      assert |frames[1..]| + 1 == |frames|;
      RelayedAllFront(frames);
    }
  }

  /** The first frame's bytes lead the bytes of a run of frames. */
  lemma FramesBytesFront(frames: seq<ReplayFrame>, rest: seq<byte>)
    requires 0 < |frames|
    ensures FramesBytes(frames) + rest == FrameBytes(frames[0]) + (FramesBytes(frames[1..]) + rest)
  {
  }

  lemma RelayedAllFront(frames: seq<ReplayFrame>)
    requires 0 < |frames|
    ensures RelayedAll(frames) == [Relayed(frames[0])] + RelayedAll(frames[1..])
  {
  }

  /** readFrameBundle undoes WriteSpectateFrames for every bundle whose frame
      count fits the 16-bit count field: the count, the times and mouse
      positions and the action survive, the buttons are collapsed and the
      legacy byte is cleared. */
  lemma SpectateFramesRoundTrip(bundle: ReplayFrameBundle, rest: seq<byte>)
    requires |bundle.frames| < 0x1_0000
    ensures ReadFrameBundle(SpectateFramesBytes(bundle) + rest)
         == Ok(Parsed(ReplayFrameBundle(RelayedAll(bundle.frames), bundle.action), rest))
  {
    var t1 := EncodeU8(bundle.action) + rest;
    var t0 := FramesBytes(bundle.frames) + t1;
    assert SpectateFramesBytes(bundle) + rest == EncodeU16(|bundle.frames|) + t0;
    U16RoundTrip(|bundle.frames|, t0);
    FramesRoundTrip(bundle.frames, t1);
    U8RoundTrip(bundle.action, rest);
  }

  /** With 65536 frames or more the count field wraps, and the spectator is
      told of fewer frames than were sent. */
  lemma FrameCountWraps(bundle: ReplayFrameBundle)
    requires 0x1_0000 <= |bundle.frames|
    ensures var b := SpectateFramesBytes(bundle);
            b[0] as int + 0x100 * b[1] as int == |bundle.frames| % 0x1_0000 < |bundle.frames|
  {
  }

  /** The relayed buttons, side by side: the primary button of a side is
      pressed exactly when either button of that side was, and no secondary
      button or other bit survives. */
  lemma RelayedButtons(frame: ReplayFrame)
    ensures var b := Relayed(frame).buttonState;
            && (b & ButtonStateLeft1 != 0 <==>
                  frame.buttonState & ButtonStateLeft1 != 0 || frame.buttonState & ButtonStateLeft2 != 0)
            && (b & ButtonStateRight1 != 0 <==>
                  frame.buttonState & ButtonStateRight1 != 0 || frame.buttonState & ButtonStateRight2 != 0)
            && b & ButtonStateLeft2 == 0
            && b & ButtonStateRight2 == 0
  {
    var b := Relayed(frame).buttonState;
    assert PrimaryOnly(b);
  }

  /** Relaying a relayed frame changes nothing: the collapse is idempotent. */
  lemma RelayIdempotent(frame: ReplayFrame)
    ensures Relayed(Relayed(frame)) == Relayed(frame)
  {
  }
}
