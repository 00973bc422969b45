/** The adapter's collaborators on the outbound side: the payload compression
    codec and the connection's byte stream.

    Compression is defined outside b291.go over a compression library; the
    model takes it as a parameter and never looks inside it. The stream is an
    append-only log of the bytes the connection accepted, a count of the write
    calls made on it, and an oracle that says, for each write call by its
    number, whether the underlying connection accepts it. A rejected write
    appends nothing and reports `IoError`. */
module Transport {
  import opened Outcomes
  import opened Primitives

  datatype Compression = Compression(
    compress: seq<byte> -> seq<byte>,
    /** `None` when the input is not validly compressed. */
    decompress: seq<byte> -> Option<seq<byte>>)

  /** The explicit assumption under which round trips through the framing hold:
      decompressing what was compressed gives back the original bytes. */
  ghost predicate Inverse(c: Compression) {
    forall data :: c.decompress(c.compress(data)) == Some(data)
  }

  datatype Sink = Sink(sent: seq<byte>, calls: nat, accepts: nat -> bool)

  /** The state of the stream after an operation, and the Go error it returned. */
  datatype Written = Written(sink: Sink, outcome: Outcome)

  /** One call of the connection's `Write`. */
  function Send(s: Sink, chunk: seq<byte>): (r: Written)
    ensures Transmits(s, r, chunk)
  {
    if s.accepts(s.calls) then Written(Sink(s.sent + chunk, s.calls + 1, s.accepts), Pass)
    else Written(Sink(s.sent, s.calls + 1, s.accepts), Fail(IoError))
  }

  /** `r` is the result of exactly one write call of `chunk` on `s`: the chunk is
      appended and nil returned when the connection accepts that call, and
      nothing is appended and an IoError returned when it does not. */
  ghost predicate Transmits(s: Sink, r: Written, chunk: seq<byte>) {
    && r.sink.calls == s.calls + 1
    && r.sink.accepts == s.accepts
    && (s.accepts(s.calls) ==> r.sink.sent == s.sent + chunk && r.outcome == Pass)
    && (!s.accepts(s.calls) ==> r.sink.sent == s.sent && r.outcome == Fail(IoError))
  }

  /** `r` made no write call at all and returned nil. */
  ghost predicate Silent(s: Sink, r: Written) {
    r.sink == s && r.outcome == Pass
  }
}
