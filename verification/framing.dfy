/**
 * The receive side of the wire protocol shared by both daemons: `_read_exact`
 * over the chunks a stream reader hands out, the 4-byte big-endian length
 * header, the length check in `tcp_client`, and the framing of outgoing
 * messages (`struct.pack("!I", len(payload)) + payload`).
 */
module Framing {
  import opened Options
  import opened Bytes

  /**
   * What the peer's stream will deliver, as the successive chunks that
   * `StreamReader.read` finds buffered. An empty chunk is end of stream:
   * `read` returns `b""` there, and everything after it is never seen.
   */
  type Reader = seq<bytes>

  /** Frames with a declared length of 0 or above this are dropped with the connection. */
  const MAX_FRAME_LENGTH: nat := 1_000_000

  /** The bytes the reader can still produce before end of stream. */
  function Avail(r: Reader): bytes {
    if r == [] || r[0] == [] then [] else r[0] + Avail(r[1..])
  }

  /**
   * `reader.read(k)`: at most `k` bytes of the first buffered chunk; the part
   * of the chunk that does not fit stays buffered for the next read. At end of
   * stream it returns nothing and stays there.
   */
  function ReadChunk(r: Reader, k: nat): (res: (bytes, Reader))
    requires k > 0
    ensures |res.0| <= k
    ensures res.0 == [] <==> Avail(r) == []
    ensures res.0 + Avail(res.1) == Avail(r)
  {
    if r == [] || r[0] == [] then ([], r)
    else if |r[0]| <= k then (r[0], r[1..])
    else
      var rest := [r[0][k..]] + r[1..];
      assert Avail(rest) == r[0][k..] + Avail(r[1..]);
      assert r[0] == r[0][..k] + r[0][k..];
      (r[0][..k], rest)
  }

  /** The outcome of `_read_exact`: the bytes and the reader after them, or `ConnectionError`. */
  datatype ReadResult = Got(data: bytes, rest: Reader) | ConnectionClosed

  /**
   * The loop of `_read_exact` with `data` read so far: ask for the bytes
   * still missing, fail on an empty chunk, append otherwise.
   */
  function ReadInto(r: Reader, n: nat, data: bytes): (res: ReadResult)
    requires |data| <= n
    decreases n - |data|
    ensures res.Got? <==> |data| + |Avail(r)| >= n
    ensures res.Got? ==> res.data == data + Avail(r)[..n - |data|]
    ensures res.Got? ==> Avail(res.rest) == Avail(r)[n - |data|..]
  {
    if |data| >= n then
      Got(data, r)
    else
      var (chunk, r') := ReadChunk(r, n - |data|);
      if chunk == [] then
        ConnectionClosed
      else
        var res := ReadInto(r', n, data + chunk);
        assert Avail(r) == chunk + Avail(r');
        if res.Got? then
          var m := n - |data| - |chunk|;
          assert Avail(r)[..n - |data|] == chunk + Avail(r')[..m];
          assert Avail(r)[n - |data|..] == Avail(r')[m..];
          res
        else
          res
  }

  /**
   * `_read_exact(reader, n)`: exactly `n` bytes, which are the next `n` bytes
   * of the stream in order, however they were chunked; `ConnectionError` when
   * the stream ends first.
   */
  function ReadExact(r: Reader, n: nat): (res: ReadResult)
    ensures res.Got? <==> |Avail(r)| >= n
    ensures res.Got? ==> |res.data| == n && res.data == Avail(r)[..n]
    ensures res.Got? ==> Avail(r) == res.data + Avail(res.rest)
  {
    var res := ReadInto(r, n, []);
    if res.Got? then
      assert Avail(r) == Avail(r)[..n] + Avail(r)[n..];
      res
    else
      res
  }

  /** The length check in `tcp_client`, negated: a header passes unless it is 0 or above the limit. */
  predicate AcceptedLength(length: nat) {
    !(length == 0 || length > MAX_FRAME_LENGTH)
  }

  /** The accepted lengths are exactly 1 to 1,000,000, both ends included. */
  lemma AcceptedLengthRange(length: nat)
    ensures AcceptedLength(length) <==> 1 <= length <= MAX_FRAME_LENGTH
  {
  }

  /** The declared length in the first four bytes of `s`. */
  function HeaderOf(s: bytes): nat
    requires |s| >= 4
  {
    DecodeUint32(s[..4])
  }

  /** One pass of the read loop in `tcp_client`, up to the payload. */
  datatype FrameRead =
    | Frame(payload: bytes, rest: Reader)
    | BadLength(length: nat, rest: Reader)
    | Closed

  /**
   * Header, length check, payload. A refused length ends the pass right after
   * the header: no payload byte is read.
   */
  function ReadFrame(r: Reader): (f: FrameRead)
    ensures f.Closed? <==>
      |Avail(r)| < 4 || (AcceptedLength(HeaderOf(Avail(r))) && |Avail(r)| < 4 + HeaderOf(Avail(r)))
    ensures f.BadLength? <==> |Avail(r)| >= 4 && !AcceptedLength(HeaderOf(Avail(r)))
    ensures f.BadLength? ==> f.length == HeaderOf(Avail(r)) && Avail(f.rest) == Avail(r)[4..]
    ensures f.Frame? ==>
      && 0 < |f.payload| <= MAX_FRAME_LENGTH
      && |Avail(r)| >= 4 + |f.payload|
      && HeaderOf(Avail(r)) == |f.payload|
      && f.payload == Avail(r)[4..4 + |f.payload|]
      && Avail(f.rest) == Avail(r)[4 + |f.payload|..]
  {
    match ReadExact(r, 4)
    case ConnectionClosed => Closed
    case Got(header, r1) =>
      var length := DecodeUint32(header);
      assert HeaderOf(Avail(r)) == length;
      assert Avail(r1) == Avail(r)[4..];
      if !AcceptedLength(length) then
        BadLength(length, r1)
      else
        PayloadAfterHeader(r, r1, length)
  }

  /** The payload read that follows an accepted header. */
  function PayloadAfterHeader(r: Reader, r1: Reader, length: nat): (f: FrameRead)
    requires |Avail(r)| >= 4 && Avail(r1) == Avail(r)[4..]
    ensures f.Closed? <==> |Avail(r)| < 4 + length
    ensures !f.BadLength?
    ensures f.Frame? ==>
      && |f.payload| == length
      && f.payload == Avail(r)[4..4 + length]
      && Avail(f.rest) == Avail(r)[4 + length..]
  {
    match ReadExact(r1, length)
    case ConnectionClosed => Closed
    case Got(payload, r2) =>
      assert Avail(r)[4..4 + length] == Avail(r1)[..length];
      assert Avail(r)[4 + length..] == Avail(r1)[length..];
      Frame(payload, r2)
  }

  /**
   * `struct.pack("!I", len(payload)) + payload`, or nothing where `struct.pack`
   * raises because the length does not fit in 32 bits.
   */
  function EncodeFrame(payload: bytes): (f: Option<bytes>)
    ensures f.Some? <==> |payload| < UINT32_LIMIT
    ensures f.Some? ==> |f.value| == 4 + |payload| && HeaderOf(f.value) == |payload| && f.value[4..] == payload
  {
    if |payload| < UINT32_LIMIT then
      var f := EncodeUint32(|payload|) + payload;
      assert f[..4] == EncodeUint32(|payload|);
      Some(f)
    else
      None
  }

  /** Payloads a receiver accepts. */
  predicate Sendable(payload: bytes) {
    0 < |payload| <= MAX_FRAME_LENGTH
  }

  /**
   * Framing round trip: whatever follows it and however the stream is chunked,
   * an encoded acceptable payload is read back as itself, and the reader is
   * left exactly after it.
   */
  lemma FrameRoundTrip(payload: bytes, r: Reader, tail: bytes)
    requires Sendable(payload)
    requires Avail(r) == EncodeFrame(payload).value + tail
    ensures ReadFrame(r).Frame?
    ensures ReadFrame(r).payload == payload
    ensures Avail(ReadFrame(r).rest) == tail
  {
    var s := EncodeFrame(payload).value;
    assert Avail(r)[..4] == s[..4];
    assert Avail(r)[4..4 + |payload|] == s[4..];
    assert Avail(r)[4 + |payload|..] == tail;
  }

  /** A stream carrying `payloads` back to back, each framed. */
  function Frames(payloads: seq<bytes>): (s: bytes)
    requires forall i :: 0 <= i < |payloads| ==> Sendable(payloads[i])
  {
    if payloads == [] then []
    else
      assert Sendable(payloads[0]);
      EncodeFrame(payloads[0]).value + Frames(payloads[1..])
  }
}
