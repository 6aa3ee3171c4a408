/**
 * Bytes and the 4-byte big-endian unsigned integer used as the frame header
 * (`struct.pack("!I", n)` and `struct.unpack("!I", b)`).
 */
module Bytes {

  type byte = x: int | 0 <= x < 0x100
  type bytes = seq<byte>

  /** One more than the largest value a `!I` header can carry. */
  const UINT32_LIMIT: int := 0x1_0000_0000

  /** `struct.unpack("!I", b)[0]`: most significant byte first. */
  function DecodeUint32(b: bytes): (n: nat)
    requires |b| == 4
    ensures n < UINT32_LIMIT
  {
    b[0] as int * 0x100_0000 + b[1] as int * 0x1_0000 + b[2] as int * 0x100 + b[3] as int
  }

  /**
   * `struct.pack("!I", n)`, which raises `struct.error` outside [0, 2^32);
   * callers check the range first (see `Framing.EncodeFrame`).
   */
  function EncodeUint32(n: nat): (b: bytes)
    requires n < UINT32_LIMIT
    ensures |b| == 4
    ensures DecodeUint32(b) == n
  {
    var b := [n / 0x100_0000, n / 0x1_0000 % 0x100, n / 0x100 % 0x100, n % 0x100];
    DecodeOfDigits(n);
    b
  }

  lemma DecodeOfDigits(n: nat)
    requires n < UINT32_LIMIT
    ensures n / 0x100_0000 * 0x100_0000 + n / 0x1_0000 % 0x100 * 0x1_0000
            + n / 0x100 % 0x100 * 0x100 + n % 0x100 == n
  {
    var q1 := n / 0x100;
    var q2 := q1 / 0x100;
    var q3 := q2 / 0x100;
    assert n == q1 * 0x100 + n % 0x100;
    assert q1 == q2 * 0x100 + q1 % 0x100;
    assert q2 == q3 * 0x100 + q2 % 0x100;
    assert n / 0x1_0000 == q2;
    assert n / 0x100_0000 == q3;
  }

  /** The other direction of the round trip: every 4-byte header re-encodes to itself. */
  lemma EncodeDecode(b: bytes)
    requires |b| == 4
    ensures EncodeUint32(DecodeUint32(b)) == b
  {
    var n := DecodeUint32(b);
    var e := EncodeUint32(n);
    assert n == ((b[0] as int * 0x100 + b[1]) * 0x100 + b[2]) * 0x100 + b[3];
    assert n / 0x100 == (b[0] as int * 0x100 + b[1]) * 0x100 + b[2];
    assert n / 0x1_0000 == b[0] as int * 0x100 + b[1];
    assert e[3] == b[3];
    assert e[2] == b[2];
    assert e[1] == b[1];
    assert e[0] == b[0];
  }

  /** Two headers that decode to the same length are the same bytes. */
  lemma DecodeInjective(a: bytes, b: bytes)
    requires |a| == 4 && |b| == 4
    requires DecodeUint32(a) == DecodeUint32(b)
    ensures a == b
  {
    EncodeDecode(a);
    EncodeDecode(b);
  }
}
