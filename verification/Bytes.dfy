/** Bytes, the native 32-bit length prefix, and the frame that every message travels in. */
module Bytes {

  type byte = x: int | 0 <= x < 256

  const INT_SIZE := 4
  const INT_LIMIT := 0x8000_0000
  const CHUNK := 1024

  function Min(a: int, b: int): int {
    if a <= b then a else b
  }

  /** A C++ `int`: 32 bits, two's complement. */
  predicate IsInt32(n: int) {
    -INT_LIMIT <= n < INT_LIMIT
  }

  /** The four bytes of a native (little-endian) int. */
  function EncodeInt(n: int): (b: seq<byte>)
    requires IsInt32(n)
    ensures |b| == INT_SIZE
  {
    var u := if n < 0 then n + 0x1_0000_0000 else n;
    [u % 256, (u / 0x100) % 256, (u / 0x1_0000) % 256, u / 0x100_0000]
  }

  function Unsigned(b0: int, b1: int, b2: int, b3: int): int {
    b0 + 0x100 * b1 + 0x1_0000 * b2 + 0x100_0000 * b3
  }

  function DecodeInt(b: seq<byte>): (n: int)
    requires |b| == INT_SIZE
    ensures IsInt32(n)
  {
    var u := Unsigned(b[0], b[1], b[2], b[3]);
    if u >= INT_LIMIT then u - 0x1_0000_0000 else u
  }

  lemma DecodeEncode(n: int)
    requires IsInt32(n)
    ensures DecodeInt(EncodeInt(n)) == n
  {
    var u := if n < 0 then n + 0x1_0000_0000 else n;
    var q1 := u / 0x100;
    var q2 := q1 / 0x100;
    assert q1 / 0x100 == u / 0x1_0000 && q2 / 0x100 == u / 0x100_0000;
  }

  /** The byte at address k weighs 256 to the power k, in two's complement. */
  lemma LittleEndian(n: int)
    requires IsInt32(n)
    ensures var b := EncodeInt(n);
            n == b[0] as int + b[1] as int * 256 + b[2] as int * 65536 + b[3] as int * 16777216
                 - (if b[3] >= 128 then 4294967296 else 0)
  {
    DecodeEncode(n);
  }

  /** A message that may be framed: the buffers assert a positive size held in an int. */
  predicate Sendable(msg: seq<byte>) {
    0 < |msg| && |msg| + INT_SIZE < INT_LIMIT
  }

  function Frame(msg: seq<byte>): (f: seq<byte>)
    requires Sendable(msg)
    ensures |f| == INT_SIZE + |msg|
  {
    EncodeInt(|msg|) + msg
  }

  /** A frame is four bytes of length and then the message. */
  lemma FrameParts(msg: seq<byte>)
    requires Sendable(msg)
    ensures |Frame(msg)| == 4 + |msg| && Frame(msg)[4..] == msg && DecodeInt(Frame(msg)[..4]) == |msg|
  {
    DecodeEncode(|msg|);
    assert Frame(msg)[..4] == EncodeInt(|msg|);
  }

  /** A frame determines its message, and no frame is a proper prefix of another. */
  lemma FramePrefixFree(m1: seq<byte>, m2: seq<byte>, r1: seq<byte>, r2: seq<byte>)
    requires Sendable(m1) && Sendable(m2)
    requires Frame(m1) + r1 == Frame(m2) + r2
    ensures m1 == m2 && r1 == r2
  {
    var s := Frame(m1) + r1;
    assert s[..INT_SIZE] == EncodeInt(|m1|) && s[..INT_SIZE] == EncodeInt(|m2|);
    DecodeEncode(|m1|);
    DecodeEncode(|m2|);
    assert m1 == s[INT_SIZE..INT_SIZE + |m1|] && m2 == s[INT_SIZE..INT_SIZE + |m2|];
    assert r1 == s[INT_SIZE + |m1|..] && r2 == s[INT_SIZE + |m2|..];
  }

  function Flatten(parts: seq<seq<byte>>): seq<byte> {
    if parts == [] then [] else parts[0] + Flatten(parts[1..])
  }

  /** The number of chunks of at most CHUNK bytes that n bytes need: n / CHUNK rounded up. */
  function Chunks(n: nat): nat {
    (n + CHUNK - 1) / CHUNK
  }

  /** That is the least number of 1024-byte chunks with room for n bytes. */
  lemma ChunksLeast(n: nat)
    ensures n <= 1024 * Chunks(n) < n + 1024
  {
  }
}
