/**
 * Bytes as the provider's sockets see them, and the fixed-width
 * little-endian unsigned integers that Node's `Buffer.writeUInt32LE`
 * writes.
 */
module Bytes {

  /** One octet of a Node `Buffer`. */
  type byte = x: int | 0 <= x < 256

  /** The exclusive upper bound of an unsigned 32-bit integer. */
  const UInt32Limit: nat := 0x1_0000_0000

  /** 256 to the power `k`: the number of values `k` bytes can hold. */
  function Pow256(k: nat): (p: nat)
    ensures p >= 1
  {
    if k == 0 then 1 else 256 * Pow256(k - 1)
  }

  /** The `width` least significant bytes of `n`, least significant first. */
  function EncodeLE(n: nat, width: nat): (b: seq<byte>)
    ensures |b| == width
  {
    if width == 0 then [] else [n % 256] + EncodeLE(n / 256, width - 1)
  }

  /** The unsigned integer whose little-endian bytes are `b`. */
  function DecodeLE(b: seq<byte>): (n: nat)
    ensures n < Pow256(|b|)
  {
    if b == [] then 0 else b[0] + 256 * DecodeLE(b[1..])
  }

  /** Decoding undoes encoding for every value that fits the width. */
  lemma {:induction false} DecodeEncodeLE(n: nat, width: nat)
    requires n < Pow256(width)
    ensures DecodeLE(EncodeLE(n, width)) == n
  {
    if width > 0 {
      assert n / 256 < Pow256(width - 1);
      DecodeEncodeLE(n / 256, width - 1);
      assert EncodeLE(n, width)[1..] == EncodeLE(n / 256, width - 1);
    }
  }

  /** Encoding undoes decoding: every byte sequence is the encoding of its value. */
  lemma {:induction false} EncodeDecodeLE(b: seq<byte>)
    ensures EncodeLE(DecodeLE(b), |b|) == b
  {
    if b != [] {
      var n := DecodeLE(b);
      assert n % 256 == b[0] && n / 256 == DecodeLE(b[1..]);
      EncodeDecodeLE(b[1..]);
    }
  }

  /**
   * The four bytes `writeUInt32LE(n)` stores into a fresh 4-byte buffer:
   * they decode back to `n`.
   */
  function LE4(n: nat): (b: seq<byte>)
    requires n < UInt32Limit
    ensures |b| == 4 && DecodeLE(b) == n
  {
    assert Pow256(4) == UInt32Limit;
    DecodeEncodeLE(n, 4);
    EncodeLE(n, 4)
  }

  /** Two identifiers below 2^32 never share a 4-byte prefix. */
  lemma LE4Injective(m: nat, n: nat)
    requires m < UInt32Limit && n < UInt32Limit
    ensures LE4(m) == LE4(n) <==> m == n
  {
  }

  /**
   * The one-byte zero buffer: the liveness probe on the server side and
   * the only acknowledgement the registry side accepts
   * (`buf.length == 1 && buf.readUInt8() === 0`).
   */
  predicate IsZeroByte(buf: seq<byte>)
  {
    |buf| == 1 && buf[0] == 0
  }

  /** The check accepts exactly the buffer `[0]`. */
  lemma ZeroByteIsExactlyZero(buf: seq<byte>)
    ensures IsZeroByte(buf) <==> buf == [0]
  {
  }
}
