/** HMAC over SHA-1 as section 2 of RFC 2104 defines it, and the object that computes it in shared scratch buffers. */
module HmacSpec {
  import opened Sha1Spec

  const BLOCK_SIZE := 64
  const DIGEST_LENGTH := 20

  function Xor(x: Byte, y: Byte): Byte { x ^ y }

  function XorPad(k: seq<Byte>, pad: Byte): (x: seq<Byte>)
    ensures |x| == |k|
  {
    seq(|k|, i requires 0 <= i < |k| => Xor(k[i], pad))
  }

  /** The key made block-sized: hashed first when longer than a block, then filled with zeros. */
  function BlockKey(key: seq<Byte>): (k: seq<Byte>)
    ensures |k| == BLOCK_SIZE
  {
    if |key| > BLOCK_SIZE then Sha1(key) + Zeros(BLOCK_SIZE - DIGEST_LENGTH) else key + Zeros(BLOCK_SIZE - |key|)
  }

  function Hmac(key: seq<Byte>, text: seq<Byte>): (d: seq<Byte>)
    ensures |d| == DIGEST_LENGTH
  {
    var k := BlockKey(key);
    Sha1(XorPad(k, 0x5c) + Sha1(XorPad(k, 0x36) + text))
  }
}
