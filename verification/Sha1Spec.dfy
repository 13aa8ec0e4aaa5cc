/** SHA-1 as sections 5.1.1, 6.1.1 and 6.1.2 of FIPS 180-4 state it, over bytes. */
module Sha1Spec {
  type Word = bv32
  type Byte = bv8

  /** The five working variables, or the five words of an intermediate hash value. */
  datatype Regs = Regs(a: Word, b: Word, c: Word, d: Word, e: Word)

  const IV := Regs(0x67452301, 0xEFCDAB89, 0x98BADCFE, 0x10325476, 0xC3D2E1F0)

  function Rotl1(x: Word): Word { (x << 1) | (x >> 31) }
  function Rotl5(x: Word): Word { (x << 5) | (x >> 27) }
  function Rotl30(x: Word): Word { (x << 30) | (x >> 2) }

  function Ch(x: Word, y: Word, z: Word): Word { (x & y) ^ (!x & z) }
  function Parity(x: Word, y: Word, z: Word): Word { x ^ y ^ z }
  function Maj(x: Word, y: Word, z: Word): Word { (x & y) ^ (x & z) ^ (y & z) }

  function F(t: nat, x: Word, y: Word, z: Word): Word {
    if t < 20 then Ch(x, y, z) else if t < 40 then Parity(x, y, z) else if t < 60 then Maj(x, y, z) else Parity(x, y, z)
  }

  function K(t: nat): Word {
    if t < 20 then 0x5A827999 else if t < 40 then 0x6ED9EBA1 else if t < 60 then 0x8F1BBCDC else 0xCA62C1D6
  }

  function BigEndian(b0: Byte, b1: Byte, b2: Byte, b3: Byte): Word {
    (b0 as Word << 24) | (b1 as Word << 16) | (b2 as Word << 8) | b3 as Word
  }

  function LittleEndian(b0: Byte, b1: Byte, b2: Byte, b3: Byte): Word {
    BigEndian(b3, b2, b1, b0)
  }

  function ScheduleMix(w3: Word, w8: Word, w14: Word, w16: Word): Word { Rotl1(w3 ^ w8 ^ w14 ^ w16) }

  /** The message schedule. */
  function W(block: seq<Byte>, t: nat): Word
    requires |block| == 64
  {
    if t < 16 then BigEndian(block[4 * t], block[4 * t + 1], block[4 * t + 2], block[4 * t + 3])
    else ScheduleMix(W(block, t - 3), W(block, t - 8), W(block, t - 14), W(block, t - 16))
  }

  function Sum5(p: Word, q: Word, r: Word, s: Word, t: Word): Word { p + q + r + s + t }

  function Round(r: Regs, t: nat, w: Word): Regs {
    Regs(Sum5(Rotl5(r.a), F(t, r.b, r.c, r.d), r.e, K(t), w), r.a, Rotl30(r.b), r.c, r.d)
  }

  /** The working variables after the first `t` rounds. */
  function Rounds(h: Regs, block: seq<Byte>, t: nat): Regs
    requires |block| == 64
  {
    if t == 0 then h else Round(Rounds(h, block, t - 1), t - 1, W(block, t - 1))
  }

  /** Addition modulo 2^32. */
  function Plus(x: Word, y: Word): Word { x + y }

  function AddRegs(h: Regs, r: Regs): Regs {
    Regs(Plus(h.a, r.a), Plus(h.b, r.b), Plus(h.c, r.c), Plus(h.d, r.d), Plus(h.e, r.e))
  }

  function Compress(h: Regs, block: seq<Byte>): Regs
    requires |block| == 64
  {
    AddRegs(h, Rounds(h, block, 80))
  }

  /** All whole blocks of `m` compressed into `h`; a trailing partial block is left out. */
  function Blocks(h: Regs, m: seq<Byte>): Regs
    decreases |m|
  {
    if |m| < 64 then h else Blocks(Compress(h, m[..64]), m[64..])
  }

  function Zeros(n: nat): (z: seq<Byte>)
    ensures |z| == n
  {
    if n == 0 then [] else Zeros(n - 1) + [0]
  }

  const TWO32: nat := 0x1_0000_0000
  const TWO64: nat := 0x1_0000_0000_0000_0000

  function LowByte(n: nat): Byte { (n % 256) as Byte }

  /** The four bytes of a 32-bit number, most significant first. */
  function NumberBytes(n: nat): (s: seq<Byte>)
    ensures |s| == 4
  {
    [LowByte(n / 0x100_0000), LowByte(n / 0x1_0000), LowByte(n / 0x100), LowByte(n)]
  }

  /** The bit length of a message of `n` bytes as a 64-bit big-endian number. */
  function LengthBytes(n: nat): (s: seq<Byte>)
    ensures |s| == 8
  {
    NumberBytes(8 * n / TWO32 % TWO32) + NumberBytes(8 * n % TWO32)
  }

  /** How many zero bytes the padding of `n` message bytes holds. */
  function ZeroCount(n: nat): (k: nat)
    ensures k < 64 && (n + 1 + k + 8) % 64 == 0
  {
    (119 - n % 64) % 64
  }

  function Pad(m: seq<Byte>): (p: seq<Byte>)
    ensures |p| % 64 == 0
  {
    m + [0x80] + Zeros(ZeroCount(|m|)) + LengthBytes(|m|)
  }

  function WordBytes(w: Word): (s: seq<Byte>)
    ensures |s| == 4
  {
    [((w >> 24) & 0xFF) as Byte, ((w >> 16) & 0xFF) as Byte, ((w >> 8) & 0xFF) as Byte, (w & 0xFF) as Byte]
  }

  function RegsBytes(r: Regs): (s: seq<Byte>)
    ensures |s| == 20
  {
    WordBytes(r.a) + WordBytes(r.b) + WordBytes(r.c) + WordBytes(r.d) + WordBytes(r.e)
  }

  function Sha1(m: seq<Byte>): (d: seq<Byte>)
    ensures |d| == 20
  {
    RegsBytes(Blocks(IV, Pad(m)))
  }

  /** Hashing can stop and resume at any block boundary. */
  lemma {:induction false} BlocksSplit(h: Regs, m: seq<Byte>, n: seq<Byte>)
    requires |m| % 64 == 0
    ensures Blocks(h, m + n) == Blocks(Blocks(h, m), n)
    decreases |m|
  {
    hide Compress;
    if m == [] {
      assert m + n == n;
    } else {
      assert (m + n)[..64] == m[..64] && (m + n)[64..] == m[64..] + n;
      BlocksSplit(Compress(h, m[..64]), m[64..], n);
    }
  }

  lemma {:induction false} BlocksPartial(h: Regs, m: seq<Byte>, n: seq<Byte>)
    requires |m| % 64 == 0 && |n| < 64
    ensures Blocks(h, m + n) == Blocks(h, m)
  {
    hide Compress;
    BlocksSplit(h, m, n);
  }

  lemma {:induction false} BlocksOneMore(h: Regs, m: seq<Byte>, b: seq<Byte>)
    requires |m| % 64 == 0 && |b| == 64
    ensures Blocks(h, m + b) == Compress(Blocks(h, m), b)
  {
    hide Compress;
    BlocksSplit(h, m, b);
    assert b[..64] == b && b[64..] == [];
  }

  /** The bytes of `m` after its last whole block. */
  function Tail(m: seq<Byte>): (t: seq<Byte>)
    ensures |t| == |m| % 64
  {
    m[|m| - |m| % 64..]
  }

  /** Bytes that do not complete a block change nothing yet. */
  lemma {:induction false} BlocksNotFilled(h: Regs, m: seq<Byte>, x: seq<Byte>)
    requires |m| % 64 + |x| < 64
    ensures Blocks(h, m + x) == Blocks(h, m) && Tail(m + x) == Tail(m) + x
  {
    hide Blocks;
    var full := m[..|m| - |m| % 64];
    assert m == full + Tail(m) && m + x == full + (Tail(m) + x);
    BlocksPartial(h, full, Tail(m));
    BlocksPartial(h, full, Tail(m) + x);
  }

  /** Bytes that complete the block compress it. */
  lemma {:induction false} BlocksFilled(h: Regs, m: seq<Byte>, x: seq<Byte>)
    requires |m| % 64 + |x| == 64
    ensures Blocks(h, m + x) == Compress(Blocks(h, m), Tail(m) + x) && Tail(m + x) == []
  {
    hide Blocks;
    hide Compress;
    var full := m[..|m| - |m| % 64];
    assert m == full + Tail(m) && m + x == full + (Tail(m) + x);
    BlocksPartial(h, full, Tail(m));
    BlocksOneMore(h, full, Tail(m) + x);
  }
}
