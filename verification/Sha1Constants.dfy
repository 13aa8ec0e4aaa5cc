/** Where the constants and the byte order of SHA-1 come from. */
module Sha1Constants {
  import opened Sha1Spec

  /** `k` is the integer part of 2^30 times the square root of `n`. */
  predicate IsRoot(k: nat, n: nat) { k * k <= n * 0x1000_0000_0000_0000 < (k + 1) * (k + 1) }

  /** Each of the four round constants is 2^30 times a square root, rounded down: of 2, 3, 5 and 10. */
  lemma ConstantsAreRoots(t: nat)
    requires t < 80
    ensures IsRoot(K(t) as nat, if t < 20 then 2 else if t < 40 then 3 else if t < 60 then 5 else 10)
  {}

  /** The initial words are the bytes 01 23 45 67 and so on up, down again, and a last five. */
  lemma InitialWords()
    ensures IV == Regs(LittleEndian(0x01, 0x23, 0x45, 0x67), LittleEndian(0x89, 0xAB, 0xCD, 0xEF), LittleEndian(0xFE, 0xDC, 0xBA, 0x98),
                       LittleEndian(0x76, 0x54, 0x32, 0x10), LittleEndian(0xF0, 0xE1, 0xD2, 0xC3))
  {}

  /** A word is written with its most significant byte first, and read so. */
  lemma WordsAreBigEndian(b0: Byte, b1: Byte, b2: Byte, b3: Byte)
    ensures WordBytes(BigEndian(b0, b1, b2, b3)) == [b0, b1, b2, b3]
    ensures BigEndian(0x01, 0x23, 0x45, 0x67) == 0x01234567
  {}

  lemma LowByteIs(a: nat, b: nat, x: nat)
    requires x == a * 256 + b && b < 256
    ensures LowByte(x) == b as Byte
  {
    RestIs(a, b, x);
  }

  lemma RestIs(a: nat, b: nat, x: nat)
    requires x == a * 256 + b && b < 256
    ensures x % 256 == b
  {}

  lemma Quotients(n: nat, d3: nat, d2: nat, d1: nat, d0: nat)
    requires d3 < 256 && d2 < 256 && d1 < 256 && d0 < 256 && n == d3 * 0x100_0000 + d2 * 0x1_0000 + d1 * 0x100 + d0
    ensures n / 0x100_0000 == d3 && n / 0x1_0000 == d3 * 0x100 + d2 && n / 0x100 == d3 * 0x1_0000 + d2 * 0x100 + d1
  {}

  /** A number is written in base 256 with its most significant digit first. */
  lemma NumbersAreBigEndian(d3: nat, d2: nat, d1: nat, d0: nat)
    requires d3 < 256 && d2 < 256 && d1 < 256 && d0 < 256
    ensures NumberBytes(d3 * 0x100_0000 + d2 * 0x1_0000 + d1 * 0x100 + d0) == [d3 as Byte, d2 as Byte, d1 as Byte, d0 as Byte]
  {
    hide LowByte;
    var n := d3 * 0x100_0000 + d2 * 0x1_0000 + d1 * 0x100 + d0;
    Quotients(n, d3, d2, d1, d0);
    LowByteIs(0, d3, n / 0x100_0000);
    LowByteIs(d3, d2, n / 0x1_0000);
    LowByteIs(d3 * 0x100 + d2, d1, n / 0x100);
    LowByteIs(d3 * 0x1_0000 + d2 * 0x100 + d1, d0, n);
  }
}
