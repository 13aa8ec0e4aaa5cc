/** The byte-at-a-time SHA-1 of the web framework, with its 80-word schedule and shifting registers. */
module CrowSha1 {
  import opened Sha1Spec
  import opened Sha1Steps

  /** The rotation as this implementation writes it. */
  function LeftRotate1(x: Word): Word { (x << 1) ^ (x >> 31) }
  function LeftRotate5(x: Word): Word { (x << 5) ^ (x >> 27) }
  function LeftRotate30(x: Word): Word { (x << 30) ^ (x >> 2) }

  lemma RotationsAgree(x: Word)
    ensures LeftRotate1(x) == Rotl1(x) && LeftRotate5(x) == Rotl5(x) && LeftRotate30(x) == Rotl30(x)
  {}

  function ChooseOr(b: Word, c: Word, d: Word): Word { (b & c) | (!b & d) }
  function MajorityOr(b: Word, c: Word, d: Word): Word { (b & c) | (b & d) | (c & d) }

  function LoopF(t: nat, b: Word, c: Word, d: Word): Word {
    if t < 20 then ChooseOr(b, c, d) else if t < 40 then Parity(b, c, d)
    else if t < 60 then MajorityOr(b, c, d) else Parity(b, c, d)
  }

  lemma ChooseAgrees(b: Word, c: Word, d: Word)
    ensures ChooseOr(b, c, d) == Ch(b, c, d)
  {
    assert (b & c) | (!b & d) == (b & c) ^ (!b & d);
  }

  lemma MajorityAgrees(b: Word, c: Word, d: Word)
    ensures MajorityOr(b, c, d) == Maj(b, c, d)
  {
    assert (b & c) | (b & d) | (c & d) == (b & c) ^ (b & d) ^ (c & d);
  }

  lemma LoopFIsF(t: nat, b: Word, c: Word, d: Word)
    ensures LoopF(t, b, c, d) == F(t, b, c, d)
  {
    hide Ch;
    hide ChooseOr;
    hide Maj;
    hide MajorityOr;
    hide Parity;
    ChooseAgrees(b, c, d);
    MajorityAgrees(b, c, d);
  }

  function LoopK(t: nat): Word {
    if t < 20 then 0x5A827999 else if t < 40 then 0x6ED9EBA1 else if t < 60 then 0x8F1BBCDC else 0xCA62C1D6
  }

  lemma LoopKIsK(t: nat)
    ensures LoopK(t) == K(t)
  {}

  /** Four bytes of the block, put together from the left. */
  function Loaded(b0: Byte, b1: Byte, b2: Byte, b3: Byte): Word {
    (((b0 as Word << 24) | (b1 as Word << 16)) | (b2 as Word << 8)) | b3 as Word
  }

  lemma LoadedIsBigEndian(b0: Byte, b1: Byte, b2: Byte, b3: Byte)
    ensures Loaded(b0, b1, b2, b3) == BigEndian(b0, b1, b2, b3)
  {}

  function ScheduleRotate(w3: Word, w8: Word, w14: Word, w16: Word): Word { LeftRotate1(w3 ^ w8 ^ w14 ^ w16) }

  lemma ScheduleAgrees(w3: Word, w8: Word, w14: Word, w16: Word)
    ensures ScheduleRotate(w3, w8, w14, w16) == ScheduleMix(w3, w8, w14, w16)
  {
    RotationsAgree(w3 ^ w8 ^ w14 ^ w16);
  }

  lemma RoundAgrees(r: Regs, t: nat, w: Word)
    ensures Round(r, t, w)
            == Regs(Sum5(LeftRotate5(r.a), LoopF(t, r.b, r.c, r.d), r.e, LoopK(t), w), r.a, LeftRotate30(r.b), r.c, r.d)
  {
    LoopFIsF(t, r.b, r.c, r.d);
    LoopKIsK(t);
    RotationsAgree(r.a);
    RotationsAgree(r.b);
    hide Sum5;
    hide F;
    hide K;
    hide LoopF;
    hide LoopK;
  }

  /** The padding this implementation appends: only the low 32 bits of the bit length are written. */
  function ShortPad(m: seq<Byte>): (p: seq<Byte>)
    ensures |p| % 64 == 0
  {
    m + [0x80] + Zeros(ZeroCount(|m|)) + (Zeros(4) + NumberBytes(8 * |m| % TWO32))
  }

  lemma ByteZero(x: nat)
    requires x < 256 && x as Byte == 0
    ensures x == 0
  {}

  lemma NumberBytesZero(n: nat)
    requires n < TWO32
    ensures NumberBytes(n) == Zeros(4) <==> n == 0
  {
    assert Zeros(4) == [0, 0, 0, 0] by { assert Zeros(2) == [0, 0]; assert Zeros(3) == [0, 0, 0]; }
    if NumberBytes(n) == Zeros(4) {
      var s := NumberBytes(n);
      assert s[0] == 0 && s[1] == 0 && s[2] == 0 && s[3] == 0;
      ByteZero(n / 0x100_0000 % 256);
      ByteZero(n / 0x1_0000 % 256);
      ByteZero(n / 0x100 % 256);
      ByteZero(n % 256);
    }
  }

  lemma DifferInTheMiddle(front: seq<Byte>, a: seq<Byte>, b: seq<Byte>, low: seq<Byte>)
    requires |a| == |b|
    ensures front + (a + low) == front + (b + low) <==> a == b
  {
    var x, y := front + (a + low), front + (b + low);
    assert x[|front|..|front| + |a|] == a && y[|front|..|front| + |b|] == b;
  }

  /** It is the standard's padding exactly when the bit length, taken modulo 2^64, is below 2^32. */
  lemma ShortPadIsPad(m: seq<Byte>)
    ensures ShortPad(m) == Pad(m) <==> 8 * |m| % TWO64 < TWO32
  {
    hide NumberBytes;
    hide Zeros;
    hide ZeroCount;
    var hi := 8 * |m| / TWO32 % TWO32;
    NumberBytesZero(hi);
    DifferInTheMiddle(m + [0x80] + Zeros(ZeroCount(|m|)), Zeros(4), NumberBytes(hi), NumberBytes(8 * |m| % TWO32));
    HighPartZero(8 * |m|);
  }

  lemma HighPartZero(n: nat)
    ensures n / TWO32 % TWO32 == 0 <==> n % TWO64 < TWO32
  {
    var q, r := n / TWO64, n % TWO64;
    assert n == q * TWO32 * TWO32 + r;
    assert n / TWO32 == q * TWO32 + r / TWO32;
    assert r / TWO32 < TWO32;
  }

  /** The shortest messages that are padded wrongly: 2^29 bytes. */
  lemma ShortPadFails(m: seq<Byte>)
    requires |m| == 0x2000_0000
    ensures ShortPad(m) != Pad(m)
  {
    ShortPadIsPad(m);
  }

  /** How many bytes bring the block index from `i` to `stop`. */
  function ToGo(i: nat, stop: nat): (n: nat)
    requires i < 64 && stop < 64
  {
    if i <= stop then stop - i else 64 + stop - i
  }

  lemma ToGoStep(i: nat, stop: nat)
    requires i < 64 && stop < 64 && i != stop
    ensures ToGo(i, stop) == ToGo((i + 1) % 64, stop) + 1
  {}

  lemma ToGoNone(stop: nat)
    requires stop < 64
    ensures ToGo(stop, stop) == 0
  {}

  lemma ZerosToGo(n: nat)
    ensures var i := (n + 1) % 64;
            ZeroCount(n) == if i > 56 then ToGo(i, 0) + ToGo(0, 56) else ToGo(i, 56)
  {
    var r := n % 64;
    assert (n + 1) % 64 == if r == 63 then 0 else r + 1;
    assert ZeroCount(n) == if r <= 55 then 55 - r else 119 - r;
  }

  lemma LowBits(n: nat)
    ensures n % TWO64 * 8 % TWO64 % TWO32 == 8 * n % TWO32
  {
    var q := n / TWO64;
    assert 8 * n == 8 * q * TWO64 + n % TWO64 * 8;
    var x := n % TWO64 * 8;
    var p := x / TWO64;
    assert x == p * TWO64 + x % TWO64;
    assert 8 * n == (8 * q + p) * TWO32 * TWO32 + x % TWO64;
    SameRest(8 * n, x % TWO64, (8 * q + p) * TWO32);
  }

  lemma SameRest(x: nat, y: nat, k: nat)
    requires x == k * TWO32 + y
    ensures x % TWO32 == y % TWO32
  {}

  class SHA1 {
    const digest: array<Word>
    const block: array<Byte>
    var blockByteIndex: nat
    var byteCount: nat

    ghost predicate Valid()
      reads this
    {
      digest.Length == 5 && block.Length == 64 && blockByteIndex < 64
    }

    ghost function State(): Regs
      requires Valid()
      reads this, digest
    {
      Regs(digest[0], digest[1], digest[2], digest[3], digest[4])
    }

    /** The object has absorbed exactly `m` since its last reset. */
    ghost predicate Hashing(m: seq<Byte>)
      reads this, digest, block
    {
      && Valid() && blockByteIndex == |m| % 64 && byteCount == |m| % TWO64
      && State() == Blocks(IV, m) && block[..blockByteIndex] == Tail(m)
    }

    constructor ()
      ensures Hashing([]) && fresh(digest) && fresh(block)
    {
      digest := new Word[5](_ => 0);
      block := new Byte[64](_ => 0);
      blockByteIndex, byteCount := 0, 0;
      new;
      Reset();
    }

    method Increase(i: nat, x: Word)
      requires Valid() && i < 5
      modifies digest
      ensures digest[i] == Plus(old(digest[i]), x) && forall j :: 0 <= j < 5 && j != i ==> digest[j] == old(digest[j])
    {
      digest[i] := digest[i] + x;
    }

    /** The working variables are added to the digest words. */
    method AddBack(r: Regs)
      requires Valid()
      modifies digest
      ensures State() == AddRegs(old(State()), r)
    {
      hide Plus;
      Increase(0, r.a);
      Increase(1, r.b);
      Increase(2, r.c);
      Increase(3, r.d);
      Increase(4, r.e);
    }

    method Reset()
      requires Valid()
      modifies this`blockByteIndex, this`byteCount, digest
      ensures Hashing([])
    {
      hide Blocks;
      hide Tail;
      EmptyMessage();
      digest[0], digest[1], digest[2], digest[3], digest[4] := 0x67452301, 0xEFCDAB89, 0x98BADCFE, 0x10325476, 0xC3D2E1F0;
      blockByteIndex, byteCount := 0, 0;
    }

    /** The 80-word schedule of `processBlock`. */
    method Schedule() returns (w: array<Word>)
      requires Valid()
      ensures fresh(w) && w.Length == 80
      ensures forall t :: 0 <= t < 80 ==> w[t] == W(block[..], t)
    {
      hide W;
      hide BigEndian;
      hide Loaded;
      hide ScheduleMix;
      hide ScheduleRotate;
      w := new Word[80](_ => 0);
      ghost var data := block[..];
      for i := 0 to 16
        invariant forall t :: 0 <= t < i ==> w[t] == W(data, t)
      {
        WStep(data, i);
        LoadedIsBigEndian(block[i * 4 + 0], block[i * 4 + 1], block[i * 4 + 2], block[i * 4 + 3]);
        w[i] := Loaded(block[i * 4 + 0], block[i * 4 + 1], block[i * 4 + 2], block[i * 4 + 3]);
      }
      for i := 16 to 80
        invariant forall t :: 0 <= t < i ==> w[t] == W(data, t)
      {
        WStep(data, i);
        ScheduleAgrees(w[i - 3], w[i - 8], w[i - 14], w[i - 16]);
        w[i] := ScheduleRotate(w[i - 3], w[i - 8], w[i - 14], w[i - 16]);
      }
    }

    /** `processBlock`: compresses the full block into the digest words. */
    method ProcessBlock()
      requires Valid()
      modifies digest
      ensures State() == Compress(old(State()), block[..])
    {
      hide Rounds;
      hide Round;
      hide AddRegs;
      hide W;
      hide Sum5;
      hide LoopF;
      hide LoopK;
      hide LeftRotate5;
      hide LeftRotate30;
      ghost var h := State();
      ghost var data := block[..];
      var w := Schedule();
      var a, b, c, d, e := digest[0], digest[1], digest[2], digest[3], digest[4];
      RoundsStart(h, data);
      for i := 0 to 80
        invariant Regs(a, b, c, d, e) == Rounds(h, data, i)
        invariant State() == h && forall t :: 0 <= t < 80 ==> w[t] == W(data, t)
      {
        RoundAgrees(Regs(a, b, c, d, e), i, w[i]);
        RoundsStep(h, data, i);
        var temp := Sum5(LeftRotate5(a), LoopF(i, b, c, d), e, LoopK(i), w[i]);
        e := d;
        d := c;
        c := LeftRotate30(b);
        b := a;
        a := temp;
      }
      AddBack(Regs(a, b, c, d, e));
    }

    method ProcessByte(octet: Byte, ghost m: seq<Byte>)
      requires Hashing(m)
      modifies this`blockByteIndex, this`byteCount, digest, block
      ensures Hashing(m + [octet]) && blockByteIndex == (old(blockByteIndex) + 1) % 64
    {
      hide Blocks;
      hide Tail;
      hide Compress;
      block[blockByteIndex] := octet;
      assert block[..blockByteIndex + 1] == old(block[..blockByteIndex]) + [octet];
      byteCount := (byteCount + 1) % TWO64;
      if blockByteIndex + 1 == 64 {
        BlocksFilled(IV, m, [octet]);
        assert block[..64] == block[..];
        blockByteIndex := 0;
        ProcessBlock();
      } else {
        BlocksNotFilled(IV, m, [octet]);
        blockByteIndex := blockByteIndex + 1;
      }
    }

    method ProcessBytes(data: seq<Byte>, ghost m: seq<Byte>)
      requires Hashing(m)
      modifies this`blockByteIndex, this`byteCount, digest, block
      ensures Hashing(m + data)
    {
      hide Blocks;
      hide Tail;
      assert m + data[..0] == m;
      for i := 0 to |data|
        invariant Hashing(m + data[..i])
      {
        ProcessByte(data[i], m + data[..i]);
        assert m + data[..i] + [data[i]] == m + data[..i + 1];
      }
      assert m + data[..|data|] == m + data;
    }

    /** Zero bytes up to the index `stop`, as the padding loops write them. */
    method PadTo(stop: nat, ghost m: seq<Byte>, ghost k0: nat) returns (ghost k: nat)
      requires Hashing(m + Zeros(k0)) && stop < 64
      modifies this`blockByteIndex, this`byteCount, digest, block
      ensures Hashing(m + Zeros(k)) && blockByteIndex == stop
      ensures k == k0 + ToGo(old(blockByteIndex), stop)
    {
      hide Blocks;
      hide Tail;
      hide Zeros;
      k := k0;
      assert Hashing(m + Zeros(k)) && blockByteIndex < 64;
      hide Hashing;
      hide ToGo;
      ToGoNone(stop);
      while blockByteIndex != stop
        invariant Hashing(m + Zeros(k))
        invariant blockByteIndex < 64 && k + ToGo(blockByteIndex, stop) == k0 + ToGo(old(blockByteIndex), stop)
        decreases ToGo(blockByteIndex, stop)
      {
        ToGoStep(blockByteIndex, stop);
        OneMoreZero(m, k);
        ProcessByte(0, m + Zeros(k));
        k := k + 1;
      }
    }

    /** `getDigest`: pads, appends the low 32 bits of the bit length, and reads the digest words. */
    method GetDigest(ghost m: seq<Byte>) returns (d: Regs)
      requires Hashing(m)
      modifies this`blockByteIndex, this`byteCount, digest, block
      ensures Hashing(ShortPad(m)) && d == Blocks(IV, ShortPad(m))
    {
      hide Blocks;
      hide Tail;
      hide Zeros;
      hide ZeroCount;
      hide NumberBytes;
      var bitCount := byteCount * 8 % TWO64;
      LowBits(|m|);
      ProcessByte(0x80, m);
      ghost var head := m + [0x80];
      NoZeros();
      assert head + Zeros(0) == head;
      ghost var k := 0;
      ZerosToGo(|m|);
      if blockByteIndex > 56 {
        k := PadTo(0, head, k);
      }
      k := PadTo(56, head, k);
      ProcessBytes(Zeros(4) + NumberBytes(bitCount % TWO32), head + Zeros(k));
      d := Regs(digest[0], digest[1], digest[2], digest[3], digest[4]);
    }

    /** `getDigestBytes`: the standard's digest for every message below 2^29 bytes. */
    method GetDigestBytes(ghost m: seq<Byte>) returns (bytes: seq<Byte>)
      requires Hashing(m)
      modifies this`blockByteIndex, this`byteCount, digest, block
      ensures bytes == RegsBytes(Blocks(IV, ShortPad(m)))
      ensures 8 * |m| % TWO64 < TWO32 ==> bytes == Sha1(m)
    {
      hide Blocks;
      hide RegsBytes;
      ShortPadIsPad(m);
      var d := GetDigest(m);
      bytes := RegsBytes(d);
    }
  }
}
