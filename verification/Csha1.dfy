module Csha1 {
  import opened Sha1Spec
  import opened Sha1Rounds
  import opened Sha1Steps

  /** The 16-word block before round `t`: the latest 16 schedule words, and raw words not yet used. */
  ghost predicate Circular(block: seq<Word>, data: seq<Byte>, t: nat)
    requires |block| == 16 && |data| == 64
  {
    && (forall j :: 0 <= j < t && t - 16 <= j ==> block[j % 16] == W(data, j))
    && (forall j :: t <= j < 16 ==>
          block[j] == LittleEndian(data[4 * j], data[4 * j + 1], data[4 * j + 2], data[4 * j + 3]))
  }

  /** SHABLK0 or SHABLK: the word for round `t`, which is also stored back. */
  function ScheduleWord(block: seq<Word>, t: nat): Word
    requires |block| == 16
  {
    if t < 16 then SwapBytes(block[t])
    else ScheduleMix(block[(t + 13) % 16], block[(t + 8) % 16], block[(t + 2) % 16], block[t % 16])
  }

  lemma SlotsDiffer(j: nat, t: nat)
    requires j < t < j + 16
    ensures j % 16 != t % 16
  {}

  /** The word in the slot of round `t` is the schedule word of the standard. */
  lemma ScheduleWordIsW(block: seq<Word>, data: seq<Byte>, t: nat)
    requires |block| == 16 && |data| == 64 && Circular(block, data, t)
    ensures ScheduleWord(block, t) == W(data, t)
  {
    hide SwapBytes;
    hide BigEndian;
    hide LittleEndian;
    hide ScheduleMix;
    hide W;
    WStep(data, t);
    if t < 16 {
      SwapIsBigEndian(data[4 * t], data[4 * t + 1], data[4 * t + 2], data[4 * t + 3]);
    } else {
      assert (t + 13) % 16 == (t - 3) % 16;
      assert (t + 8) % 16 == (t - 8) % 16;
      assert (t + 2) % 16 == (t - 14) % 16;
      assert t % 16 == (t - 16) % 16;
    }
  }

  lemma CircularStep(block: seq<Word>, data: seq<Byte>, t: nat)
    requires |block| == 16 && |data| == 64 && Circular(block, data, t)
    ensures Circular(block[t % 16 := W(data, t)], data, t + 1)
  {
    hide W;
    hide LittleEndian;
    var after := block[t % 16 := W(data, t)];
    forall j: nat | j < t + 1 && t + 1 - 16 <= j ensures after[j % 16] == W(data, j) {
      if j < t { SlotsDiffer(j, t); }
    }
  }

  /** The two-word bit counter: carry out of the low word, and the high bits of the length added to the high word. */
  function LowCount(c0: nat, len: nat): nat { (c0 + len * 8 % TWO32) % TWO32 }
  function HighCount(c0: nat, c1: nat, len: nat): nat {
    var carried := if LowCount(c0, len) < len * 8 % TWO32 then (c1 + 1) % TWO32 else c1;
    (carried + len / 0x2000_0000) % TWO32
  }

  lemma HighPart(x: nat, low: nat)
    requires x < 2 * TWO32 && low < TWO32
    ensures (x * TWO32 + low) % TWO64 == x % TWO32 * TWO32 + low
  {
    if x < TWO32 {
      assert x * TWO32 + low < TWO64;
    } else {
      assert x * TWO32 + low == TWO64 + (x - TWO32) * TWO32 + low;
    }
  }

  lemma ModAdds(a: nat, b: nat)
    ensures (a % TWO64 + b) % TWO64 == (a + b) % TWO64
  {}

  lemma HighCountIs(c0: nat, c1: nat, len: nat)
    requires c0 < TWO32 && c1 < TWO32 && len < TWO32
    ensures HighCount(c0, c1, len) == (c1 + (c0 + len * 8 % TWO32) / TWO32 + len / 0x2000_0000) % TWO32
  {
    var lo := len * 8 % TWO32;
    if c0 + lo < TWO32 {
    } else {
      assert LowCount(c0, len) == c0 + lo - TWO32;
    }
  }

  lemma CounterAdds(c0: nat, c1: nat, len: nat, n: nat)
    requires c0 < TWO32 && c1 < TWO32 && len < TWO32 && c1 * TWO32 + c0 == 8 * n % TWO64
    ensures HighCount(c0, c1, len) < TWO32 && LowCount(c0, len) < TWO32
    ensures HighCount(c0, c1, len) * TWO32 + LowCount(c0, len) == 8 * (n + len) % TWO64
  {
    var lo, hi := len * 8 % TWO32, len / 0x2000_0000;
    var x, low := c1 + (c0 + lo) / TWO32 + hi, (c0 + lo) % TWO32;
    assert 8 * len == hi * TWO32 + lo;
    assert x * TWO32 + low == 8 * n % TWO64 + 8 * len;
    HighCountIs(c0, c1, len);
    HighPart(x, low);
    ModAdds(8 * n, 8 * len);
  }

  class CSHA1 {
    const state: array<Word>
    const buffer: array<Byte>
    const block: array<Word>
    const digest: array<Byte>
    var count0: nat
    var count1: nat

    ghost predicate Valid()
      reads this
    {
      && state.Length == 5 && buffer.Length == 64 && block.Length == 16 && digest.Length == 20
      && state != block && buffer != digest
      && count0 < TWO32 && count1 < TWO32
    }

    ghost function State(): Regs
      requires Valid()
      reads this, state
    {
      Regs(state[0], state[1], state[2], state[3], state[4])
    }

    /** The object has absorbed exactly the message `m` since its last reset. */
    ghost predicate Hashing(m: seq<Byte>)
      reads this, state, buffer
    {
      && Valid()
      && State() == Blocks(IV, m)
      && buffer[..|m| % 64] == Tail(m)
      && count1 * TWO32 + count0 == 8 * |m| % TWO64
    }

    constructor ()
      ensures Hashing([]) && fresh(state) && fresh(buffer) && fresh(block) && fresh(digest)
    {
      state := new Word[5](_ => 0);
      buffer := new Byte[64](_ => 0);
      block := new Word[16](_ => 0);
      digest := new Byte[20](_ => 0);
      count0, count1 := 0, 0;
      new;
      Reset();
    }

    method Increase(i: nat, x: Word)
      requires Valid() && i < 5
      modifies state
      ensures state[i] == Plus(old(state[i]), x) && forall j :: 0 <= j < 5 && j != i ==> state[j] == old(state[j])
    {
      state[i] := state[i] + x;
    }

    /** The working variables are added to the state words. */
    method AddBack(r: Regs)
      requires Valid()
      modifies state
      ensures State() == AddRegs(old(State()), r)
    {
      hide Plus;
      Increase(0, r.a);
      Increase(1, r.b);
      Increase(2, r.c);
      Increase(3, r.d);
      Increase(4, r.e);
    }

    method Reset()
      requires Valid()
      modifies this`count0, this`count1, state
      ensures Hashing([])
    {
      hide Blocks;
      hide Tail;
      EmptyMessage();
      state[0], state[1], state[2], state[3], state[4] := 0x67452301, 0xEFCDAB89, 0x98BADCFE, 0x10325476, 0xC3D2E1F0;
      count0, count1 := 0, 0;
    }

    /** SHABLK0 / SHABLK with its store. */
    method NextWord(t: nat, ghost data: seq<Byte>) returns (word: Word)
      requires Valid() && |data| == 64 && t < 80 && Circular(block[..], data, t)
      modifies block
      ensures word == W(data, t) && Circular(block[..], data, t + 1)
    {
      hide W;
      hide ScheduleWord;
      hide Circular;
      ScheduleWordIsW(block[..], data, t);
      CircularStep(block[..], data, t);
      word := ScheduleWord(block[..], t);
      ghost var before := block[..];
      block[t % 16] := word;
      assert block[..] == before[t % 16 := word];
    }

    /** One round macro: the new `z` and the rotated `w`. */
    method MacroRound(t: nat, v: Word, w: Word, x: Word, y: Word, z: Word, ghost h: Regs, ghost data: seq<Byte>)
      returns (z': Word, w': Word)
      requires Valid() && |data| == 64 && t < 80 && Circular(block[..], data, t)
      requires Regs(v, w, x, y, z) == Rounds(h, data, t)
      modifies block
      ensures Circular(block[..], data, t + 1)
      ensures Regs(z', v, w', x, y) == Rounds(h, data, t + 1)
    {
      hide W;
      hide Circular;
      hide Mix;
      hide Rol30;
      hide Round;
      var word := NextWord(t, data);
      MacroIsRound(t, v, w, x, y, z, word);
      RoundsStep(h, data, t);
      z' := Mix(t, v, w, x, y, z, word);
      w' := Rol30(w);
    }

    /** The copy of 64 bytes over the words of the block, on a little-endian machine. */
    method LoadBlock(data: seq<Byte>)
      requires Valid() && |data| == 64
      modifies block
      ensures Circular(block[..], data, 0)
    {
      hide LittleEndian;
      forall j | 0 <= j < 16 {
        block[j] := LittleEndian(data[4 * j], data[4 * j + 1], data[4 * j + 2], data[4 * j + 3]);
      }
    }

    /** `Transform`: eighty round macros in groups of five, after which the register names are back in place. */
    method Transform(data: seq<Byte>)
      requires Valid() && |data| == 64
      modifies state, block
      ensures State() == Compress(old(State()), data)
    {
      hide Rounds;
      hide Circular;
      hide AddRegs;
      ghost var h := State();
      var a, b, c, d, e := state[0], state[1], state[2], state[3], state[4];
      RoundsStart(h, data);
      LoadBlock(data);
      var t := 0;
      while t < 80
        invariant t <= 80 && t % 5 == 0 && Circular(block[..], data, t)
        invariant Regs(a, b, c, d, e) == Rounds(h, data, t)
        invariant state[..] == old(state[..])
      {
        e, b := MacroRound(t, a, b, c, d, e, h, data);
        d, a := MacroRound(t + 1, e, a, b, c, d, h, data);
        c, e := MacroRound(t + 2, d, e, a, b, c, h, data);
        b, d := MacroRound(t + 3, c, d, e, a, b, h, data);
        a, c := MacroRound(t + 4, b, c, d, e, a, h, data);
        t := t + 5;
      }
      AddBack(Regs(a, b, c, d, e));
    }
  
    /** The compressed blocks and the pending bytes are those of `m`; the counter may be ahead. */
    ghost predicate Absorbed(m: seq<Byte>)
      reads this, state, buffer
    {
      Valid() && State() == Blocks(IV, m) && buffer[..|m| % 64] == Tail(m)
    }

    method CopyIn(at: nat, src: seq<Byte>)
      requires Valid() && at + |src| <= 64
      modifies buffer
      ensures buffer[..at] == old(buffer[..at]) && buffer[at..at + |src|] == src
    {
      forall k | 0 <= k < |src| {
        buffer[at + k] := src[k];
      }
    }

    /** New bytes `x` behind the `j` pending ones do not fill the block. */
    method KeepRest(j: nat, x: seq<Byte>, ghost m: seq<Byte>)
      requires Absorbed(m) && j == |m| % 64 && j + |x| < 64
      modifies buffer
      ensures Absorbed(m + x)
    {
      hide Blocks;
      hide Tail;
      BlocksNotFilled(IV, m, x);
      CopyIn(j, x);
      assert buffer[..j + |x|] == buffer[..j] + buffer[j..j + |x|];
    }

    /** New bytes `x` behind the `j` pending ones fill the block exactly. */
    method FillBlock(j: nat, x: seq<Byte>, ghost m: seq<Byte>)
      requires Absorbed(m) && j == |m| % 64 && j + |x| == 64
      modifies state, buffer, block
      ensures Absorbed(m + x) && |m + x| % 64 == 0
    {
      hide Blocks;
      hide Tail;
      hide Compress;
      BlocksFilled(IV, m, x);
      CopyIn(j, x);
      assert buffer[..] == buffer[..j] + buffer[j..j + |x|];
      Transform(buffer[..]);
    }

    method WholeBlock(x: seq<Byte>, ghost m: seq<Byte>)
      requires Absorbed(m) && |m| % 64 == 0 && |x| == 64
      modifies state, block
      ensures Absorbed(m + x) && |m + x| % 64 == 0
    {
      hide Blocks;
      hide Tail;
      hide Compress;
      BlocksFilled(IV, m, x);
      assert Tail(m) + x == x;
      Transform(x);
    }

    /** The loop of `Update` over the whole blocks of `data` from `start` on. */
    method WholeBlocks(data: seq<Byte>, start: nat, ghost m: seq<Byte>) returns (i: nat)
      requires start <= |data| && |m| % 64 + |data| < TWO32 && Absorbed(m + data[..start]) && (|m| + start) % 64 == 0
      modifies state, block
      ensures i <= |data| < i + 64 && Absorbed(m + data[..i]) && (|m| + i) % 64 == 0
    {
      hide Blocks;
      hide Tail;
      i := start;
      NextBlockFits(|m|, i, |data|);
      while (i + 63) % TWO32 < |data|
        invariant i <= |data| && Absorbed(m + data[..i]) && (|m| + i) % 64 == 0 && i + 63 < TWO32
      {
        WholeBlock(data[i..i + 64], m + data[..i]);
        assert m + data[..i + 64] == m + data[..i] + data[i..i + 64];
        i := i + 64;
        NextBlockFits(|m|, i, |data|);
      }
    }

    /** The part of `Update` behind the counter: fills the pending block, takes whole blocks and keeps the rest. */
    method Absorb(j0: nat, data: seq<Byte>, ghost m: seq<Byte>)
      requires Absorbed(m) && j0 == |m| % 64 && j0 + |data| < TWO32
      modifies state, buffer, block
      ensures Absorbed(m + data)
    {
      hide Blocks;
      hide Tail;
      var j, i := j0, 0;
      ghost var done := m;
      if (j + |data|) % TWO32 > 63 {
        i := 64 - j;
        FillBlock(j, data[..i], m);
        i := WholeBlocks(data, i, m);
        j := 0;
        done := m + data[..i];
      }
      KeepRest(j, data[i..], done);
      assert done + data[i..] == m + data;
    }

    /** `Update`: absorbs `data` after `m`, with index sums modulo 2^32; `UpdateFits` says why they must not wrap. */
    method Update(data: seq<Byte>, ghost m: seq<Byte>)
      requires Hashing(m) && |m| % 64 + |data| < TWO32
      modifies this`count0, this`count1, state, buffer, block
      ensures Hashing(m + data)
    {
      hide Blocks;
      hide Tail;
      hide LowCount;
      hide HighCount;
      var len := |data|;
      var j := count0 / 8 % 64;
      PendingIndex(count0, count1, |m|);
      CounterAdds(count0, count1, len, |m|);
      count0, count1 := LowCount(count0, len), HighCount(count0, count1, len);
      Absorb(j, data, m);
    }

    /** Writes the digest bytes out of the state words, most significant first. */
    method WriteDigest()
      requires Valid()
      modifies digest
      ensures digest[..] == RegsBytes(State())
    {
      hide WordBytes;
      ghost var r := State();
      for i := 0 to 20
        invariant State() == r && digest[..i] == RegsBytes(r)[..i]
      {
        RegsByteAt(r, i);
        digest[i] := WordBytes(state[i / 4])[i % 4];
      }
    }

    /** `Final`: pads, appends the length counted so far, writes the digest and wipes everything else. */
    method Final(ghost m: seq<Byte>)
      requires Hashing(m)
      modifies this`count0, this`count1, state, buffer, block, digest
      ensures Valid() && digest[..] == Sha1(m)
    {
      hide Blocks;
      hide Tail;
      hide NumberBytes;
      hide Zeros;
      hide RegsBytes;
      hide ZeroCount;
      var finalcount := NumberBytes(count1) + NumberBytes(count0);
      CountedLength(count0, count1, |m|);
      Update([0x80], m);
      ghost var k := 0;
      NoZeros();
      assert m + [0x80] + Zeros(0) == m + [0x80];
      PaddingIndex(count0, count1, |m|, 0);
      while count0 / 8 % 64 * 8 != 448
        invariant k <= ZeroCount(|m|) && Hashing(m + [0x80] + Zeros(k))
        invariant count0 / 8 % 64 * 8 == 448 <==> k == ZeroCount(|m|)
        decreases ZeroCount(|m|) - k
      {
        Update([0], m + [0x80] + Zeros(k));
        OneMoreZero(m + [0x80], k);
        k := k + 1;
        PaddingIndex(count0, count1, |m|, k);
      }
      Update(finalcount, m + [0x80] + Zeros(k));
      assert m + [0x80] + Zeros(k) + finalcount == Pad(m);
      WriteDigest();
      Wipe();
    }

    method Wipe()
      requires Valid()
      modifies this`count0, this`count1, state, buffer, block
      ensures Valid()
    {
      forall k | 0 <= k < 64 {
        buffer[k] := 0;
      }
      state[0], state[1], state[2], state[3], state[4] := 0, 0, 0, 0, 0;
      count0, count1 := 0, 0;
      Transform(buffer[..]);
    }
  }

  /** At a block boundary within the data, looking 63 bytes ahead stays below 2^32. */
  lemma NextBlockFits(n: nat, i: nat, len: nat)
    requires n % 64 + len < TWO32 && i <= len && (n + i) % 64 == 0
    ensures i + 63 < TWO32
  {
    var k := (n % 64 + i) / 64;
    assert (n % 64 + i) % 64 == 0 by { assert n + i == n / 64 * 64 + (n % 64 + i); }
    assert n % 64 + i == 64 * k && 64 * k < TWO32;
  }

  /**
   * For `j` pending bytes and a 32-bit length, the bytes fit where `Update` copies them, in a filled block or behind
   * the pending ones, if and only if their sum is below 2^32; beyond it the sum wraps and the whole text is copied
   * behind the pending bytes of the 64-byte buffer.
   */
  lemma UpdateFits(j: nat, len: nat)
    requires j < 64 && len < TWO32
    ensures (j + len) % TWO32 > 63 || j + len <= 64 <==> j + len < TWO32
  {
    if j + len >= TWO32 { assert (j + len) % TWO32 == j + len - TWO32; }
  }

  lemma LowWord(c0: nat, c1: nat, x: nat)
    requires c0 < TWO32 && c1 < TWO32 && c1 * TWO32 + c0 == x % TWO64
    ensures c0 == x % TWO32
  {
    var q := x / TWO64;
    assert x == (q * TWO32 + c1) * TWO32 + c0;
    RestOf(x, q * TWO32 + c1, c0);
  }

  lemma RestOf(x: nat, a: nat, c: nat)
    requires x == a * TWO32 + c && c < TWO32
    ensures x % TWO32 == c
  {}

  lemma SameIndex(r: nat, n: nat, t: nat)
    requires n == r + 64 * t
    ensures n % 64 == r % 64
  {}

  lemma EighthOf(c0: nat, n: nat)
    requires c0 == 8 * n % TWO32
    ensures c0 / 8 % 64 == n % 64
  {
    var q := 8 * n / TWO32;
    assert 8 * n == q * TWO32 + c0;
    var r := c0 / 8;
    assert c0 == 8 * r && n == r + 64 * (q * 0x80_0000);
    SameIndex(r, n, q * 0x80_0000);
  }

  /** The index into the buffer, read off the bit counter. */
  lemma PendingIndex(c0: nat, c1: nat, n: nat)
    requires c0 < TWO32 && c1 < TWO32 && c1 * TWO32 + c0 == 8 * n % TWO64
    ensures c0 == 8 * n % TWO32 && c0 / 8 % 64 == n % 64
  {
    LowWord(c0, c1, 8 * n);
    EighthOf(c0, n);
  }

  lemma CountedLength(c0: nat, c1: nat, n: nat)
    requires c0 < TWO32 && c1 < TWO32 && c1 * TWO32 + c0 == 8 * n % TWO64
    ensures NumberBytes(c1) + NumberBytes(c0) == LengthBytes(n)
  {
    hide NumberBytes;
    PendingIndex(c0, c1, n);
    assert c1 == 8 * n / TWO32 % TWO32;
  }

  lemma PaddingIndex(c0: nat, c1: nat, n: nat, k: nat)
    requires c0 < TWO32 && c1 < TWO32 && c1 * TWO32 + c0 == 8 * (n + 1 + k) % TWO64
    requires k <= ZeroCount(n)
    ensures c0 / 8 % 64 * 8 == 448 <==> k == ZeroCount(n)
  {
    hide ZeroCount;
    PendingIndex(c0, c1, n + 1 + k);
    ZerosEndAt56(n, k);
  }

  lemma ZerosEndAt56(n: nat, k: nat)
    requires k <= ZeroCount(n)
    ensures (n + 1 + k) % 64 == 56 <==> k == ZeroCount(n)
  {
    var z := ZeroCount(n);
    hide ZeroCount;
    var a, b := (n + 1 + k) / 64, (n + 1 + z + 8) / 64;
    assert n + 1 + z + 8 == 64 * b;
    if (n + 1 + k) % 64 == 56 {
      assert n + 1 + k + 8 == 64 * (a + 1);
      assert z - k == 64 * (b - a - 1);
    }
  }

  lemma RegsByteAt(r: Regs, i: nat)
    requires i < 20
    ensures RegsBytes(r)[i] == WordBytes([r.a, r.b, r.c, r.d, r.e][i / 4])[i % 4]
  {
    hide WordBytes;
  }
}
