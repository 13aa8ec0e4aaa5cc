/** Single steps of the standard's definitions, shared by both implementations. */
module Sha1Steps {
  import opened Sha1Spec

  lemma WStep(data: seq<Byte>, t: nat)
    requires |data| == 64
    ensures t >= 16 ==> W(data, t) == ScheduleMix(W(data, t - 3), W(data, t - 8), W(data, t - 14), W(data, t - 16))
    ensures t < 16 ==> W(data, t) == BigEndian(data[4 * t], data[4 * t + 1], data[4 * t + 2], data[4 * t + 3])
  {
    hide ScheduleMix;
    hide BigEndian;
  }

  lemma RoundsStart(h: Regs, data: seq<Byte>)
    requires |data| == 64
    ensures Rounds(h, data, 0) == h
  {}

  lemma EmptyMessage()
    ensures Blocks(IV, []) == IV && Tail([]) == []
  {
    hide Compress;
  }

  lemma RoundsStep(h: Regs, data: seq<Byte>, t: nat)
    requires |data| == 64
    ensures Rounds(h, data, t + 1) == Round(Rounds(h, data, t), t, W(data, t))
  {
    hide Round;
    hide W;
  }

  lemma NoZeros()
    ensures Zeros(0) == []
  {}

  lemma OneMoreZero(m: seq<Byte>, k: nat)
    ensures m + Zeros(k) + [0] == m + Zeros(k + 1)
  {}
}
