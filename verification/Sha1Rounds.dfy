/** The rounds of `CSHA1::Transform` as its macros write them, and why they are the rounds of the standard. */
module Sha1Rounds {
  import opened Sha1Spec

  /** ROL32 as the macros use it. */
  function Rol1(x: Word): Word { (x << 1) | (x >> 31) }
  function Rol5(x: Word): Word { (x << 5) | (x >> 27) }
  function Rol30(x: Word): Word { (x << 30) | (x >> 2) }

  lemma RolIsRotl(x: Word)
    ensures Rol1(x) == Rotl1(x) && Rol5(x) == Rotl5(x) && Rol30(x) == Rotl30(x)
  {}

  function Rol24(x: Word): Word { (x << 24) | (x >> 8) }
  function Rol8(x: Word): Word { (x << 8) | (x >> 24) }

  /** SHABLK0: swaps the byte order of a word loaded on a little-endian machine. */
  function SwapBytes(x: Word): Word { (Rol24(x) & 0xFF00FF00) | (Rol8(x) & 0x00FF00FF) }

  lemma SwapIsBigEndian(b0: Byte, b1: Byte, b2: Byte, b3: Byte)
    ensures SwapBytes(LittleEndian(b0, b1, b2, b3)) == BigEndian(b0, b1, b2, b3)
  {}

  /** The round functions with Ch and Maj rewritten as the macros have them. */
  function MacroF(t: nat, w: Word, x: Word, y: Word): Word {
    if t < 20 then (w & (x ^ y)) ^ y
    else if t < 40 then w ^ x ^ y
    else if t < 60 then ((w | x) & y) | (w & x)
    else w ^ x ^ y
  }

  /** The constants of the macros. */
  function MacroK(t: nat): Word {
    if t < 20 then 0x5A827999 else if t < 40 then 0x6ED9EBA1 else if t < 60 then 0x8F1BBCDC else 0xCA62C1D6
  }

  function MacroSum(z: Word, f: Word, word: Word, k: Word, rolled: Word): Word { z + (f + word + k + rolled) }

  /** The new value of `z` in a round macro. */
  function Mix(t: nat, v: Word, w: Word, x: Word, y: Word, z: Word, word: Word): Word {
    MacroSum(z, MacroF(t, w, x, y), word, MacroK(t), Rol5(v))
  }

  lemma MacroFIsF(t: nat, w: Word, x: Word, y: Word)
    ensures MacroF(t, w, x, y) == F(t, w, x, y)
  {
    assert (w & (x ^ y)) ^ y == Ch(w, x, y);
    assert ((w | x) & y) | (w & x) == Maj(w, x, y);
  }

  lemma MacroKIsK(t: nat)
    ensures MacroK(t) == K(t)
  {}

  lemma SumOrder(z: Word, f: Word, word: Word, k: Word, rolled: Word)
    ensures MacroSum(z, f, word, k, rolled) == Sum5(rolled, f, z, k, word)
  {}

  /** A round macro moves no register: it replaces `z` and rotates `w`, and the roles turn by one. */
  lemma MacroIsRound(t: nat, v: Word, w: Word, x: Word, y: Word, z: Word, word: Word)
    ensures Regs(Mix(t, v, w, x, y, z, word), v, Rol30(w), x, y) == Round(Regs(v, w, x, y, z), t, word)
  {
    RolIsRotl(v);
    RolIsRotl(w);
    MacroKIsK(t);
    hide Rotl5;
    hide Rotl30;
    hide Rol5;
    hide Rol30;
    hide K;
    hide MacroK;
    hide F;
    hide MacroF;
    hide MacroSum;
    hide Sum5;
    MacroFIsF(t, w, x, y);
    SumOrder(z, F(t, w, x, y), word, K(t), Rotl5(v));
  }
}
