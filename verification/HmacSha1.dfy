module HmacSha1 {
  import opened Sha1Spec
  import opened HmacSpec
  import Csha1

  function Fill(n: nat, v: Byte): seq<Byte> { seq(n, _ => v) }

  method Memset(a: array<Byte>, v: Byte, n: nat)
    requires n <= a.Length
    modifies a
    ensures a[..n] == Fill(n, v)
  {
    forall i | 0 <= i < n {
      a[i] := v;
    }
  }

  method Memcpy(a: array<Byte>, at: nat, src: seq<Byte>)
    requires at + |src| <= a.Length
    modifies a
    ensures a[..at] == old(a[..at]) && a[at..at + |src|] == src && a[at + |src|..] == old(a[at + |src|..])
  {
    forall i | 0 <= i < |src| {
      a[at + i] := src[i];
    }
  }

  lemma {:induction false} FillIsZeros(n: nat)
    ensures Fill(n, 0) == Zeros(n)
  {
    if n > 0 {
      FillIsZeros(n - 1);
      assert Fill(n, 0) == Fill(n - 1, 0) + [0];
    }
  }

  /** The loops of steps 2 and 5: `pad[i] ^= key[i]`. */
  method XorInto(pad: array<Byte>, key: array<Byte>, v: Byte)
    requires pad != key && pad.Length == 64 <= key.Length && pad[..64] == Fill(64, v)
    modifies pad
    ensures pad[..] == XorPad(key[..64], v)
  {
    hide Xor;
    for i := 0 to 64
      invariant forall j :: 0 <= j < i ==> pad[j] == Xor(key[j], v)
      invariant forall j :: i <= j < 64 ==> pad[j] == v
    {
      XorCommutes(key[i], v);
      XorIs(pad[i], key[i]);
      pad[i] := pad[i] ^ key[i];
    }
  }

  lemma XorIs(x: Byte, y: Byte)
    ensures Xor(x, y) == x ^ y
  {}

  lemma XorCommutes(x: Byte, y: Byte)
    ensures Xor(x, y) == Xor(y, x)
  {}

  class CHMAC_SHA1 {
    const sha: Csha1.CSHA1
    const ipad: array<Byte>
    const opad: array<Byte>
    const report: array<Byte>
    const sha1Key: array<Byte>
    const appendBuf1: array<Byte>
    const appendBuf2: array<Byte>

    /** The pads and scratch buffers do not overlap each other or the hash object's arrays. */
    ghost predicate Valid()
      reads this, sha
    {
      && sha.Valid()
      && ipad.Length == opad.Length == 64
      && report.Length == sha1Key.Length == appendBuf1.Length == appendBuf2.Length >= 64 + 1024
      && ipad != opad && ipad != report && ipad != sha1Key && ipad != appendBuf1 && ipad != appendBuf2
      && opad != report && opad != sha1Key && opad != appendBuf1 && opad != appendBuf2
      && report != sha1Key && report != appendBuf1 && report != appendBuf2
      && sha1Key != appendBuf1 && sha1Key != appendBuf2 && appendBuf1 != appendBuf2
      && {sha.buffer, sha.digest} !! {ipad, opad, report, sha1Key, appendBuf1, appendBuf2}
    }

    constructor (len: nat)
      ensures Valid() && appendBuf1.Length == len + 64 + 1024
      ensures fresh(sha) && fresh(sha.state) && fresh(sha.buffer) && fresh(sha.block) && fresh(sha.digest)
      ensures fresh(ipad) && fresh(opad) && fresh(report) && fresh(sha1Key) && fresh(appendBuf1) && fresh(appendBuf2)
    {
      sha := new Csha1.CSHA1();
      ipad := new Byte[64](_ => 0);
      opad := new Byte[64](_ => 0);
      report := new Byte[len + 64 + 1024](_ => 0);
      sha1Key := new Byte[len + 64 + 1024](_ => 0);
      appendBuf1 := new Byte[len + 64 + 1024](_ => 0);
      appendBuf2 := new Byte[len + 64 + 1024](_ => 0);
    }

    /** Reset, Update, Final and GetHash on the shared hash object, whatever it did before. */
    method HashOf(data: seq<Byte>) returns (hash: seq<Byte>)
      requires Valid() && |data| < TWO32
      modifies sha, sha.state, sha.buffer, sha.block, sha.digest
      ensures Valid() && hash == Sha1(data)
    {
      hide Sha1;
      hide Blocks;
      hide Tail;
      sha.Reset();
      assert [] + data == data;
      sha.Update(data, []);
      sha.Final(data);
      hash := sha.digest[..];
    }

    /** Step 1: the block-sized key, in a buffer that keeps old bytes only beyond the first 64. */
    method PrepareKey(key: seq<Byte>)
      requires Valid() && |key| < TWO32
      modifies sha, sha.state, sha.buffer, sha.block, sha.digest, sha1Key
      ensures Valid() && sha1Key[..64] == BlockKey(key)
    {
      hide Sha1;
      hide Zeros;
      var k := key;
      Memset(sha1Key, 0, 64);
      if |key| > BLOCK_SIZE {
        k := HashOf(key);
      }
      ghost var before := sha1Key[..];
      assert before[..64] == Fill(64, 0);
      Memcpy(sha1Key, 0, k);
      FillIsZeros(64 - |k|);
      assert sha1Key[|k|..64] == sha1Key[|k|..][..64 - |k|] == before[|k|..][..64 - |k|] == before[..64][|k|..];
      assert Fill(64, 0)[|k|..] == Fill(64 - |k|, 0);
      assert sha1Key[..64] == sha1Key[..|k|] + sha1Key[|k|..64];
    }

    /** The concatenation of a pad and a text in a scratch buffer. */
    method Append(buf: array<Byte>, pad: array<Byte>, text: seq<Byte>)
      requires buf != pad && pad.Length == 64 && 64 + |text| <= buf.Length
      modifies buf
      ensures buf[..64 + |text|] == pad[..] + text
    {
      Memcpy(buf, 0, pad[..]);
      Memcpy(buf, 64, text);
      assert buf[..64 + |text|] == buf[..64] + buf[64..64 + |text|];
    }

    /** `HMAC_SHA1`: the digest depends on the key and the text alone, not on earlier calls. */
    method HMAC_SHA1(text: seq<Byte>, key: seq<Byte>) returns (digest: seq<Byte>)
      requires Valid() && 64 + |text| <= appendBuf1.Length
      requires |key| < 0x8000_0000 && |text| < 0x8000_0000
      modifies sha, sha.state, sha.buffer, sha.block, sha.digest, ipad, opad, report, sha1Key, appendBuf1, appendBuf2
      ensures Valid() && digest == Hmac(key, text)
    {
      hide Sha1;
      hide XorPad;
      hide BlockKey;
      ghost var k := BlockKey(key);
      Memset(ipad, 0x36, 64);
      Memset(opad, 0x5c, 64);
      PrepareKey(key);
      XorInto(ipad, sha1Key, 0x36);
      Append(appendBuf1, ipad, text);
      var inner := HashOf(appendBuf1[..64 + |text|]);
      Memcpy(report, 0, inner);
      XorInto(opad, sha1Key, 0x5c);
      Append(appendBuf2, opad, report[..DIGEST_LENGTH]);
      digest := HashOf(appendBuf2[..64 + DIGEST_LENGTH]);
    }
  }

  /** A client: one object, made for texts of the first one's length, signs two texts one after the other. */
  method SignBoth(key: seq<Byte>, first: seq<Byte>, second: seq<Byte>) returns (a: seq<Byte>, b: seq<Byte>)
    requires |key| < 0x8000_0000 && |second| <= |first| < 0x8000_0000
    ensures a == Hmac(key, first) && b == Hmac(key, second)
  {
    var signer := new CHMAC_SHA1(|first|);
    a := signer.HMAC_SHA1(first, key);
    b := signer.HMAC_SHA1(second, key);
  }
}
