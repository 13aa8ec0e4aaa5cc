/** Base64 as section 4 of RFC 4648 defines it, over 24-bit groups; characters are their ASCII codes. */
module Base64Spec {
  type Bytes = seq<bv8>

  const PAD: bv8 := 61

  /** The character for a 6-bit value: A-Z, a-z, 0-9, + and /. */
  function Char64(v: bv8): bv8 {
    if v < 26 then v + 65 else if v < 52 then v + 71 else if v < 62 then v - 4 else if v == 62 then 43 else 47
  }

  predicate IsBase64(c: bv8) { 65 <= c <= 90 || 97 <= c <= 122 || 48 <= c <= 57 || c == 43 || c == 47 }

  /** The value of a character: its place in the table. */
  function Value64(c: bv8): bv8 {
    if 65 <= c <= 90 then c - 65 else if 97 <= c <= 122 then c - 71 else if 48 <= c <= 57 then c + 4 else if c == 43 then 62 else 63
  }

  lemma CharRoundTrip(v: bv8)
    requires v < 64
    ensures IsBase64(Char64(v)) && Value64(Char64(v)) == v && Char64(v) != PAD
  {}

  function Group(a: bv8, b: bv8, c: bv8): bv24 { ((a as bv24) << 16) | ((b as bv24) << 8) | (c as bv24) }

  /** The four 6-bit values of a group, from the left. */
  function Sextet(g: bv24, k: nat): bv8
    requires k < 4
  {
    match k
    case 0 => ((g >> 18) & 63) as bv8
    case 1 => ((g >> 12) & 63) as bv8
    case 2 => ((g >> 6) & 63) as bv8
    case 3 => (g & 63) as bv8
  }

  function Quad(a: bv8, b: bv8, c: bv8): (r: Bytes)
    ensures |r| == 4
  {
    var g := Group(a, b, c);
    [Char64(Sextet(g, 0)), Char64(Sextet(g, 1)), Char64(Sextet(g, 2)), Char64(Sextet(g, 3))]
  }

  /** The last one or two bytes: zero bits fill the group, and padding stands for the values that hold only those. */
  function Tail(s: Bytes): Bytes
    requires |s| < 3
  {
    if |s| == 0 then []
    else if |s| == 1 then Quad(s[0], 0, 0)[..2] + [PAD, PAD]
    else Quad(s[0], s[1], 0)[..3] + [PAD]
  }

  function Encode(s: Bytes): Bytes {
    if |s| < 3 then Tail(s) else Quad(s[0], s[1], s[2]) + Encode(s[3..])
  }

  /** The three bytes of four 6-bit values. */
  function Triple(a: bv8, b: bv8, c: bv8, d: bv8): (r: Bytes)
    ensures |r| == 3
  {
    [(a << 2) | (b >> 4), (b << 4) | (c >> 2), (c << 6) | d]
  }

  /** Decoding stops at the first character outside the table; one to three left over give a byte less. */
  function Decode(s: Bytes): Bytes {
    if |s| == 0 || !IsBase64(s[0]) then []
    else if |s| == 1 || !IsBase64(s[1]) then []
    else if |s| == 2 || !IsBase64(s[2]) then Triple(Value64(s[0]), Value64(s[1]), 0, 0)[..1]
    else if |s| == 3 || !IsBase64(s[3]) then Triple(Value64(s[0]), Value64(s[1]), Value64(s[2]), 0)[..2]
    else Triple(Value64(s[0]), Value64(s[1]), Value64(s[2]), Value64(s[3])) + Decode(s[4..])
  }

  lemma SextetIsSmall(g: bv24, k: nat)
    requires k < 4
    ensures Sextet(g, k) < 64
  {}

  /** The first byte of a group stands in its first two values. */
  lemma FirstByteReads(a: bv8, b: bv8, c: bv8)
    ensures (Sextet(Group(a, b, c), 0) << 2) | (Sextet(Group(a, b, c), 1) >> 4) == a
  {}

  lemma SecondByteReads(a: bv8, b: bv8, c: bv8)
    ensures (Sextet(Group(a, b, c), 1) << 4) | (Sextet(Group(a, b, c), 2) >> 2) == b
  {}

  lemma ThirdByteReads(a: bv8, b: bv8, c: bv8)
    ensures (Sextet(Group(a, b, c), 2) << 6) | Sextet(Group(a, b, c), 3) == c
  {}

  lemma GroupReads(a: bv8, b: bv8, c: bv8)
    ensures var g := Group(a, b, c);
            Triple(Sextet(g, 0), Sextet(g, 1), Sextet(g, 2), Sextet(g, 3)) == [a, b, c]
  {
    hide Sextet;
    hide Group;
    FirstByteReads(a, b, c);
    SecondByteReads(a, b, c);
    ThirdByteReads(a, b, c);
  }

  lemma QuadReads(a: bv8, b: bv8, c: bv8)
    ensures var q := Quad(a, b, c);
            && (forall k :: 0 <= k < 4 ==> IsBase64(q[k]))
            && Triple(Value64(q[0]), Value64(q[1]), Value64(q[2]), Value64(q[3])) == [a, b, c]
  {
    hide Char64;
    hide Value64;
    hide IsBase64;
    hide Triple;
    hide Sextet;
    hide Group;
    var g := Group(a, b, c);
    SextetIsSmall(g, 0);
    SextetIsSmall(g, 1);
    SextetIsSmall(g, 2);
    SextetIsSmall(g, 3);
    CharRoundTrip(Sextet(g, 0));
    CharRoundTrip(Sextet(g, 1));
    CharRoundTrip(Sextet(g, 2));
    CharRoundTrip(Sextet(g, 3));
    GroupReads(a, b, c);
  }

  lemma PadIsNot()
    ensures !IsBase64(PAD)
  {}

  // ----- the characters of the text -----

  const CAPITALS := "ABCDEFGHIJKLMNOPQRSTUVWXYZ"
  const SMALL := "abcdefghijklmnopqrstuvwxyz"
  const OTHERS := "0123456789+/"

  /** Table 1 of RFC 4648, and its padding character. */
  const ALPHABET := CAPITALS + SMALL + OTHERS
  const EQUALS := '='

  lemma TableParts(n: nat)
    ensures n < 26 ==> CAPITALS[n] as int == n + 65 && SMALL[n] as int == n + 97
    ensures n < 12 ==> OTHERS[n] as int == if n < 10 then n + 48 else if n == 10 then 43 else 47
  {}

  lemma CharCodes(v: bv8)
    requires v < 64
    ensures var n := v as int;
            Char64(v) as int == if n < 26 then n + 65 else if n < 52 then n + 71 else if n < 62 then n - 4 else if n == 62 then 43 else 47
  {
    assert v < 26 <==> v as int < 26;
    assert v < 52 <==> v as int < 52;
    assert v < 62 <==> v as int < 62;
    assert v == 62 <==> v as int == 62;
  }

  /** Each 6-bit value is written as its place in the table. */
  lemma TableIs(v: bv8)
    requires v < 64
    ensures v as int < |ALPHABET| == 64 && Char64(v) as int == ALPHABET[v as int] as int
    ensures PAD as int == EQUALS as int
  {
    hide Char64;
    CharCodes(v);
    var n := v as int;
    assert n < 64;
    TableParts(if n < 26 then n else if n < 52 then n - 26 else n - 52);
  }

  predicate AllInTable(s: Bytes) { forall i :: 0 <= i < |s| ==> IsBase64(s[i]) }

  lemma QuadInTable(a: bv8, b: bv8, c: bv8)
    ensures AllInTable(Quad(a, b, c))
  {
    hide Quad;
    hide IsBase64;
    hide Triple;
    QuadReads(a, b, c);
  }

  function Pads(n: nat): Bytes { if n % 3 == 1 then [PAD, PAD] else if n % 3 == 2 then [PAD] else [] }

  /** A text of four characters for every three bytes begun: so many of the table, and padding for each byte missing. */
  predicate IsShaped(e: Bytes, n: nat) {
    var k := |e| - |Pads(n)|;
    |e| == (n + 2) / 3 * 4 && 0 <= k && e[k..] == Pads(n) && AllInTable(e[..k])
  }

  lemma TailIsShaped(s: Bytes)
    requires |s| < 3
    ensures IsShaped(Tail(s), |s|)
  {
    hide Quad;
    hide IsBase64;
    if |s| == 1 { QuadInTable(s[0], 0, 0); } else if |s| == 2 { QuadInTable(s[0], s[1], 0); }
  }

  lemma ShapeGrows(q: Bytes, e: Bytes, n: nat)
    requires |q| == 4 && AllInTable(q) && IsShaped(e, n)
    ensures IsShaped(q + e, n + 3)
  {
    hide IsBase64;
    var k := |e| - |Pads(n)|;
    assert (q + e)[k + 4..] == e[k..] && (q + e)[..k + 4] == q + e[..k];
  }

  lemma {:induction false} EncodedShape(s: Bytes)
    ensures IsShaped(Encode(s), |s|)
  {
    hide Quad;
    hide Tail;
    hide IsShaped;
    if |s| < 3 {
      TailIsShaped(s);
    } else {
      QuadInTable(s[0], s[1], s[2]);
      EncodedShape(s[3..]);
      ShapeGrows(Quad(s[0], s[1], s[2]), Encode(s[3..]), |s[3..]|);
    }
  }

  /** Decoding what was encoded gives every byte string back. */
  lemma {:induction false} DecodeEncode(s: Bytes)
    ensures Decode(Encode(s)) == s
  {
    hide Quad;
    hide IsBase64;
    hide Value64;
    PadIsNot();
    if |s| == 1 {
      QuadReads(s[0], 0, 0);
    } else if |s| == 2 {
      QuadReads(s[0], s[1], 0);
    } else if |s| >= 3 {
      QuadReads(s[0], s[1], s[2]);
      DecodeEncode(s[3..]);
      assert Encode(s)[4..] == Encode(s[3..]);
      assert s == [s[0], s[1], s[2]] + s[3..];
    }
  }
}
