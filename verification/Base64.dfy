/** The encoders and the decoder as the sources write them. */
module Base64 {
  import opened Base64Spec

  /** The masks and shifts of the encoders pick the four values of a group. */
  lemma MasksAreSextets(a: bv8, b: bv8, c: bv8)
    ensures var g := Group(a, b, c);
            && (a & 0xfc) >> 2 == a >> 2 == Sextet(g, 0)
            && ((a & 0x03) << 4) + ((b & 0xf0) >> 4) == ((a & 0x03) << 4) | ((b & 0xf0) >> 4) == Sextet(g, 1)
            && ((b & 0x0f) << 2) + ((c & 0xc0) >> 6) == ((b & 0x0f) << 2) | ((c & 0xc0) >> 6) == Sextet(g, 2)
            && ((a << 4) | (b >> 4)) & 0x3f == Sextet(g, 1) && ((b << 2) | (c >> 6)) & 0x3f == Sextet(g, 2)
            && c & 0x3f == Sextet(g, 3)
            && (b == 0 ==> (a & 0x03) << 4 == Sextet(g, 1)) && (c == 0 ==> (b & 0x0f) << 2 == Sextet(g, 2))
  {
    var g := Group(a, b, c);
    assert (a & 0xfc) >> 2 == a >> 2 == Sextet(g, 0);
    assert ((a & 0x03) << 4) + ((b & 0xf0) >> 4) == Sextet(g, 1);
    assert ((a & 0x03) << 4) | ((b & 0xf0) >> 4) == Sextet(g, 1);
    assert ((b & 0x0f) << 2) + ((c & 0xc0) >> 6) == Sextet(g, 2);
    assert ((b & 0x0f) << 2) | ((c & 0xc0) >> 6) == Sextet(g, 2);
    assert ((a << 4) | (b >> 4)) & 0x3f == Sextet(g, 1);
    assert ((b << 2) | (c >> 6)) & 0x3f == Sextet(g, 2);
  }

  lemma Collect(held: Bytes, text: Bytes, pos: nat)
    requires pos < |text|
    ensures held + text[pos..] == (held + [text[pos]]) + text[pos + 1..]
  {}

  lemma Append(a: Bytes, b: Bytes, c: Bytes)
    ensures a + (b + c) == (a + b) + c && [] + c == c
  {}

  lemma EncodeGroup(a: bv8, b: bv8, c: bv8, rest: Bytes)
    ensures Encode([a, b, c] + rest) == Quad(a, b, c) + Encode(rest)
  {
    assert ([a, b, c] + rest)[3..] == rest;
  }

  method QuadOf(a: bv8, b: bv8, c: bv8) returns (x: array<bv8>)
    ensures x.Length == 4 && fresh(x) && Quad(a, b, c) == [Char64(x[0]), Char64(x[1]), Char64(x[2]), Char64(x[3])]
  {
    hide Char64;
    hide Sextet;
    hide Group;
    MasksAreSextets(a, b, c);
    x := new bv8[4];
    x[0] := (a & 0xfc) >> 2;
    x[1] := ((a & 0x03) << 4) + ((b & 0xf0) >> 4);
    x[2] := ((b & 0x0f) << 2) + ((c & 0xc0) >> 6);
    x[3] := c & 0x3f;
  }

  /** `base64_encode`: bytes are collected one at a time, and every third one completes a group. */
  method PaasEncode(data: Bytes) returns (ret: Bytes)
    ensures ret == Encode(data)
  {
    hide Encode;
    hide Quad;
    hide Char64;
    ret := [];
    var three := new bv8[3];
    var i, pos := 0, 0;
    assert three[..0] + data[0..] == data;
    while pos < |data|
      invariant 0 <= pos <= |data| && 0 <= i < 3 && three.Length == 3
      invariant ret + Encode(three[..i] + data[pos..]) == Encode(data)
    {
      ghost var held := three[..i];
      Collect(held, data, pos);
      three[i] := data[pos];
      assert three[..i + 1] == held + [data[pos]];
      i, pos := i + 1, pos + 1;
      if i == 3 {
        assert three[..3] == [three[0], three[1], three[2]];
        EncodeGroup(three[0], three[1], three[2], data[pos..]);
        var four := QuadOf(three[0], three[1], three[2]);
        Append(ret, Quad(three[0], three[1], three[2]), Encode(data[pos..]));
        ret := ret + [Char64(four[0]), Char64(four[1]), Char64(four[2]), Char64(four[3])];
        i := 0;
        assert three[..0] == [];
        Append([], [], data[pos..]);
      }
    }
    assert three[..i] + data[pos..] == three[..i];
    LastBytes(three[..i]);
    if i > 0 {
      var last := PaasTail(three, i);
      ret := ret + last;
    }
  }

  /** One or two bytes left over: the rest of the group is zeroed and padding written for it. */
  method PaasTail(three: array<bv8>, count: nat) returns (ret: Bytes)
    requires three.Length == 3 && 1 <= count <= 2
    modifies three
    ensures ret == Tail(old(three[..count]))
  {
    hide Quad;
    hide Char64;
    ghost var left := three[..count];
    assert left[0] == three[0] && (count == 2 ==> left[1] == three[1]);
    for j := count to 3
      invariant three[0] == left[0] && (count == 2 ==> three[1] == left[1]) && forall k :: count <= k < j ==> three[k] == 0
    {
      three[j] := 0;
    }
    var four := QuadOf(three[0], three[1], three[2]);
    ghost var quad := Quad(three[0], three[1], three[2]);
    ret := [];
    var j := 0;
    while j < count + 1
      invariant 0 <= j <= count + 1 <= 3 && ret == quad[..j]
    {
      assert quad[j] == Char64(four[j]);
      ret := ret + [Char64(four[j])];
      j := j + 1;
    }
    var i := count;
    while i < 3
      invariant count <= i <= 3 && ret == quad[..count + 1] + seq(i - count, _ => PAD)
    {
      ret := ret + [PAD];
      i := i + 1;
    }
    assert seq(3 - count, _ => PAD) == if count == 1 then [PAD, PAD] else [PAD];
  }

  lemma LastBytes(s: Bytes)
    requires |s| < 3
    ensures Encode(s) == Tail(s)
  {}

  /** Crow's `base64encode`: three bytes at a time. */
  method CrowEncode(data: Bytes) returns (ret: Bytes)
    ensures ret == Encode(data)
  {
    hide Encode;
    hide Char64;
    hide Sextet;
    hide Group;
    ret := [];
    var pos := 0;
    assert data[0..] == data;
    while |data| - pos >= 3
      invariant 0 <= pos <= |data| && ret + Encode(data[pos..]) == Encode(data)
    {
      var a, b, c := data[pos], data[pos + 1], data[pos + 2];
      MasksAreSextets(a, b, c);
      assert data[pos..] == [a, b, c] + data[pos + 3..];
      EncodeGroup(a, b, c, data[pos + 3..]);
      ghost var before := ret;
      ret := ret + [Char64((a & 0xfc) >> 2), Char64(((a & 0x03) << 4) | ((b & 0xf0) >> 4)),
                    Char64(((b & 0x0f) << 2) | ((c & 0xc0) >> 6)), Char64(c & 0x3f)];
      assert before + (Quad(a, b, c) + Encode(data[pos + 3..])) == ret + Encode(data[pos + 3..]);
      pos := pos + 3;
    }
    LastBytes(data[pos..]);
    var last := TailOf(data[pos..]);
    ret := ret + last;
  }

  lemma OneLeft(a: bv8)
    ensures Tail([a]) == [Char64((a & 0xfc) >> 2), Char64((a & 0x03) << 4), PAD, PAD]
  {
    hide Char64;
    hide Sextet;
    hide Group;
    MasksAreSextets(a, 0, 0);
  }

  lemma TwoLeft(a: bv8, b: bv8)
    ensures Tail([a, b]) ==
            [Char64((a & 0xfc) >> 2), Char64(((a & 0x03) << 4) | ((b & 0xf0) >> 4)), Char64((b & 0x0f) << 2), PAD]
  {
    hide Char64;
    hide Sextet;
    hide Group;
    MasksAreSextets(a, b, 0);
  }

  /** The last group of an encoder that works on three bytes at a time. */
  method TailOf(s: Bytes) returns (r: Bytes)
    requires |s| < 3
    ensures r == Tail(s)
  {
    hide Char64;
    hide Quad;
    if |s| == 1 {
      OneLeft(s[0]);
      assert s == [s[0]];
      return [Char64((s[0] & 0xfc) >> 2), Char64((s[0] & 0x03) << 4), PAD, PAD];
    } else if |s| == 2 {
      TwoLeft(s[0], s[1]);
      assert s == [s[0], s[1]];
      return [Char64((s[0] & 0xfc) >> 2), Char64(((s[0] & 0x03) << 4) | ((s[1] & 0xf0) >> 4)), Char64((s[1] & 0x0f) << 2), PAD];
    }
    return [];
  }

  /** `base64_decode`: characters are collected four at a time until one is outside the table. */
  method PaasDecode(text: Bytes) returns (ret: Bytes)
    ensures ret == Decode(text)
  {
    hide Decode;
    hide IsBase64;
    hide Value64;
    hide Triple;
    ret := [];
    var four := new bv8[4];
    var i, pos := 0, 0;
    assert four[..0] + text[0..] == text;
    while pos < |text| && text[pos] != PAD && IsBase64(text[pos])
      invariant 0 <= pos <= |text| && 0 <= i < 4 && four.Length == 4
      invariant forall k :: 0 <= k < i ==> IsBase64(four[k])
      invariant ret + Decode(four[..i] + text[pos..]) == Decode(text)
    {
      ghost var held := four[..i];
      Collect(held, text, pos);
      four[i] := text[pos];
      assert four[..i + 1] == held + [text[pos]];
      i, pos := i + 1, pos + 1;
      if i == 4 {
        assert four[..4] == [four[0], four[1], four[2], four[3]];
        DecodeGroup(four[..4], text[pos..]);
        var three := TripleOf(four[..4]);
        Append(ret, three, Decode(text[pos..]));
        ret := ret + three;
        i := 0;
        assert four[..0] == [];
        Append([], [], text[pos..]);
      }
    }
    PadIsNot();
    DecodeEnd(four[..i], text[pos..]);
    var last := DecodeTail(four[..i]);
    ret := ret + last;
  }

  method TripleOf(q: Bytes) returns (three: Bytes)
    requires |q| == 4 && forall k :: 0 <= k < |q| ==> IsBase64(q[k])
    ensures three == Triple(Value64(q[0]), Value64(q[1]), Value64(q[2]), Value64(q[3]))
  {
    hide IsBase64;
    hide Value64;
    hide Triple;
    ValuesAreSmall(q);
    var a, b, c, d := Value64(q[0]), Value64(q[1]), Value64(q[2]), Value64(q[3]);
    SumsAreTriple(a, b, c, d);
    three := [(a << 2) + ((b & 0x30) >> 4), ((b & 0xf) << 4) + ((c & 0x3c) >> 2), ((c & 0x3) << 6) + d];
  }

  method DecodeTail(q: Bytes) returns (ret: Bytes)
    requires |q| < 4 && forall k :: 0 <= k < |q| ==> IsBase64(q[k])
    ensures ret ==
            if |q| < 2 then []
            else if |q| == 2 then Triple(Value64(q[0]), Value64(q[1]), 0, 0)[..1]
            else Triple(Value64(q[0]), Value64(q[1]), Value64(q[2]), 0)[..2]
  {
    hide IsBase64;
    hide Value64;
    hide Triple;
    ValuesAreSmall(q);
    if |q| < 2 {
      return [];
    }
    var a, b := Value64(q[0]), Value64(q[1]);
    if |q| == 2 {
      SumsAreTriple(a, b, 0, 0);
      return [(a << 2) + ((b & 0x30) >> 4)];
    }
    var c := Value64(q[2]);
    SumsAreTriple(a, b, c, 0);
    return [(a << 2) + ((b & 0x30) >> 4), ((b & 0xf) << 4) + ((c & 0x3c) >> 2)];
  }

  lemma ValuesAreSmall(q: Bytes)
    requires forall k :: 0 <= k < |q| ==> IsBase64(q[k])
    ensures forall k :: 0 <= k < |q| ==> Value64(q[k]) < 64
  {}

  lemma SumsAreTriple(a: bv8, b: bv8, c: bv8, d: bv8)
    requires a < 64 && b < 64 && c < 64 && d < 64
    ensures [(a << 2) + ((b & 0x30) >> 4), ((b & 0xf) << 4) + ((c & 0x3c) >> 2), ((c & 0x3) << 6) + d] == Triple(a, b, c, d)
  {
    assert (a << 2) + ((b & 0x30) >> 4) == (a << 2) | (b >> 4);
    assert ((b & 0xf) << 4) + ((c & 0x3c) >> 2) == (b << 4) | (c >> 2);
    assert ((c & 0x3) << 6) + d == (c << 6) | d;
  }

  lemma DecodeGroup(q: Bytes, rest: Bytes)
    requires |q| == 4 && forall k :: 0 <= k < 4 ==> IsBase64(q[k])
    ensures Decode(q + rest) == Triple(Value64(q[0]), Value64(q[1]), Value64(q[2]), Value64(q[3])) + Decode(rest)
  {
    hide IsBase64;
    hide Value64;
    hide Triple;
    assert (q + rest)[4..] == rest;
  }

  lemma DecodeEnd(q: Bytes, rest: Bytes)
    requires |q| < 4 && (forall k :: 0 <= k < |q| ==> IsBase64(q[k])) && (rest != [] ==> !IsBase64(rest[0]))
    ensures Decode(q + rest) ==
            if |q| < 2 then []
            else if |q| == 2 then Triple(Value64(q[0]), Value64(q[1]), 0, 0)[..1]
            else Triple(Value64(q[0]), Value64(q[1]), Value64(q[2]), 0)[..2]
  {
    hide IsBase64;
    hide Value64;
    hide Triple;
    var s := q + rest;
    assert forall k :: 0 <= k < |q| ==> s[k] == q[k];
    assert rest != [] ==> s[|q|] == rest[0];
  }

  // ----- lines of 76 -----

  const CRLF: Bytes := [13, 10]

  /** The text with a line break behind every 76 characters. */
  function Broken(t: Bytes): Bytes { if |t| < 76 then t else t[..76] + CRLF + Broken(t[76..]) }

  function Joined(t: Bytes): Bytes {
    if |t| == 0 then [] else if t[0] == 13 || t[0] == 10 then Joined(t[1..]) else [t[0]] + Joined(t[1..])
  }

  predicate NoBreaks(t: Bytes) { forall i :: 0 <= i < |t| ==> t[i] != 13 && t[i] != 10 }

  lemma {:induction false} JoinedPlain(t: Bytes, u: Bytes)
    requires NoBreaks(t)
    ensures Joined(t + u) == t + Joined(u)
  {
    if t == [] {
      assert t + u == u;
    } else {
      JoinedPlain(t[1..], u);
      assert (t + u)[1..] == t[1..] + u;
      assert t == [t[0]] + t[1..];
    }
  }

  lemma JoinedBreak(rest: Bytes)
    ensures Joined(CRLF + rest) == Joined(rest)
  {
    assert (CRLF + rest)[1..] == [10] + rest && ([10] + rest)[1..] == rest;
  }

  lemma JoinedNothing(u: Bytes)
    requires NoBreaks(u)
    ensures Joined(u) == u
  {
    JoinedPlain(u, []);
    assert u + [] == u;
  }

  /** Taking the line breaks out again. */
  lemma {:induction false} JoinedBroken(t: Bytes, u: Bytes)
    requires NoBreaks(t) && NoBreaks(u)
    ensures Joined(Broken(t) + u) == t + u
    decreases |t|
  {
    hide Joined;
    if |t| < 76 {
      JoinedPlain(t, u);
      JoinedNothing(u);
    } else {
      var rest := Broken(t[76..]) + u;
      JoinedBroken(t[76..], u);
      JoinedPlain(t[..76], CRLF + rest);
      JoinedBreak(rest);
      assert Broken(t) + u == t[..76] + (CRLF + rest);
      assert t + u == t[..76] + (t[76..] + u);
    }
  }

  lemma {:induction false} EncodeJoins(s: Bytes, t: Bytes)
    requires |s| % 3 == 0
    ensures Encode(s + t) == Encode(s) + Encode(t) && |Encode(s)| == |s| / 3 * 4
    decreases |s|
  {
    hide Quad;
    if s == [] {
      assert s + t == t;
    } else {
      EncodeJoins(s[3..], t);
      assert (s + t)[3..] == s[3..] + t;
    }
  }

  lemma BrokenStep(t: Bytes)
    ensures |t| >= 76 ==> Broken(t) == t[..76] + CRLF + Broken(t[76..])
    ensures |t| < 76 ==> Broken(t) == t
  {}

  /** A text that is one line longer at its end. */
  lemma {:induction false} BrokenGrows(done: Bytes, line: Bytes)
    requires |done| % 76 == 0 && |line| <= 76
    ensures Broken(done + line) == Broken(done) + if |line| == 76 then line + CRLF else line
    decreases |done|
  {
    hide Broken;
    var t := done + line;
    BrokenStep(t);
    BrokenStep(done);
    BrokenStep([]);
    if done == [] {
      assert t == line;
      assert |line| == 76 ==> t[..76] == line && t[76..] == [] && line + CRLF + [] == line + CRLF;
    } else {
      BrokenGrows(done[76..], line);
      assert t[..76] == done[..76] && t[76..] == done[76..] + line;
    }
  }

  /** `PaasCommon::Base64_Encode`: a line break behind every 76 characters of full groups. */
  method WrappedEncode(data: Bytes) returns (ret: Bytes)
    ensures var full := |data| - |data| % 3; ret == Broken(Encode(data[..full])) + Encode(data[full..])
    ensures Joined(ret) == Encode(data)
  {
    hide Encode;
    hide Broken;
    hide Joined;
    hide Quad;
    hide Tail;
    hide NoBreaks;
    ret := [];
    var length := 0;
    ghost var done: Bytes, line: Bytes := [], [];
    NothingBroken();
    for i := 0 to |data| / 3
      invariant done + line == Encode(data[..3 * i]) && |done| % 76 == 0 && |line| == length < 76 && length % 4 == 0
      invariant ret == Broken(done) + line
    {
      var quad := ShiftedQuad(data[3 * i], data[3 * i + 1], data[3 * i + 2]);
      NextGroup(data, i);
      ret := ret + quad;
      line := line + quad;
      assert done + line == Encode(data[..3 * (i + 1)]);
      length := length + 4;
      if length == 76 {
        BrokenGrows(done, line);
        ret := ret + CRLF;
        done, line := done + line, [];
        length := 0;
      }
    }
    var full := |data| - |data| % 3;
    BrokenGrows(done, line);
    LastBytes(data[full..]);
    var last := TailOf(data[full..]);
    ret := ret + last;
    JoinedText(data, full);
  }

  lemma JoinedText(data: Bytes, full: nat)
    requires full <= |data| && full % 3 == 0
    ensures Joined(Broken(Encode(data[..full])) + Encode(data[full..])) == Encode(data)
  {
    hide Encode;
    hide Broken;
    hide Joined;
    EncodeJoins(data[..full], data[full..]);
    assert data[..full] + data[full..] == data;
    EncodeHasNoBreaks(data[..full]);
    EncodeHasNoBreaks(data[full..]);
    JoinedBroken(Encode(data[..full]), Encode(data[full..]));
  }

  method ShiftedQuad(a: bv8, b: bv8, c: bv8) returns (quad: Bytes)
    ensures quad == Quad(a, b, c)
  {
    hide Char64;
    hide Sextet;
    hide Group;
    MasksAreSextets(a, b, c);
    quad := [Char64(a >> 2), Char64(((a << 4) | (b >> 4)) & 0x3f), Char64(((b << 2) | (c >> 6)) & 0x3f), Char64(c & 0x3f)];
  }

  lemma NothingBroken()
    ensures Broken([]) == [] && Encode([]) == []
  {}

  lemma NextGroup(data: Bytes, i: nat)
    requires 3 * i + 3 <= |data|
    ensures Encode(data[..3 * (i + 1)]) == Encode(data[..3 * i]) + Quad(data[3 * i], data[3 * i + 1], data[3 * i + 2])
  {
    hide Quad;
    var group := [data[3 * i], data[3 * i + 1], data[3 * i + 2]];
    EncodeJoins(data[..3 * i], group);
    EncodeGroup(group[0], group[1], group[2], []);
    assert group + [] == group;
    assert data[..3 * (i + 1)] == data[..3 * i] + group;
  }

  lemma {:induction false} EncodeHasNoBreaks(s: Bytes)
    ensures NoBreaks(Encode(s))
  {
    hide Quad;
    if |s| == 1 {
      QuadHasNoBreaks(s[0], 0, 0);
    } else if |s| == 2 {
      QuadHasNoBreaks(s[0], s[1], 0);
    } else if |s| >= 3 {
      QuadHasNoBreaks(s[0], s[1], s[2]);
      EncodeHasNoBreaks(s[3..]);
    }
  }

  lemma QuadHasNoBreaks(a: bv8, b: bv8, c: bv8)
    ensures NoBreaks(Quad(a, b, c))
  {
    hide Quad;
    hide Triple;
    hide Value64;
    QuadReads(a, b, c);
    NotBreaks();
  }

  lemma NotBreaks()
    ensures !IsBase64(13) && !IsBase64(10)
  {}
}
