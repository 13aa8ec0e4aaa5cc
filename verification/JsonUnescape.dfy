/** Unescaping a string over itself. */
module JsonUnescape {
  import opened Common
  import opened JsonSpec
  import opened JsonInPlaceValues

  /** The next character or escape of `t`: the bytes it stands for, and how many it takes. */
  function NextPiece(t: Text): (r: (Text, nat))
    requires WellEscaped(t) && t != []
    ensures 1 <= |r.0| <= r.1 <= |t| && WellEscaped(t[r.1..])
  {
    if t[0] != '\\' then ([t[0]], 1)
    else if t[1] == 'u' then (Utf8(CodeOf(t[2], t[3], t[4], t[5])), 6)
    else ([SimpleEscape(t[1])], 2)
  }

  lemma UnescapeStep(t: Text)
    requires WellEscaped(t) && t != []
    ensures var (w, n) := NextPiece(t); Unescape(t) == w + Unescape(t[n..])
  {}

  lemma {:induction false} NoEscapes(s: Text)
    requires '\\' !in s
    ensures WellEscaped(s) && Unescape(s) == s
    decreases |s|
  {
    if s != [] { NoEscapes(s[1..]); }
  }

  /** `b` with `w` written at `at`. */
  function Written(b: Text, at: nat, w: Text): Text
    requires at + |w| <= |b|
  {
    b[..at] + w + b[at + |w|..]
  }

  method Put(buf: array<Byte>, at: nat, w: Text)
    requires at + |w| <= buf.Length
    modifies buf
    ensures buf[..] == Written(old(buf[..]), at, w)
  {
    forall i | 0 <= i < |w| {
      buf[at + i] := w[i];
    }
  }

  /** The text from `s` to `e` of `b0` is unescaped up to `head`, with the result so far in `s..tail` of `b`. */
  ghost predicate Halfway(b: Text, b0: Text, s: nat, tail: nat, head: nat, e: nat)
    requires s <= e <= |b0| && WellEscaped(b0[s..e])
  {
    && |b| == |b0| && s <= tail <= head <= e && WellEscaped(b0[head..e])
    && b[..s] == b0[..s] && b[head..] == b0[head..]
    && b[s..tail] + Unescape(b0[head..e]) == Unescape(b0[s..e])
  }

  lemma HalfwayReads(b: Text, b0: Text, s: nat, tail: nat, head: nat, e: nat)
    requires s <= e <= |b0| && WellEscaped(b0[s..e]) && Halfway(b, b0, s, tail, head, e)
    ensures b[head..e] == b0[head..e]
  {
    hide Unescape;
    hide WellEscaped;
    assert b[head..e] == b[head..][..e - head];
    assert b0[head..e] == b0[head..][..e - head];
  }

  lemma HalfwayStep(b: Text, b0: Text, s: nat, tail: nat, head: nat, e: nat)
    requires s <= e <= |b0| && WellEscaped(b0[s..e]) && Halfway(b, b0, s, tail, head, e) && head < e
    ensures var (w, n) := NextPiece(b0[head..e]); Halfway(Written(b, tail, w), b0, s, tail + |w|, head + n, e)
  {
    hide Unescape;
    hide WellEscaped;
    hide NextPiece;
    var (w, n) := NextPiece(b0[head..e]);
    UnescapeStep(b0[head..e]);
    var c := Written(b, tail, w);
    assert b0[head..e][n..] == b0[head + n..e];
    assert c[s..tail + |w|] == b[s..tail] + w;
    assert c[..s] == b[..s];
    assert c[head + n..] == b[head..][n..] == b0[head..][n..] == b0[head + n..];
  }

  method UnescapeLoop(buf: array<Byte>, s: nat, e: nat) returns (tail: nat)
    requires 1 <= s <= e < buf.Length && WellEscaped(buf[s..e])
    modifies buf
    ensures s <= tail <= e && buf[s..tail] == Unescape(old(buf[s..e]))
    ensures buf[..s] == old(buf[..s]) && buf[e..] == old(buf[e..])
  {
    hide Unescape;
    hide WellEscaped;
    hide NextPiece;
    hide Written;
    ghost var b0 := buf[..];
    var head := s;
    tail := s;
    assert b0[s..e] == buf[s..e];
    assert Halfway(buf[..], b0, s, s, s, e);
    while head < e
      invariant s <= tail <= head <= e && buf.Length == |b0|
      invariant Halfway(buf[..], b0, s, tail, head, e)
    {
      HalfwayReads(buf[..], b0, s, tail, head, e);
      HalfwayStep(buf[..], b0, s, tail, head, e);
      assert buf[head..e] == b0[head..e];
      var (w, n) := NextPiece(buf[head..e]);
      Put(buf, tail, w);
      head, tail := head + n, tail + |w|;
    }
    UnescapeNothing();
    assert b0[e..e] == [] && buf[s..tail] + [] == buf[s..tail];
  }

  lemma UnescapeNothing()
    ensures WellEscaped([]) && Unescape([]) == []
  {}

  /** `rvalue::unescape`: the writing position never passes the reading position; a flag byte of 0 means it is done. */
  method UnescapeInPlace(buf: array<Byte>, s: nat, e: nat) returns (end: nat)
    requires 1 <= s <= e < buf.Length && (buf[s - 1] != '\0' ==> WellEscaped(buf[s..e]))
    modifies buf
    ensures s <= end <= e && buf[s - 1] == '\0' && buf[s..end] == StringView(old(buf[..]), s, e)
    ensures buf[..s - 1] == old(buf[..s - 1]) && buf[e + 1..] == old(buf[e + 1..])
    ensures old(buf[s - 1]) == '\0' ==> end == e && buf[..] == old(buf[..])
  {
    hide Unescape;
    hide WellEscaped;
    ghost var b0 := buf[..];
    assert b0[s..e] == buf[s..e];
    if buf[s - 1] == '\0' {
      return e;
    }
    end := UnescapeLoop(buf, s, e);
    ghost var b1 := buf[..];
    assert b1[..s] == b0[..s] && b1[e..] == b0[e..];
    buf[end] := '\0';
    buf[s - 1] := '\0';
    assert buf[s..end] == b1[s..end];
    assert buf[..s - 1] == b1[..s][..s - 1] == b0[..s][..s - 1] == b0[..s - 1];
    assert buf[e + 1..] == b1[e..][1..] == b0[e..][1..] == b0[e + 1..];
  }
}
