/** What the parser makes of a header's value. */
module HttpValues {
  import opened Common
  import opened HttpModel
  import opened HttpBytes
  import opened HttpTrace
  import opened HttpMachine
  import opened HttpHeaders

  const CHUNKED := "chunked"
  const KEEP_ALIVE := "keep-alive"
  const CLOSE := "close"

  /** A value's text, lower-cased as the parser does it. */
  function Low(v: seq<Byte>): (l: seq<Byte>)
    ensures |l| == |v|
  {
    if v == [] then [] else Low(v[..|v| - 1]) + [Lower(v[|v| - 1])]
  }

  /** The value is the word, in any case, with nothing but blanks behind it. */
  predicate IsWord(v: seq<Byte>, word: string) {
    |v| >= |word| && Low(v[..|word|]) == word && forall i :: |word| <= i < |v| ==> v[i] == ' '
  }

  /** The value starts the word, or is the word. */
  predicate Begins(v: seq<Byte>, word: string) { Low(v) <= word || IsWord(v, word) }

  lemma LowSnoc(v: seq<Byte>, c: Byte)
    ensures Low(v + [c]) == Low(v) + [Lower(c)]
  {
    assert (v + [c])[..|v|] == v;
  }

  /** A text no longer than the word begins it only as a prefix. */
  lemma ShortBegins(v: seq<Byte>, word: string)
    requires |v| <= |word|
    ensures Begins(v, word) <==> Low(v) <= word
  {
    if |v| == |word| { assert v[..|word|] == v; }
  }

  /** More text begins a word only if the shorter text does. */
  lemma BeginsLess(v: seq<Byte>, c: Byte, word: string)
    requires Begins(v + [c], word)
    ensures Begins(v, word)
  {
    hide Lower;
    LowSnoc(v, c);
    var w := v + [c];
    if |v| < |word| {
      ShortBegins(w, word);
      assert Low(v) == Low(w)[..|v|] == word[..|v|];
    } else {
      assert w[..|word|] == v[..|word|];
      assert forall i :: |word| <= i < |v| ==> v[i] == w[i];
    }
  }

  /** What the header state says about the value read so far, while one word is matched. */
  predicate Follows(h: HeaderState, index: nat, v: seq<Byte>, word: string, matching: HeaderState, full: HeaderState) {
    if h == matching then Within(Low(v), word, 1, index) else if h == full then IsWord(v, word) else h == General && !Begins(v, word)
  }

  lemma FullIsWord(v: seq<Byte>, word: string)
    requires Low(v) == word
    ensures IsWord(v, word)
  {
    assert v[..|word|] == v;
  }

  /** A character more while the word is matched. */
  lemma MatchFollows(p: Parser, c: Byte, v: seq<Byte>, word: string, full: HeaderState)
    requires Within(Low(v), word, 1, p.index) && full != p.hstate && p.hstate != General && full != General
    ensures var q := MatchName(p, word, Lower(c), full); Follows(q.hstate, q.index, v + [c], word, p.hstate, full)
  {
    hide Lower;
    hide Low;
    MatchStep(p, word, Lower(c), full, Low(v));
    LowSnoc(v, c);
    var w := v + [c];
    ShortBegins(w, word);
    if |v| + 1 == |word| && word[|v|] == Lower(c) { FullIsWord(w, word); }
  }

  /** A character behind the whole word: a blank, or none of it. */
  lemma WordFollows(v: seq<Byte>, c: Byte, word: string)
    requires IsWord(v, word)
    ensures if c == ' ' then IsWord(v + [c], word) else !Begins(v + [c], word)
  {
    hide Lower;
    var w := v + [c];
    assert w[..|word|] == v[..|word|] && w[|v|] == c;
  }

  // ----- the values that have a meaning -----

  /** How a value is read: for nothing, for the connection's future, or for the encoding of the body. */
  datatype Meaning = Nothing | Connecting | Encoding

  function MeaningOf(h: HeaderState): Meaning {
    if h == Connection then Connecting else if h == TransferEncoding then Encoding else Nothing
  }

  /** What the header state says about the value read so far. */
  predicate Reads(k: Meaning, h: HeaderState, index: nat, v: seq<Byte>) {
    match k
    case Nothing => h == General
    case Encoding => Follows(h, index, v, CHUNKED, MatchChunked, Chunked)
    case Connecting =>
      if h == MatchKeepAlive || h == KeepAlive then Follows(h, index, v, KEEP_ALIVE, MatchKeepAlive, KeepAlive)
      else if h == MatchClose || h == Close then Follows(h, index, v, CLOSE, MatchClose, Close)
      else h == General && !Begins(v, KEEP_ALIVE) && !Begins(v, CLOSE)
  }

  /** The words differ in their first letter. */
  lemma {:induction false} BeginsFirst(v: seq<Byte>, word: string)
    requires v != [] && word != [] && Begins(v, word)
    ensures Lower(v[0]) == word[0]
  {
    hide Lower;
    if |v| == 1 {
      ShortBegins(v, word);
      assert Low(v) == [Lower(v[0])] by { LowSnoc([], v[0]); assert [] + [v[0]] == v; }
      assert Low(v)[0] == word[0];
    } else {
      var w, c := v[..|v| - 1], v[|v| - 1];
      assert w + [c] == v;
      BeginsLess(w, c, word);
      BeginsFirst(w, word);
    }
  }

  lemma OneWordOnly(v: seq<Byte>)
    requires v != []
    ensures !Begins(v, KEEP_ALIVE) || !Begins(v, CLOSE)
  {
    hide Lower;
    if Begins(v, KEEP_ALIVE) { BeginsFirst(v, KEEP_ALIVE); }
    if Begins(v, CLOSE) { BeginsFirst(v, CLOSE); }
  }

  lemma FollowsBegins(h: HeaderState, index: nat, v: seq<Byte>, word: string, matching: HeaderState, full: HeaderState)
    requires Follows(h, index, v, word, matching, full) && matching != General && full != General && matching != full
    ensures h != General ==> Begins(v, word)
    ensures h == full <==> IsWord(v, word)
  {
    hide Lower;
  }

  /** One more character of a word, or behind it. */
  lemma FollowsMore(p: Parser, c: Byte, v: seq<Byte>, word: string, matching: HeaderState, full: HeaderState)
    requires Follows(p.hstate, p.index, v, word, matching, full) && p.hstate != General
    requires matching != General && full != General && matching != full
    ensures var q := if p.hstate == matching then MatchName(p, word, Lower(c), full)
                     else if c != ' ' then p.(hstate := General) else p;
            Follows(q.hstate, q.index, v + [c], word, matching, full)
  {
    hide Lower;
    hide Low;
    hide MatchName;
    hide Begins;
    if p.hstate == matching { MatchFollows(p, c, v, word, full); } else { WordFollows(v, c, word); }
  }

  lemma GeneralStays(v: seq<Byte>, c: Byte, word: string)
    requires !Begins(v, word)
    ensures !Begins(v + [c], word)
  {
    if Begins(v + [c], word) { BeginsLess(v, c, word); }
  }

  lemma CharReads(k: Meaning, p: Parser, c: Byte, v: seq<Byte>)
    requires p.state == Value && v != [] && Reads(k, p.hstate, p.index, v)
    ensures var t := ValueChar(p, c);
            && t == Take(p.(hstate := t.p.hstate, index := t.p.index), Value)
            && Reads(k, t.p.hstate, t.p.index, v + [c])
  {
    hide Lower;
    hide Begins;
    hide MatchName;
    hide Follows;
    MatchNameFrame(p, CHUNKED, Lower(c), Chunked);
    MatchNameFrame(p, KEEP_ALIVE, Lower(c), KeepAlive);
    MatchNameFrame(p, CLOSE, Lower(c), Close);
    ReadsKnown(k, p, v);
    match k
    case Nothing =>
    case Encoding => EncodingReads(p, c, v);
    case Connecting => ConnectingReads(p, c, v);
  }

  lemma ReadsKnown(k: Meaning, p: Parser, v: seq<Byte>)
    requires Reads(k, p.hstate, p.index, v)
    ensures p.hstate == General || p.hstate == MatchChunked || p.hstate == Chunked || p.hstate == MatchKeepAlive
            || p.hstate == KeepAlive || p.hstate == MatchClose || p.hstate == Close
  {
    hide Lower;
    hide Begins;
  }

  lemma GeneralFollows(index: nat, v: seq<Byte>, word: string, matching: HeaderState, full: HeaderState)
    requires matching != General && full != General
    ensures Follows(General, index, v, word, matching, full) <==> !Begins(v, word)
  {}

  lemma EncodingReads(p: Parser, c: Byte, v: seq<Byte>)
    requires p.state == Value && v != [] && Reads(Encoding, p.hstate, p.index, v)
    ensures var t := ValueChar(p, c); Reads(Encoding, t.p.hstate, t.p.index, v + [c])
  {
    hide Lower;
    hide Begins;
    hide MatchName;
    hide Follows;
    FollowsKnown(p.hstate, p.index, v, CHUNKED, MatchChunked, Chunked);
    if p.hstate == General {
      GeneralFollows(p.index, v, CHUNKED, MatchChunked, Chunked);
      GeneralStays(v, c, CHUNKED);
      GeneralFollows(p.index, v + [c], CHUNKED, MatchChunked, Chunked);
    } else {
      FollowsMore(p, c, v, CHUNKED, MatchChunked, Chunked);
    }
  }

  lemma FollowsKnown(h: HeaderState, index: nat, v: seq<Byte>, word: string, matching: HeaderState, full: HeaderState)
    requires Follows(h, index, v, word, matching, full)
    ensures h == General || h == matching || h == full
  {
    hide Lower;
    hide Begins;
  }

  lemma ConnectingReads(p: Parser, c: Byte, v: seq<Byte>)
    requires p.state == Value && v != [] && Reads(Connecting, p.hstate, p.index, v)
    ensures var t := ValueChar(p, c); Reads(Connecting, t.p.hstate, t.p.index, v + [c])
  {
    hide Lower;
    hide Begins;
    hide MatchName;
    hide Follows;
    if p.hstate == General {
      GeneralStays(v, c, KEEP_ALIVE);
      GeneralStays(v, c, CLOSE);
    } else if p.hstate == MatchKeepAlive || p.hstate == KeepAlive {
      WordReads(p, c, v, KEEP_ALIVE, MatchKeepAlive, KeepAlive, CLOSE);
    } else {
      WordReads(p, c, v, CLOSE, MatchClose, Close, KEEP_ALIVE);
    }
  }

  /** While one word is read, the other one is out of the question. */
  lemma WordReads(p: Parser, c: Byte, v: seq<Byte>, word: string, matching: HeaderState, full: HeaderState, other: string)
    requires v != [] && Follows(p.hstate, p.index, v, word, matching, full) && p.hstate != General
    requires matching != General && full != General && matching != full
    requires (word == KEEP_ALIVE && other == CLOSE) || (word == CLOSE && other == KEEP_ALIVE)
    ensures var q := if p.hstate == matching then MatchName(p, word, Lower(c), full)
                     else if c != ' ' then p.(hstate := General) else p;
            && Follows(q.hstate, q.index, v + [c], word, matching, full) && !Begins(v + [c], other)
            && (q.hstate == General ==> !Begins(v + [c], word)) && (q.hstate == General || q.hstate == matching || q.hstate == full)
  {
    hide Lower;
    hide Begins;
    hide MatchName;
    hide Follows;
    FollowsMore(p, c, v, word, matching, full);
    FollowsBegins(p.hstate, p.index, v, word, matching, full);
    OneWordOnly(v);
    GeneralStays(v, c, other);
    var q := if p.hstate == matching then MatchName(p, word, Lower(c), full) else if c != ' ' then p.(hstate := General) else p;
    FollowsKnown(q.hstate, q.index, v + [c], word, matching, full);
    GeneralFollows(q.index, v + [c], word, matching, full);
  }

  lemma LowOne(c: Byte)
    ensures Low([c]) == [Lower(c)]
  {
    hide Lower;
    LowSnoc([], c);
    assert [] + [c] == [c];
  }

  lemma FirstBegins(c: Byte, word: string)
    requires |word| > 1
    ensures Begins([c], word) <==> Lower(c) == word[0]
  {
    hide Lower;
    ShortBegins([c], word);
    LowOne(c);
    PrefixOne(Lower(c), word);
  }

  lemma FirstWithin(c: Byte, word: string)
    requires |word| > 1 && Lower(c) == word[0]
    ensures Within(Low([c]), word, 1, 0)
  {
    hide Lower;
    LowOne(c);
    PrefixOne(Lower(c), word);
  }

  predicate IsBreak(c: Byte) { c == '\r' || c == '\n' }
  predicate IsBlank(c: Byte) { c == ' ' || c == '\t' }

  /** The flags that any value sets: an Upgrade needs no particular one. */
  function Opened(h: HeaderState, f: Flags): Flags { if h == Upgrade then f.(upgrade := true) else f }

  /** What the first character of a value makes of the header state. */
  function FirstState(h: HeaderState, l: Byte): HeaderState {
    if h == TransferEncoding && l == 'c' then MatchChunked
    else if h == Connection && l == 'k' then MatchKeepAlive
    else if h == Connection && l == 'c' then MatchClose
    else General
  }

  lemma FirstTurn(p: Parser, c: Byte)
    requires p.state == ValueDiscardWs && p.hstate != ContentLength && !IsBreak(c) && !IsBlank(c)
    ensures Switch(p, c) ==
            Turn(p.(state := Value, index := 0, hstate := FirstState(p.hstate, Lower(c)), flags := Opened(p.hstate, p.flags)),
                 Some(ValueData), None, None, Break)
  {
    hide Lower;
  }

  lemma FirstStateReads(h: HeaderState, c: Byte)
    ensures Reads(MeaningOf(h), FirstState(h, Lower(c)), 0, [c])
  {
    hide Lower;
    hide Begins;
    hide Within;
    FirstBegins(c, CHUNKED);
    FirstBegins(c, KEEP_ALIVE);
    FirstBegins(c, CLOSE);
    if Lower(c) == 'k' { FirstWithin(c, KEEP_ALIVE); }
    if Lower(c) == 'c' { FirstWithin(c, CLOSE); FirstWithin(c, CHUNKED); }
  }

  /** The first character of a value. */
  lemma FirstReads(p: Parser, c: Byte)
    requires p.state == ValueDiscardWs && p.hstate != ContentLength && !IsBreak(c) && !IsBlank(c)
    ensures var t := Switch(p, c);
            && t == Turn(p.(state := Value, index := 0, hstate := t.p.hstate, flags := Opened(p.hstate, p.flags)),
                         Some(ValueData), None, None, Break)
            && Reads(MeaningOf(p.hstate), t.p.hstate, 0, [c])
  {
    hide Lower;
    hide Switch;
    hide Reads;
    FirstTurn(p, c);
    FirstStateReads(p.hstate, c);
  }

  /** The flags a value sets. */
  function Flagged(f: Flags, k: Meaning, v: seq<Byte>): Flags {
    if k == Encoding && IsWord(v, CHUNKED) then f.(chunked := true)
    else if k == Connecting && IsWord(v, KEEP_ALIVE) then f.(keepAlive := true)
    else if k == Connecting && IsWord(v, CLOSE) then f.(close := true)
    else f
  }

  lemma WordBegins(v: seq<Byte>, word: string)
    ensures IsWord(v, word) ==> Begins(v, word)
  {}

  /** The flags are set exactly by "chunked" in a Transfer-Encoding, and by "keep-alive" and "close" in a Connection. */
  lemma FlagsRead(k: Meaning, p: Parser, v: seq<Byte>)
    requires v != [] && Reads(k, p.hstate, p.index, v)
    ensures HeaderFlags(p) == Flagged(p.flags, k, v)
  {
    hide Begins;
    hide IsWord;
    hide Follows;
    WordBegins(v, CHUNKED);
    WordBegins(v, KEEP_ALIVE);
    WordBegins(v, CLOSE);
    OneWordOnly(v);
    match k
    case Nothing =>
    case Encoding =>
      FollowsKnown(p.hstate, p.index, v, CHUNKED, MatchChunked, Chunked);
      FollowsBegins(p.hstate, p.index, v, CHUNKED, MatchChunked, Chunked);
    case Connecting =>
      if p.hstate == MatchKeepAlive || p.hstate == KeepAlive {
        FollowsBegins(p.hstate, p.index, v, KEEP_ALIVE, MatchKeepAlive, KeepAlive);
      } else if p.hstate == MatchClose || p.hstate == Close {
        FollowsBegins(p.hstate, p.index, v, CLOSE, MatchClose, Close);
      }
  }

  // ----- in the parser -----

  lemma ValueFirst(p: Parser, tr: Trace, c: Byte)
    requires p.errno == OK && Inv(p, 0) && p.state == ValueDiscardWs && p.nread < MAX_HEADER_SIZE
    requires p.hstate != ContentLength && !IsBreak(c) && !IsBlank(c)
    ensures var r := OneByte(p, tr, c);
            && r == Run(p.(state := Value, index := 0, hstate := r.p.hstate, flags := Opened(p.hstate, p.flags), nread := p.nread + 1),
                        Add(tr, Data(ValueData, [c])), Break)
            && Reads(MeaningOf(p.hstate), r.p.hstate, 0, [c])
  {
    hide Inv;
    hide Add;
    hide Switch;
    hide OneByte;
    hide Reads;
    FirstReads(p.(nread := p.nread + 1), c);
    HeadByte(p, tr, c);
  }

  lemma ValueTurnIs(p: Parser, c: Byte)
    requires p.state == Value && !IsBreak(c)
    ensures Switch(p, c) == ValueChar(p, c)
  {
    hide ValueChar;
  }

  lemma ValueByte(p: Parser, tr: Trace, c: Byte, k: Meaning, v: seq<Byte>)
    requires p.errno == OK && Inv(p, 0) && p.state == Value && p.nread < MAX_HEADER_SIZE && !IsBreak(c)
    requires v != [] && Reads(k, p.hstate, p.index, v)
    ensures var r := OneByte(p, tr, c);
            && r == Run(p.(hstate := r.p.hstate, index := r.p.index, nread := p.nread + 1), Add(tr, Data(ValueData, [c])), Break)
            && Reads(k, r.p.hstate, r.p.index, v + [c])
  {
    hide Inv;
    hide Add;
    hide Switch;
    hide OneByte;
    hide Reads;
    hide ValueChar;
    ValueTurnIs(p.(nread := p.nread + 1), c);
    CharReads(k, p.(nread := p.nread + 1), c, v);
    HeadByte(p, tr, c);
  }

  predicate NoBreakIn(v: seq<Byte>) { forall i :: 0 <= i < |v| ==> !IsBreak(v[i]) }

  lemma {:induction false} ValueBytes(p: Parser, tr: Trace, k: Meaning, v: seq<Byte>, w: seq<Byte>)
    requires p.errno == OK && Inv(p, 0) && p.state == Value && p.nread + |w| <= MAX_HEADER_SIZE && NoBreakIn(w)
    requires EndsWith(tr, ValueData) && v != [] && Reads(k, p.hstate, p.index, v)
    ensures var f := Feed(p, tr, w);
            && f == Fed(p.(hstate := f.p.hstate, index := f.p.index, nread := p.nread + |w|), Add(tr, Data(ValueData, w)))
            && Reads(k, f.p.hstate, f.p.index, v + w)
    decreases |w|
  {
    hide Inv;
    hide Add;
    hide OneByte;
    hide Feed;
    hide Reads;
    hide IsBreak;
    if w == [] {
      AddEmpty(tr, ValueData);
      FedOnly(p, tr);
      assert v + w == v;
    } else {
      var c, rest := w[0], w[1..];
      assert w == [c] + rest;
      ValueByte(p, tr, c, k, v);
      FeedOneMore(p, tr, c, rest);
      AddTwice(tr, ValueData, [c], rest);
      var r := OneByte(p, tr, c);
      ValueBytes(r.p, r.tr, k, v + [c], rest);
      assert v + [c] + rest == v + w;
    }
  }

  // ----- lines that go on -----

  /** A value that goes on in the next line: a blank at its front, which is part of the value. */
  predicate IsFold(w: seq<Byte>) { w != [] && IsBlank(w[0]) && NoBreakIn(w) }

  lemma FoldAgain(p: Parser, c: Byte)
    requires p.state == ValueLws && IsBlank(c)
    ensures Switch(p, c) == Redo(p, ValueStart)
  {
    hide HeaderFlags;
  }

  lemma FoldStart(p: Parser, c: Byte)
    requires p.state == ValueStart && IsBlank(c)
    requires p.hstate != Upgrade && p.hstate != TransferEncoding && p.hstate != ContentLength && p.hstate != Connection
    ensures Switch(p, c) == Turn(p.(state := Value, index := 0, hstate := General), Some(ValueData), None, None, Break)
  {
    hide Lower;
  }

  /** The blank that starts such a line: whatever word was being matched or found, it is forgotten. */
  lemma FoldFirst(p: Parser, tr: Trace, c: Byte, k: Meaning, v: seq<Byte>)
    requires p.errno == OK && Inv(p, 0) && p.state == ValueLws && p.nread < MAX_HEADER_SIZE && IsBlank(c)
    requires Reads(k, p.hstate, p.index, v)
    ensures OneByte(p, tr, c) ==
            Run(p.(state := Value, index := 0, hstate := General, nread := p.nread + 1), Add(tr, Data(ValueData, [c])), Break)
  {
    hide Inv;
    hide Add;
    hide Switch;
    hide OneByte;
    hide Passes;
    hide Reads;
    hide IsBlank;
    var q := p.(nread := p.nread + 1);
    var r := q.(state := ValueStart);
    ReadsKnown(k, p, v);
    FoldAgain(q, c);
    FoldStart(r, c);
    CountedByte(p, tr, c);
    PassAgain(q, tr, c);
    PassBreak(r, tr, c);
  }

  lemma NothingRead(v: seq<Byte>)
    ensures Reads(Nothing, General, 0, v)
  {}

  lemma NothingStays(h: HeaderState, index: nat, v: seq<Byte>)
    requires Reads(Nothing, h, index, v)
    ensures h == General
  {}

  /** The text of a line that goes on, up to its end. */
  lemma FoldText(p: Parser, tr: Trace, w: seq<Byte>, k: Meaning, v: seq<Byte>)
    requires p.errno == OK && Inv(p, 0) && p.state == ValueLws && p.nread + |w| <= MAX_HEADER_SIZE && IsFold(w)
    requires Reads(k, p.hstate, p.index, v)
    ensures var f := Feed(p, tr, w);
            f == Fed(p.(state := Value, index := f.p.index, hstate := General, nread := p.nread + |w|), Add(tr, Data(ValueData, w)))
  {
    hide Inv;
    hide Add;
    hide OneByte;
    hide Feed;
    hide IsBreak;
    hide IsBlank;
    var c, rest := w[0], w[1..];
    assert w == [c] + rest;
    FoldFirst(p, tr, c, k, v);
    hide Reads;
    assert Reads(Nothing, General, 0, [c]) by { NothingRead([c]); }
    FeedOneMore(p, tr, c, rest);
    AddTwice(tr, ValueData, [c], rest);
    var r := OneByte(p, tr, c);
    ValueBytes(r.p, r.tr, Nothing, [c], rest);
    var f := Feed(r.p, r.tr, rest);
    NothingStays(f.p.hstate, f.p.index, [c] + rest);
  }
}
