/** Header lines written out and parsed: what they report, and what they do to the parser. */
module HttpHeaderLines {
  import opened Common
  import opened HttpModel
  import opened HttpBytes
  import opened HttpTrace
  import opened HttpMachine
  import opened HttpHeaders
  import opened HttpValues
  import opened HttpFraming

  const CRLF: seq<Byte> := ['\r', '\n']

  // ----- line ends and blanks -----

  /** Two quiet bytes that end a line. */
  lemma LineEnd(p: Parser, tr: Trace, q: Parser, r: Parser)
    requires p.errno == OK && Inv(p, 0) && ParsingHeader(p.state) && p.nread + 2 <= MAX_HEADER_SIZE
    requires q == p.(state := q.state, nread := p.nread + 1) && r == p.(state := r.state, nread := p.nread + 2)
    requires ParsingHeader(q.state) && MarkOf(q.state) == None && MarkOf(r.state) == None
    requires var t := Switch(p.(nread := p.nread + 1), '\r'); t.p == q && t.next == Break && t.mark == None && t.note == None
    requires Switch(q.(nread := q.nread + 1), '\n') == Take(q.(nread := q.nread + 1), r.state)
    ensures Inv(r, 0) && Feed(p, tr, CRLF) == Fed(r, tr)
  {
    hide Inv;
    hide Switch;
    hide OneByte;
    hide Feed;
    QuietByte(p, tr, '\r', q);
    FeedOneMore(p, tr, '\r', ['\n']);
    assert ['\r'] + ['\n'] == CRLF;
    QuietByte(q, tr, '\n', r);
    FeedOneMore(q, tr, '\n', []);
    assert ['\n'] + [] == ['\n'];
    FedOnly(r, tr);
  }

  lemma ValueEndTurns(p: Parser)
    ensures p.state == Value ==> Switch(p, '\r') == Turn(p.(state := HeaderAlmostDone), None, Some(ValueData), None, Break)
    ensures p.state == HeaderAlmostDone ==> Switch(p, '\n') == Take(p, ValueLws)
    ensures p.state == ValueDiscardWs ==> Switch(p, '\r') == Take(p, ValueDiscardWsAlmostDone)
    ensures p.state == ValueDiscardWsAlmostDone ==> Switch(p, '\n') == Take(p, ValueDiscardLws)
  {}

  /** The end of a value's line. */
  lemma ValueEnd(p: Parser, tr: Trace)
    requires p.errno == OK && Inv(p, 0) && p.state == Value && p.nread + 2 <= MAX_HEADER_SIZE
    ensures var r := p.(state := ValueLws, nread := p.nread + 2); Inv(r, 0) && Feed(p, tr, CRLF) == Fed(r, tr)
  {
    hide Inv;
    hide Switch;
    hide Feed;
    var q, r := p.(state := HeaderAlmostDone, nread := p.nread + 1), p.(state := ValueLws, nread := p.nread + 2);
    ValueEndTurns(p.(nread := p.nread + 1));
    ValueEndTurns(q.(nread := q.nread + 1));
    LineEnd(p, tr, q, r);
  }

  /** The end of a line without a value. */
  lemma EmptyEnd(p: Parser, tr: Trace)
    requires p.errno == OK && Inv(p, 0) && p.state == ValueDiscardWs && p.nread + 2 <= MAX_HEADER_SIZE
    ensures var r := p.(state := ValueDiscardLws, nread := p.nread + 2); Inv(r, 0) && Feed(p, tr, CRLF) == Fed(r, tr)
  {
    hide Inv;
    hide Switch;
    hide Feed;
    var q, r := p.(state := ValueDiscardWsAlmostDone, nread := p.nread + 1), p.(state := ValueDiscardLws, nread := p.nread + 2);
    ValueEndTurns(p.(nread := p.nread + 1));
    ValueEndTurns(q.(nread := q.nread + 1));
    LineEnd(p, tr, q, r);
  }

  lemma BlankTurns(p: Parser, c: Byte)
    requires (p.state == ValueDiscardWs || p.state == ValueDiscardLws) && IsBlank(c)
    ensures Switch(p, c) == Take(p, ValueDiscardWs)
  {}

  /** What may stand before a value: blanks, and line ends with a blank behind them. */
  predicate IsPad(w: seq<Byte>) {
    w == [] || (IsBlank(w[0]) && IsPad(w[1..])) || (|w| > 2 && w[..2] == CRLF && IsBlank(w[2]) && IsPad(w[3..]))
  }

  lemma BlankByte(p: Parser, tr: Trace, c: Byte)
    requires p.errno == OK && Inv(p, 0) && (p.state == ValueDiscardWs || p.state == ValueDiscardLws) && p.nread < MAX_HEADER_SIZE
    requires IsBlank(c)
    ensures OneByte(p, tr, c) == Run(p.(state := ValueDiscardWs, nread := p.nread + 1), tr, Break)
  {
    hide Inv;
    hide Switch;
    hide OneByte;
    hide IsBlank;
    BlankTurns(p.(nread := p.nread + 1), c);
    QuietByte(p, tr, c, p.(state := ValueDiscardWs, nread := p.nread + 1));
  }

  /** What stands before a value is skipped. */
  lemma {:induction false} PadBytes(p: Parser, tr: Trace, w: seq<Byte>)
    requires p.errno == OK && Inv(p, 0) && p.state == ValueDiscardWs && p.nread + |w| <= MAX_HEADER_SIZE && IsPad(w)
    ensures Feed(p, tr, w) == Fed(p.(nread := p.nread + |w|), tr)
    decreases |w|
  {
    hide Inv;
    hide OneByte;
    hide Feed;
    hide IsBlank;
    if w == [] {
      FedOnly(p, tr);
    } else if IsBlank(w[0]) && IsPad(w[1..]) {
      assert w == [w[0]] + w[1..];
      BlankByte(p, tr, w[0]);
      FeedOneMore(p, tr, w[0], w[1..]);
      PadBytes(p.(nread := p.nread + 1), tr, w[1..]);
    } else {
      assert w == CRLF + ([w[2]] + w[3..]);
      EmptyEnd(p, tr);
      FeedSplit(p, tr, CRLF, [w[2]] + w[3..]);
      var q := p.(state := ValueDiscardLws, nread := p.nread + 2);
      BlankByte(q, tr, w[2]);
      FeedOneMore(q, tr, w[2], w[3..]);
      PadBytes(p.(nread := p.nread + 3), tr, w[3..]);
    }
  }

  // ----- values -----

  predicate IsText(v: seq<Byte>) { NoBreakIn(v) && (v != [] ==> !IsBlank(v[0])) }

  /** A Content-Length that is taken: a digit, then digits and blanks, and not too large a number. */
  predicate IsNumber(ds: seq<Byte>) { ds != [] && IsNum(ds[0]) && IsLength(ds) && DecValue(0, ds) <= MAX_LENGTH }

  /** A value that is no length: its text is reported as written, and its meaning is in the header state. */
  lemma TextLine(p: Parser, tr: Trace, v: seq<Byte>)
    requires p.errno == OK && Inv(p, 0) && p.state == ValueDiscardWs && p.hstate != ContentLength
    requires v != [] && IsText(v) && p.nread + |v| + 2 <= MAX_HEADER_SIZE
    ensures var f := Feed(p, tr, v + CRLF);
            && Inv(f.p, 0) && f.tr == Add(tr, Data(ValueData, v)) && Reads(MeaningOf(p.hstate), f.p.hstate, f.p.index, v)
            && f.p == p.(state := ValueLws, hstate := f.p.hstate, index := f.p.index, flags := Opened(p.hstate, p.flags),
                         nread := p.nread + |v| + 2)
  {
    hide Inv;
    hide Add;
    hide OneByte;
    hide Feed;
    hide Reads;
    hide IsBreak;
    hide IsBlank;
    var c, rest := v[0], v[1..];
    assert v == [c] + rest && [c] + rest == v;
    ValueFirst(p, tr, c);
    FeedOneMore(p, tr, c, rest + CRLF);
    assert v + CRLF == [c] + (rest + CRLF);
    var r := OneByte(p, tr, c);
    AddTwice(tr, ValueData, [c], rest);
    ValueBytes(r.p, r.tr, MeaningOf(p.hstate), [c], rest);
    FeedSplit(r.p, r.tr, rest, CRLF);
    var f := Feed(r.p, r.tr, rest);
    ValueEnd(f.p, f.tr);
  }

  function FoldsText(ws: seq<seq<Byte>>): seq<Byte> { if ws == [] then [] else (ws[0] + CRLF) + FoldsText(ws[1..]) }

  function Unfolded(ws: seq<seq<Byte>>): seq<Byte> { if ws == [] then [] else ws[0] + Unfolded(ws[1..]) }

  predicate AreFolds(ws: seq<seq<Byte>>) { forall i :: 0 <= i < |ws| ==> IsFold(ws[i]) }

  lemma FoldLine(p: Parser, tr: Trace, w: seq<Byte>, k: Meaning, v: seq<Byte>)
    requires p.errno == OK && Inv(p, 0) && p.state == ValueLws && p.nread + |w| + 2 <= MAX_HEADER_SIZE && IsFold(w)
    requires Reads(k, p.hstate, p.index, v)
    ensures var f := Feed(p, tr, w + CRLF);
            && Inv(f.p, 0) && f.tr == Add(tr, Data(ValueData, w)) && Reads(Nothing, f.p.hstate, f.p.index, [])
            && f.p == p.(hstate := General, index := f.p.index, nread := p.nread + |w| + 2)
  {
    hide Inv;
    hide Add;
    hide Feed;
    hide IsFold;
    hide Follows;
    FoldText(p, tr, w, k, v);
    FeedSplit(p, tr, w, CRLF);
    var f := Feed(p, tr, w);
    ValueEnd(f.p, f.tr);
  }

  /** The further lines of a value are part of it, and it loses its meaning. */
  lemma {:induction false} FoldLines(p: Parser, tr: Trace, x: seq<Byte>, ws: seq<seq<Byte>>, k: Meaning, v: seq<Byte>)
    requires p.errno == OK && Inv(p, 0) && p.state == ValueLws && p.nread + |FoldsText(ws)| <= MAX_HEADER_SIZE && AreFolds(ws)
    requires Reads(k, p.hstate, p.index, v)
    ensures var f := Feed(p, Add(tr, Data(ValueData, x)), FoldsText(ws));
            && Inv(f.p, 0) && f.tr == Add(tr, Data(ValueData, x + Unfolded(ws)))
            && f.p == p.(hstate := if ws == [] then p.hstate else General, index := f.p.index, nread := p.nread + |FoldsText(ws)|)
            && (ws == [] ==> f.p == p)
    decreases |ws|
  {
    hide Inv;
    hide Add;
    hide Feed;
    hide IsFold;
    hide Reads;
    var tr1 := Add(tr, Data(ValueData, x));
    if ws == [] {
      assert x + [] == x;
      FedOnly(p, tr1);
    } else {
      FoldLine(p, tr1, ws[0], k, v);
      FeedSplit(p, tr1, ws[0] + CRLF, FoldsText(ws[1..]));
      AddTwice(tr, ValueData, x, ws[0]);
      var f := Feed(p, tr1, ws[0] + CRLF);
      FoldLines(f.p, tr, x + ws[0], ws[1..], Nothing, []);
      assert x + ws[0] + Unfolded(ws[1..]) == x + Unfolded(ws);
    }
  }

  lemma DigitFirstTurn(p: Parser, c: Byte)
    requires p.state == ValueDiscardWs && p.hstate == ContentLength && IsNum(c)
    ensures Switch(p, c) == Turn(p.(state := Value, index := 0, length := Digit(c)), Some(ValueData), None, None, Break)
  {
    hide Lower;
  }

  lemma DigitFirst(p: Parser, tr: Trace, c: Byte)
    requires p.errno == OK && Inv(p, 0) && p.state == ValueDiscardWs && p.nread < MAX_HEADER_SIZE
    requires p.hstate == ContentLength && IsNum(c)
    ensures OneByte(p, tr, c) ==
            Run(p.(state := Value, index := 0, length := Digit(c), nread := p.nread + 1), Add(tr, Data(ValueData, [c])), Break)
  {
    hide Inv;
    hide Add;
    hide Switch;
    hide OneByte;
    DigitFirstTurn(p.(nread := p.nread + 1), c);
    HeadByte(p, tr, c);
  }

  lemma NoDigitFirstTurn(p: Parser, c: Byte)
    requires p.state == ValueDiscardWs && p.hstate == ContentLength && !IsNum(c) && !IsBlank(c) && !IsBreak(c)
    ensures Switch(p, c).next == Fail && Switch(p, c).p.errno != OK
  {
    hide Lower;
  }

  lemma NoDigitFirst(p: Parser, tr: Trace, c: Byte)
    requires p.errno == OK && Inv(p, 0) && p.state == ValueDiscardWs && p.nread < MAX_HEADER_SIZE
    requires p.hstate == ContentLength && !IsNum(c) && !IsBlank(c) && !IsBreak(c)
    ensures OneByte(p, tr, c).p.errno != OK
  {
    hide Inv;
    hide Switch;
    hide Add;
    NoDigitFirstTurn(p.(nread := p.nread + 1), c);
  }

  lemma NumberSplits(ds: seq<Byte>)
    requires ds != [] && IsNum(ds[0])
    ensures IsNumber(ds) <==> IsLength(ds[1..]) && DecValue(Digit(ds[0]), ds[1..]) <= MAX_LENGTH
    ensures IsNumber(ds) ==> DecValue(0, ds) == DecValue(Digit(ds[0]), ds[1..])
  {
    LengthSplits(ds);
  }

  lemma MoreDigits(p: Parser, tr: Trace, c: Byte, rest: seq<Byte>)
    requires p.errno == OK && Inv(p, 0) && p.state == Value && p.hstate == ContentLength && p.length <= MAX_LENGTH
    requires p.nread + |rest| <= MAX_HEADER_SIZE && NoBreakIn(rest)
    ensures var f := Feed(p, Add(tr, Data(ValueData, [c])), rest);
            if IsLength(rest) && DecValue(p.length, rest) <= MAX_LENGTH
            then f == Fed(p.(length := DecValue(p.length, rest), nread := p.nread + |rest|), Add(tr, Data(ValueData, [c] + rest)))
            else f.p.errno != OK
  {
    hide Inv;
    hide Add;
    hide Feed;
    var tr1 := Add(tr, Data(ValueData, [c]));
    if rest == [] {
      assert [c] + rest == [c];
      FedOnly(p, tr1);
    } else {
      LengthDigits(p, tr1, rest);
      AddTwice(tr, ValueData, [c], rest);
    }
  }

  /** A Content-Length's value is taken if and only if it is a number in digits and blanks, and not too large a one. */
  lemma NumberBytes(p: Parser, tr: Trace, ds: seq<Byte>)
    requires p.errno == OK && Inv(p, 0) && p.state == ValueDiscardWs && p.hstate == ContentLength
    requires ds != [] && IsText(ds) && p.nread + |ds| <= MAX_HEADER_SIZE
    ensures var f := Feed(p, tr, ds);
            if IsNumber(ds)
            then f == Fed(p.(state := Value, index := 0, length := DecValue(0, ds), nread := p.nread + |ds|), Add(tr, Data(ValueData, ds)))
            else f.p.errno != OK
  {
    hide Inv;
    hide Add;
    hide OneByte;
    hide Feed;
    var c, rest := ds[0], ds[1..];
    assert ds == [c] + rest;
    FeedOneMore(p, tr, c, rest);
    if IsNum(c) {
      NumberSplits(ds);
      hide IsNumber;
      hide DecValue;
      hide IsLength;
      DigitFirst(p, tr, c);
      MoreDigits(p.(state := Value, index := 0, length := Digit(c), nread := p.nread + 1), tr, c, rest);
    } else {
      NoDigitFirst(p, tr, c);
      FedStops(OneByte(p, tr, c).p, OneByte(p, tr, c).tr, rest);
    }
  }

  /** A Content-Length's value sets the length to the number written. */
  lemma NumberLine(p: Parser, tr: Trace, v: seq<Byte>)
    requires p.errno == OK && Inv(p, 0) && p.state == ValueDiscardWs && p.hstate == ContentLength && IsNumber(v)
    requires p.nread + |v| + 2 <= MAX_HEADER_SIZE && IsText(v)
    ensures var q := p.(state := ValueLws, index := 0, length := DecValue(0, v), nread := p.nread + |v| + 2);
            Inv(q, 0) && Feed(p, tr, v + CRLF) == Fed(q, Add(tr, Data(ValueData, v)))
  {
    hide Inv;
    hide Add;
    hide OneByte;
    hide Feed;
    hide DecValue;
    NumberBytes(p, tr, v);
    FeedSplit(p, tr, v, CRLF);
    var g := Feed(p, tr, v);
    ValueEnd(g.p, g.tr);
  }

  // ----- header lines -----

  /** A header: what stands before its value, the value's first line, and the lines it goes on in. */
  datatype Header = Header(name: seq<Byte>, pad: seq<Byte>, value: seq<Byte>, folds: seq<seq<Byte>>)

  /** Any header but a Content-Length that is refused. */
  predicate GoodHeader(h: Header) {
    && IsName(h.name) && IsPad(h.pad) && IsText(h.value) && AreFolds(h.folds) && (h.folds != [] ==> h.value != [])
    && (Lowered(h.name) == LENGTH && h.value != [] ==> IsNumber(h.value) && h.folds == [])
  }

  function Line(h: Header): seq<Byte> { (h.name + [':']) + (h.pad + ((h.value + CRLF) + FoldsText(h.folds))) }

  function WholeValue(h: Header): seq<Byte> { h.value + Unfolded(h.folds) }

  function MeaningOfName(l: seq<Byte>): Meaning {
    if l == CONNECTION || l == PROXY then Connecting else if l == ENCODING then Encoding else Nothing
  }

  /** What the headers read so far mean: flags, and the length of the body. */
  datatype Meant = Meant(flags: Flags, length: nat)

  function MeantBy(p: Parser): Meant { Meant(p.flags, p.length) }

  function With(p: Parser, m: Meant): Parser { p.(flags := m.flags, length := m.length) }

  /** What one header adds to that; a word that a further line follows has no meaning. */
  function Learned(m: Meant, h: Header): Meant
    requires GoodHeader(h)
  {
    if h.value == [] then m
    else if Lowered(h.name) == LENGTH then m.(length := DecValue(0, h.value))
    else if Lowered(h.name) == UPGRADE then m.(flags := m.flags.(upgrade := true))
    else if h.folds != [] then m
    else m.(flags := Flagged(m.flags, MeaningOfName(Lowered(h.name)), h.value))
  }

  lemma LoweredSome(ds: seq<Byte>)
    requires ds != []
    ensures Lowered(ds) != []
  {}

  /** The lines of a value behind what stands before it. */
  function ValueText(h: Header): seq<Byte> { (h.value + CRLF) + FoldsText(h.folds) }

  /** A run `f` of the rest of a header line, `n` bytes long, that started at the colon. */
  ghost predicate LineDone(p: Parser, tr: Trace, h: Header, f: Fed, n: nat)
    requires GoodHeader(h)
  {
    && (f.p.errno == OK && Inv(f.p, 0) && LineStart(f.p)) && Settled(f.p, f.tr) == Add(tr, Data(ValueData, WholeValue(h)))
    && Resumed(f.p) == With(p, Learned(MeantBy(p), h)).(state := FieldStart, hstate := f.p.hstate, index := f.p.index, nread := p.nread + n)
  }

  lemma EmptyDone(p: Parser, tr: Trace, h: Header)
    requires p.errno == OK && Inv(p, 0) && p.state == ValueDiscardWs && GoodHeader(h) && h.value == []
    requires p.nread + 2 <= MAX_HEADER_SIZE
    ensures LineDone(p, tr, h, Feed(p, tr, ValueText(h)), |ValueText(h)|)
  {
    hide Inv;
    hide Add;
    hide Feed;
    assert ValueText(h) == CRLF && WholeValue(h) == [];
    EmptyEnd(p, tr);
  }

  lemma NumberDone(p: Parser, tr: Trace, h: Header)
    requires p.errno == OK && Inv(p, 0) && p.state == ValueDiscardWs && GoodHeader(h) && h.value != []
    requires p.nread + |ValueText(h)| <= MAX_HEADER_SIZE && p.hstate == ContentLength && Lowered(h.name) == LENGTH
    ensures LineDone(p, tr, h, Feed(p, tr, ValueText(h)), |ValueText(h)|)
  {
    hide Inv;
    hide Add;
    hide Feed;
    hide DecValue;
    hide HeaderFlags;
    hide IsName;
    hide IsPad;
    assert ValueText(h) == h.value + CRLF && WholeValue(h) == h.value;
    NumberLine(p, tr, h.value);
    NoFlags(p.(state := ValueLws, index := 0, length := DecValue(0, h.value), nread := p.nread + |h.value| + 2));
  }

  /** The lines of a value that is no length. */
  lemma TextLines(p: Parser, tr: Trace, h: Header)
    requires p.errno == OK && Inv(p, 0) && p.state == ValueDiscardWs && GoodHeader(h) && h.value != []
    requires p.nread + |ValueText(h)| <= MAX_HEADER_SIZE && p.hstate != ContentLength
    ensures var f := Feed(p, tr, ValueText(h));
            && Inv(f.p, 0) && f.tr == Add(tr, Data(ValueData, WholeValue(h)))
            && f.p == p.(state := ValueLws, hstate := f.p.hstate, index := f.p.index, flags := Opened(p.hstate, p.flags),
                         nread := p.nread + |ValueText(h)|)
            && (if h.folds == [] then Reads(MeaningOf(p.hstate), f.p.hstate, f.p.index, h.value) else f.p.hstate == General)
  {
    hide Inv;
    hide Add;
    hide Feed;
    hide Reads;
    hide IsText;
    hide IsPad;
    hide IsName;
    hide IsNumber;
    hide IsFold;
    TextLine(p, tr, h.value) by { TextOf(h); }
    FeedSplit(p, tr, h.value + CRLF, FoldsText(h.folds));
    var f := Feed(p, tr, h.value + CRLF);
    FoldLines(f.p, tr, h.value, h.folds, MeaningOf(p.hstate), h.value);
  }

  lemma TextOf(h: Header)
    requires GoodHeader(h)
    ensures IsText(h.value)
  {}

  lemma TextDone(p: Parser, tr: Trace, h: Header)
    requires p.errno == OK && Inv(p, 0) && p.state == ValueDiscardWs && GoodHeader(h) && h.value != []
    requires p.nread + |ValueText(h)| <= MAX_HEADER_SIZE && p.hstate != ContentLength
    requires Lowered(h.name) != LENGTH && MeaningOf(p.hstate) == MeaningOfName(Lowered(h.name))
    requires p.hstate == Upgrade <==> Lowered(h.name) == UPGRADE
    ensures LineDone(p, tr, h, Feed(p, tr, ValueText(h)), |ValueText(h)|)
  {
    hide Inv;
    hide Add;
    hide Feed;
    hide DecValue;
    hide HeaderFlags;
    hide Flagged;
    hide Reads;
    hide IsName;
    hide IsNumber;
    hide IsPad;
    hide IsText;
    hide AreFolds;
    TextLines(p, tr, h);
    var f := Feed(p, tr, ValueText(h));
    if h.folds == [] {
      FlagsRead(MeaningOfName(Lowered(h.name)), f.p, h.value);
      NothingFlagged(f.p.flags, h.value);
    } else {
      GeneralFlags(f.p);
    }
  }

  lemma GeneralFlags(p: Parser)
    requires p.hstate == General
    ensures HeaderFlags(p) == p.flags
  {}

  lemma NothingFlagged(f: Flags, v: seq<Byte>)
    ensures Flagged(f, Nothing, v) == f && MeaningOfName(UPGRADE) == Nothing
  {
    hide IsWord;
  }

  lemma DoneFrame(p: Parser, tr: Trace, h: Header, f: Fed, n: nat, k: nat)
    requires GoodHeader(h) && LineDone(p.(nread := p.nread + k), tr, h, f, n)
    ensures LineDone(p, tr, h, f, k + n)
  {
    hide GoodHeader;
    hide Inv;
    hide Add;
    hide Learned;
  }

  /** The part of a header line behind the colon. */
  lemma ValueLine(p: Parser, tr: Trace, h: Header)
    requires p.errno == OK && Inv(p, 0) && p.state == ValueDiscardWs && GoodHeader(h)
    requires p.nread + |h.pad + ValueText(h)| <= MAX_HEADER_SIZE
    requires Tracks(p.hstate, p.index, Lowered(h.name))
    ensures LineDone(p, tr, h, Feed(p, tr, h.pad + ValueText(h)), |h.pad + ValueText(h)|)
  {
    hide Inv;
    hide Feed;
    hide Tracks;
    hide LineDone;
    hide FoldsText;
    NameKnown(p.hstate, p.index, h);
    PadOf(h);
    hide GoodHeader;
    hide IsPad;
    PadBytes(p, tr, h.pad);
    FeedSplit(p, tr, h.pad, ValueText(h));
    var q := p.(nread := p.nread + |h.pad|);
    if h.value == [] {
      EmptyDone(q, tr, h);
    } else if Lowered(h.name) == LENGTH {
      NumberDone(q, tr, h);
    } else {
      TextDone(q, tr, h);
    }
    DoneFrame(p, tr, h, Feed(q, tr, ValueText(h)), |ValueText(h)|, |h.pad|);
  }

  lemma PadOf(h: Header)
    requires GoodHeader(h)
    ensures IsPad(h.pad)
  {}

  lemma NoFlags(p: Parser)
    requires p.hstate == ContentLength
    ensures HeaderFlags(p) == p.flags
  {}

  lemma NameKnown(s: HeaderState, index: nat, h: Header)
    requires GoodHeader(h) && Tracks(s, index, Lowered(h.name))
    ensures s == ContentLength <==> Lowered(h.name) == LENGTH
    ensures s == Upgrade <==> Lowered(h.name) == UPGRADE
    ensures MeaningOf(s) == MeaningOfName(Lowered(h.name))
  {
    hide Tracks;
    LoweredSome(h.name);
    Recognised(s, index, Lowered(h.name));
  }

  /** A header line reports the name and the value as written, and does to the parser what the header means. */
  lemma HeaderLine(p: Parser, tr: Trace, h: Header)
    requires p.errno == OK && Inv(p, 0) && LineStart(p) && GoodHeader(h) && p.nread + |Line(h)| <= MAX_HEADER_SIZE
    ensures var f := Feed(p, tr, Line(h));
            && Inv(f.p, 0) && LineStart(f.p)
            && Settled(f.p, f.tr) == Add(Add(Settled(p, tr), Data(FieldData, h.name)), Data(ValueData, WholeValue(h)))
            && Resumed(f.p) == With(Resumed(p), Learned(MeantBy(Resumed(p)), h))
                               .(hstate := f.p.hstate, index := f.p.index, nread := p.nread + |Line(h)|)
  {
    hide Inv;
    hide Add;
    hide Feed;
    hide Tracks;
    hide Resumed;
    hide Settled;
    hide GoodHeader;
    hide Learned;
    hide ValueText;
    hide WholeValue;
    hide LineStart;
    ResumedFrame(p, tr, 0);
    LineIs(h);
    NameOfHeader(h);
    NameLine(p, tr, h.name);
    var f := Feed(p, tr, h.name + [':']);
    FeedSplit(p, tr, h.name + [':'], h.pad + ValueText(h));
    ValueLine(f.p, f.tr, h);
  }

  lemma LineIs(h: Header)
    ensures Line(h) == (h.name + [':']) + (h.pad + ValueText(h))
  {}

  lemma NameOfHeader(h: Header)
    requires GoodHeader(h)
    ensures IsName(h.name)
  {}

  function Lines(hs: seq<Header>): seq<Byte> { if hs == [] then [] else Line(hs[0]) + Lines(hs[1..]) }

  predicate AllGood(hs: seq<Header>) { forall i :: 0 <= i < |hs| ==> GoodHeader(hs[i]) }

  function LearnedAll(m: Meant, hs: seq<Header>): Meant
    requires AllGood(hs)
    decreases |hs|
  {
    if hs == [] then m else LearnedAll(Learned(m, hs[0]), hs[1..])
  }

  /** The callbacks for the headers. */
  function WithHeaders(tr: Trace, hs: seq<Header>): Trace
    decreases |hs|
  {
    if hs == [] then tr
    else WithHeaders(Add(Add(tr, Data(FieldData, hs[0].name)), Data(ValueData, WholeValue(hs[0]))), hs[1..])
  }

  /** Header lines report their names and values in order, and mean what they mean one after the other. */
  lemma {:induction false} HeaderLines(p: Parser, tr: Trace, hs: seq<Header>)
    requires p.errno == OK && Inv(p, 0) && LineStart(p) && AllGood(hs) && p.nread + |Lines(hs)| <= MAX_HEADER_SIZE
    ensures var f := Feed(p, tr, Lines(hs));
            && f.p.errno == OK && Inv(f.p, 0) && LineStart(f.p) && Settled(f.p, f.tr) == WithHeaders(Settled(p, tr), hs)
            && Resumed(f.p) == With(Resumed(p), LearnedAll(MeantBy(Resumed(p)), hs))
                               .(hstate := f.p.hstate, index := f.p.index, nread := p.nread + |Lines(hs)|)
    decreases |hs|
  {
    hide Inv;
    hide Add;
    hide Feed;
    hide GoodHeader;
    hide Learned;
    hide Line;
    hide Resumed;
    hide Settled;
    hide LineStart;
    ResumedKeeps(p);
    if hs == [] {
      FedOnly(p, tr);
    } else {
      HeaderLine(p, tr, hs[0]);
      FeedSplit(p, tr, Line(hs[0]), Lines(hs[1..]));
      var f := Feed(p, tr, Line(hs[0]));
      ResumedKeeps(f.p);
      HeaderLines(f.p, f.tr, hs[1..]);
    }
  }

  lemma ResumedKeeps(p: Parser)
    ensures var q := Resumed(p); q.errno == p.errno && q.nread == p.nread && q.hstate == p.hstate && q.index == p.index
  {}
}
