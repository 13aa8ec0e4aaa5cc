/** Request lines written out and parsed. */
module HttpRequestLine {
  import opened Common
  import opened HttpModel
  import opened HttpBytes
  import opened HttpTrace
  import opened HttpMachine
  import opened HttpTargets
  import opened HttpFraming
  import opened HttpMethods

  // ----- methods -----

  lemma FirstTurnFrame(p: Parser, c: Byte)
    requires p.errno == OK && p.state == StartReq && c != '\r' && c != '\n' && MethodTurn(p, c).p.errno == OK
    ensures var t := MethodTurn(p, c);
            && t.note == Some(MessageBegin)
            && t.p == p.(flags := NO_FLAGS, length := NO_LENGTH, mtd := t.p.mtd, index := t.p.index, state := t.p.state)
  {}

  lemma MethodTurnFrame(p: Parser, c: Byte)
    requires p.errno == OK && p.state == ReqMethod && MethodTurn(p, c).p.errno == OK
    ensures var t := MethodTurn(p, c); t.note == None && t.p == p.(mtd := t.p.mtd, index := t.p.index, state := t.p.state)
  {
    hide SwitchMethod;
    hide Name;
  }

  lemma MethodFirst(p: Parser, tr: Trace, c: Byte)
    requires p.errno == OK && Inv(p, 0) && p.state == StartReq && p.nread < MAX_HEADER_SIZE && c != '\r' && c != '\n'
    requires OneByte(p, tr, c).p.errno == OK
    ensures var r := OneByte(p, tr, c);
            && r.tr == Add(tr, Note(MessageBegin))
            && r.p == p.(flags := NO_FLAGS, length := NO_LENGTH, mtd := r.p.mtd, index := r.p.index, state := r.p.state, nread := p.nread + 1)
  {
    hide Inv;
    hide Add;
    hide MethodTurn;
    hide Passes;
    var q := p.(nread := p.nread + 1);
    MethodPass(q, tr, c);
    FirstTurnFrame(q, c);
  }

  lemma MethodNext(p: Parser, tr: Trace, c: Byte)
    requires p.errno == OK && Inv(p, 0) && p.state == ReqMethod && p.nread < MAX_HEADER_SIZE
    requires OneByte(p, tr, c).p.errno == OK
    ensures var r := OneByte(p, tr, c);
            r.tr == tr && r.p == p.(mtd := r.p.mtd, index := r.p.index, state := r.p.state, nread := p.nread + 1)
  {
    hide Inv;
    hide Add;
    hide MethodTurn;
    hide Passes;
    var q := p.(nread := p.nread + 1);
    MethodPass(q, tr, c);
    MethodTurnFrame(q, c);
  }

  /** The letters of a method change nothing else. */
  lemma {:induction false} MethodFrame(p: Parser, tr: Trace, read: seq<Byte>, word: seq<Byte>)
    requires p.errno == OK && Inv(p, 0) && p.state == ReqMethod && p.index <= |Name(p.mtd)| && read == Name(p.mtd)[..p.index]
    requires ' ' !in word && p.nread + |word| <= MAX_HEADER_SIZE && Feed(p, tr, word).p.errno == OK
    ensures var f := Feed(p, tr, word);
            f.tr == tr && f.p == p.(mtd := f.p.mtd, index := f.p.index, state := ReqMethod, nread := p.nread + |word|)
    decreases |word|
  {
    hide Inv;
    hide Add;
    hide Name;
    hide OneByte;
    hide Feed;
    if word == [] {
      FedOnly(p, tr);
    } else {
      var c, rest := word[0], word[1..];
      assert word == [c] + rest;
      FeedOneMore(p, tr, c, rest);
      var r := OneByte(p, tr, c);
      if r.p.errno != OK {
        FedStops(r.p, r.tr, rest);
      } else {
        MethodNext(p, tr, c);
        MethodByte(p, tr, c, read);
        MethodFrame(r.p, r.tr, read + [c], rest);
      }
    }
  }

  /** A method's name and a blank. */
  lemma MethodHead(p: Parser, tr: Trace, m: Method)
    requires p.errno == OK && Inv(p, 0) && p.state == StartReq && p.nread + |Name(m)| < MAX_HEADER_SIZE
    ensures var f := Feed(p, tr, Name(m) + [' ']);
            && f.tr == Add(tr, Note(MessageBegin)) && Inv(f.p, 0)
            && f.p == p.(state := SpacesBeforeUrl, flags := NO_FLAGS, length := NO_LENGTH, mtd := m, index := f.p.index,
                         nread := p.nread + |Name(m)| + 1)
  {
    hide Inv;
    hide Add;
    hide Name;
    hide OneByte;
    hide Feed;
    EveryMethodIsAccepted(p, tr, m);
    NamesAreShort(m);
    FirstLetterIsPlain(m);
    var c, rest := Name(m)[0], Name(m)[1..];
    assert Name(m) + [' '] == [c] + (rest + [' ']);
    FirstGuess(p, tr, m);
    FeedOneMore(p, tr, c, rest + [' ']);
    MethodFirst(p, tr, c);
    var r := OneByte(p, tr, c);
    FirstLetter(p, tr, c);
    FeedOneMore(p, tr, c, []);
    FedOnly(r.p, r.tr);
    assert [c] + [] == [c];
    FeedSplit(r.p, r.tr, rest, [' ']);
    var f := Feed(r.p, r.tr, rest);
    if f.p.errno != OK {
      FedStops(f.p, f.tr, [' ']);
    } else {
      BlankFree(m);
      MethodFrame(r.p, r.tr, [c], rest);
      FeedOneMore(f.p, f.tr, ' ', []);
      assert [' '] + [] == [' '];
      var g := OneByte(f.p, f.tr, ' ');
      FedOnly(g.p, g.tr);
      if g.p.errno == OK { MethodNext(f.p, f.tr, ' '); }
    }
  }

  lemma FirstLetterIsPlain(m: Method)
    ensures |Name(m)| > 0 && Name(m)[0] != '\r' && Name(m)[0] != '\n'
  {}

  lemma BlankFree(m: Method)
    ensures ' ' !in Name(m)
  {
    forall i | 0 <= i < |Name(m)| ensures Name(m)[i] != ' ' { NoBlankInNames(m, i); }
  }

  // ----- versions -----

  const PROTOCOL: seq<Byte> := ['H', 'T', 'T', 'P', '/']

  /** The state behind the first `k` bytes of the protocol's name. */
  function ProtocolState(k: nat): State
    requires k <= 5
  {
    match k case 0 => HttpStart case 1 => HttpH case 2 => HttpHT case 3 => HttpHTT case 4 => HttpHTTP case _ => FirstMajor
  }

  lemma ProtocolTurn(p: Parser, k: nat)
    requires k < 5 && p.state == ProtocolState(k)
    ensures Switch(p, PROTOCOL[k]) == Take(p, ProtocolState(k + 1)) && ParsingHeader(p.state) && MarkOf(ProtocolState(k + 1)) == None
  {}

  lemma {:induction false} ProtocolBytes(p: Parser, tr: Trace, k: nat)
    requires k <= 5 && p.errno == OK && Inv(p, 0) && p.state == ProtocolState(k) && p.nread + 5 - k <= MAX_HEADER_SIZE
    ensures var q := p.(state := FirstMajor, nread := p.nread + 5 - k); Inv(q, 0) && Feed(p, tr, PROTOCOL[k..]) == Fed(q, tr)
    decreases 5 - k
  {
    hide Inv;
    hide Switch;
    hide OneByte;
    hide Feed;
    if k == 5 {
      FedOnly(p, tr);
    } else {
      var q := p.(state := ProtocolState(k + 1), nread := p.nread + 1);
      ProtocolTurn(p.(nread := p.nread + 1), k);
      QuietByte(p, tr, PROTOCOL[k], q);
      FeedOneMore(p, tr, PROTOCOL[k], PROTOCOL[k + 1..]);
      assert PROTOCOL[k..] == [PROTOCOL[k]] + PROTOCOL[k + 1..];
      ProtocolBytes(q, tr, k + 1);
    }
  }

  predicate AreDigits(ds: seq<Byte>) { forall i :: 0 <= i < |ds| ==> IsNum(ds[i]) }

  /** A number of a version: up to 999, and the first one does not start with a zero. */
  predicate IsPart(ds: seq<Byte>, first: bool) {
    ds != [] && AreDigits(ds) && DecValue(0, ds) <= 999 && (first ==> ds[0] != '0')
  }

  /** The parser with the first or the second number of the version. */
  function WithPart(p: Parser, first: bool, n: nat): Parser { if first then p.(major := n) else p.(minor := n) }

  function PartOf(p: Parser, first: bool): nat { if first then p.major else p.minor }

  lemma PartTurns(p: Parser, first: bool, c: Byte)
    requires IsNum(c)
    ensures p.state == (if first then FirstMajor else FirstMinor) && (first ==> c != '0') ==>
              Switch(p, c) == Take(WithPart(p, first, Digit(c)), if first then Major else Minor)
    ensures p.state == (if first then Major else Minor) && PartOf(p, first) * 10 + Digit(c) <= 999 ==>
              Switch(p, c) == Take(WithPart(p, first, PartOf(p, first) * 10 + Digit(c)), p.state)
  {}

  lemma {:induction false} PartDigits(p: Parser, tr: Trace, first: bool, ds: seq<Byte>)
    requires p.errno == OK && Inv(p, 0) && p.state == (if first then Major else Minor) && p.nread + |ds| <= MAX_HEADER_SIZE
    requires AreDigits(ds) && DecValue(PartOf(p, first), ds) <= 999
    ensures var q := WithPart(p, first, DecValue(PartOf(p, first), ds)).(nread := p.nread + |ds|);
            Inv(q, 0) && Feed(p, tr, ds) == Fed(q, tr)
    decreases |ds|
  {
    hide Inv;
    hide Switch;
    hide OneByte;
    hide Feed;
    if ds == [] {
      FedOnly(p, tr);
    } else {
      assert ds == [ds[0]] + ds[1..];
      var n := PartOf(p, first) * 10 + Digit(ds[0]);
      DecGrows(n, ds[1..]);
      PartTurns(p.(nread := p.nread + 1), first, ds[0]);
      var q := WithPart(p, first, n).(nread := p.nread + 1);
      QuietByte(p, tr, ds[0], q);
      FeedOneMore(p, tr, ds[0], ds[1..]);
      PartDigits(q, tr, first, ds[1..]);
    }
  }

  lemma PartBytes(p: Parser, tr: Trace, first: bool, ds: seq<Byte>)
    requires p.errno == OK && Inv(p, 0) && p.state == (if first then FirstMajor else FirstMinor)
    requires IsPart(ds, first) && p.nread + |ds| <= MAX_HEADER_SIZE
    ensures var q := WithPart(p, first, DecValue(0, ds)).(state := if first then Major else Minor, nread := p.nread + |ds|);
            Inv(q, 0) && Feed(p, tr, ds) == Fed(q, tr)
  {
    hide Inv;
    hide Switch;
    hide OneByte;
    hide Feed;
    var c, rest := ds[0], ds[1..];
    assert ds == [c] + rest;
    PartTurns(p.(nread := p.nread + 1), first, c);
    var q := WithPart(p, first, Digit(c)).(state := if first then Major else Minor, nread := p.nread + 1);
    QuietByte(p, tr, c, q);
    FeedOneMore(p, tr, c, rest);
    assert DecValue(0, ds) == DecValue(Digit(c), rest);
    PartDigits(q, tr, first, rest);
  }

  lemma VersionTurns(p: Parser)
    ensures p.state == Major ==> Switch(p, '.') == Take(p, FirstMinor)
    ensures p.state == Minor ==> Switch(p, '\r') == Take(p, LineAlmostDone)
    ensures p.state == LineAlmostDone ==> Switch(p, '\n') == Take(p, FieldStart)
  {}

  /** One byte of a request line that only moves the state. */
  lemma MovingByte(p: Parser, tr: Trace, c: Byte, s: State)
    requires p.errno == OK && Inv(p, 0) && ParsingHeader(p.state) && p.nread < MAX_HEADER_SIZE && MarkOf(s) == None
    requires var q := p.(nread := p.nread + 1); Switch(q, c) == Take(q, s)
    ensures var q := p.(state := s, nread := p.nread + 1); Inv(q, 0) && Feed(p, tr, [c]) == Fed(q, tr)
  {
    hide Inv;
    hide Switch;
    hide OneByte;
    hide Feed;
    var q := p.(state := s, nread := p.nread + 1);
    QuietByte(p, tr, c, q);
    FeedOneMore(p, tr, c, []);
    assert [c] + [] == [c];
    FedOnly(q, tr);
  }

  lemma LineFeed(p: Parser, tr: Trace)
    requires p.errno == OK && Inv(p, 0) && p.state == LineAlmostDone && p.nread < MAX_HEADER_SIZE
    ensures var q := p.(state := FieldStart, nread := p.nread + 1); Inv(q, 0) && Feed(p, tr, ['\n']) == Fed(q, tr)
  {
    hide Inv;
    hide Switch;
    hide Feed;
    VersionTurns(p.(nread := p.nread + 1));
    MovingByte(p, tr, '\n', FieldStart);
  }

  /** No version at all, which stands for HTTP/0.9, or two numbers. */
  datatype Version = Simple | Version(major: seq<Byte>, minor: seq<Byte>)

  predicate GoodVersion(v: Version) { v.Version? ==> IsPart(v.major, true) && IsPart(v.minor, false) }

  function MajorOf(v: Version): nat
    requires GoodVersion(v)
  {
    if v.Simple? then 0 else DecValue(0, v.major)
  }

  function MinorOf(v: Version): nat
    requires GoodVersion(v)
  {
    if v.Simple? then 9 else DecValue(0, v.minor)
  }

  /** What stands behind the target. */
  function VersionText(v: Version): seq<Byte> {
    match v
    case Simple => ['\r'] + ['\n']
    case Version(major, minor) => [' '] + (PROTOCOL + (major + (['.'] + (minor + (['\r'] + ['\n'])))))
  }

  lemma MinorBytes(p: Parser, tr: Trace, minor: seq<Byte>)
    requires p.errno == OK && Inv(p, 0) && p.state == Major && IsPart(minor, false) && p.nread + |minor| + 3 <= MAX_HEADER_SIZE
    ensures var q := p.(state := FieldStart, minor := DecValue(0, minor), nread := p.nread + |minor| + 3);
            Inv(q, 0) && Feed(p, tr, ['.'] + (minor + (['\r'] + ['\n']))) == Fed(q, tr)
  {
    hide Inv;
    hide Switch;
    hide Feed;
    hide IsPart;
    VersionTurns(p.(nread := p.nread + 1));
    MovingByte(p, tr, '.', FirstMinor);
    FeedSplit(p, tr, ['.'], minor + (['\r'] + ['\n']));
    var p1 := p.(state := FirstMinor, nread := p.nread + 1);
    PartBytes(p1, tr, false, minor);
    FeedSplit(p1, tr, minor, ['\r'] + ['\n']);
    var p2 := Feed(p1, tr, minor).p;
    VersionTurns(p2.(nread := p2.nread + 1));
    MovingByte(p2, tr, '\r', LineAlmostDone);
    FeedSplit(p2, tr, ['\r'], ['\n']);
    LineFeed(p2.(state := LineAlmostDone, nread := p2.nread + 1), tr);
  }

  lemma NumberedBytes(p: Parser, tr: Trace, major: seq<Byte>, minor: seq<Byte>)
    requires p.errno == OK && Inv(p, 0) && p.state == HttpStart && IsPart(major, true) && IsPart(minor, false)
    requires p.nread + |major| + |minor| + 8 <= MAX_HEADER_SIZE
    ensures var q := p.(state := FieldStart, major := DecValue(0, major), minor := DecValue(0, minor), nread := p.nread + |major| + |minor| + 8);
            Inv(q, 0) && Feed(p, tr, PROTOCOL + (major + (['.'] + (minor + (['\r'] + ['\n']))))) == Fed(q, tr)
  {
    hide Inv;
    hide Switch;
    hide Feed;
    hide IsPart;
    assert PROTOCOL[0..] == PROTOCOL;
    ProtocolBytes(p, tr, 0);
    var p1 := p.(state := FirstMajor, nread := p.nread + 5);
    FeedSplit(p, tr, PROTOCOL, major + (['.'] + (minor + (['\r'] + ['\n']))));
    PartBytes(p1, tr, true, major);
    FeedSplit(p1, tr, major, ['.'] + (minor + (['\r'] + ['\n'])));
    MinorBytes(Feed(p1, tr, major).p, tr, minor);
  }

  // ----- whole request lines -----

  /** A method, a target and a version. */
  datatype Start = Start(mtd: Method, target: seq<Byte>, version: Version)

  ghost predicate GoodStart(s: Start) {
    s.target != [] && NoBreaks(s.target) && Target(s.mtd == CONNECT, s.target) && GoodVersion(s.version)
  }

  function StartText(s: Start): seq<Byte> { (Name(s.mtd) + [' ']) + (s.target + VersionText(s.version)) }

  /** The parser behind a request line. */
  function Started(p: Parser, s: Start): Parser
    requires GoodVersion(s.version)
  {
    p.(state := FieldStart, flags := NO_FLAGS, length := NO_LENGTH, mtd := s.mtd, major := MajorOf(s.version), minor := MinorOf(s.version))
  }

  lemma TargetLine(p: Parser, tr: Trace, s: Start)
    requires p.errno == OK && Inv(p, 0) && p.state == SpacesBeforeUrl && p.mtd == s.mtd && GoodStart(s)
    requires p.nread + |s.target + VersionText(s.version)| <= MAX_HEADER_SIZE
    ensures var q := p.(state := FieldStart, major := MajorOf(s.version), minor := MinorOf(s.version),
                        nread := p.nread + |s.target + VersionText(s.version)|);
            Inv(q, 0) && Feed(p, tr, s.target + VersionText(s.version)) == Fed(q, Add(tr, Data(UrlData, s.target)))
  {
    hide Inv;
    hide Add;
    hide Feed;
    hide Target;
    hide NoBreaks;
    hide IsPart;
    TargetAccepted(p, tr, s.target);
    match s.version
    case Simple =>
      FeedSplit(p, tr, s.target + ['\r'], ['\n']);
      assert (s.target + ['\r']) + ['\n'] == s.target + VersionText(s.version);
      var f := Feed(p, tr, s.target + ['\r']);
      LineFeed(f.p, f.tr);
    case Version(major, minor) =>
      var rest := PROTOCOL + (major + (['.'] + (minor + (['\r'] + ['\n']))));
      FeedSplit(p, tr, s.target + [' '], rest);
      assert (s.target + [' ']) + rest == s.target + VersionText(s.version);
      var f := Feed(p, tr, s.target + [' ']);
      NumberedBytes(f.p, f.tr, major, minor);
  }

  /** A request line starts a message with its method, target and version. */
  lemma RequestLine(p: Parser, tr: Trace, s: Start)
    requires p.errno == OK && Inv(p, 0) && p.state == StartReq && GoodStart(s) && p.nread + |StartText(s)| <= MAX_HEADER_SIZE
    ensures var f := Feed(p, tr, StartText(s));
            && f.tr == Add(Add(tr, Note(MessageBegin)), Data(UrlData, s.target)) && Inv(f.p, 0)
            && f.p == Started(p, s).(index := f.p.index, nread := p.nread + |StartText(s)|)
  {
    hide Inv;
    hide Add;
    hide Name;
    hide Feed;
    hide Target;
    hide NoBreaks;
    hide VersionText;
    hide GoodStart;
    MethodHead(p, tr, s.mtd) by { RoomForName(p, s); }
    FeedSplit(p, tr, Name(s.mtd) + [' '], s.target + VersionText(s.version));
    var f := Feed(p, tr, Name(s.mtd) + [' ']);
    TargetLine(f.p, f.tr, s);
    VersionOf(s);
  }

  lemma VersionOf(s: Start)
    requires GoodStart(s)
    ensures GoodVersion(s.version)
  {}

  lemma RoomForName(p: Parser, s: Start)
    requires p.nread + |StartText(s)| <= MAX_HEADER_SIZE
    ensures p.nread + |Name(s.mtd)| < MAX_HEADER_SIZE
  {
    hide Name;
  }
}
