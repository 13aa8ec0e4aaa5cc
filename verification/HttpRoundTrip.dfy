/** A request written out and parsed gives back what was written. */
module HttpRoundTrip {
  import opened Common
  import opened HttpModel
  import opened HttpBytes
  import opened HttpTrace
  import opened HttpMachine
  import opened HttpHeaders
  import opened HttpFraming
  import opened HttpHeaderLines
  import opened HttpRequestLine

  // ----- the empty line behind headers and trailers -----

  /** Where the empty line leads: behind trailers it ends the message, behind headers a body or the end follows. */
  function AfterHeaders(p: Parser, tr: Trace): Fed {
    if p.flags.trailing then Fed(p.(state := NewMessage(p)), Add(tr, Note(MessageComplete)))
    else
      var q := p.(nread := 0, upgrade := p.flags.upgrade || p.mtd == CONNECT);
      var done := Add(tr, Note(HeadersComplete));
      if q.upgrade || (!p.flags.chunked && (p.length == 0 || p.length == NO_LENGTH))
      then Fed(q.(state := NewMessage(p)), Add(done, Note(MessageComplete)))
      else Fed(q.(state := if p.flags.chunked then ChunkSizeStart else BodyIdentity), done)
  }

  lemma TrailerTurn(p: Parser)
    requires p.state == HeadersAlmostDone && p.flags.trailing
    ensures Switch(p, '\n') == Turn(p.(state := NewMessage(p)), None, None, Some(MessageComplete), Break)
  {}

  lemma HeadersTurns(p: Parser)
    requires p.state == HeadersAlmostDone && !p.flags.trailing
    ensures var q := p.(state := HeadersDone, upgrade := p.flags.upgrade || p.mtd == CONNECT);
            && Switch(p, '\n') == Turn(q, None, None, Some(HeadersComplete), Again)
            && (var r := q.(nread := 0);
                Switch(q, '\n') ==
                if r.upgrade then Complete(r, Exit)
                else if r.flags.chunked then Take(r, ChunkSizeStart)
                else if r.length == 0 || r.length == NO_LENGTH then Complete(r, Break)
                else Take(r, BodyIdentity))
  {}

  lemma NewStates(p: Parser)
    ensures MarkOf(NewMessage(p)) == None && MarkOf(BodyIdentity) == None && MarkOf(ChunkSizeStart) == None
    ensures forall q: Parser :: q.flags == p.flags && q.major == p.major && q.minor == p.minor ==> NewMessage(q) == NewMessage(p)
  {}

  lemma PassExit(p: Parser, tr: Trace, c: Byte)
    requires p.errno == OK && !TakesBody(p.state) && Switch(p, c).next == Exit
    ensures var t := Switch(p, c); Passes(p, tr, c) == Run(t.p, AfterPass(tr, t), Exit)
  {
    hide Switch;
    hide Add;
  }

  lemma HeadFeed(p: Parser, tr: Trace)
    requires p.errno == OK && Inv(p, 0) && p.state == HeadersAlmostDone && p.nread < MAX_HEADER_SIZE
    ensures var r := OneByte(p, tr, '\n');
            Fed(r.p, r.tr) == AfterHeaders(p.(nread := p.nread + 1), tr) && (r.next == Exit <==> !p.flags.trailing && r.p.upgrade)
  {
    hide Inv;
    hide Add;
    hide Switch;
    hide Passes;
    hide MarkOf;
    hide NewMessage;
    hide OneByte;
    var q := p.(nread := p.nread + 1);
    CountedByte(p, tr, '\n');
    NewStates(q);
    if p.flags.trailing {
      TrailerTurn(q);
      PassBreak(q, tr, '\n');
    } else {
      HeadersTurns(q);
      NewStates(p);
      PassAgain(q, tr, '\n');
      var d, done := q.(state := HeadersDone, upgrade := p.flags.upgrade || p.mtd == CONNECT), Add(tr, Note(HeadersComplete));
      if d.upgrade { PassExit(d, done, '\n'); } else { PassBreak(d, done, '\n'); }
    }
  }

  lemma HeadReturn(p: Parser, tr: Trace)
    requires p.errno == OK && Inv(p, 0) && LineStart(p) && p.nread < MAX_HEADER_SIZE
    ensures OneByte(p, tr, '\r') == Run(Resumed(p).(state := HeadersAlmostDone, nread := p.nread + 1), Settled(p, tr), Break)
  {
    hide Inv;
    hide Switch;
    hide OneByte;
    hide Resumed;
    hide Settled;
    ResumedFrame(p, tr, 0);
    Resumes(p, tr, '\r');
    var q := Resumed(p);
    HeadReturnTurn(q.(nread := q.nread + 1));
    QuietByte(q, Settled(p, tr), '\r', q.(state := HeadersAlmostDone, nread := q.nread + 1));
  }

  lemma AfterKeeps(p: Parser, tr: Trace)
    ensures forall s :: AfterHeaders(p.(state := s), tr) == AfterHeaders(p, tr)
    ensures var q := AfterHeaders(p, tr).p; q.hstate == p.hstate && q.index == p.index && q.errno == p.errno
  {
    hide Add;
  }

  /** The empty line completes the headers, also those of an upgrade, or ends the message behind its trailers. */
  lemma HeadEnd(p: Parser, tr: Trace)
    requires p.errno == OK && Inv(p, 0) && LineStart(p) && p.nread + 2 <= MAX_HEADER_SIZE
    ensures Feed(p, tr, CRLF) == AfterHeaders(Resumed(p).(nread := p.nread + 2), Settled(p, tr)) && Inv(Feed(p, tr, CRLF).p, 0)
  {
    hide Inv;
    hide Add;
    hide OneByte;
    hide Feed;
    hide Resumed;
    hide Settled;
    hide NewMessage;
    hide AfterHeaders;
    ResumedFrame(p, tr, 0);
    HeadReturn(p, tr);
    FeedOneMore(p, tr, '\r', ['\n']);
    assert ['\r'] + ['\n'] == CRLF;
    var q := Resumed(p).(state := HeadersAlmostDone, nread := p.nread + 1);
    HeadFeed(q, Settled(p, tr));
    FeedOneMore(q, Settled(p, tr), '\n', []);
    assert ['\n'] + [] == ['\n'];
    var r := OneByte(q, Settled(p, tr), '\n');
    FedOnly(r.p, r.tr);
    AfterKeeps(Resumed(p).(nread := p.nread + 2), Settled(p, tr));
    FeedSplit(p, tr, CRLF, []);
  }

  // ----- whole requests -----

  /** A body as it is sent: in one piece, or in chunks with a last one of size zero and trailers behind it. */
  datatype Payload = Bytes(bytes: seq<Byte>) | Chunks(chunks: seq<Chunk>, last: Chunk, trailers: seq<Header>)

  datatype Message = Message(start: Start, headers: seq<Header>, payload: Payload)

  function PayloadBytes(b: Payload): seq<Byte> { match b case Bytes(bytes) => bytes case Chunks(cs, _, _) => AllBytes(cs) }

  function Trailers(b: Payload): seq<Header> { match b case Bytes(_) => [] case Chunks(_, _, trailers) => trailers }

  function Head(r: Message): seq<Byte> { StartText(r.start) + (Lines(r.headers) + CRLF) }

  function BodyText(b: Payload): seq<Byte> {
    match b
    case Bytes(bytes) => bytes
    case Chunks(cs, last, trailers) => (AllWritten(cs) + WrittenSize(last)) + (Lines(trailers) + CRLF)
  }

  function WrittenOut(r: Message): seq<Byte> { Head(r) + BodyText(r.payload) }

  /** What the headers of a message mean. */
  function HeadMeans(r: Message): Meant
    requires AllGood(r.headers)
  {
    LearnedAll(Meant(NO_FLAGS, NO_LENGTH), r.headers)
  }

  /** Behind an upgrade or a CONNECT the connection belongs to another protocol. */
  predicate Upgrades(r: Message)
    requires AllGood(r.headers)
  {
    HeadMeans(r).flags.upgrade || r.start.mtd == CONNECT
  }

  /** The headers announce the body: chunked, or as many bytes as the length says, none where there is no length. */
  ghost predicate Announced(b: Payload, m: Meant, upgrades: bool) {
    match b
    case Chunks(cs, last, trailers) =>
      && !upgrades && m.flags.chunked && WellSized(last) && last.bytes == []
      && (forall i :: 0 <= i < |cs| ==> WellSized(cs[i]) && cs[i].bytes != [])
      && AllGood(trailers) && |Lines(trailers)| + 2 <= MAX_HEADER_SIZE
    case Bytes(bytes) => if upgrades then bytes == [] else !m.flags.chunked && if m.length == NO_LENGTH then bytes == [] else |bytes| == m.length
  }

  /** A message that can be sent when `n` header bytes are counted already. */
  ghost predicate WellFormed(n: nat, r: Message) {
    && GoodStart(r.start) && AllGood(r.headers) && Announced(r.payload, HeadMeans(r), Upgrades(r))
    && n + |Head(r)| <= MAX_HEADER_SIZE
  }

  /** The flags in the end: the trailers count too. */
  function EndFlags(r: Message): Flags
    requires AllGood(r.headers) && AllGood(Trailers(r.payload))
  {
    match r.payload
    case Bytes(_) => HeadMeans(r).flags
    case Chunks(_, _, trailers) => LearnedAll(Meant(HeadMeans(r).flags.(trailing := true), 0), trailers).flags
  }

  /** Whether another request may follow: from HTTP/1.1 on unless closed, before only if kept alive. */
  predicate StaysOpen(r: Message)
    requires GoodVersion(r.start.version) && AllGood(r.headers) && AllGood(Trailers(r.payload))
  {
    if MajorOf(r.start.version) > 0 && MinorOf(r.start.version) > 0 then !EndFlags(r).close else EndFlags(r).keepAlive
  }

  /** The header bytes counted when the message is complete. */
  function ReadAfter(r: Message): nat {
    match r.payload case Bytes(_) => 0 case Chunks(_, _, trailers) => |Lines(trailers)| + 2
  }

  /** The callbacks of a request. */
  function StartTrace(tr: Trace, r: Message): Trace { Add(Add(tr, Note(MessageBegin)), Data(UrlData, r.start.target)) }

  function HeadTrace(tr: Trace, r: Message): Trace { Add(WithHeaders(StartTrace(tr, r), r.headers), Note(HeadersComplete)) }

  function RequestTrace(tr: Trace, r: Message): Trace {
    Add(WithHeaders(WithBody(HeadTrace(tr, r), PayloadBytes(r.payload)), Trailers(r.payload)), Note(MessageComplete))
  }

  /** The parser behind the header lines. */
  function HeadParser(p: Parser, r: Message): Parser
    requires GoodVersion(r.start.version) && AllGood(r.headers)
  {
    With(Started(p, r.start), HeadMeans(r))
  }

  /** Header lines with the empty line behind them. */
  lemma LinesEnd(p: Parser, tr: Trace, hs: seq<Header>)
    requires p.errno == OK && Inv(p, 0) && p.state == FieldStart && AllGood(hs) && p.nread + |Lines(hs)| + 2 <= MAX_HEADER_SIZE
    ensures var f := Feed(p, tr, Lines(hs) + CRLF);
            var q := With(p, LearnedAll(MeantBy(p), hs)).(hstate := f.p.hstate, index := f.p.index, nread := p.nread + |Lines(hs)| + 2);
            f == AfterHeaders(q, WithHeaders(tr, hs)) && Inv(f.p, 0)
  {
    hide Inv;
    hide Add;
    hide Feed;
    hide Lines;
    hide Resumed;
    hide Settled;
    hide AllGood;
    hide LearnedAll;
    hide AfterHeaders;
    hide NewMessage;
    ResumedFrame(p, tr, 0);
    HeaderLines(p, tr, hs);
    FeedSplit(p, tr, Lines(hs), CRLF);
    var g := Feed(p, tr, Lines(hs));
    ResumedKeeps(g.p);
    HeadEnd(g.p, g.tr);
    AfterKeeps(Resumed(g.p).(nread := g.p.nread + 2), Settled(g.p, g.tr));
  }

  /** The head of a message makes its callbacks and leaves the parser where its headers say. */
  lemma HeadParses(p: Parser, tr: Trace, r: Message)
    requires p.errno == OK && Inv(p, 0) && p.state == StartReq && GoodStart(r.start) && AllGood(r.headers)
    requires p.nread + |Head(r)| <= MAX_HEADER_SIZE
    ensures GoodVersion(r.start.version)
    ensures var f := Feed(p, tr, Head(r));
            var q := HeadParser(p, r).(hstate := f.p.hstate, index := f.p.index, nread := p.nread + |Head(r)|);
            f == AfterHeaders(q, WithHeaders(StartTrace(tr, r), r.headers)) && Inv(f.p, 0)
  {
    hide Inv;
    hide Add;
    hide Feed;
    hide Lines;
    hide AllGood;
    hide GoodVersion;
    hide LearnedAll;
    hide AfterHeaders;
    hide StartText;
    VersionOf(r.start);
    RequestLine(p, tr, r.start);
    FeedSplit(p, tr, StartText(r.start), Lines(r.headers) + CRLF);
    var f := Feed(p, tr, StartText(r.start));
    LinesEnd(f.p, f.tr, r.headers);
  }

  lemma {:induction false} TrailingStays(m: Meant, hs: seq<Header>)
    requires AllGood(hs)
    ensures LearnedAll(m, hs).flags.trailing == m.flags.trailing
    decreases |hs|
  {
    hide GoodHeader;
    if hs != [] {
      TrailingKept(m, hs[0]);
      TrailingStays(Learned(m, hs[0]), hs[1..]);
    }
  }

  lemma TrailingKept(m: Meant, h: Header)
    requires GoodHeader(h)
    ensures Learned(m, h).flags.trailing == m.flags.trailing
  {
    hide GoodHeader;
    hide DecValue;
  }

  /** The trailers and the empty line behind them. */
  lemma TrailerParses(p: Parser, tr: Trace, trailers: seq<Header>)
    requires p.errno == OK && Inv(p, 0) && p.state == FieldStart && p.flags.trailing && p.nread == 0
    requires AllGood(trailers) && |Lines(trailers)| + 2 <= MAX_HEADER_SIZE
    ensures var f := Feed(p, tr, Lines(trailers) + CRLF);
            var q := With(p, LearnedAll(MeantBy(p), trailers));
            && f.tr == Add(WithHeaders(tr, trailers), Note(MessageComplete)) && Inv(f.p, 0)
            && f.p == q.(state := NewMessage(q), hstate := f.p.hstate, index := f.p.index, nread := |Lines(trailers)| + 2)
  {
    hide Inv;
    hide Add;
    hide Feed;
    hide Lines;
    hide AllGood;
    hide LearnedAll;
    hide NewMessage;
    LinesEnd(p, tr, trailers);
    TrailingStays(MeantBy(p), trailers);
    NewStates(With(p, LearnedAll(MeantBy(p), trailers)));
  }

  lemma OpenIsNew(p: Parser, r: Message)
    requires GoodVersion(r.start.version) && AllGood(r.headers) && AllGood(Trailers(r.payload))
    requires p.flags == EndFlags(r) && p.major == MajorOf(r.start.version) && p.minor == MinorOf(r.start.version)
    ensures NewMessage(p) == if StaysOpen(r) then StartReq else Dead
  {
    hide AllGood;
    hide EndFlags;
  }

  /** The parser in the end, in all that the next request depends on. */
  ghost predicate Finished(p: Parser, r: Message)
    requires GoodVersion(r.start.version) && AllGood(r.headers) && AllGood(Trailers(r.payload))
  {
    && p.errno == OK && Inv(p, 0) && p.mtd == r.start.mtd && p.major == MajorOf(r.start.version) && p.minor == MinorOf(r.start.version)
    && p.upgrade == Upgrades(r) && p.nread == ReadAfter(r) && p.state == if StaysOpen(r) then StartReq else Dead
  }

  lemma FormedParts(n: nat, r: Message)
    requires WellFormed(n, r)
    ensures GoodVersion(r.start.version) && AllGood(r.headers) && AllGood(Trailers(r.payload))
    ensures !HeadMeans(r).flags.trailing
  {
    hide GoodVersion;
    hide GoodHeader;
    hide Lines;
    VersionOf(r.start);
    TrailingStays(Meant(NO_FLAGS, NO_LENGTH), r.headers);
  }

  lemma NoHeaders(tr: Trace)
    ensures WithHeaders(tr, []) == tr
  {}

  /** A request without a body, or with one in one piece. */
  lemma BytesParse(p: Parser, tr: Trace, r: Message)
    requires p.errno == OK && Inv(p, 0) && p.state == StartReq && WellFormed(p.nread, r) && r.payload.Bytes?
    ensures GoodVersion(r.start.version) && AllGood(r.headers) && AllGood(Trailers(r.payload))
    ensures var f := Feed(p, tr, WrittenOut(r)); f.tr == RequestTrace(tr, r) && Finished(f.p, r)
  {
    hide Inv;
    hide Add;
    hide Feed;
    hide Head;
    hide GoodStart;
    hide GoodVersion;
    hide AllGood;
    hide HeadMeans;
    hide WithHeaders;
    hide StartTrace;
    hide NewMessage;
    hide StaysOpen;
    FormedParts(p.nread, r);
    HeadParses(p, tr, r);
    var bytes := r.payload.bytes;
    FeedSplit(p, tr, Head(r), bytes);
    var f := Feed(p, tr, Head(r));
    NoHeaders(WithBody(HeadTrace(tr, r), bytes));
    NewStates(HeadParser(p, r));
    if bytes == [] { FedOnly(f.p, f.tr); } else { IdentityBody(f.p, f.tr, bytes); }
    OpenIsNew(HeadParser(p, r), r);
    FeedSplit(f.p, f.tr, bytes, []);
  }

  /** The head of a request with a chunked body. */
  lemma ChunkedHead(p: Parser, tr: Trace, r: Message)
    requires p.errno == OK && Inv(p, 0) && p.state == StartReq && WellFormed(p.nread, r) && r.payload.Chunks?
    ensures GoodVersion(r.start.version) && AllGood(r.headers)
    ensures var f := Feed(p, tr, Head(r));
            && f.p.errno == OK && Inv(f.p, 0) && f.tr == HeadTrace(tr, r) && f.p.state == ChunkSizeStart && !f.p.upgrade && !Upgrades(r)
            && f.p.flags == HeadMeans(r).flags && f.p.mtd == r.start.mtd
            && f.p.major == MajorOf(r.start.version) && f.p.minor == MinorOf(r.start.version)
  {
    hide Inv;
    hide Add;
    hide Feed;
    hide Head;
    hide GoodStart;
    hide GoodVersion;
    hide AllGood;
    hide HeadMeans;
    hide WithHeaders;
    hide StartTrace;
    hide WellSized;
    hide NewMessage;
    FormedParts(p.nread, r);
    HeadParses(p, tr, r);
  }

  lemma ChunksOf(n: nat, r: Message)
    requires WellFormed(n, r) && r.payload.Chunks?
    ensures var Chunks(cs, last, trailers) := r.payload;
            && WellSized(last) && last.bytes == [] && (forall i :: 0 <= i < |cs| ==> WellSized(cs[i]) && cs[i].bytes != [])
            && AllGood(trailers) && |Lines(trailers)| + 2 <= MAX_HEADER_SIZE
  {
    hide WellSized;
    hide AllGood;
    hide Head;
    hide GoodStart;
  }

  /** A request with a chunked body. */
  lemma ChunksParse(p: Parser, tr: Trace, r: Message)
    requires p.errno == OK && Inv(p, 0) && p.state == StartReq && WellFormed(p.nread, r) && r.payload.Chunks?
    ensures GoodVersion(r.start.version) && AllGood(r.headers) && AllGood(Trailers(r.payload))
    ensures var f := Feed(p, tr, WrittenOut(r)); f.tr == RequestTrace(tr, r) && Finished(f.p, r)
  {
    hide Inv;
    hide Add;
    hide Feed;
    hide Head;
    hide GoodStart;
    hide GoodVersion;
    hide AllGood;
    hide HeadMeans;
    hide LearnedAll;
    hide WithHeaders;
    hide StartTrace;
    hide WellSized;
    hide NewMessage;
    hide StaysOpen;
    FormedParts(p.nread, r);
    ChunkedHead(p, tr, r);
    ChunksOf(p.nread, r);
    hide WellFormed;
    hide Upgrades;
    hide Lines;
    var Chunks(cs, last, trailers) := r.payload;
    FeedSplit(p, tr, Head(r), BodyText(r.payload));
    var f := Feed(p, tr, Head(r));
    ChunkedBody(f.p, f.tr, cs, last);
    var text := AllWritten(cs) + WrittenSize(last);
    FeedSplit(f.p, f.tr, text, Lines(trailers) + CRLF);
    var g := Feed(f.p, f.tr, text);
    TrailerParses(g.p, g.tr, trailers);
    OpenIsNew(With(g.p, LearnedAll(MeantBy(g.p), trailers)), r);
  }

  /**
   * Parsing a written request makes exactly its callbacks, in order, and leaves the parser ready for the next one, or
   * dead where the request does not keep the connection open.
   */
  lemma RequestParses(p: Parser, tr: Trace, r: Message)
    requires p.errno == OK && Inv(p, 0) && p.state == StartReq && WellFormed(p.nread, r)
    ensures GoodVersion(r.start.version) && AllGood(r.headers) && AllGood(Trailers(r.payload))
    ensures var f := Feed(p, tr, WrittenOut(r)); f.tr == RequestTrace(tr, r) && Finished(f.p, r)
  {
    hide WellFormed;
    hide Finished;
    hide Feed;
    hide RequestTrace;
    if r.payload.Bytes? { BytesParse(p, tr, r); } else { ChunksParse(p, tr, r); }
  }
}
