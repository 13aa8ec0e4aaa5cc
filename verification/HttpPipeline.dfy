/** Requests one after the other on one connection, in whatever pieces their bytes arrive. */
module HttpPipeline {
  import opened Common
  import opened HttpModel
  import opened HttpBytes
  import opened HttpTrace
  import opened HttpMachine
  import opened HttpHeaders
  import opened HttpHandler
  import opened HttpFraming
  import opened HttpHeaderLines
  import opened HttpRequestLine
  import opened HttpRoundTrip
  import opened HttpRequestObject
  import opened HttpExecute

  // ----- the requests a handler is given -----

  /** The requests handed over, one at each end of a message. */
  function Completed(events: seq<Event>): seq<Got> {
    if events == [] then []
    else
      Completed(events[..|events| - 1])
      + if events[|events| - 1] == Note(MessageComplete) then [ToRequest(HandleAll(EMPTY, events))] else []
  }

  lemma CompletedAdded(tr: Trace, e: Event)
    ensures Completed(Add(tr, e)) ==
            Completed(tr) + if e == Note(MessageComplete) then [ToRequest(HandleAll(EMPTY, Add(tr, e)))] else []
  {
    hide HandleAll;
    var n := |tr| - 1;
    if e.Data? && EndsWith(tr, e.kind) {
      assert Add(tr, e)[..n] == tr[..n];
    } else {
      assert (tr + [e])[..|tr|] == tr;
    }
  }

  /** Into how many pieces data is cut makes no difference to the requests handed over. */
  lemma {:induction false} CompletedJoined(events: seq<Event>)
    ensures Completed(events) == Completed(Join(events))
  {
    hide Add;
    hide HandleAll;
    if events != [] {
      var n := |events| - 1;
      CompletedJoined(events[..n]);
      CompletedAdded(Join(events[..n]), events[n]);
      HandleJoined(EMPTY, events);
    }
  }

  lemma {:induction false} CompletedHeaders(tr: Trace, hs: seq<Header>)
    ensures Completed(WithHeaders(tr, hs)) == Completed(tr)
    decreases |hs|
  {
    hide Add;
    hide Completed;
    if hs != [] {
      var tr1 := Add(tr, Data(FieldData, hs[0].name));
      CompletedAdded(tr, Data(FieldData, hs[0].name));
      CompletedAdded(tr1, Data(ValueData, WholeValue(hs[0])));
      CompletedHeaders(Add(tr1, Data(ValueData, WholeValue(hs[0]))), hs[1..]);
    }
  }

  lemma CompletedRequest(tr: Trace, r: Message)
    ensures Completed(RequestTrace(tr, r)) == Completed(tr) + [ToRequest(HandleAll(EMPTY, RequestTrace(tr, r)))]
  {
    hide Add;
    hide Completed;
    hide HandleAll;
    CompletedAdded(tr, Note(MessageBegin));
    CompletedAdded(Add(tr, Note(MessageBegin)), Data(UrlData, r.start.target));
    CompletedHeaders(StartTrace(tr, r), r.headers);
    CompletedAdded(WithHeaders(StartTrace(tr, r), r.headers), Note(HeadersComplete));
    var body := PayloadBytes(r.payload);
    CompletedAdded(HeadTrace(tr, r), Data(BodyData, body));
    CompletedHeaders(WithBody(HeadTrace(tr, r), body), Trailers(r.payload));
    CompletedAdded(WithHeaders(WithBody(HeadTrace(tr, r), body), Trailers(r.payload)), Note(MessageComplete));
  }

  // ----- sequences of requests -----

  /** Requests that can follow each other: each but the last keeps the connection open, and is no upgrade. */
  ghost predicate AllFormed(n: nat, rs: seq<Message>)
    decreases |rs|
  {
    rs == [] ||
    (WellFormed(n, rs[0])
     && (FormedParts(n, rs[0]); |rs| > 1 ==> StaysOpen(rs[0]) && !Upgrades(rs[0]))
     && AllFormed(ReadAfter(rs[0]), rs[1..]))
  }

  function AllWrittenOut(rs: seq<Message>): seq<Byte> { if rs == [] then [] else WrittenOut(rs[0]) + AllWrittenOut(rs[1..]) }

  function AllRequests(rs: seq<Message>): seq<Got> {
    if rs == [] then [] else [RequestOf(rs[0], HeadersOf(rs[0]))] + AllRequests(rs[1..])
  }

  lemma OneRequest(p: Parser, tr: Trace, r: Message)
    requires p.errno == OK && Inv(p, 0) && p.state == StartReq && WellFormed(p.nread, r)
    ensures GoodVersion(r.start.version) && AllGood(r.headers) && AllGood(Trailers(r.payload))
    ensures var f := Feed(p, tr, WrittenOut(r));
            f.tr == RequestTrace(tr, r) && Finished(f.p, r) && Completed(f.tr) == Completed(tr) + [RequestOf(r, HeadersOf(r))]
  {
    RequestParses(p, tr, r);
    GoodAreNamed(r.headers);
    hide Feed;
    hide WellFormed;
    hide Finished;
    hide RequestTrace;
    hide HandleAll;
    hide Completed;
    hide HeadersOf;
    CompletedRequest(tr, r);
    RequestHandled(tr, r);
  }

  /** What the next request needs of the parser. */
  lemma FinishedOpen(p: Parser, r: Message)
    requires GoodVersion(r.start.version) && AllGood(r.headers) && AllGood(Trailers(r.payload)) && Finished(p, r)
    ensures p.errno == OK && Inv(p, 0) && p.nread == ReadAfter(r) && (StaysOpen(r) ==> p.state == StartReq)
  {
    hide GoodVersion;
    hide AllGood;
    hide StaysOpen;
    hide Upgrades;
  }

  lemma FormedFirst(n: nat, rs: seq<Message>)
    requires AllFormed(n, rs) && rs != []
    ensures WellFormed(n, rs[0]) && AllFormed(ReadAfter(rs[0]), rs[1..])
    ensures GoodVersion(rs[0].start.version) && AllGood(rs[0].headers) && AllGood(Trailers(rs[0].payload))
    ensures |rs| > 1 ==> StaysOpen(rs[0]) && !Upgrades(rs[0])
  {
    hide WellFormed;
    hide StaysOpen;
    hide Upgrades;
    FormedParts(n, rs[0]);
  }

  /** Requests written one behind the other are handed over one after the other, each as it would be alone. */
  lemma {:induction false} RequestsParse(p: Parser, tr: Trace, rs: seq<Message>)
    requires p.errno == OK && Inv(p, 0) && (rs == [] || p.state == StartReq) && AllFormed(p.nread, rs)
    ensures var f := Feed(p, tr, AllWrittenOut(rs));
            f.p.errno == OK && Inv(f.p, 0) && Completed(f.tr) == Completed(tr) + AllRequests(rs)
    decreases |rs|
  {
    hide Inv;
    hide Feed;
    hide WellFormed;
    hide Completed;
    hide WrittenOut;
    hide HeadersOf;
    hide RequestTrace;
    hide AllFormed;
    hide StaysOpen;
    hide Upgrades;
    hide AllGood;
    hide GoodVersion;
    hide Finished;
    hide ReadAfter;
    if rs == [] {
      FedOnly(p, tr);
    } else {
      FormedFirst(p.nread, rs);
      OneRequest(p, tr, rs[0]);
      FinishedOpen(Feed(p, tr, WrittenOut(rs[0])).p, rs[0]);
      FeedSplit(p, tr, WrittenOut(rs[0]), AllWrittenOut(rs[1..]));
      var f := Feed(p, tr, WrittenOut(rs[0]));
      RequestsParse(f.p, f.tr, rs[1..]);
      assert Completed(tr) + [RequestOf(rs[0], HeadersOf(rs[0]))] + AllRequests(rs[1..]) == Completed(tr) + AllRequests(rs);
    }
  }

  // ----- one call takes them -----

  /** All bytes are taken without an error, and none hands the connection over. */
  predicate Plain(p: Parser, tr: Trace, data: seq<Byte>)
    requires p.errno == OK && Inv(p, 0)
    decreases |data|
  {
    data == [] ||
    var r := OneByte(p, tr, data[0]);
    OneByteInv(p, tr, data[0]);
    r.next != Fail && r.next != Exit && Plain(r.p, r.tr, data[1..])
  }

  lemma {:induction false} PlainThenSmooth(p: Parser, tr: Trace, a: seq<Byte>, b: seq<Byte>)
    requires p.errno == OK && Inv(p, 0) && Plain(p, tr, a)
    ensures var f := Feed(p, tr, a); f.p.errno == OK && Inv(f.p, 0) && (Smooth(f.p, f.tr, b) ==> Smooth(p, tr, a + b))
    decreases |a|
  {
    hide OneByte;
    hide Inv;
    if a == [] {
      assert a + b == b;
    } else {
      OneByteInv(p, tr, a[0]);
      var r := OneByte(p, tr, a[0]);
      assert (a + b)[0] == a[0] && (a + b)[1..] == a[1..] + b;
      PlainThenSmooth(r.p, r.tr, a[1..], b);
    }
  }

  /** How often headers were completed. */
  function Heads(tr: Trace): nat {
    if tr == [] then 0 else Heads(tr[..|tr| - 1]) + if tr[|tr| - 1] == Note(HeadersComplete) then 1 else 0
  }

  lemma HeadsAdded(tr: Trace, e: Event)
    ensures Heads(Add(tr, e)) == Heads(tr) + if e == Note(HeadersComplete) then 1 else 0
  {
    var n := |tr| - 1;
    if e.Data? && EndsWith(tr, e.kind) {
      assert Add(tr, e)[..n] == tr[..n];
    } else {
      assert (tr + [e])[..|tr|] == tr;
    }
  }

  /** Only the end of the headers completes them, sets the flag for an upgrade, and may hand over. */
  predicate GoodNote(p: Parser, c: Byte, t: Turn) {
    && (t.note == Some(HeadersComplete) ==> t.next == Again && t.p.state == HeadersDone)
    && (t.note != Some(HeadersComplete) ==> t.p.upgrade == p.upgrade && !(t.next == Again && t.p.state == HeadersDone))
    && (t.next == Exit ==> p.state == HeadersDone)
    && (p.state == HeadersDone ==> t.next != Again && t.note != Some(HeadersComplete))
    && (t.next == Break || t.next == Exit ==> t.p.state != HeadersDone)
  }

  /** A turn that does not complete headers and goes nowhere near the end of them. */
  predicate NoHead(p: Parser, t: Turn) {
    t.note != Some(HeadersComplete) && t.p.upgrade == p.upgrade && t.next != Exit && (t.next != Fail ==> t.p.state != HeadersDone)
  }

  lemma NoHeadIsGood(p: Parser, c: Byte, t: Turn)
    requires p.state != HeadersDone && NoHead(p, t)
    ensures GoodNote(p, c, t)
  {}

  lemma EndNotes(p: Parser, c: Byte)
    requires p.errno == OK && (p.state == HeadersAlmostDone || p.state == HeadersDone || p.state == MessageDone || p.state == Dead)
    ensures GoodNote(p, c, Switch(p, c))
  {}

  lemma NoteTurns(p: Parser, c: Byte)
    requires p.errno == OK && !TakesBody(p.state)
    ensures GoodNote(p, c, Switch(p, c))
  {
    hide MethodTurn;
    hide UrlTurn;
    hide LineTurn;
    hide FieldStartTurn;
    hide FieldTurn;
    hide ValueTurn;
    hide ChunkTurn;
    hide EndTurn;
    hide GoodNote;
    hide NoHead;
    if p.state == HeadersAlmostDone || p.state == HeadersDone || p.state == MessageDone || p.state == Dead {
      EndNotes(p, c);
    } else {
      MethodNotes(p, c);
      UrlNotes(p, c);
      LineNotes(p, c);
      FieldNotes(p, c);
      ValueNotes(p, c);
      ChunkNotes(p, c);
      NoHeadIsGood(p, c, Switch(p, c));
    }
  }

  lemma MethodNotes(p: Parser, c: Byte)
    ensures NoHead(p, MethodTurn(p, c))
  {
    hide Name;
  }

  lemma UrlNotes(p: Parser, c: Byte)
    ensures NoHead(p, UrlTurn(p, c))
  {
    hide ParseUrlChar;
  }

  lemma LineNotes(p: Parser, c: Byte)
    ensures NoHead(p, LineTurn(p, c))
  {}

  lemma FieldNotes(p: Parser, c: Byte)
    ensures NoHead(p, FieldStartTurn(p, c)) && NoHead(p, FieldTurn(p, c))
  {
    hide Token;
    FieldCharKeeps(p, Token(c));
    hide FieldChar;
  }

  lemma ValueNotes(p: Parser, c: Byte)
    ensures NoHead(p, ValueTurn(p, c))
  {
    hide Lower;
  }

  lemma ChunkNotes(p: Parser, c: Byte)
    ensures NoHead(p, ChunkTurn(p, c))
  {
    hide Unhex;
  }

  lemma AfterPassHeads(tr: Trace, t: Turn, s: State, c: Byte)
    ensures Heads(AfterPass(tr, t)) == Heads(tr) + if t.note == Some(HeadersComplete) then 1 else 0
    ensures Heads(WithByte(tr, s, c)) == Heads(tr)
  {
    hide Add;
    hide Heads;
    var tr1 := if t.mark == Some(ValueData) && t.emit == Some(ValueData) then Add(tr, Data(ValueData, [])) else tr;
    HeadsAdded(tr, Data(ValueData, []));
    if t.note.Some? { HeadsAdded(tr1, Note(t.note.value)); }
    if MarkOf(s).Some? { HeadsAdded(tr, Data(MarkOf(s).value, [c])); }
  }

  /** What the passes over a byte say about upgrades: only completed headers change the flag or hand over. */
  ghost predicate Noted(p: Parser, tr: Trace, r: Run) {
    && Heads(tr) <= Heads(r.tr) <= Heads(tr) + 1
    && (Heads(r.tr) == Heads(tr) ==> r.p.upgrade == p.upgrade && (r.next == Exit ==> p.state == HeadersDone))
    && (p.state == HeadersDone ==> Heads(r.tr) == Heads(tr))
    && r.p.state != HeadersDone
  }

  lemma {:induction false} PassesNotes(p: Parser, tr: Trace, c: Byte)
    requires p.errno == OK && !TakesBody(p.state) && Passes(p, tr, c).next != Fail
    ensures Noted(p, tr, Passes(p, tr, c))
    decreases Rank(p.state)
  {
    hide Switch;
    hide Add;
    hide Heads;
    hide AfterPass;
    hide WithByte;
    SwitchShape(p, c);
    NoteTurns(p, c);
    var t := Switch(p, c);
    AfterPassHeads(tr, t, t.p.state, c);
    AfterPassHeads(AfterPass(tr, t), t, t.p.state, c);
    if t.next == Again { PassesNotes(t.p, AfterPass(tr, t), c); }
  }

  lemma BodyNotes(p: Parser, tr: Trace, c: Byte)
    requires TakesBody(p.state) && p.length > 0
    ensures var r := BodyByte(p, tr, c); Heads(r.tr) == Heads(tr) && r.p.upgrade == p.upgrade && r.next == Break && r.p.state != HeadersDone
  {
    hide Add;
    hide Heads;
    HeadsAdded(tr, Data(BodyData, [c]));
    HeadsAdded(Add(tr, Data(BodyData, [c])), Note(MessageComplete));
  }

  lemma OneByteNotes(p: Parser, tr: Trace, c: Byte)
    requires p.errno == OK && Inv(p, 0) && p.state != HeadersDone && OneByte(p, tr, c).next != Fail
    ensures Noted(p, tr, OneByte(p, tr, c))
  {
    hide Passes;
    hide BodyByte;
    hide Heads;
    CountedInv(p);
    hide Inv;
    var q := Counted(p);
    if TakesBody(q.state) { BodyHasLength(p); BodyNotes(q, tr, c); } else { PassesNotes(q, tr, c); }
  }

  /** A run without an error in which at most one head is completed, and that of no upgrade. */
  lemma {:induction false} PlainFeed(p: Parser, tr: Trace, data: seq<Byte>)
    requires p.errno == OK && Inv(p, 0) && p.state != HeadersDone && Feed(p, tr, data).p.errno == OK
    ensures var f := Feed(p, tr, data);
            && Heads(tr) <= Heads(f.tr) && (Heads(f.tr) == Heads(tr) ==> f.p.upgrade == p.upgrade && Plain(p, tr, data))
            && (Heads(f.tr) == Heads(tr) + 1 && !f.p.upgrade ==> Plain(p, tr, data)) && f.p.state != HeadersDone
    decreases |data|
  {
    hide OneByte;
    hide Inv;
    hide Heads;
    if data != [] {
      OneByteInv(p, tr, data[0]);
      var r := OneByte(p, tr, data[0]);
      ExitUpgrades(p, tr, data[0]);
      OneByteNotes(p, tr, data[0]);
      PlainFeed(r.p, r.tr, data[1..]);
    }
  }

  lemma ExitUpgrades(p: Parser, tr: Trace, c: Byte)
    requires p.errno == OK && Inv(p, 0)
    ensures OneByte(p, tr, c).next == Exit ==> OneByte(p, tr, c).p.upgrade
  {
    hide Passes;
    hide BodyByte;
    CountedInv(p);
    hide Inv;
    var q := Counted(p);
    if q.errno == OK {
      if TakesBody(q.state) { BodyHasLength(p); BodyNotes(q, tr, c); } else { ExitMeansUpgrade(q, tr, c); }
    }
  }

  lemma {:induction false} HeadsOfHeaders(tr: Trace, hs: seq<Header>)
    ensures Heads(WithHeaders(tr, hs)) == Heads(tr)
    decreases |hs|
  {
    hide Add;
    hide Heads;
    if hs != [] {
      var tr1 := Add(tr, Data(FieldData, hs[0].name));
      HeadsAdded(tr, Data(FieldData, hs[0].name));
      HeadsAdded(tr1, Data(ValueData, WholeValue(hs[0])));
      HeadsOfHeaders(Add(tr1, Data(ValueData, WholeValue(hs[0]))), hs[1..]);
    }
  }

  lemma HeadsOfRequest(tr: Trace, r: Message)
    ensures Heads(WithHeaders(StartTrace(tr, r), r.headers)) == Heads(tr)
    ensures Heads(RequestTrace(tr, r)) == Heads(tr) + 1
  {
    hide Add;
    hide Heads;
    HeadsAdded(tr, Note(MessageBegin));
    HeadsAdded(Add(tr, Note(MessageBegin)), Data(UrlData, r.start.target));
    HeadsOfHeaders(StartTrace(tr, r), r.headers);
    HeadsAdded(WithHeaders(StartTrace(tr, r), r.headers), Note(HeadersComplete));
    var body := PayloadBytes(r.payload);
    HeadsAdded(HeadTrace(tr, r), Data(BodyData, body));
    HeadsOfHeaders(WithBody(HeadTrace(tr, r), body), Trailers(r.payload));
    HeadsAdded(WithHeaders(WithBody(HeadTrace(tr, r), body), Trailers(r.payload)), Note(MessageComplete));
  }

  /** One call takes a whole request; only an upgrade's last byte hands the connection over. */
  lemma RequestIsSmooth(p: Parser, tr: Trace, r: Message)
    requires p.errno == OK && Inv(p, 0) && p.state == StartReq && WellFormed(p.nread, r)
    ensures AllGood(r.headers) && (if Upgrades(r) then Smooth(p, tr, WrittenOut(r)) else Plain(p, tr, WrittenOut(r)))
  {
    FormedParts(p.nread, r);
    RequestParses(p, tr, r);
    HeadsOfRequest(tr, r);
    if Upgrades(r) {
      UpgradeIsSmooth(p, tr, r);
    } else {
      hide Feed;
      hide Plain;
      hide Inv;
      hide WellFormed;
      hide Heads;
      hide WrittenOut;
      hide RequestTrace;
      PlainFeed(p, tr, WrittenOut(r));
    }
  }

  lemma UpgradeText(n: nat, r: Message)
    requires WellFormed(n, r) && Upgrades(r)
    ensures GoodStart(r.start) && AllGood(r.headers) && n + |Head(r)| <= MAX_HEADER_SIZE
    ensures WrittenOut(r) == (StartText(r.start) + (Lines(r.headers) + ['\r'])) + ['\n']
  {
    hide GoodStart;
    hide Lines;
    hide StartText;
    hide AllGood;
    assert r.payload == Bytes([]);
    assert WrittenOut(r) == Head(r) + [] == Head(r);
    assert Lines(r.headers) + CRLF == (Lines(r.headers) + ['\r']) + ['\n'];
  }

  lemma LinesReturn(p: Parser, tr: Trace, hs: seq<Header>)
    requires p.errno == OK && Inv(p, 0) && p.state == FieldStart && AllGood(hs) && p.nread + |Lines(hs)| < MAX_HEADER_SIZE
    ensures var f := Feed(p, tr, Lines(hs) + ['\r']); f.p.errno == OK && f.tr == WithHeaders(tr, hs)
  {
    hide Inv;
    hide Add;
    hide Feed;
    hide OneByte;
    hide Lines;
    hide AllGood;
    hide Resumed;
    hide Settled;
    hide LearnedAll;
    ResumedFrame(p, tr, 0);
    HeaderLines(p, tr, hs);
    FeedSplit(p, tr, Lines(hs), ['\r']);
    var g := Feed(p, tr, Lines(hs));
    ResumedKeeps(g.p);
    HeadReturn(g.p, g.tr);
    FeedOne(g.p, g.tr, '\r');
  }

  /** The head up to its last byte completes no headers yet. */
  lemma HeadReturned(p: Parser, tr: Trace, r: Message)
    requires p.errno == OK && Inv(p, 0) && p.state == StartReq && GoodStart(r.start) && AllGood(r.headers)
    requires p.nread + |Head(r)| <= MAX_HEADER_SIZE
    ensures var h := Feed(p, tr, StartText(r.start) + (Lines(r.headers) + ['\r']));
            h.p.errno == OK && h.tr == WithHeaders(StartTrace(tr, r), r.headers)
  {
    hide Inv;
    hide Add;
    hide Feed;
    hide Lines;
    hide AllGood;
    hide GoodStart;
    hide StartText;
    hide GoodVersion;
    RequestLine(p, tr, r.start);
    VersionOf(r.start);
    FeedSplit(p, tr, StartText(r.start), Lines(r.headers) + ['\r']);
    var f := Feed(p, tr, StartText(r.start));
    LinesReturn(f.p, f.tr, r.headers);
  }

  lemma LastByteSmooth(p: Parser, tr: Trace, text: seq<Byte>, c: Byte)
    requires p.errno == OK && Inv(p, 0) && Plain(p, tr, text) && Feed(p, tr, text + [c]).p.errno == OK
    ensures Smooth(p, tr, text + [c])
  {
    hide Inv;
    hide Feed;
    hide OneByte;
    hide Plain;
    PlainThenSmooth(p, tr, text, [c]);
    FeedSplit(p, tr, text, [c]);
    var h := Feed(p, tr, text);
    FeedOne(h.p, h.tr, c);
    OneByteInv(h.p, h.tr, c);
    SmoothOne(h.p, h.tr, [c]);
    SmoothNothing(OneByte(h.p, h.tr, c).p, OneByte(h.p, h.tr, c).tr);
  }

  /** Before its last byte an upgrade is plain. */
  lemma UpgradeIsSmooth(p: Parser, tr: Trace, r: Message)
    requires p.errno == OK && Inv(p, 0) && p.state == StartReq && WellFormed(p.nread, r) && Upgrades(r)
    requires Feed(p, tr, WrittenOut(r)).p.errno == OK
    ensures Smooth(p, tr, WrittenOut(r))
  {
    hide Inv;
    hide Feed;
    hide Heads;
    hide Plain;
    hide Smooth;
    hide StartTrace;
    UpgradeText(p.nread, r);
    hide WellFormed;
    hide WrittenOut;
    hide AllGood;
    hide GoodStart;
    hide Upgrades;
    HeadReturned(p, tr, r);
    HeadsOfRequest(tr, r);
    var text := StartText(r.start) + (Lines(r.headers) + ['\r']);
    PlainFeed(p, tr, text);
    LastByteSmooth(p, tr, text, '\n');
  }

  lemma {:induction false} RequestsAreSmooth(p: Parser, tr: Trace, rs: seq<Message>)
    requires p.errno == OK && Inv(p, 0) && (rs == [] || p.state == StartReq) && AllFormed(p.nread, rs)
    ensures Smooth(p, tr, AllWrittenOut(rs))
    decreases |rs|
  {
    hide Inv;
    hide Feed;
    hide WellFormed;
    hide WrittenOut;
    hide Smooth;
    hide Plain;
    hide AllFormed;
    hide StaysOpen;
    hide Upgrades;
    hide AllGood;
    hide GoodVersion;
    hide Finished;
    hide ReadAfter;
    hide RequestTrace;
    if rs == [] {
      SmoothNothing(p, tr);
    } else {
      FormedFirst(p.nread, rs);
      RequestIsSmooth(p, tr, rs[0]);
      if |rs| == 1 {
        assert rs[1..] == [] && WrittenOut(rs[0]) + [] == WrittenOut(rs[0]);
        if !Upgrades(rs[0]) {
          PlainThenSmooth(p, tr, WrittenOut(rs[0]), []);
          SmoothNothing(Feed(p, tr, WrittenOut(rs[0])).p, Feed(p, tr, WrittenOut(rs[0])).tr);
        }
      } else {
        RequestParses(p, tr, rs[0]);
        var f := Feed(p, tr, WrittenOut(rs[0]));
        FinishedOpen(f.p, rs[0]);
        RequestsAreSmooth(f.p, f.tr, rs[1..]);
        PlainThenSmooth(p, tr, WrittenOut(rs[0]), AllWrittenOut(rs[1..]));
      }
    }
  }

  /**
   * From the wire to the handler: requests written one behind the other, cut into any non-empty pieces and fed to the
   * parser piece after piece, are all taken, and the handler is given exactly these requests, in order.
   */
  method ServeRequests(parser: HttpParser, ghost rs: seq<Message>, pieces: seq<seq<Byte>>) returns (ok: bool)
    requires parser.Valid() && parser.p.errno == OK && parser.p.state == StartReq && AllFormed(parser.p.nread, rs)
    requires Flatten(pieces) == AllWrittenOut(rs) && forall i :: 0 <= i < |pieces| ==> pieces[i] != []
    modifies parser
    ensures ok && parser.Valid() && parser.p.errno == OK
    ensures Completed(parser.events) == Completed(old(parser.events)) + AllRequests(rs)
  {
    hide Inv;
    hide Join;
    hide Feed;
    hide Smooth;
    hide Completed;
    hide AllFormed;
    RequestsAreSmooth(parser.p, Join(parser.events), rs);
    RequestsParse(parser.p, Join(parser.events), rs);
    CompletedJoined(parser.events);
    ok := parser.ExecutePieces(pieces);
    CompletedJoined(parser.events);
  }
}
