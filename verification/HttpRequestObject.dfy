/** The request object filled in from a written request. */
module HttpRequestObject {
  import opened Common
  import opened HttpModel
  import opened HttpBytes
  import opened HttpTrace
  import opened HttpMachine
  import opened HttpHeaders
  import opened HttpHandler
  import opened HttpFraming
  import opened HttpHeaderLines
  import opened HttpRequestLine
  import opened HttpRoundTrip

  type Pair = (seq<Byte>, seq<Byte>)

  function Pairs(hs: seq<Header>): (ps: seq<Pair>)
    ensures |ps| == |hs| && forall i :: 0 <= i < |hs| ==> ps[i] == (hs[i].name, WholeValue(hs[i]))
  {
    if hs == [] then [] else [(hs[0].name, WholeValue(hs[0]))] + Pairs(hs[1..])
  }

  function NonEmpty(ps: seq<Pair>): (r: seq<Pair>)
    ensures |r| <= |ps|
  {
    if ps == [] then []
    else NonEmpty(ps[..|ps| - 1]) + if ps[|ps| - 1].1 != [] then [ps[|ps| - 1]] else []
  }

  /** The headers a request ends up with: those with a value, and the last one in any case. */
  function Kept(ps: seq<Pair>): seq<Pair> { if ps == [] then [] else NonEmpty(ps[..|ps| - 1]) + [ps[|ps| - 1]] }

  /** No header is dropped if and only if all have a value. */
  lemma {:induction false} NonEmptyLength(ps: seq<Pair>)
    ensures |NonEmpty(ps)| == |ps| <==> forall i :: 0 <= i < |ps| ==> ps[i].1 != []
  {
    if ps != [] {
      var n := |ps| - 1;
      NonEmptyLength(ps[..n]);
      assert forall i :: 0 <= i < n ==> ps[..n][i] == ps[i];
    }
  }

  lemma {:induction false} NonEmptyWhole(ps: seq<Pair>)
    requires |NonEmpty(ps)| == |ps|
    ensures NonEmpty(ps) == ps
  {
    if ps != [] {
      var n := |ps| - 1;
      NonEmptyWhole(ps[..n]);
      assert ps == ps[..n] + [ps[n]];
    }
  }

  /** Every header comes back if and only if none before the last one has an empty value. */
  lemma KeptIsAll(ps: seq<Pair>)
    ensures Kept(ps) == ps <==> forall i :: 0 <= i < |ps| - 1 ==> ps[i].1 != []
  {
    if ps != [] {
      var n := |ps| - 1;
      NonEmptyLength(ps[..n]);
      assert forall i :: 0 <= i < n ==> ps[..n][i] == ps[i];
      if |NonEmpty(ps[..n])| == n {
        NonEmptyWhole(ps[..n]);
        assert ps == ps[..n] + [ps[n]];
      } else {
        assert |Kept(ps)| != |ps|;
      }
    }
  }

  /** The trailers that still reach the header table: those with a value, but never the last one. */
  function Added(ts: seq<Pair>): (r: seq<Pair>)
    ensures ts != [] ==> |r| < |ts|
  {
    if ts == [] then [] else NonEmpty(ts[..|ts| - 1])
  }

  /** Headers and trailers all come back if and only if there is no trailer, and no empty value before the last header. */
  lemma AllComeBack(ps: seq<Pair>, ts: seq<Pair>)
    ensures Kept(ps) + Added(ts) == ps + ts <==> ts == [] && forall i :: 0 <= i < |ps| - 1 ==> ps[i].1 != []
  {
    KeptIsAll(ps);
    if ts == [] {
      assert Kept(ps) + Added(ts) == Kept(ps) && ps + ts == ps;
    } else {
      assert |Kept(ps) + Added(ts)| < |ps + ts|;
    }
  }

  // ----- the callbacks -----

  /** What a header callback does, whatever came before: the header before it is kept if it has a value. */
  lemma HeaderHandled(q: Request, name: seq<Byte>, value: seq<Byte>)
    requires !q.building
    ensures Handle(Handle(q, Data(FieldData, name)), Data(ValueData, value)) ==
            q.(headers := q.headers + (if q.value != [] then [(q.field, q.value)] else []), field := name, value := value)
  {}

  lemma HandledTwice(q: Request, tr: Trace, name: seq<Byte>, value: seq<Byte>)
    ensures HandleAll(q, Add(Add(tr, Data(FieldData, name)), Data(ValueData, value)))
            == Handle(Handle(HandleAll(q, tr), Data(FieldData, name)), Data(ValueData, value))
  {
    hide Handle;
    hide Add;
    HandleAdded(q, tr, Data(FieldData, name));
    HandleAdded(q, Add(tr, Data(FieldData, name)), Data(ValueData, value));
  }

  /** The request object behind the header callbacks: the last header is still being built. */
  function Building(a: Request, ps: seq<Pair>): Request {
    if ps == [] then a
    else
      var n := |ps| - 1;
      a.(headers := a.headers + (if a.value != [] then [(a.field, a.value)] else []) + NonEmpty(ps[..n]),
         field := ps[n].0, value := ps[n].1)
  }

  /** One header more at the front. */
  lemma {:induction false} NonEmptyFront(p: Pair, ps: seq<Pair>)
    ensures NonEmpty([p] + ps) == (if p.1 != [] then [p] else []) + NonEmpty(ps)
  {
    if ps == [] {
      assert [p] + ps == [p] && [p][..0] == [];
    } else {
      var n := |ps| - 1;
      NonEmptyFront(p, ps[..n]);
      assert ([p] + ps)[..n + 1] == [p] + ps[..n];
    }
  }

  lemma BuildingStep(a: Request, p: Pair, ps: seq<Pair>)
    requires !a.building
    ensures var b := a.(headers := a.headers + (if a.value != [] then [(a.field, a.value)] else []), field := p.0, value := p.1);
            Building(b, ps) == Building(a, [p] + ps)
  {
    if ps == [] {
      assert [p] + ps == [p] && [p][..0] == [] && NonEmpty([]) == [];
    } else {
      var n := |ps| - 1;
      assert ([p] + ps)[..n + 1] == [p] + ps[..n] && ([p] + ps)[n + 1] == ps[n];
      NonEmptyFront(p, ps[..n]);
    }
  }

  lemma {:induction false} HeadersHandled(q: Request, tr: Trace, hs: seq<Header>)
    requires !HandleAll(q, tr).building
    ensures HandleAll(q, WithHeaders(tr, hs)) == Building(HandleAll(q, tr), Pairs(hs))
    decreases |hs|
  {
    hide HandleAll;
    hide Handle;
    hide Add;
    var a := HandleAll(q, tr);
    if hs != [] {
      hide Building;
      var h := hs[0];
      HandledTwice(q, tr, h.name, WholeValue(h));
      HeaderHandled(a, h.name, WholeValue(h));
      HeadersHandled(q, Add(Add(tr, Data(FieldData, h.name)), Data(ValueData, WholeValue(h))), hs[1..]);
      BuildingStep(a, (h.name, WholeValue(h)), Pairs(hs[1..]));
    }
  }

  lemma StartHandled(tr: Trace, r: Message)
    ensures HandleAll(EMPTY, StartTrace(tr, r)) == EMPTY.(rawUrl := r.start.target)
  {
    hide Add;
    hide HandleAll;
    HandleAdded(EMPTY, tr, Note(MessageBegin));
    HandleAdded(EMPTY, Add(tr, Note(MessageBegin)), Data(UrlData, r.start.target));
    assert [] + r.start.target == r.start.target;
  }

  predicate Named(hs: seq<Header>) { forall i :: 0 <= i < |hs| ==> hs[i].name != [] }

  lemma HeadHandled(tr: Trace, r: Message)
    requires Named(r.headers)
    ensures HandleAll(EMPTY, HeadTrace(tr, r)) == EMPTY.(rawUrl := r.start.target, headers := Kept(Pairs(r.headers)))
  {
    hide Add;
    hide HandleAll;
    StartHandled(tr, r);
    HeadersHandled(EMPTY, StartTrace(tr, r), r.headers);
    HandleAdded(EMPTY, WithHeaders(StartTrace(tr, r), r.headers), Note(HeadersComplete));
    var ps := Pairs(r.headers);
    if ps != [] { assert [] + [] + NonEmpty(ps[..|ps| - 1]) == NonEmpty(ps[..|ps| - 1]); }
  }

  /** What the handler is given: the headers, the target, the part of it before the query, and the body. */
  datatype Got = Got(rawUrl: seq<Byte>, url: seq<Byte>, headers: seq<Pair>, body: seq<Byte>)

  /** `to_request`. */
  function ToRequest(q: Request): Got { Got(q.rawUrl, q.url, q.headers, q.body) }

  /** The request that a message stands for, up to its headers. */
  function RequestOf(r: Message, headers: seq<Pair>): Got {
    Got(r.start.target, UpTo(r.start.target, '?'), headers, PayloadBytes(r.payload))
  }

  /** The headers a message ends up with. */
  function HeadersOf(r: Message): seq<Pair> { Kept(Pairs(r.headers)) + Added(Pairs(Trailers(r.payload))) }

  lemma TrailersHandled(a: Request, ts: seq<Pair>)
    requires a.value == []
    ensures var b := Building(a, ts);
            b.rawUrl == a.rawUrl && b.body == a.body && b.headers == a.headers + Added(ts)
  {
    if ts == [] {
      assert a.headers + [] == a.headers;
    } else {
      assert a.headers + [] + NonEmpty(ts[..|ts| - 1]) == a.headers + Added(ts);
    }
  }

  /** The callbacks of a written request build its target, body and headers, of which some are lost. */
  lemma RequestHandled(tr: Trace, r: Message)
    requires Named(r.headers)
    ensures ToRequest(HandleAll(EMPTY, RequestTrace(tr, r))) == RequestOf(r, HeadersOf(r))
  {
    hide Add;
    hide HandleAll;
    hide Kept;
    hide Added;
    hide Building;
    HeadHandled(tr, r);
    var tr1, body := HeadTrace(tr, r), PayloadBytes(r.payload);
    HandleAdded(EMPTY, tr1, Data(BodyData, body));
    assert [] + body == body;
    var tr2 := WithBody(tr1, body);
    var q := HandleAll(EMPTY, tr2);
    assert q == EMPTY.(rawUrl := r.start.target, headers := Kept(Pairs(r.headers)), body := body);
    HeadersHandled(EMPTY, tr2, Trailers(r.payload));
    TrailersHandled(q, Pairs(Trailers(r.payload)));
    HandleAdded(EMPTY, WithHeaders(tr2, Trailers(r.payload)), Note(MessageComplete));
  }

  lemma GoodAreNamed(hs: seq<Header>)
    requires AllGood(hs)
    ensures Named(hs)
  {
    hide IsPad;
  }

  /**
   * The round trip: a request written out, fed to the parser and collected by the callbacks is the request itself
   * if and only if it has no trailers and no header before the last one has an empty value. The headers that have one
   * are lost, and so are the last trailer and those with an empty value.
   */
  lemma RequestRoundTrip(p: Parser, tr: Trace, r: Message)
    requires p.errno == OK && Inv(p, 0) && p.state == StartReq && WellFormed(p.nread, r)
    ensures GoodVersion(r.start.version) && AllGood(r.headers) && AllGood(Trailers(r.payload))
    ensures var f := Feed(p, tr, WrittenOut(r));
            var got := ToRequest(HandleAll(EMPTY, f.tr));
            && Finished(f.p, r) && got == RequestOf(r, HeadersOf(r))
            && (got == RequestOf(r, Pairs(r.headers) + Pairs(Trailers(r.payload))) <==>
                  Trailers(r.payload) == [] && forall i :: 0 <= i < |r.headers| - 1 ==> r.headers[i].value != [])
  {
    RequestParses(p, tr, r);
    GoodAreNamed(r.headers);
    ValuesOf(r.headers);
    hide Feed;
    hide HandleAll;
    hide WellFormed;
    hide AllGood;
    hide Inv;
    hide RequestTrace;
    hide WrittenOut;
    hide Kept;
    hide Added;
    RequestHandled(tr, r);
    AllComeBack(Pairs(r.headers), Pairs(Trailers(r.payload)));
  }

  lemma ValuesOf(hs: seq<Header>)
    requires AllGood(hs)
    ensures forall i :: 0 <= i < |hs| ==> (WholeValue(hs[i]) == [] <==> hs[i].value == [])
  {
    hide IsPad;
    hide IsName;
    forall i | 0 <= i < |hs| ensures WholeValue(hs[i]) == [] <==> hs[i].value == [] {
      assert GoodHeader(hs[i]);
    }
  }

  // ----- a header that is lost -----

  const A_THEN_B: seq<Header> := [Header(['A'], [], [], []), Header(['B'], [' '], ['x'], [])]

  const GET_ROOT := Start(GET, ['/'], Version(['1'], ['1']))

  const LOSING := Message(GET_ROOT, A_THEN_B, Bytes([]))

  lemma LosingText()
    ensures Head(LOSING) == "GET / HTTP/1.1\r\nA:\r\nB: x\r\n\r\n"
  {
    var a, b := A_THEN_B[0], A_THEN_B[1];
    assert Line(a) == "A:\r\n";
    assert Line(b) == "B: x\r\n";
    assert A_THEN_B[1..] == [b] && [b][1..] == [];
    assert Lines([b]) == Line(b) + Lines([]);
    assert Lines(A_THEN_B) == Line(a) + Lines([b]);
    assert Lines(A_THEN_B) == "A:\r\nB: x\r\n";
    assert StartText(GET_ROOT) == "GET / HTTP/1.1\r\n";
  }

  lemma OneLetterName(c: Byte)
    requires c == 'A' || c == 'B'
    ensures IsName([c]) && Lowered([c]) == [Token(c)] && |Lowered([c])| == 1
  {
    assert [c][1..] == [];
    assert Lowered([]) == [];
  }

  lemma LosingHeaders()
    ensures AllGood(A_THEN_B)
    ensures forall m :: LearnedAll(m, A_THEN_B) == m
  {
    OneLetterName('A');
    OneLetterName('B');
    hide Lowered;
    hide IsName;
    hide Token;
    var a, b := A_THEN_B[0], A_THEN_B[1];
    assert IsPad([' ']) by { assert [' '][1..] == []; }
    assert GoodHeader(a) && GoodHeader(b);
    assert A_THEN_B[1..] == [b] && [b][1..] == [];
    forall m ensures LearnedAll(m, A_THEN_B) == m {
      assert Learned(m, a) == m && Learned(m, b) == m;
      assert LearnedAll(m, [b]) == LearnedAll(Learned(m, b), []) == m;
    }
  }

  lemma GetRootIsGood()
    ensures GoodStart(GET_ROOT)
  {
    assert DecValue(0, ['1']) == DecValue(1, []) == 1 by { assert ['1'][1..] == []; }
  }

  lemma LosingIsGood()
    ensures WellFormed(0, LOSING) && Inv(NEW_PARSER, 0)
  {
    LosingText();
    LosingHeaders();
    GetRootIsGood();
    hide LearnedAll;
    hide AllGood;
    hide Head;
    hide GoodStart;
  }

  lemma LosingKeeps(ps: seq<Pair>)
    requires |ps| == 2 && ps[0].1 == []
    ensures Kept(ps) == [ps[1]]
  {
    assert ps[..1] == [ps[0]] && |ps[..1]| == 1;
    assert NonEmpty(ps[..1]) == NonEmpty(ps[..1][..0]);
  }

  /** `A:` followed by `B: x` comes out as `B: x` alone. */
  lemma HeaderLost()
    ensures Head(LOSING) == "GET / HTTP/1.1\r\nA:\r\nB: x\r\n\r\n" && WellFormed(0, LOSING) && Inv(NEW_PARSER, 0)
    ensures ToRequest(HandleAll(EMPTY, Feed(NEW_PARSER, [], WrittenOut(LOSING)).tr)).headers == [(['B'], ['x'])]
  {
    hide Feed;
    hide HandleAll;
    LosingText();
    LosingIsGood();
    RequestRoundTrip(NEW_PARSER, [], LOSING);
    LosingKeeps(Pairs(A_THEN_B));
    assert ['x'] + [] == ['x'];
  }
}
