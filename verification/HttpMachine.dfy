/** The byte-at-a-time machine: the same switch, with every byte's data reported at once. */
module HttpMachine {
  import opened Common
  import opened HttpModel
  import opened HttpBytes
  import opened HttpTrace

  datatype Run = Run(p: Parser, tr: Trace, next: Next)
  datatype Fed = Fed(p: Parser, tr: Trace)

  function Noted(tr: Trace, note: Option<Notice>): Trace {
    if note.Some? then Add(tr, Note(note.value)) else tr
  }

  /** The trace after a pass: an empty header value is reported on the spot, other data byte by byte. */
  function AfterPass(tr: Trace, t: Turn): Trace {
    Noted(if t.mark == Some(ValueData) && t.emit == Some(ValueData) then Add(tr, Data(ValueData, [])) else tr, t.note)
  }

  /** A byte that leaves the parser in a collecting state is part of that data. */
  function WithByte(tr: Trace, s: State, c: Byte): Trace {
    match MarkOf(s) case Some(k) => Add(tr, Data(k, [c])) case None => tr
  }

  /** The passes over one byte. */
  function Passes(p: Parser, tr: Trace, c: Byte): Run
    requires p.errno == OK && !TakesBody(p.state)
    decreases Rank(p.state)
  {
    var t := Switch(p, c);
    SwitchShape(p, c);
    var tr' := AfterPass(tr, t);
    match t.next
    case Again => Passes(t.p, tr', c)
    case Break => Run(t.p, WithByte(tr', t.p.state, c), Break)
    case _ => Run(t.p, tr', t.next)
  }

  /** One body byte; the last one ends the chunk's data or the message. */
  function BodyByte(p: Parser, tr: Trace, c: Byte): Run
    requires TakesBody(p.state) && p.length > 0
  {
    var q := p.(length := p.length - 1);
    var tr' := Add(tr, Data(BodyData, [c]));
    if q.length > 0 then Run(q, tr', Break)
    else if q.state == ChunkData then Run(q.(state := ChunkDataAlmostDone), tr', Break)
    else Run(q.(state := NewMessage(q)), Add(tr', Note(MessageComplete)), Break)
  }

  function OneByte(p: Parser, tr: Trace, c: Byte): Run
    requires p.errno == OK && Inv(p, 0)
  {
    var q := Counted(p);
    if q.errno != OK then Run(q, tr, Fail)
    else if TakesBody(q.state) then BodyByte(q, tr, c)
    else Passes(q, tr, c)
  }

  lemma CountedInv(p: Parser)
    requires p.errno == OK && Inv(p, 0)
    ensures var q := Counted(p); q.state == p.state && (q.errno == OK ==> Inv(q, 1))
    ensures TakesBody(p.state) ==> Counted(p) == p
  {
    hide Name;
    hide FieldLegal;
    hide ValueLegal;
  }

  lemma {:induction false} PassesInv(p: Parser, tr: Trace, c: Byte)
    requires p.errno == OK && Inv(p, 1) && !TakesBody(p.state)
    ensures var r := Passes(p, tr, c);
            && (r.p.errno == OK <==> r.next != Fail) && r.next != Again
            && (r.p.errno == OK ==> Inv(r.p, 0))
            && (r.p.errno == OK && MarkOf(r.p.state).Some? ==> EndsWith(r.tr, MarkOf(r.p.state).value))
    decreases Rank(p.state)
  {
    hide Switch;
    hide Inv;
    hide Add;
    SwitchShape(p, c);
    SwitchKeepsInv(p, c);
    var t := Switch(p, c);
    if t.next == Again {
      PassesInv(t.p, AfterPass(tr, t), c);
    } else if t.next == Break && MarkOf(t.p.state).Some? {
      AddTwice(AfterPass(tr, t), MarkOf(t.p.state).value, [c], []);
    }
  }

  lemma BodyHasLength(p: Parser)
    requires Inv(p, 0) && TakesBody(p.state)
    ensures 0 < p.length
  {}

  lemma BodyByteInv(p: Parser, tr: Trace, c: Byte)
    requires p.errno == OK && TakesBody(p.state) && Inv(p, 0)
    ensures var r := BodyByte(p, tr, c); r.p.errno == OK && Inv(r.p, 0) && MarkOf(r.p.state) == None && r.next == Break
  {
    hide Name;
    hide FieldLegal;
    hide ValueLegal;
    hide Add;
  }

  /** After every byte the invariant holds again, and a collecting state has its data last in the trace. */
  lemma OneByteInv(p: Parser, tr: Trace, c: Byte)
    requires p.errno == OK && Inv(p, 0)
    ensures var r := OneByte(p, tr, c);
            && (r.p.errno == OK <==> r.next != Fail) && r.next != Again
            && (r.p.errno == OK ==> Inv(r.p, 0))
            && (r.p.errno == OK && MarkOf(r.p.state).Some? ==> EndsWith(r.tr, MarkOf(r.p.state).value))
  {
    hide Passes;
    hide BodyByte;
    hide Inv;
    hide Counted;
    CountedInv(p);
    var q := Counted(p);
    if q.errno == OK {
      if TakesBody(q.state) { BodyByteInv(q, tr, c); } else { PassesInv(q, tr, c); }
    } else {
      CountedFails(p);
    }
  }

  lemma CountedFails(p: Parser)
    ensures p.errno == OK && Counted(p).errno != OK ==> Counted(p).errno == HEADER_OVERFLOW
  {}

  /** Feeds bytes one by one until they run out or an error stops the parser. */
  function Feed(p: Parser, tr: Trace, data: seq<Byte>): Fed
    requires p.errno == OK ==> Inv(p, 0)
    decreases |data|
  {
    if data == [] || p.errno != OK then Fed(p, tr) else
      var r := OneByte(p, tr, data[0]);
      OneByteInv(p, tr, data[0]);
      Feed(r.p, r.tr, data[1..])
  }

  /** A header byte that one pass takes. */
  lemma HeadByte(p: Parser, tr: Trace, c: Byte)
    requires p.errno == OK && Inv(p, 0) && ParsingHeader(p.state) && p.nread < MAX_HEADER_SIZE
    requires Switch(p.(nread := p.nread + 1), c).next == Break
    ensures var t := Switch(p.(nread := p.nread + 1), c);
            OneByte(p, tr, c) == Run(t.p, WithByte(AfterPass(tr, t), t.p.state, c), Break)
  {
    hide Switch;
    hide Inv;
    hide Add;
  }

  /** A header byte that is part of no data and makes no callback. */
  lemma QuietByte(p: Parser, tr: Trace, c: Byte, p': Parser)
    requires p.errno == OK && Inv(p, 0) && ParsingHeader(p.state) && p.nread < MAX_HEADER_SIZE
    requires var t := Switch(p.(nread := p.nread + 1), c);
             t.p == p' && t.next == Break && t.mark == None && t.note == None && MarkOf(p'.state) == None
    ensures OneByte(p, tr, c) == Run(p', tr, Break)
  {
    hide Switch;
    hide Inv;
    hide Add;
    HeadByte(p, tr, c);
  }

  lemma CountedByte(p: Parser, tr: Trace, c: Byte)
    requires p.errno == OK && Inv(p, 0) && !TakesBody(p.state) && ParsingHeader(p.state) && p.nread < MAX_HEADER_SIZE
    ensures OneByte(p, tr, c) == Passes(p.(nread := p.nread + 1), tr, c)
  {
    hide Inv;
    hide Passes;
  }

  lemma PassAgain(p: Parser, tr: Trace, c: Byte)
    requires p.errno == OK && !TakesBody(p.state) && Switch(p, c).next == Again
    ensures var t := Switch(p, c);
            t.p.errno == OK && !TakesBody(t.p.state) && Passes(p, tr, c) == Passes(t.p, AfterPass(tr, t), c)
  {
    hide Switch;
    hide Add;
    SwitchShape(p, c);
  }

  lemma PassBreak(p: Parser, tr: Trace, c: Byte)
    requires p.errno == OK && !TakesBody(p.state) && Switch(p, c).next == Break
    ensures var t := Switch(p, c); Passes(p, tr, c) == Run(t.p, WithByte(AfterPass(tr, t), t.p.state, c), Break)
  {
    hide Switch;
    hide Add;
  }

  lemma HeadReturnTurn(p: Parser)
    requires p.state == FieldStart
    ensures Switch(p, '\r') == Take(p, HeadersAlmostDone)
  {}

  /** Feeding one byte and then more. */
  lemma FeedOneMore(p: Parser, tr: Trace, c: Byte, rest: seq<Byte>)
    requires p.errno == OK && Inv(p, 0)
    ensures var r := OneByte(p, tr, c);
            (r.p.errno == OK ==> Inv(r.p, 0)) && Feed(p, tr, [c] + rest) == Feed(r.p, r.tr, rest)
  {
    hide OneByte;
    hide Inv;
    OneByteInv(p, tr, c);
    assert ([c] + rest)[1..] == rest;
  }

  lemma FedOnly(p: Parser, tr: Trace)
    requires p.errno == OK ==> Inv(p, 0)
    ensures Feed(p, tr, []) == Fed(p, tr)
  {}

  lemma FedStops(p: Parser, tr: Trace, data: seq<Byte>)
    requires p.errno != OK
    ensures Feed(p, tr, data) == Fed(p, tr)
  {}

  lemma {:induction false} FeedInv(p: Parser, tr: Trace, data: seq<Byte>)
    requires p.errno == OK ==> Inv(p, 0)
    requires p.errno == OK && MarkOf(p.state).Some? ==> EndsWith(tr, MarkOf(p.state).value)
    ensures var f := Feed(p, tr, data);
            f.p.errno == OK ==> Inv(f.p, 0) && (MarkOf(f.p.state).Some? ==> EndsWith(f.tr, MarkOf(f.p.state).value))
    decreases |data|
  {
    hide OneByte;
    hide Inv;
    if data != [] && p.errno == OK {
      OneByteInv(p, tr, data[0]);
      var r := OneByte(p, tr, data[0]);
      FeedInv(r.p, r.tr, data[1..]);
    }
  }

  /** Feeding in two parts is feeding the whole. */
  lemma {:induction false} FeedSplit(p: Parser, tr: Trace, a: seq<Byte>, b: seq<Byte>)
    requires p.errno == OK ==> Inv(p, 0)
    ensures var f := Feed(p, tr, a); (f.p.errno == OK ==> Inv(f.p, 0)) && Feed(p, tr, a + b) == Feed(f.p, f.tr, b)
    decreases |a|
  {
    hide OneByte;
    hide Inv;
    if p.errno != OK {
    } else if a == [] {
      assert a + b == b;
    } else {
      OneByteInv(p, tr, a[0]);
      var r := OneByte(p, tr, a[0]);
      assert (a + b)[1..] == a[1..] + b;
      FeedSplit(r.p, r.tr, a[1..], b);
    }
  }

  /** Where the byte machine stands after `n` body bytes in a row. */
  function BodyEnd(p: Parser, tr: Trace, bytes: seq<Byte>): Fed
    requires TakesBody(p.state) && |bytes| <= p.length
  {
    var q := p.(length := p.length - |bytes|);
    var tr' := Add(tr, Data(BodyData, bytes));
    if q.length > 0 then Fed(q, tr')
    else if q.state == ChunkData then Fed(q.(state := ChunkDataAlmostDone), tr')
    else Fed(q.(state := NewMessage(q)), Add(tr', Note(MessageComplete)))
  }

  /** The first of several body bytes leaves the rest to end like the whole, and a single one ends it. */
  lemma BodyEndStep(p: Parser, tr: Trace, bytes: seq<Byte>)
    requires TakesBody(p.state) && 0 < |bytes| <= p.length
    ensures var r := BodyByte(p, tr, bytes[0]);
            if |bytes| == 1 then BodyEnd(p, tr, bytes) == Fed(r.p, r.tr)
            else TakesBody(r.p.state) && |bytes| - 1 <= r.p.length && BodyEnd(r.p, r.tr, bytes[1..]) == BodyEnd(p, tr, bytes)
  {
    hide Add;
    if |bytes| > 1 { AddTwice(tr, BodyData, [bytes[0]], bytes[1..]); }
    assert [bytes[0]] + bytes[1..] == bytes;
    assert |bytes| == 1 ==> bytes == [bytes[0]];
  }

  lemma OneBodyByte(p: Parser, tr: Trace, c: Byte)
    requires p.errno == OK && Inv(p, 0) && TakesBody(p.state) && p.length > 0
    ensures OneByte(p, tr, c) == BodyByte(p, tr, c)
  {
    hide BodyByte;
    hide Inv;
    CountedInv(p);
  }

  /** Body bytes up to the announced length are delivered whole and unchanged, and the last one ends the body. */
  lemma {:induction false} FeedBody(p: Parser, tr: Trace, bytes: seq<Byte>)
    requires p.errno == OK && Inv(p, 0) && TakesBody(p.state) && 0 < |bytes| <= p.length
    ensures Feed(p, tr, bytes) == BodyEnd(p, tr, bytes)
    decreases |bytes|
  {
    hide Add;
    hide Inv;
    CountedInv(p);
    BodyByteInv(p, tr, bytes[0]);
    BodyEndStep(p, tr, bytes);
    var r := BodyByte(p, tr, bytes[0]);
    assert Feed(p, tr, bytes) == Feed(r.p, r.tr, bytes[1..]);
    if |bytes| > 1 { FeedBody(r.p, r.tr, bytes[1..]); }
  }

  /** One call takes all of `data`: no error, and no upgrade before the last byte. */
  predicate Smooth(p: Parser, tr: Trace, data: seq<Byte>)
    requires p.errno == OK && Inv(p, 0)
    decreases |data|
  {
    data == [] ||
    var r := OneByte(p, tr, data[0]);
    OneByteInv(p, tr, data[0]);
    r.next != Fail && (r.next == Exit ==> |data| == 1) && Smooth(r.p, r.tr, data[1..])
  }

  lemma {:induction false} SmoothFeeds(p: Parser, tr: Trace, data: seq<Byte>)
    requires p.errno == OK && Inv(p, 0) && Smooth(p, tr, data)
    ensures Feed(p, tr, data).p.errno == OK && Inv(Feed(p, tr, data).p, 0)
    decreases |data|
  {
    hide OneByte;
    hide Inv;
    if data != [] {
      OneByteInv(p, tr, data[0]);
      SmoothFeeds(OneByte(p, tr, data[0]).p, OneByte(p, tr, data[0]).tr, data[1..]);
    }
  }

  /** A smooth run can be cut anywhere into smooth runs. */
  lemma {:induction false} SmoothSplit(p: Parser, tr: Trace, a: seq<Byte>, b: seq<Byte>)
    requires p.errno == OK && Inv(p, 0) && Smooth(p, tr, a + b)
    ensures Smooth(p, tr, a)
    ensures var f := Feed(p, tr, a); f.p.errno == OK && Inv(f.p, 0) && Smooth(f.p, f.tr, b)
    decreases |a|
  {
    hide OneByte;
    hide Inv;
    if a == [] {
      assert a + b == b;
    } else {
      OneByteInv(p, tr, a[0]);
      var r := OneByte(p, tr, a[0]);
      assert (a + b)[1..] == a[1..] + b;
      SmoothSplit(r.p, r.tr, a[1..], b);
    }
  }

  /** Body bytes never stop a run. */
  lemma {:induction false} SmoothBody(p: Parser, tr: Trace, bytes: seq<Byte>, rest: seq<Byte>)
    requires p.errno == OK && Inv(p, 0) && TakesBody(p.state) && 0 < |bytes| <= p.length
    ensures var e := BodyEnd(p, tr, bytes);
            e.p.errno == OK && Inv(e.p, 0) && (Smooth(p, tr, bytes + rest) <==> Smooth(e.p, e.tr, rest))
    decreases |bytes|
  {
    hide BodyByte;
    hide BodyEnd;
    hide OneByte;
    hide Inv;
    OneBodyByte(p, tr, bytes[0]);
    BodyByteInv(p, tr, bytes[0]);
    BodyEndStep(p, tr, bytes);
    var r := BodyByte(p, tr, bytes[0]);
    assert (bytes + rest)[0] == bytes[0] && (bytes + rest)[1..] == bytes[1..] + rest;
    if |bytes| > 1 {
      SmoothBody(r.p, r.tr, bytes[1..], rest);
    } else {
      assert bytes[1..] + rest == rest;
    }
  }
}
