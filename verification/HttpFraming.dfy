/** Lengths written in the headers and in chunk sizes, and the body bytes delivered for them. */
module HttpFraming {
  import opened Common
  import opened HttpModel
  import opened HttpBytes
  import opened HttpTrace
  import opened HttpMachine
  import opened HttpLengths

  function HexDigit(c: Byte): (v: nat)
    requires IsHex(c)
    ensures v < 16 && Unhex(c) == Some(v)
  {
    if IsNum(c) then c as int - '0' as int
    else if 'A' <= c <= 'F' then c as int - 'A' as int + 10
    else c as int - 'a' as int + 10
  }

  /** The number written by hexadecimal digits after a number already read. */
  function HexValue(v: nat, ds: seq<Byte>): nat
    requires forall i :: 0 <= i < |ds| ==> IsHex(ds[i])
    decreases |ds|
  {
    if ds == [] then v else HexValue(v * 16 + HexDigit(ds[0]), ds[1..])
  }

  lemma {:induction false} HexGrows(v: nat, ds: seq<Byte>)
    requires forall i :: 0 <= i < |ds| ==> IsHex(ds[i])
    ensures v <= HexValue(v, ds) && (ds != [] ==> 16 * v <= HexValue(v, ds))
    decreases |ds|
  {
    if ds != [] { HexGrows(v * 16 + HexDigit(ds[0]), ds[1..]); }
  }

  /** A byte of the chunk framing is one pass without marks. */
  lemma ChunkByte(p: Parser, tr: Trace, c: Byte)
    requires p.errno == OK && Inv(p, 0)
    requires p.state == ChunkSizeStart || p.state == ChunkSize || p.state == ChunkSizeAlmostDone
             || p.state == ChunkDataAlmostDone || p.state == ChunkDataDone
    requires ParsingHeader(p.state) ==> p.nread < MAX_HEADER_SIZE
    ensures var t := ChunkTurn(Counted(p), c); OneByte(p, tr, c) == Run(t.p, tr, t.next)
  {
    hide Inv;
    hide ChunkTurn;
    CountedInv(p);
    ChunkShape(Counted(p), c);
    ChunkMoves(Counted(p), c);
  }

  lemma ChunkMoves(p: Parser, c: Byte)
    requires p.state == ChunkSizeStart || p.state == ChunkSize || p.state == ChunkSizeAlmostDone
             || p.state == ChunkDataAlmostDone || p.state == ChunkDataDone
    ensures var t := ChunkTurn(p, c);
            (t.next == Break || t.next == Fail) && t.mark == None && t.note == None && (t.next == Break ==> MarkOf(t.p.state) == None)
  {
    hide Unhex;
  }

  /** Largest chunk size and largest Content-Length that pass the overflow tests. */
  const MAX_SIZE: nat := (NO_LENGTH - 16) / 16 * 16 + 15
  const MAX_LENGTH: nat := (NO_LENGTH - 10) / 10 * 10 + 9

  /** Further digits of a chunk size accumulate exactly the number they write, or are refused if it is too large. */
  lemma {:induction false} SizeDigits(p: Parser, tr: Trace, ds: seq<Byte>)
    requires p.errno == OK && Inv(p, 0) && p.state == ChunkSize && p.nread + |ds| <= MAX_HEADER_SIZE
    requires p.length <= MAX_SIZE && forall i :: 0 <= i < |ds| ==> IsHex(ds[i])
    ensures var f := Feed(p, tr, ds);
            if HexValue(p.length, ds) <= MAX_SIZE
            then f == Fed(p.(length := HexValue(p.length, ds), nread := p.nread + |ds|), tr)
            else f.p.errno != OK
    decreases |ds|
  {
    hide Inv;
    hide OneByte;
    hide Unhex;
    if ds != [] {
      var c := ds[0];
      HexGrows(p.length, ds);
      HexGrows(p.length * 16 + HexDigit(c), ds[1..]);
      ChunkByte(p, tr, c);
      OneByteInv(p, tr, c);
      var r := OneByte(p, tr, c);
      if r.p.errno == OK { SizeDigits(r.p, tr, ds[1..]); } else { FedStops(r.p, r.tr, ds[1..]); }
    }
  }

  /** What may stand between a chunk's size and the end of its line. */
  predicate IsParameters(w: seq<Byte>) {
    '\r' !in w && (w != [] ==> w[0] == ';' || w[0] == ' ')
  }

  lemma ParameterTurns(p: Parser, c: Byte)
    ensures p.state == ChunkSize && (c == ';' || c == ' ') ==> Switch(p, c) == Take(p, ChunkParameters)
    ensures p.state == ChunkParameters && c != '\r' ==> Switch(p, c) == Take(p, ChunkParameters)
  {}

  lemma ParameterByte(p: Parser, tr: Trace, c: Byte)
    requires p.errno == OK && Inv(p, 0) && p.nread < MAX_HEADER_SIZE
    requires (p.state == ChunkSize && (c == ';' || c == ' ')) || (p.state == ChunkParameters && c != '\r')
    ensures var q := p.(state := ChunkParameters, nread := p.nread + 1); OneByte(p, tr, c) == Run(q, tr, Break)
  {
    hide Inv;
    hide Switch;
    hide OneByte;
    ParameterTurns(p.(nread := p.nread + 1), c);
    QuietByte(p, tr, c, p.(state := ChunkParameters, nread := p.nread + 1));
  }

  lemma {:induction false} ParameterBytes(p: Parser, tr: Trace, w: seq<Byte>)
    requires p.errno == OK && Inv(p, 0) && p.nread + |w| <= MAX_HEADER_SIZE
    requires (p.state == ChunkSize && IsParameters(w)) || (p.state == ChunkParameters && '\r' !in w)
    ensures Feed(p, tr, w) == Fed(p.(state := if w == [] then p.state else ChunkParameters, nread := p.nread + |w|), tr)
    decreases |w|
  {
    hide Inv;
    hide OneByte;
    hide Feed;
    if w == [] {
      FedOnly(p, tr);
    } else {
      assert w == [w[0]] + w[1..];
      ParameterByte(p, tr, w[0]);
      FeedOneMore(p, tr, w[0], w[1..]);
      ParameterBytes(p.(state := ChunkParameters, nread := p.nread + 1), tr, w[1..]);
    }
  }

  /** A whole size line from the start of a chunk. */
  lemma SizeLine(p: Parser, tr: Trace, ds: seq<Byte>, w: seq<Byte>)
    requires p.errno == OK && Inv(p, 0) && p.state == ChunkSizeStart && ds != [] && |ds| + |w| <= MAX_HEADER_SIZE - 2
    requires (forall i :: 0 <= i < |ds| ==> IsHex(ds[i])) && IsParameters(w)
    ensures var n := HexValue(0, ds);
            var q := p.(length := n, nread := 0);
            var f := Feed(p, tr, ds + (w + ['\r', '\n']));
            if n <= MAX_SIZE
            then f == Fed(if n == 0 then q.(flags := q.flags.(trailing := true), state := FieldStart) else q.(state := ChunkData), tr)
            else f.p.errno != OK
  {
    hide OneByte;
    hide Unhex;
    hide Feed;
    hide Inv;
    hide IsParameters;
    var c := ds[0];
    SizeFirst(p, tr, c);
    FeedOneMore(p, tr, c, ds[1..]);
    assert [c] + ds[1..] == ds;
    var p1 := p.(length := HexDigit(c), nread := 1, state := ChunkSize);
    SizeDigits(p1, tr, ds[1..]);
    FeedSplit(p, tr, ds, w + ['\r', '\n']);
    var f := Feed(p, tr, ds);
    if f.p.errno == OK {
      FeedSplit(f.p, tr, w, ['\r', '\n']);
      ParameterBytes(f.p, tr, w);
      SizeLineEnd(Feed(f.p, tr, w).p, tr);
    } else {
      FedStops(f.p, f.tr, w + ['\r', '\n']);
    }
  }

  lemma SizeFirst(p: Parser, tr: Trace, c: Byte)
    requires p.errno == OK && Inv(p, 0) && p.state == ChunkSizeStart && IsHex(c)
    ensures OneByte(p, tr, c) == Run(p.(length := HexDigit(c), nread := 1, state := ChunkSize), tr, Break)
  {
    hide OneByte;
    hide Unhex;
    NoneRead(p);
    hide Inv;
    ChunkByte(p, tr, c);
  }

  lemma NoneRead(p: Parser)
    requires Inv(p, 0) && p.state == ChunkSizeStart
    ensures p.nread == 0
  {}

  lemma FramingTurns(p: Parser)
    ensures p.state == ChunkSize || p.state == ChunkParameters ==> Switch(p, '\r') == Take(p, ChunkSizeAlmostDone)
    ensures p.state == ChunkSizeAlmostDone ==>
              Switch(p, '\n') == (var q := p.(nread := 0);
                                  if q.length == 0 then Take(q.(flags := q.flags.(trailing := true)), FieldStart) else Take(q, ChunkData))
    ensures p.state == ChunkDataAlmostDone ==> Switch(p, '\r') == Turn(p.(state := ChunkDataDone), None, Some(BodyData), None, Break)
    ensures p.state == ChunkDataDone ==> Switch(p, '\n') == Take(p.(nread := 0), ChunkSizeStart)
  {
    hide Unhex;
  }

  lemma SizeLineEnd(p: Parser, tr: Trace)
    requires p.errno == OK && Inv(p, 0) && (p.state == ChunkSize || p.state == ChunkParameters) && p.nread + 2 <= MAX_HEADER_SIZE
    ensures var q := p.(nread := 0);
            Feed(p, tr, ['\r', '\n'])
            == Fed(if q.length == 0 then q.(flags := q.flags.(trailing := true), state := FieldStart) else q.(state := ChunkData), tr)
  {
    hide OneByte;
    hide Feed;
    hide Inv;
    hide Switch;
    var p1 := p.(state := ChunkSizeAlmostDone, nread := p.nread + 1);
    FramingTurns(p.(nread := p.nread + 1));
    QuietByte(p, tr, '\r', p1);
    FeedOneMore(p, tr, '\r', ['\n']);
    assert ['\r'] + ['\n'] == ['\r', '\n'];
    FramingTurns(p1.(nread := p1.nread + 1));
    var p2 := Switch(p1.(nread := p1.nread + 1), '\n').p;
    QuietByte(p1, tr, '\n', p2);
    FeedOneMore(p1, tr, '\n', []);
    assert ['\n'] + [] == ['\n'];
    FedOnly(p2, tr);
  }

  /** A byte outside the headers that one pass takes. */
  lemma UncountedByte(p: Parser, tr: Trace, c: Byte)
    requires p.errno == OK && Inv(p, 0) && !TakesBody(p.state) && !ParsingHeader(p.state) && Switch(p, c).next == Break
    requires Switch(p, c).mark == None && Switch(p, c).note == None && MarkOf(Switch(p, c).p.state) == None
    ensures OneByte(p, tr, c) == Run(Switch(p, c).p, tr, Break)
  {
    hide Inv;
    hide Switch;
    hide Passes;
    PassBreak(p, tr, c);
  }

  lemma DataEnd(p: Parser, tr: Trace)
    requires p.errno == OK && Inv(p, 0) && p.state == ChunkDataAlmostDone
    ensures Feed(p, tr, ['\r', '\n']) == Fed(p.(state := ChunkSizeStart, nread := 0), tr)
  {
    hide OneByte;
    hide Feed;
    hide Inv;
    hide Switch;
    FramingTurns(p);
    var p1 := p.(state := ChunkDataDone);
    UncountedByte(p, tr, '\r');
    FeedOneMore(p, tr, '\r', ['\n']);
    assert ['\r'] + ['\n'] == ['\r', '\n'];
    FramingTurns(p1);
    UncountedByte(p1, tr, '\n');
    FeedOneMore(p1, tr, '\n', []);
    assert ['\n'] + [] == ['\n'];
    FedOnly(p1.(state := ChunkSizeStart, nread := 0), tr);
  }

  /** A chunk as written: its size in hexadecimal, parameters, and its bytes. */
  datatype Chunk = Chunk(size: seq<Byte>, parameters: seq<Byte>, bytes: seq<Byte>)

  ghost predicate WellSized(c: Chunk) {
    && c.size != [] && |c.size| + |c.parameters| <= MAX_HEADER_SIZE - 2
    && (forall i :: 0 <= i < |c.size| ==> IsHex(c.size[i])) && IsParameters(c.parameters)
    && HexValue(0, c.size) == |c.bytes| && |c.bytes| <= MAX_SIZE
  }

  function WrittenSize(c: Chunk): seq<Byte> { c.size + (c.parameters + ['\r', '\n']) }

  function Written(c: Chunk): seq<Byte> { WrittenSize(c) + c.bytes + ['\r', '\n'] }

  /** One non-empty chunk delivers exactly its bytes and leaves the parser at the start of the next. */
  lemma OneChunk(p: Parser, tr: Trace, c: Chunk)
    requires p.errno == OK && Inv(p, 0) && p.state == ChunkSizeStart && WellSized(c) && c.bytes != []
    ensures Feed(p, tr, Written(c)) == Fed(p.(length := 0), Add(tr, Data(BodyData, c.bytes)))
  {
    hide Feed;
    hide Add;
    hide Unhex;
    hide IsParameters;
    var n := |c.bytes|;
    SizeLine(p, tr, c.size, c.parameters);
    var p1 := p.(length := n, nread := 0, state := ChunkData);
    FeedBody(p1, tr, c.bytes);
    var tr1 := Add(tr, Data(BodyData, c.bytes));
    var p2 := p1.(length := 0, state := ChunkDataAlmostDone);
    DataEnd(p2, tr1);
    FeedSplit(p, tr, WrittenSize(c), c.bytes);
    FeedSplit(p, tr, WrittenSize(c) + c.bytes, ['\r', '\n']);
  }

  function AllWritten(cs: seq<Chunk>): seq<Byte> {
    if cs == [] then [] else Written(cs[0]) + AllWritten(cs[1..])
  }

  function AllBytes(cs: seq<Chunk>): seq<Byte> {
    if cs == [] then [] else cs[0].bytes + AllBytes(cs[1..])
  }

  lemma {:induction false} ManyChunks(p: Parser, tr: Trace, cs: seq<Chunk>)
    requires p.errno == OK && Inv(p, 0) && p.state == ChunkSizeStart && cs != []
    requires forall i :: 0 <= i < |cs| ==> WellSized(cs[i]) && cs[i].bytes != []
    ensures Feed(p, tr, AllWritten(cs)) == Fed(p.(length := 0), Add(tr, Data(BodyData, AllBytes(cs))))
    decreases |cs|
  {
    hide Feed;
    hide Add;
    hide WellSized;
    hide Written;
    OneChunk(p, tr, cs[0]);
    var p1, tr1 := p.(length := 0), Add(tr, Data(BodyData, cs[0].bytes));
    FeedSplit(p, tr, Written(cs[0]), AllWritten(cs[1..]));
    if |cs| == 1 {
      assert AllWritten(cs[1..]) == [] && cs[0].bytes + AllBytes(cs[1..]) == cs[0].bytes;
      FedOnly(p1, tr1);
    } else {
      ManyChunks(p1, tr1, cs[1..]);
      AddTwice(tr, BodyData, cs[0].bytes, AllBytes(cs[1..]));
    }
  }

  /** The trace with a body, if there is one. */
  function WithBody(tr: Trace, bytes: seq<Byte>): Trace { if bytes == [] then tr else Add(tr, Data(BodyData, bytes)) }

  lemma SomeBytes(cs: seq<Chunk>)
    requires cs != [] && cs[0].bytes != []
    ensures AllBytes(cs) != []
  {}

  /** The parser behind the size line of the last chunk. */
  function InTrailer(p: Parser): Parser { p.(length := 0, nread := 0, flags := p.flags.(trailing := true), state := FieldStart) }

  lemma LastChunk(p: Parser, tr: Trace, last: Chunk)
    requires p.errno == OK && Inv(p, 0) && p.state == ChunkSizeStart && WellSized(last) && last.bytes == []
    ensures Inv(InTrailer(p), 0) && Feed(p, tr, WrittenSize(last)) == Fed(InTrailer(p), tr)
  {
    hide Feed;
    hide Unhex;
    hide IsParameters;
    FeedSplit(p, tr, WrittenSize(last), []);
    SizeLine(p, tr, last.size, last.parameters);
  }

  /** A chunked body: its chunks and a chunk of size zero deliver the chunks' bytes joined and start the trailers. */
  lemma ChunkedBody(p: Parser, tr: Trace, cs: seq<Chunk>, last: Chunk)
    requires p.errno == OK && Inv(p, 0) && p.state == ChunkSizeStart
    requires forall i :: 0 <= i < |cs| ==> WellSized(cs[i]) && cs[i].bytes != []
    requires WellSized(last) && last.bytes == []
    ensures Inv(InTrailer(p), 0)
    ensures Feed(p, tr, AllWritten(cs) + WrittenSize(last)) == Fed(InTrailer(p), WithBody(tr, AllBytes(cs)))
  {
    hide Feed;
    hide Add;
    hide Inv;
    hide WellSized;
    hide WrittenSize;
    FeedSplit(p, tr, AllWritten(cs), WrittenSize(last));
    if cs == [] {
      FedOnly(p, tr);
      LastChunk(p, tr, last);
    } else {
      SomeBytes(cs);
      ManyChunks(p, tr, cs);
      LastChunk(p.(length := 0), WithBody(tr, AllBytes(cs)), last);
    }
  }

  // ----- Content-Length -----

  /** A Content-Length's text may hold blanks among its digits; they are read over. */
  predicate IsLength(ds: seq<Byte>) { forall i :: 0 <= i < |ds| ==> IsNum(ds[i]) || ds[i] == ' ' }

  /** The number written by decimal digits after a number already read. */
  function DecValue(v: nat, ds: seq<Byte>): nat
    requires IsLength(ds)
    decreases |ds|
  {
    if ds == [] then v else DecValue(if IsNum(ds[0]) then v * 10 + Digit(ds[0]) else v, ds[1..])
  }

  lemma {:induction false} DecGrows(v: nat, ds: seq<Byte>)
    requires IsLength(ds)
    ensures v <= DecValue(v, ds)
    decreases |ds|
  {
    if ds != [] { DecGrows(if IsNum(ds[0]) then v * 10 + Digit(ds[0]) else v, ds[1..]); }
  }

  lemma LengthTurn(p: Parser, c: Byte)
    requires p.state == Value && p.hstate == ContentLength && c != '\r' && c != '\n'
    ensures Switch(p, c) ==
            if c == ' ' then Take(p, Value)
            else if IsNum(c) && p.length <= (NO_LENGTH - 10) / 10 then Take(p.(length := p.length * 10 + Digit(c)), Value)
            else Error(p, INVALID_CONTENT_LENGTH)
  {
    hide Lower;
  }

  lemma LengthByte(p: Parser, tr: Trace, c: Byte)
    requires p.errno == OK && Inv(p, 0) && p.state == Value && p.hstate == ContentLength && p.nread < MAX_HEADER_SIZE
    requires c != '\r' && c != '\n'
    ensures var r := OneByte(p, tr, c);
            var n := if IsNum(c) then p.length * 10 + Digit(c) else p.length;
            if c == ' ' || (IsNum(c) && p.length <= (NO_LENGTH - 10) / 10)
            then r == Run(p.(length := n, nread := p.nread + 1), Add(tr, Data(ValueData, [c])), Break)
            else r.p.errno != OK
  {
    hide Inv;
    hide Add;
    hide Switch;
    LengthTurn(p.(nread := p.nread + 1), c);
  }

  /** Further text of a Content-Length: taken if and only if it is digits and blanks and its number is not too large. */
  lemma {:induction false} LengthDigits(p: Parser, tr: Trace, ds: seq<Byte>)
    requires p.errno == OK && Inv(p, 0) && p.state == Value && p.hstate == ContentLength && p.length <= MAX_LENGTH
    requires ds != [] && p.nread + |ds| <= MAX_HEADER_SIZE && forall i :: 0 <= i < |ds| ==> ds[i] != '\r' && ds[i] != '\n'
    ensures var f := Feed(p, tr, ds);
            if IsLength(ds) && DecValue(p.length, ds) <= MAX_LENGTH
            then f == Fed(p.(length := DecValue(p.length, ds), nread := p.nread + |ds|), Add(tr, Data(ValueData, ds)))
            else f.p.errno != OK
    decreases |ds|
  {
    hide Inv;
    hide OneByte;
    hide Add;
    hide Feed;
    var c, rest := ds[0], ds[1..];
    assert ds == [c] + rest;
    LengthSplits(ds);
    if IsLength(ds) && IsNum(c) { DecGrows(p.length * 10 + Digit(c), rest); }
    LengthByte(p, tr, c);
    FeedOneMore(p, tr, c, rest);
    var r := OneByte(p, tr, c);
    if r.p.errno != OK {
      FedStops(r.p, r.tr, rest);
    } else if rest == [] {
      assert ds == [c];
      FedOnly(r.p, r.tr);
    } else {
      LengthDigits(r.p, r.tr, rest);
      AddTwice(tr, ValueData, [c], rest);
    }
  }

  lemma LengthSplits(ds: seq<Byte>)
    requires ds != []
    ensures IsLength(ds) <==> (IsNum(ds[0]) || ds[0] == ' ') && IsLength(ds[1..])
  {
    assert ds == [ds[0]] + ds[1..];
  }

  /** A body announced by its length: exactly that many bytes are delivered, then the end of the message. */
  lemma IdentityBody(p: Parser, tr: Trace, bytes: seq<Byte>)
    requires p.errno == OK && Inv(p, 0) && p.state == BodyIdentity && |bytes| == p.length
    ensures Feed(p, tr, bytes)
            == Fed(p.(length := 0, state := NewMessage(p)), Add(Add(tr, Data(BodyData, bytes)), Note(MessageComplete)))
  {
    hide Add;
    FeedBody(p, tr, bytes);
  }

  // ----- the same numbers, read from their last digit -----

  lemma {:induction false} DecValueSnoc(v: nat, ds: seq<Byte>, c: Byte)
    requires (forall i :: 0 <= i < |ds| ==> IsNum(ds[i])) && IsNum(c)
    ensures DecValue(v, ds + [c]) == DecValue(v, ds) * 10 + Digit(c)
    decreases |ds|
  {
    if ds == [] {
      assert ds + [c] == [c] && [c][1..] == [];
    } else {
      DecValueSnoc(v * 10 + Digit(ds[0]), ds[1..], c);
      assert (ds + [c])[1..] == ds[1..] + [c];
    }
  }

  lemma {:induction false} HexValueSnoc(v: nat, ds: seq<Byte>, c: Byte)
    requires (forall i :: 0 <= i < |ds| ==> IsHex(ds[i])) && IsHex(c)
    ensures HexValue(v, ds + [c]) == HexValue(v, ds) * 16 + HexDigit(c)
    decreases |ds|
  {
    hide Unhex;
    if ds == [] {
      assert ds + [c] == [c] && [c][1..] == [];
    } else {
      HexValueSnoc(v * 16 + HexDigit(ds[0]), ds[1..], c);
      assert (ds + [c])[1..] == ds[1..] + [c];
    }
  }

  /** The numbers announced in a run are the values of their digits. */
  lemma {:induction false} DecimalIsDecValue(ds: seq<Byte>)
    requires forall i :: 0 <= i < |ds| ==> IsNum(ds[i])
    ensures DecimalOf(ds) == DecValue(0, ds)
  {
    if ds != [] {
      var n := |ds| - 1;
      DecimalIsDecValue(ds[..n]);
      DecValueSnoc(0, ds[..n], ds[n]);
      assert ds == ds[..n] + [ds[n]];
    }
  }

  lemma {:induction false} HexadecimalIsHexValue(ds: seq<Byte>)
    requires forall i :: 0 <= i < |ds| ==> IsHex(ds[i])
    ensures HexadecimalOf(ds) == HexValue(0, ds)
  {
    hide Unhex;
    if ds != [] {
      var n := |ds| - 1;
      HexadecimalIsHexValue(ds[..n]);
      HexValueSnoc(0, ds[..n], ds[n]);
      assert ds == ds[..n] + [ds[n]];
    }
  }
}
