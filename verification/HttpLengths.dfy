/** Over every run, the body bytes delivered are those the written lengths announce. */
module HttpLengths {
  import opened Common
  import opened HttpModel
  import opened HttpBytes

  /** The digits of the number read last: a Content-Length value or a chunk size. */
  type Digits = Option<seq<Byte>>

  /** The decimal number written by the digits; without any, the "no length" value. */
  function Decimal(w: Digits): nat { if w.None? then NO_LENGTH else DecimalOf(w.value) }

  function DecimalOf(ds: seq<Byte>): nat {
    if ds == [] then 0 else DecimalOf(ds[..|ds| - 1]) * 10 + if IsNum(ds[|ds| - 1]) then Digit(ds[|ds| - 1]) else 0
  }

  function HexadecimalOf(ds: seq<Byte>): nat {
    if ds == [] then 0
    else HexadecimalOf(ds[..|ds| - 1]) * 16 + if Unhex(ds[|ds| - 1]).Some? then Unhex(ds[|ds| - 1]).value else 0
  }

  function Hexadecimal(w: Digits): nat { if w.None? then NO_LENGTH else HexadecimalOf(w.value) }

  function Longer(w: Digits, c: Byte): Digits { Some((if w.Some? then w.value else []) + [c]) }

  lemma OneDigit(c: Byte)
    ensures IsNum(c) ==> Decimal(Some([c])) == Digit(c)
    ensures Unhex(c).Some? ==> Hexadecimal(Some([c])) == Unhex(c).value
  {
    assert [c][..0] == [];
    assert DecimalOf([]) == 0 && HexadecimalOf([]) == 0;
  }

  lemma OneMoreDigit(w: Digits, c: Byte)
    requires w.Some?
    ensures IsNum(c) ==> Decimal(Longer(w, c)) == Decimal(w) * 10 + Digit(c)
    ensures Unhex(c).Some? ==> Hexadecimal(Longer(w, c)) == Hexadecimal(w) * 16 + Unhex(c).value
  {
    assert (w.value + [c])[..|w.value|] == w.value;
  }

  /** The digits after a pass over `c`: only the states that read a number write any. */
  function Noticed(p: Parser, c: Byte, w: Digits): Digits {
    match p.state
    case StartReq => None
    case ValueDiscardWs => if p.hstate == ContentLength && IsNum(c) then Some([c]) else w
    case ValueStart => if p.hstate == ContentLength && IsNum(c) then Some([c]) else w
    case Value => if p.hstate == ContentLength && IsNum(c) then Longer(w, c) else w
    case ChunkSizeStart => Some([c])
    case ChunkSize => if c != '\r' && Unhex(c).Some? then Longer(w, c) else w
    case _ => w
  }

  /** Where the parser's length is the Content-Length read so far, and where it is a chunk size. */
  predicate InHead(s: State) {
    match s
    case Dead | StartReq | MessageDone | BodyIdentity => false
    case ChunkSizeStart | ChunkSize | ChunkParameters | ChunkSizeAlmostDone | ChunkData | ChunkDataAlmostDone | ChunkDataDone => false
    case _ => true
  }

  predicate InSize(s: State) { s == ChunkSize || s == ChunkParameters || s == ChunkSizeAlmostDone }

  /** The parser's length is the number the digits write. */
  predicate Agrees(p: Parser, w: Digits) {
    && (InHead(p.state) && !p.flags.trailing ==> p.length == Decimal(w))
    && (InSize(p.state) ==> w.Some? && p.length == Hexadecimal(w))
    && (p.state == HeadersDone ==> !p.flags.trailing)
  }

  /** A body starts with the announced length. */
  predicate Announces(p: Parser, w: Digits) {
    && (p.state == BodyIdentity ==> p.length == Decimal(w))
    && (p.state == ChunkData ==> p.length == Hexadecimal(w))
  }

  ghost predicate KeepsLength(p: Parser, c: Byte, w: Digits, t: Turn) {
    t.next != Fail ==> Agrees(t.p, Noticed(p, c, w)) && Announces(t.p, Noticed(p, c, w))
  }

  lemma MethodLength(p: Parser, c: Byte, w: Digits)
    requires Agrees(p, w) && (p.state == StartReq || p.state == ReqMethod)
    ensures KeepsLength(p, c, w, MethodTurn(p, c))
  {
    hide SwitchMethod;
    hide Name;
    hide DecimalOf;
    hide HexadecimalOf;
  }

  lemma UrlLength(p: Parser, c: Byte, w: Digits)
    requires Agrees(p, w) && (p.state == SpacesBeforeUrl || IsUrlState(p.state))
    ensures KeepsLength(p, c, w, UrlTurn(p, c))
  {
    hide ParseUrlChar;
    hide DecimalOf;
    hide HexadecimalOf;
  }

  lemma LineLength(p: Parser, c: Byte, w: Digits)
    requires Agrees(p, w)
    requires p.state == HttpStart || p.state == HttpH || p.state == HttpHT || p.state == HttpHTT || p.state == HttpHTTP
             || p.state == FirstMajor || p.state == Major || p.state == FirstMinor || p.state == Minor || p.state == LineAlmostDone
    ensures KeepsLength(p, c, w, LineTurn(p, c))
  {
    hide DecimalOf;
    hide HexadecimalOf;
  }

  lemma FieldLength(p: Parser, c: Byte, w: Digits)
    requires Agrees(p, w) && (p.state == FieldStart || p.state == Field)
    ensures KeepsLength(p, c, w, if p.state == FieldStart then FieldStartTurn(p, c) else FieldTurn(p, c))
  {
    hide Token;
    hide DecimalOf;
    hide HexadecimalOf;
  }

  lemma ValueStartLength(p: Parser, c: Byte, w: Digits)
    requires Agrees(p, w) && (p.state == ValueDiscardWs || p.state == ValueStart)
    ensures KeepsLength(p, c, w, ValueTurn(p, c))
  {
    hide Lower;
    hide DecimalOf;
    hide HexadecimalOf;
    OneDigit(c);
  }

  lemma ValueLength(p: Parser, c: Byte, w: Digits)
    requires Agrees(p, w) && p.state == Value && (p.hstate == ContentLength ==> p.length < NO_LENGTH)
    ensures KeepsLength(p, c, w, ValueTurn(p, c))
  {
    hide ValueChar;
    hide Decimal;
    hide Hexadecimal;
    if c != '\r' && c != '\n' { ValueCharLength(p, c, w); }
  }

  lemma ValueCharLength(p: Parser, c: Byte, w: Digits)
    requires Agrees(p, w) && p.state == Value && (p.hstate == ContentLength ==> p.length < NO_LENGTH)
    ensures KeepsLength(p, c, w, ValueChar(p, c))
  {
    hide Hexadecimal;
    hide DecimalOf;
    hide ValueChar;
    if p.hstate == ContentLength {
      DigitLength(p, c);
      if w.Some? { OneMoreDigit(w, c); }
    } else {
      OtherCharFrame(p, c);
    }
  }

  lemma DigitLength(p: Parser, c: Byte)
    requires p.hstate == ContentLength
    ensures var t := ValueChar(p, c);
            t.next == Fail || (if IsNum(c) then t == Take(p.(length := p.length * 10 + Digit(c)), Value) else t == Take(p, Value))
  {
    hide Lower;
  }

  lemma OtherCharFrame(p: Parser, c: Byte)
    requires p.hstate != ContentLength
    ensures var t := ValueChar(p, c); t == Take(p.(hstate := t.p.hstate, index := t.p.index), Value)
  {
    hide Lower;
    hide MatchName;
    MatchNameFrame(p, "chunked", Lower(c), Chunked);
    MatchNameFrame(p, "keep-alive", Lower(c), KeepAlive);
    MatchNameFrame(p, "close", Lower(c), Close);
  }

  lemma LwsLength(p: Parser, c: Byte, w: Digits)
    requires Agrees(p, w)
    requires p.state == ValueDiscardWsAlmostDone || p.state == ValueDiscardLws || p.state == ValueLws || p.state == HeaderAlmostDone
    ensures KeepsLength(p, c, w, ValueTurn(p, c))
  {
    hide DecimalOf;
    hide HexadecimalOf;
  }

  lemma EndLength(p: Parser, c: Byte, w: Digits)
    requires Agrees(p, w) && (p.state == HeadersAlmostDone || p.state == HeadersDone || p.state == MessageDone)
    ensures KeepsLength(p, c, w, EndTurn(p, c))
  {
    hide Decimal;
    hide Hexadecimal;
    hide EndTurn;
    hide InHead;
    hide InSize;
    EndFrame(p, c);
    EndZones();
    assert Noticed(p, c, w) == w;
  }

  lemma EndZones()
    ensures InHead(HeadersAlmostDone) && InHead(HeadersDone)
    ensures !InHead(Dead) && !InHead(StartReq) && !InHead(ChunkSizeStart) && !InHead(BodyIdentity)
    ensures !InSize(Dead) && !InSize(StartReq) && !InSize(ChunkSizeStart) && !InSize(BodyIdentity) && !InSize(HeadersDone)
  {}

  lemma EndFrame(p: Parser, c: Byte)
    requires p.state == HeadersAlmostDone || p.state == HeadersDone || p.state == MessageDone
    ensures var t := EndTurn(p, c);
            && t.p.length == p.length && t.p.flags == p.flags
            && (t.next == Fail || t.p.state == Dead || t.p.state == StartReq
                || (t.p.state == HeadersDone && p.state == HeadersAlmostDone && !p.flags.trailing)
                || (p.state == HeadersDone && (t.p.state == ChunkSizeStart || t.p.state == BodyIdentity)))
  {}

  lemma SizeStartLength(p: Parser, c: Byte, w: Digits)
    requires p.state == ChunkSizeStart
    ensures KeepsLength(p, c, w, ChunkTurn(p, c))
  {
    hide Unhex;
    hide Decimal;
    hide Hexadecimal;
    OneDigit(c);
  }

  lemma SizeLength(p: Parser, c: Byte, w: Digits)
    requires Agrees(p, w) && p.state == ChunkSize
    ensures KeepsLength(p, c, w, ChunkTurn(p, c))
  {
    hide Unhex;
    hide Decimal;
    hide Hexadecimal;
    OneMoreDigit(w, c);
  }

  lemma ChunkLength(p: Parser, c: Byte, w: Digits)
    requires Agrees(p, w) && p.state != ChunkSize && p.state != ChunkSizeStart
    requires InSize(p.state) || p.state == ChunkDataAlmostDone || p.state == ChunkDataDone
    ensures KeepsLength(p, c, w, ChunkTurn(p, c))
  {
    hide Unhex;
    hide Decimal;
    hide Hexadecimal;
  }

  lemma DeadLength(p: Parser, c: Byte, w: Digits)
    requires p.state == Dead
    ensures KeepsLength(p, c, w, Switch(p, c))
  {
    hide Decimal;
    hide Hexadecimal;
  }

  /** Every pass keeps the length equal to the number written. */
  lemma SwitchLength(p: Parser, c: Byte, w: Digits)
    requires Agrees(p, w) && !TakesBody(p.state) && Inv(p, 1)
    ensures KeepsLength(p, c, w, Switch(p, c))
  {
    hide KeepsLength;
    hide Agrees;
    hide MethodTurn;
    hide UrlTurn;
    hide LineTurn;
    hide FieldStartTurn;
    hide FieldTurn;
    hide ValueTurn;
    hide EndTurn;
    hide ChunkTurn;
    hide Name;
    match p.state
    case Dead => DeadLength(p, c, w);
    case StartReq | ReqMethod => MethodLength(p, c, w);
    case SpacesBeforeUrl | Schema | SchemaSlash | SchemaSlashSlash | ServerStart
    | Server | ServerWithAt | Path | QueryStart | Query | FragmentStart | Fragment => UrlLength(p, c, w);
    case HttpStart | HttpH | HttpHT | HttpHTT | HttpHTTP | FirstMajor | Major | FirstMinor | Minor
    | LineAlmostDone => LineLength(p, c, w);
    case FieldStart | Field => FieldLength(p, c, w);
    case ValueDiscardWs | ValueStart => ValueStartLength(p, c, w);
    case Value => ValueLength(p, c, w);
    case ValueDiscardWsAlmostDone | ValueDiscardLws | ValueLws | HeaderAlmostDone => LwsLength(p, c, w);
    case HeadersAlmostDone | HeadersDone | MessageDone => EndLength(p, c, w);
    case ChunkSizeStart => SizeStartLength(p, c, w);
    case ChunkSize => SizeLength(p, c, w);
    case ChunkParameters | ChunkSizeAlmostDone | ChunkDataAlmostDone | ChunkDataDone => ChunkLength(p, c, w);
    case BodyIdentity | ChunkData =>
  }
}
