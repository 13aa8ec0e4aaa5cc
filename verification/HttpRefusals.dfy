/** Which byte the parser refuses where, and with which error. */
module HttpRefusals {
  import opened Common
  import opened HttpModel
  import opened HttpBytes
  import opened HttpTrace
  import opened HttpMachine
  import opened HttpTargets
  import opened HttpHeaders
  import opened HttpCharacters
  import opened Numerals

  predicate IsCr(c: Byte) { c as int == 0x0D }
  predicate IsLf(c: Byte) { c as int == 0x0A }
  predicate IsSpace(c: Byte) { c as int == 0x20 }
  predicate IsTab(c: Byte) { c as int == 0x09 }

  function Unless(ok: bool, e: Errno): Errno { if ok then OK else e }

  /** What may stand in the name or address of a server, besides the at-sign. */
  predicate InServerName(c: Byte) { IsUnreserved(c) || IsSubDelim(c) || c in ":%[]" }

  function TargetError(p: Parser, c: Byte): Errno
    requires p.state == SpacesBeforeUrl || IsUrlState(p.state)
  {
    var ends := IsSpace(c) || IsCr(c) || IsLf(c);
    match p.state
    case SpacesBeforeUrl =>
      if p.mtd == CONNECT then Unless(IsSpace(c) || InServerName(c) || c in "/?@", INVALID_URL)
      else Unless(IsSpace(c) || IsLetter(c) || c in "/*", INVALID_URL)
    case Schema => Unless(IsLetter(c) || c == ':', INVALID_URL)
    case SchemaSlash => Unless(c == '/', INVALID_URL)
    case SchemaSlashSlash => Unless(c == '/', INVALID_URL)
    case ServerStart => Unless(InServerName(c) || c in "/?@", INVALID_URL)
    case Server => Unless(ends || InServerName(c) || c in "/?@", INVALID_URL)
    case ServerWithAt => Unless(ends || InServerName(c) || c in "/?", INVALID_URL)
    case _ => Unless(ends || IsVisible(c), INVALID_URL)
  }

  function VersionError(p: Parser, c: Byte): Errno {
    match p.state
    case HttpStart => Unless(c == 'H' || IsSpace(c), INVALID_CONSTANT)
    case HttpH => Unless(c == 'T', STRICT)
    case HttpHT => Unless(c == 'T', STRICT)
    case HttpHTT => Unless(c == 'P', STRICT)
    case HttpHTTP => Unless(c == '/', STRICT)
    case FirstMajor => Unless(c in "123456789", INVALID_VERSION)
    case Major => Unless(c == '.' || (IsDecimal(c) && p.major * 10 + DigitValue(c) <= 999), INVALID_VERSION)
    case FirstMinor => Unless(IsDecimal(c), INVALID_VERSION)
    case Minor => Unless(IsCr(c) || IsLf(c) || (IsDecimal(c) && p.minor * 10 + DigitValue(c) <= 999), INVALID_VERSION)
    case _ => Unless(IsLf(c), LF_EXPECTED)
  }

  /** At the start of a line: the end of the headers, or a name. */
  function NameError(c: Byte): Errno { Unless(IsCr(c) || IsLf(c) || IsTchar(c), INVALID_HEADER_TOKEN) }

  /** The first character of a value, and of a Content-Length a digit. */
  function FirstValueError(p: Parser, c: Byte): Errno { Unless(p.hstate != ContentLength || IsDecimal(c), INVALID_CONTENT_LENGTH) }

  function ValueError(p: Parser, c: Byte): Errno {
    match p.state
    case ValueDiscardWs => if IsSpace(c) || IsTab(c) || IsCr(c) || IsLf(c) then OK else FirstValueError(p, c)
    case ValueDiscardWsAlmostDone => Unless(IsLf(c), STRICT)
    case ValueDiscardLws => if IsSpace(c) || IsTab(c) then OK else NameError(c)
    case ValueStart => FirstValueError(p, c)
    case Value =>
      Unless(p.hstate != ContentLength || IsCr(c) || IsLf(c) || IsSpace(c) || (IsDecimal(c) && p.length <= 1844674407370955160),
             INVALID_CONTENT_LENGTH)
    case ValueLws => if IsSpace(c) || IsTab(c) then FirstValueError(p, c) else NameError(c)
    case _ => Unless(IsLf(c), STRICT)
  }

  /** The digit table has entries for ASCII only; bytes from 128 on read as the digit 0. */
  predicate IsSizeDigit(c: Byte) { IsHexDigit(c) || c as int >= 128 }

  function ChunkError(p: Parser, c: Byte): Errno {
    match p.state
    case ChunkSizeStart => Unless(IsSizeDigit(c), INVALID_CHUNK_SIZE)
    case ChunkSize =>
      if IsCr(c) || IsSpace(c) || c == ';' then OK
      else if !IsSizeDigit(c) then INVALID_CHUNK_SIZE
      else Unless(p.length <= 1152921504606846974, INVALID_CONTENT_LENGTH)
    case ChunkParameters => OK
    case ChunkDataAlmostDone => Unless(IsCr(c), STRICT)
    case _ => Unless(IsLf(c), STRICT)
  }

  /** The error that a byte meets; the letters of a method are the matter of their own lemmas. */
  function ErrorAt(p: Parser, c: Byte): Errno
    requires !TakesBody(p.state) && p.state != ReqMethod
  {
    match p.state
    case Dead => Unless(IsCr(c) || IsLf(c), CLOSED_CONNECTION)
    case StartReq => Unless(IsCr(c) || IsLf(c) || c in "CDGHLMNOPRSTU", INVALID_METHOD)
    case SpacesBeforeUrl | Schema | SchemaSlash | SchemaSlashSlash | ServerStart | Server | ServerWithAt
    | Path | QueryStart | Query | FragmentStart | Fragment => TargetError(p, c)
    case HttpStart | HttpH | HttpHT | HttpHTT | HttpHTTP | FirstMajor | Major | FirstMinor | Minor | LineAlmostDone =>
      VersionError(p, c)
    case FieldStart => NameError(c)
    case Field => Unless(IsTchar(c) || c == ':' || IsCr(c) || IsLf(c), INVALID_HEADER_TOKEN)
    case ValueDiscardWs | ValueDiscardWsAlmostDone | ValueDiscardLws | ValueStart | Value | ValueLws | HeaderAlmostDone =>
      ValueError(p, c)
    case HeadersAlmostDone | HeadersDone => Unless(IsLf(c), STRICT)
    case MessageDone => OK
    case _ => ChunkError(p, c)
  }

  // ----- one pass -----

  predicate InAuthority(p: Parser) {
    p.state == ServerStart || p.state == Server || p.state == ServerWithAt || (p.state == SpacesBeforeUrl && p.mtd == CONNECT)
  }

  lemma ServerTaken(c: Byte)
    ensures ServerChar(c) != Dead <==> InServerName(c) || c in "/?@"
    ensures c as int <= 0x20 ==> ServerChar(c) == Dead && !InServerName(c)
    ensures !InServerName('@')
  {
    ServerCharacters(c);
    hide IsUserInfoChar;
  }

  /** Behind a scheme, and for CONNECT. */
  lemma ServerPass(p: Parser, c: Byte)
    requires p.errno == OK && InAuthority(p)
    ensures UrlTurn(p, c).p.errno == TargetError(p, c)
  {
    ServerTaken(c);
    hide ServerChar;
    hide InServerName;
  }

  /** In a path, a query or a fragment. */
  lemma LocalPass(p: Parser, c: Byte)
    requires p.errno == OK && InTail(p.state)
    ensures UrlTurn(p, c).p.errno == TargetError(p, c)
  {
    UrlCharacters(c);
    hide IsUrlChar;
    hide IsAlpha;
    hide ServerChar;
    hide InServerName;
    hide IsUnreserved;
    hide IsSubDelim;
  }

  /** In a scheme, and at the start of a target. */
  lemma SchemePass(p: Parser, c: Byte)
    requires p.errno == OK && !InAuthority(p)
    requires p.state == SpacesBeforeUrl || p.state == Schema || p.state == SchemaSlash || p.state == SchemaSlashSlash
    ensures UrlTurn(p, c).p.errno == TargetError(p, c)
  {
    LettersAre(c);
    LetterIsNoBlank(c);
    hide IsAlpha;
    hide IsLetter;
    hide IsUrlChar;
    hide ServerChar;
    hide InServerName;
  }

  lemma LetterIsNoBlank(c: Byte)
    ensures IsLetter(c) ==> c as int > 0x20 && c != ':'
  {}

  lemma TargetPass(p: Parser, c: Byte)
    requires p.errno == OK && (p.state == SpacesBeforeUrl || IsUrlState(p.state))
    ensures UrlTurn(p, c).p.errno == TargetError(p, c)
  {
    hide UrlTurn;
    hide TargetError;
    if InAuthority(p) { ServerPass(p, c); } else if InTail(p.state) { LocalPass(p, c); } else { SchemePass(p, c); }
  }

  lemma ProtocolPass(p: Parser, c: Byte)
    requires p.errno == OK
    requires p.state == HttpStart || p.state == HttpH || p.state == HttpHT || p.state == HttpHTT || p.state == HttpHTTP
             || p.state == LineAlmostDone
    ensures LineTurn(p, c).p.errno == VersionError(p, c)
  {
    hide Digit;
    hide DigitValue;
  }

  lemma NumberPass(p: Parser, c: Byte)
    requires p.errno == OK && (p.state == FirstMajor || p.state == Major || p.state == FirstMinor || p.state == Minor)
    ensures LineTurn(p, c).p.errno == VersionError(p, c)
  {}

  lemma VersionPass(p: Parser, c: Byte)
    requires p.errno == OK
    requires p.state == HttpStart || p.state == HttpH || p.state == HttpHT || p.state == HttpHTT || p.state == HttpHTTP
             || p.state == FirstMajor || p.state == Major || p.state == FirstMinor || p.state == Minor || p.state == LineAlmostDone
    ensures LineTurn(p, c).p.errno == VersionError(p, c)
  {
    hide LineTurn;
    hide VersionError;
    if p.state == FirstMajor || p.state == Major || p.state == FirstMinor || p.state == Minor { NumberPass(p, c); } else { ProtocolPass(p, c); }
  }

  lemma NamePass(p: Parser, c: Byte)
    requires p.errno == OK && p.state == FieldStart
    ensures FieldStartTurn(p, c).p.errno == if IsLf(c) then OK else NameError(c)
  {
    TokenCharacters(c);
    hide Token;
    hide IsTchar;
  }

  lemma FieldPass(p: Parser, c: Byte)
    requires p.errno == OK && p.state == Field
    ensures FieldTurn(p, c).p.errno == Unless(IsTchar(c) || c == ':' || IsCr(c) || IsLf(c), INVALID_HEADER_TOKEN)
  {
    TokenCharacters(c);
    FieldCharKeeps(p, Token(c));
    hide FieldChar;
    hide Token;
    hide IsTchar;
  }

  lemma ValuePass(p: Parser, c: Byte)
    requires p.errno == OK
    requires p.state == ValueDiscardWs || p.state == ValueDiscardWsAlmostDone || p.state == ValueStart || p.state == Value
             || p.state == HeaderAlmostDone
    ensures ValueTurn(p, c).p.errno == ValueError(p, c)
  {
    hide Lower;
    hide NameError;
    if p.state == Value { TextPass(p, c); }
    hide ValueChar;
  }

  /** Inside a value. */
  lemma TextPass(p: Parser, c: Byte)
    requires p.errno == OK && p.state == Value
    ensures ValueTurn(p, c).p.errno == ValueError(p, c)
  {
    hide MatchName;
    hide Lower;
    hide NameError;
    hide ValueStartTurn;
    MatchNameFrame(p, "chunked", Lower(c), Chunked);
    MatchNameFrame(p, "keep-alive", Lower(c), KeepAlive);
    MatchNameFrame(p, "close", Lower(c), Close);
  }

  lemma ChunkPass(p: Parser, c: Byte)
    requires p.errno == OK
    requires p.state == ChunkSizeStart || p.state == ChunkSize || p.state == ChunkParameters || p.state == ChunkSizeAlmostDone
             || p.state == ChunkDataAlmostDone || p.state == ChunkDataDone
    ensures ChunkTurn(p, c).p.errno == ChunkError(p, c)
  {
    SizeDigitsAre(c);
    hide Unhex;
  }

  /** What the digits of a chunk size are worth. */
  lemma SizeDigitsAre(c: Byte)
    ensures Unhex(c) == if IsHexDigit(c) then Some(DigitValue(c)) else if c as int >= 128 then Some(0) else None
  {}

  // ----- all passes over a byte -----

  /** At the start of a line the byte may be looked at again, but only the first look can refuse it. */
  lemma LinePasses(p: Parser, tr: Trace, c: Byte)
    requires p.errno == OK && p.state == FieldStart
    ensures Passes(p, tr, c).p.errno == NameError(c)
  {
    hide Token;
    hide IsTchar;
    NamePass(p, c);
    if IsLf(c) {
      var q := p.(state := HeadersAlmostDone);
      assert Switch(p, c) == Redo(p, HeadersAlmostDone);
      PassAgain(p, tr, c);
      EndPasses(q, AfterPass(tr, Switch(p, c)));
    } else {
      hide Switch;
      OneLook(p, tr, c);
    }
  }

  lemma OneLook(p: Parser, tr: Trace, c: Byte)
    requires p.errno == OK && !TakesBody(p.state) && Switch(p, c).next != Again
    ensures Passes(p, tr, c).p.errno == Switch(p, c).p.errno
  {
    hide Switch;
  }

  const LINE_FEED: Byte := 10 as char

  lemma EndLooks(p: Parser)
    requires p.errno == OK && (p.state == HeadersAlmostDone || p.state == HeadersDone)
    ensures var t := Switch(p, LINE_FEED); t.p.errno == OK && (t.next == Again ==> p.state == HeadersAlmostDone && t.p.state == HeadersDone)
  {
    assert Switch(p, LINE_FEED) == EndTurn(p, LINE_FEED);
  }

  lemma EndPasses(p: Parser, tr: Trace)
    requires p.errno == OK && (p.state == HeadersAlmostDone || p.state == HeadersDone)
    ensures Passes(p, tr, LINE_FEED).p.errno == OK
    decreases if p.state == HeadersAlmostDone then 1 else 0
  {
    hide Switch;
    EndLooks(p);
    var t := Switch(p, LINE_FEED);
    if t.next == Again {
      PassAgain(p, tr, LINE_FEED);
      EndPasses(t.p, AfterPass(tr, t));
    } else {
      OneLook(p, tr, LINE_FEED);
    }
  }

  /** A pass that only says that another state looks at the byte. */
  lemma SecondLook(p: Parser, tr: Trace, c: Byte, t: Turn)
    requires p.errno == OK && !TakesBody(p.state) && Switch(p, c) == t && t.next == Again
    ensures t.p.errno == OK && !TakesBody(t.p.state) && Passes(p, tr, c).p.errno == Passes(t.p, AfterPass(tr, t), c).p.errno
  {
    hide Switch;
    PassAgain(p, tr, c);
  }

  lemma ValuePasses(p: Parser, tr: Trace, c: Byte)
    requires p.errno == OK
    requires p.state == ValueDiscardWs || p.state == ValueDiscardWsAlmostDone || p.state == ValueDiscardLws || p.state == ValueStart
             || p.state == Value || p.state == ValueLws || p.state == HeaderAlmostDone
    ensures Passes(p, tr, c).p.errno == ValueError(p, c)
  {
    hide Switch;
    hide ValueTurn;
    hide ValueError;
    ByValueTurn(p, c);
    var t := ValueTurn(p, c);
    LooksAgain(p, c);
    if t.next != Again {
      OneLook(p, tr, c);
      if p.state == ValueDiscardLws || p.state == ValueLws { BlankTaken(p, c); } else { ValuePass(p, c); }
    } else {
      SecondLook(p, tr, c, t);
      if t.p.state == FieldStart {
        LinePasses(t.p, AfterPass(tr, t), c);
      } else {
        ByValueTurn(t.p, c);
        OneMoreLook(t.p, c);
        OneLook(t.p, AfterPass(tr, t), c);
        ValuePass(t.p, c);
      }
    }
  }

  lemma ByValueTurn(p: Parser, c: Byte)
    requires p.state == ValueDiscardWs || p.state == ValueDiscardWsAlmostDone || p.state == ValueDiscardLws || p.state == ValueStart
             || p.state == Value || p.state == ValueLws || p.state == HeaderAlmostDone
    ensures Switch(p, c) == ValueTurn(p, c)
  {
    hide ValueTurn;
  }

  /** Where a value's byte is looked at again: a line that goes on or does not, and a line feed without a return. */
  lemma LooksAgain(p: Parser, c: Byte)
    requires p.errno == OK
    ensures var t := ValueTurn(p, c);
            t.next == Again ==>
              match p.state
              case Value => IsLf(c) && t.p.state == HeaderAlmostDone && ValueError(p, c) == ValueError(t.p, c)
              case ValueLws =>
                if IsSpace(c) || IsTab(c) then t.p.state == ValueStart && ValueError(p, c) == ValueError(t.p, c)
                else t.p.state == FieldStart && ValueError(p, c) == NameError(c)
              case ValueDiscardWs | ValueDiscardWsAlmostDone | ValueStart | HeaderAlmostDone => false
              case _ => p.state == ValueDiscardLws ==> t.p.state == FieldStart && ValueError(p, c) == NameError(c)
  {
    hide Lower;
    hide MatchName;
    hide NameError;
  }

  lemma BlankTaken(p: Parser, c: Byte)
    requires p.errno == OK && (p.state == ValueDiscardLws || p.state == ValueLws) && ValueTurn(p, c).next != Again
    ensures ValueTurn(p, c).p.errno == ValueError(p, c)
  {}

  lemma OneMoreLook(p: Parser, c: Byte)
    requires p.errno == OK && (p.state == HeaderAlmostDone || p.state == ValueStart)
    ensures ValueTurn(p, c).next != Again
  {
    hide Lower;
  }

  // ----- whole bytes and whole runs -----

  /** One byte behind the header count: refused exactly where, and with the error that, the table says. */
  lemma PassesDecided(p: Parser, tr: Trace, c: Byte)
    requires p.errno == OK && !TakesBody(p.state) && p.state != ReqMethod
    ensures Passes(p, tr, c).p.errno == ErrorAt(p, c)
  {
    hide Passes;
    hide Switch;
    hide NameError;
    hide ValueError;
    hide TargetError;
    hide VersionError;
    hide ChunkError;
    match p.state {
      case FieldStart => LinePasses(p, tr, c);
      case ValueDiscardWs | ValueDiscardWsAlmostDone | ValueDiscardLws | ValueStart | Value | ValueLws | HeaderAlmostDone =>
        ValuePasses(p, tr, c);
      case HeadersAlmostDone | HeadersDone => if IsLf(c) { EndPasses(p, tr); } else { EndRefused(p, c); OneLook(p, tr, c); }
      case _ => SimplePasses(p, tr, c);
    }
  }

  lemma EndRefused(p: Parser, c: Byte)
    requires p.errno == OK && (p.state == HeadersAlmostDone || p.state == HeadersDone) && !IsLf(c)
    ensures Switch(p, c).next == Fail && Switch(p, c).p.errno == STRICT
  {
    assert Switch(p, c) == EndTurn(p, c);
  }

  predicate LooksOnce(s: State) {
    match s
    case FieldStart | ValueDiscardWs | ValueDiscardWsAlmostDone | ValueDiscardLws | ValueStart | Value | ValueLws | HeaderAlmostDone
    | HeadersAlmostDone | HeadersDone | ReqMethod | ChunkData | BodyIdentity => false
    case _ => true
  }

  /** The other states look at a byte once. */
  lemma SimplePasses(p: Parser, tr: Trace, c: Byte)
    requires p.errno == OK && LooksOnce(p.state)
    ensures Passes(p, tr, c).p.errno == ErrorAt(p, c)
  {
    hide Passes;
    LooksOnceOnly(p, c);
    OneLook(p, tr, c);
    hide Switch;
    SimplePass(p, c);
  }

  lemma LooksOnceOnly(p: Parser, c: Byte)
    requires LooksOnce(p.state)
    ensures Switch(p, c).next != Again
  {
    hide ParseUrlChar;
    hide FirstMethod;
    hide Unhex;
    hide FieldChar;
    hide Token;
  }

  lemma SimplePass(p: Parser, c: Byte)
    requires p.errno == OK && LooksOnce(p.state)
    ensures Switch(p, c).p.errno == ErrorAt(p, c)
  {
    hide UrlTurn;
    hide LineTurn;
    hide FieldTurn;
    hide ChunkTurn;
    hide EndTurn;
    hide MethodTurn;
    match p.state {
      case Dead =>
      case StartReq => FirstLetters(p, c);
      case Field => FieldPass(p, c);
      case MessageDone => MessagePass(p, c);
      case HttpStart | HttpH | HttpHT | HttpHTT | HttpHTTP | FirstMajor | Major | FirstMinor | Minor | LineAlmostDone => VersionPass(p, c);
      case ChunkSizeStart | ChunkSize | ChunkParameters | ChunkSizeAlmostDone | ChunkDataAlmostDone | ChunkDataDone => ChunkPass(p, c);
      case _ => TargetPass(p, c);
    }
  }

  lemma FirstLetters(p: Parser, c: Byte)
    requires p.errno == OK && p.state == StartReq
    ensures MethodTurn(p, c).p.errno == Unless(IsCr(c) || IsLf(c) || c in "CDGHLMNOPRSTU", INVALID_METHOD)
  {
    LettersAre(c);
    hide IsAlpha;
  }

  lemma MessagePass(p: Parser, c: Byte)
    requires p.errno == OK && p.state == MessageDone
    ensures EndTurn(p, c).p.errno == OK
  {}

  /**
   * Every byte outside a method's name and a body: it is refused for the 81921st byte of the headers, or exactly where
   * the table says.
   */
  lemma ByteDecided(p: Parser, tr: Trace, c: Byte)
    requires p.errno == OK && Inv(p, 0) && !TakesBody(p.state) && p.state != ReqMethod
    ensures OneByte(p, tr, c).p.errno == if ParsingHeader(p.state) && p.nread >= 81920 then HEADER_OVERFLOW else ErrorAt(p, c)
  {
    hide Passes;
    hide Inv;
    hide ErrorAt;
    CountedInv(p);
    var q := Counted(p);
    if q.errno == OK {
      PassesDecided(q, tr, c);
      SameError(p, q, c);
    }
  }

  lemma SameError(p: Parser, q: Parser, c: Byte)
    requires !TakesBody(p.state) && p.state != ReqMethod && (q == p || q == p.(nread := q.nread))
    ensures ErrorAt(q, c) == ErrorAt(p, c)
  {
    hide Unless;
    hide InServerName;
    hide IsLetter;
    hide IsTchar;
    hide IsVisible;
    hide IsSizeDigit;
    hide IsDecimal;
    hide NameError;
  }

  lemma ClosedByte(p: Parser, tr: Trace, c: Byte)
    requires p.errno == OK && Inv(p, 0) && p.state == Dead && p.nread < 81920
    ensures var q := p.(nread := p.nread + 1);
            OneByte(p, tr, c) == if IsCr(c) || IsLf(c) then Run(q, tr, Break) else Run(q.(errno := CLOSED_CONNECTION), tr, Fail)
  {
    hide Inv;
    hide Add;
    CountedByte(p, tr, c);
  }

  /** Behind the last request of a connection only line ends are taken, and nothing is reported. */
  lemma {:induction false} ClosedStaysClosed(p: Parser, tr: Trace, data: seq<Byte>)
    requires p.errno == OK && Inv(p, 0) && p.state == Dead && p.nread + |data| <= 81920
    ensures var f := Feed(p, tr, data);
            f.tr == tr
            && (if forall i :: 0 <= i < |data| ==> IsCr(data[i]) || IsLf(data[i]) then f.p == p.(nread := p.nread + |data|)
                else f.p.errno == CLOSED_CONNECTION)
    decreases |data|
  {
    hide Inv;
    hide OneByte;
    if data != [] {
      var c, rest := data[0], data[1..];
      OneByteInv(p, tr, c);
      ClosedByte(p, tr, c);
      var q := p.(nread := p.nread + 1);
      assert forall i :: 0 < i < |data| ==> data[i] == rest[i - 1];
      if IsCr(c) || IsLf(c) { ClosedStaysClosed(q, tr, rest); } else { FedStops(q.(errno := CLOSED_CONNECTION), tr, rest); }
    }
  }
}
