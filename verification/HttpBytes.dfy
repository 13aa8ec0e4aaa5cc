/** The parser as a machine that takes one byte at a time and keeps a joined trace of its callbacks. */
module HttpBytes {
  import opened Common
  import opened HttpModel

  /** The data a state collects: bytes that leave the parser in such a state belong to that data. */
  function MarkOf(s: State): Option<Kind> {
    match s
    case Schema | SchemaSlash | SchemaSlashSlash | ServerStart | Server | ServerWithAt
    | Path | QueryStart | Query | FragmentStart | Fragment => Some(UrlData)
    case Field => Some(FieldData)
    case Value => Some(ValueData)
    case _ => None
  }

  function Rank(s: State): nat {
    match s
    case ValueDiscardLws => 4 case ValueLws => 4 case FieldStart => 3 case HeadersAlmostDone => 2
    case HeadersDone => 1 case ValueStart => 1 case Value => 1
    case _ => 0
  }

  /** What a pass of the switch may do to the marks, and that looking again makes progress. */
  ghost predicate GoodTurn(p: Parser, t: Turn) {
    var before, after := MarkOf(p.state), MarkOf(t.p.state);
    && (t.p.errno == OK <==> t.next != Fail)
    && (t.next == Again ==> Rank(t.p.state) < Rank(p.state) && after == None && !TakesBody(t.p.state))
    && (t.next != Fail ==>
          match (before, after)
          case (None, None) =>
            || (t.mark == None && t.emit == None)
            || (t.mark == Some(ValueData) && t.emit == Some(ValueData) && p.state == ValueDiscardLws && t.note == None)
            || (t.mark == None && t.emit == Some(BodyData) && p.state == ChunkDataAlmostDone && t.note == None)
          case (None, Some(k)) => t.mark == Some(k) && t.emit == None && t.note == None && t.next == Break
          case (Some(k), Some(k')) => k == k' && (t.mark == None || t.mark == Some(k)) && t.emit == None && t.note == None && t.next == Break
          case (Some(k), None) => t.mark == None && t.emit == Some(k) && t.note == None)
    && (t.next == Exit ==> p.state == HeadersDone)
    && (p.state == ChunkDataAlmostDone && t.next != Fail ==> t.emit == Some(BodyData))
  }

  lemma MethodShape(p: Parser, c: Byte)
    requires p.errno == OK && (p.state == StartReq || p.state == ReqMethod)
    ensures GoodTurn(p, MethodTurn(p, c))
  {}

  lemma UrlShape(p: Parser, c: Byte)
    requires p.errno == OK && (p.state == SpacesBeforeUrl || IsUrlState(p.state))
    ensures GoodTurn(p, UrlTurn(p, c))
  {}

  lemma LineShape(p: Parser, c: Byte)
    requires p.errno == OK
    requires p.state == HttpStart || p.state == HttpH || p.state == HttpHT || p.state == HttpHTT || p.state == HttpHTTP
             || p.state == FirstMajor || p.state == Major || p.state == FirstMinor || p.state == Minor || p.state == LineAlmostDone
    ensures GoodTurn(p, LineTurn(p, c))
  {}

  lemma FieldStartShape(p: Parser, c: Byte)
    requires p.errno == OK && p.state == FieldStart
    ensures GoodTurn(p, FieldStartTurn(p, c))
  {
    hide Token;
  }

  lemma FieldCharKeeps(p: Parser, t: Byte)
    ensures var q := FieldChar(p, t); q == p.(index := q.index, hstate := q.hstate)
  {}

  lemma FieldShape(p: Parser, c: Byte)
    requires p.errno == OK && p.state == Field
    ensures GoodTurn(p, FieldTurn(p, c))
  {
    hide FieldChar;
    hide Token;
    FieldCharKeeps(p, Token(c));
  }

  lemma ValueCharKeeps(p: Parser, c: Byte)
    requires p.errno == OK && p.state == Value
    ensures GoodTurn(p, ValueChar(p, c)) && GoodTurn(p, ValueTurn(p, c))
  {}

  lemma ValueStartShape(p: Parser, c: Byte)
    requires p.errno == OK && (p.state == ValueStart || p.state == ValueDiscardWs)
    ensures GoodTurn(p, ValueTurn(p, c))
  {}

  lemma ValueShape(p: Parser, c: Byte)
    requires p.errno == OK
    requires p.state == ValueDiscardWsAlmostDone || p.state == ValueDiscardLws || p.state == ValueLws || p.state == HeaderAlmostDone
    ensures GoodTurn(p, ValueTurn(p, c))
  {}

  lemma EndShape(p: Parser, c: Byte)
    requires p.errno == OK && (p.state == HeadersAlmostDone || p.state == HeadersDone || p.state == MessageDone)
    ensures GoodTurn(p, EndTurn(p, c))
  {}

  lemma ChunkShape(p: Parser, c: Byte)
    requires p.errno == OK
    requires p.state == ChunkSizeStart || p.state == ChunkSize || p.state == ChunkParameters || p.state == ChunkSizeAlmostDone
             || p.state == ChunkDataAlmostDone || p.state == ChunkDataDone
    ensures GoodTurn(p, ChunkTurn(p, c))
  {
    hide Unhex;
  }

  lemma SwitchShape(p: Parser, c: Byte)
    requires p.errno == OK && !TakesBody(p.state)
    ensures GoodTurn(p, Switch(p, c))
  {
    hide GoodTurn;
    hide MethodTurn;
    hide UrlTurn;
    hide LineTurn;
    hide FieldStartTurn;
    hide FieldTurn;
    hide ValueTurn;
    hide EndTurn;
    hide ChunkTurn;
    match p.state
    case Dead => DeadShape(p, c);
    case StartReq | ReqMethod => MethodShape(p, c);
    case SpacesBeforeUrl | Schema | SchemaSlash | SchemaSlashSlash | ServerStart
    | Server | ServerWithAt | Path | QueryStart | Query | FragmentStart | Fragment => UrlShape(p, c);
    case HttpStart | HttpH | HttpHT | HttpHTT | HttpHTTP | FirstMajor | Major | FirstMinor | Minor
    | LineAlmostDone => LineShape(p, c);
    case FieldStart => FieldStartShape(p, c);
    case Field => FieldShape(p, c);
    case Value => ValueCharKeeps(p, c);
    case ValueDiscardWs | ValueStart => ValueStartShape(p, c);
    case ValueDiscardWsAlmostDone | ValueDiscardLws | ValueLws | HeaderAlmostDone => ValueShape(p, c);
    case HeadersAlmostDone | HeadersDone | MessageDone => EndShape(p, c);
    case ChunkSizeStart | ChunkSize | ChunkParameters | ChunkSizeAlmostDone | ChunkDataAlmostDone
    | ChunkDataDone => ChunkShape(p, c);
    case BodyIdentity | ChunkData =>
  }

  lemma DeadShape(p: Parser, c: Byte)
    requires p.errno == OK && p.state == Dead
    ensures GoodTurn(p, Switch(p, c))
  {}

  // ----- the parser invariant -----

  /** While a field name is read: a header state of the name phase, with the index of a possible match. */
  predicate FieldLegal(h: HeaderState, index: nat) {
    match h
    case General => index <= 17
    case HC => index == 0 case HCO => index == 1 case HCON => index == 2
    case MatchConnection => 3 <= index < 9
    case MatchProxyConnection => index < 15
    case MatchContentLength => 3 <= index < 13
    case MatchTransferEncoding => index < 16
    case MatchUpgrade => index < 6
    case Connection | ContentLength | TransferEncoding | Upgrade => index <= 16
    case _ => false
  }

  /** While a value is read: never a bare "connection" or "transfer-encoding" state. */
  predicate ValueLegal(h: HeaderState, index: nat, length: nat) {
    match h
    case General | Chunked | KeepAlive | Close => index <= 10
    case ContentLength => index == 0 && length < NO_LENGTH
    case MatchChunked => index < 6 case MatchKeepAlive => index < 9 case MatchClose => index < 4
    case _ => false
  }

  /** What holds whenever the switch is entered; `first` is the header byte count at the start of a chunk size. */
  predicate Inv(p: Parser, first: nat) {
    && p.nread <= MAX_HEADER_SIZE && p.length <= NO_LENGTH
    && match p.state
       case ReqMethod => 1 <= p.index <= |Name(p.mtd)|
       case Field => FieldLegal(p.hstate, p.index)
       case Value => ValueLegal(p.hstate, p.index, p.length)
       case ChunkSizeStart => p.flags.chunked && p.nread == first
       case ChunkSize | ChunkParameters | ChunkSizeAlmostDone => p.flags.chunked && p.length < NO_LENGTH
       case ChunkData => p.flags.chunked && 0 < p.length < NO_LENGTH
       case ChunkDataAlmostDone => p.flags.chunked && p.length == 0
       case ChunkDataDone => p.flags.chunked
       case BodyIdentity => 0 < p.length < NO_LENGTH
       case _ => true
  }

  ghost predicate KeepsInv(t: Turn) {
    match t.next case Break => Inv(t.p, 0) case Exit => Inv(t.p, 0) case Again => Inv(t.p, 1) case Fail => true
  }

  lemma NamesAreShort(m: Method)
    ensures 3 <= |Name(m)| <= 11
  {}

  /** The names agree before `index`, and the new one has `c` there. */
  ghost predicate NameGoesOn(m: Method, m': Method, index: nat, c: Byte) {
    index < |Name(m')| && index <= |Name(m)| && Name(m')[index] == c
    && forall j :: 0 <= j < index ==> Name(m')[j] == Name(m)[j]
  }

  lemma SwitchAtOne(m: Method, c: Byte)
    requires SwitchMethod(m, 1, c).Some?
    ensures NameGoesOn(m, SwitchMethod(m, 1, c).value, 1, c)
  {
    hide Name;
    var m' := SwitchMethod(m, 1, c).value;
    FirstTwo(m);
    FirstTwo(m');
  }

  /** The first two letters of the names that are switched between. */
  lemma FirstTwo(m: Method)
    ensures var n := Name(m);
            && |n| >= 3
            && (match m
                case CONNECT => n[0] == 'C' case CHECKOUT => n[0] == 'C' && n[1] == 'H'
                case MKCOL => n[0] == 'M' case MOVE => n[0] == 'M' && n[1] == 'O'
                case MERGE => n[0] == 'M' && n[1] == 'E' case MSEARCH => n[0] == 'M' && n[1] == '-'
                case SUBSCRIBE => n[0] == 'S' case SEARCH => n[0] == 'S' && n[1] == 'E'
                case POST => n[0] == 'P' case PROPFIND => n[0] == 'P' && n[1] == 'R'
                case PUT => n[0] == 'P' && n[1] == 'U' case PATCH => n[0] == 'P' && n[1] == 'A'
                case _ => true)
  {}

  lemma SwitchAtTwo(m: Method, c: Byte)
    requires SwitchMethod(m, 2, c).Some?
    ensures NameGoesOn(m, SwitchMethod(m, 2, c).value, 2, c)
  {
    hide Name;
    var m' := SwitchMethod(m, 2, c).value;
    FirstThree(m);
    FirstThree(m');
  }

  lemma FirstThree(m: Method)
    ensures var n := Name(m);
            && |n| >= 3
            && (match m
                case CONNECT => n[0] == 'C' && n[1] == 'O' case COPY => n[0] == 'C' && n[1] == 'O' && n[2] == 'P'
                case MKCOL => n[0] == 'M' && n[1] == 'K' case MKACTIVITY => n[0] == 'M' && n[1] == 'K' && n[2] == 'A'
                case PUT => n[0] == 'P' && n[1] == 'U' case PURGE => n[0] == 'P' && n[1] == 'U' && n[2] == 'R'
                case UNLOCK => n[0] == 'U' && n[1] == 'N' case UNSUBSCRIBE => n[0] == 'U' && n[1] == 'N' && n[2] == 'S'
                case _ => true)
  {}

  /** Methods are switched only to one whose name starts with everything read so far. */
  lemma SwitchedNameMatches(m: Method, index: nat, c: Byte)
    requires SwitchMethod(m, index, c).Some?
    ensures NameGoesOn(m, SwitchMethod(m, index, c).value, index, c)
  {
    if index == 1 {
      SwitchAtOne(m, c);
    } else if index == 2 {
      SwitchAtTwo(m, c);
    } else if index == 3 {
      assert m == MKCOL && SwitchMethod(m, index, c).value == MKCALENDAR;
    } else {
      assert m == PROPFIND && SwitchMethod(m, index, c).value == PROPPATCH;
    }
  }

  lemma MethodInv(p: Parser, c: Byte)
    requires Inv(p, 1) && p.errno == OK && (p.state == StartReq || p.state == ReqMethod)
    ensures KeepsInv(MethodTurn(p, c))
  {
    hide SwitchMethod;
    hide Name;
    NamesAreShort(p.mtd);
    if p.state == StartReq {
      if FirstMethod(c).Some? { NamesAreShort(FirstMethod(c).value); }
    } else if SwitchMethod(p.mtd, p.index, c).Some? {
      SwitchedNameMatches(p.mtd, p.index, c);
    }
  }

  lemma UrlInv(p: Parser, c: Byte)
    requires Inv(p, 1) && (p.state == SpacesBeforeUrl || IsUrlState(p.state))
    ensures KeepsInv(UrlTurn(p, c))
  {
    hide Name;
    hide FieldLegal;
    hide ValueLegal;
  }

  lemma LineInv(p: Parser, c: Byte)
    requires Inv(p, 1)
    requires p.state == HttpStart || p.state == HttpH || p.state == HttpHT || p.state == HttpHTT || p.state == HttpHTTP
             || p.state == FirstMajor || p.state == Major || p.state == FirstMinor || p.state == Minor || p.state == LineAlmostDone
    ensures KeepsInv(LineTurn(p, c))
  {
    hide Name;
    hide FieldLegal;
    hide ValueLegal;
  }

  lemma FieldStartInv(p: Parser, c: Byte)
    requires Inv(p, 1) && p.state == FieldStart
    ensures KeepsInv(FieldStartTurn(p, c))
  {
    hide Token;
  }

  lemma FieldCharInv(p: Parser, t: Byte)
    requires FieldLegal(p.hstate, p.index)
    ensures FieldLegal(FieldChar(p, t).hstate, FieldChar(p, t).index)
  {}

  lemma FieldInv(p: Parser, c: Byte)
    requires Inv(p, 1) && p.state == Field
    ensures KeepsInv(FieldTurn(p, c))
  {
    hide FieldChar;
    hide FieldLegal;
    hide Token;
    FieldCharKeeps(p, Token(c));
    FieldCharInv(p, Token(c));
  }

  lemma ValueStartInv(p: Parser, c: Byte)
    requires Inv(p, 1) && (p.state == ValueStart || p.state == ValueDiscardWs)
    ensures KeepsInv(ValueTurn(p, c))
  {
    hide Lower;
  }

  lemma MatchNameFrame(p: Parser, name: string, c: Byte, full: HeaderState)
    ensures var q := MatchName(p, name, c, full);
            q == p.(hstate := q.hstate, index := q.index) && (q.hstate == p.hstate || q.hstate == General || q.hstate == full)
  {}

  /** A value character keeps the header state legal, state by state. */
  lemma GeneralCharInv(p: Parser, c: Byte)
    requires ValueLegal(p.hstate, p.index, p.length)
    requires p.hstate == General || p.hstate == Chunked || p.hstate == KeepAlive || p.hstate == Close || p.hstate == ContentLength
    ensures var t := ValueChar(p, c); t.next != Fail ==> ValueLegal(t.p.hstate, t.p.index, t.p.length)
  {
    hide Lower;
  }

  lemma MatchCharInv(p: Parser, c: Byte)
    requires ValueLegal(p.hstate, p.index, p.length)
    requires p.hstate == MatchChunked || p.hstate == MatchKeepAlive || p.hstate == MatchClose
    ensures var t := ValueChar(p, c); t.next != Fail ==> ValueLegal(t.p.hstate, t.p.index, t.p.length)
  {
    hide Lower;
  }

  lemma ValueCharFrame(p: Parser, c: Byte)
    requires p.state == Value
    ensures var t := ValueChar(p, c);
            (t.next == Break || t.next == Fail) && t.p.state == Value && t.p.nread == p.nread
            && (t.p.length == p.length || (p.hstate == ContentLength && t.p.hstate == ContentLength))
  {
    hide Lower;
  }

  lemma ValueCharInv(p: Parser, c: Byte)
    requires Inv(p, 1) && p.state == Value
    ensures KeepsInv(ValueTurn(p, c))
  {
    hide ValueChar;
    hide Name;
    if c != '\r' && c != '\n' {
      ValueCharFrame(p, c);
      if p.hstate == MatchChunked || p.hstate == MatchKeepAlive || p.hstate == MatchClose {
        MatchCharInv(p, c);
      } else {
        GeneralCharInv(p, c);
      }
    }
  }

  lemma ValueInv(p: Parser, c: Byte)
    requires Inv(p, 1)
    requires p.state == ValueDiscardWsAlmostDone || p.state == ValueDiscardLws || p.state == ValueLws || p.state == HeaderAlmostDone
    ensures KeepsInv(ValueTurn(p, c))
  {
    hide Name;
    hide FieldLegal;
    hide ValueLegal;
  }

  lemma EndInv(p: Parser, c: Byte)
    requires Inv(p, 1) && (p.state == HeadersAlmostDone || p.state == HeadersDone || p.state == MessageDone)
    ensures KeepsInv(EndTurn(p, c))
  {
    hide Name;
    hide FieldLegal;
    hide ValueLegal;
  }

  lemma ChunkInv(p: Parser, c: Byte)
    requires Inv(p, 1)
    requires p.state == ChunkSizeStart || p.state == ChunkSize || p.state == ChunkParameters || p.state == ChunkSizeAlmostDone
             || p.state == ChunkDataAlmostDone || p.state == ChunkDataDone
    ensures KeepsInv(ChunkTurn(p, c))
  {
    UnhexRange(c);
    hide Unhex;
  }

  lemma UnhexRange(c: Byte)
    ensures Unhex(c).Some? ==> Unhex(c).value < 16
  {}

  /** Every pass of the switch keeps the invariant. */
  lemma SwitchKeepsInv(p: Parser, c: Byte)
    requires Inv(p, 1) && p.errno == OK && !TakesBody(p.state)
    ensures KeepsInv(Switch(p, c))
  {
    hide KeepsInv;
    hide Inv;
    hide MethodTurn;
    hide UrlTurn;
    hide LineTurn;
    hide FieldStartTurn;
    hide FieldTurn;
    hide ValueTurn;
    hide EndTurn;
    hide ChunkTurn;
    match p.state
    case Dead => DeadInv(p, c);
    case StartReq | ReqMethod => MethodInv(p, c);
    case SpacesBeforeUrl | Schema | SchemaSlash | SchemaSlashSlash | ServerStart
    | Server | ServerWithAt | Path | QueryStart | Query | FragmentStart | Fragment => UrlInv(p, c);
    case HttpStart | HttpH | HttpHT | HttpHTT | HttpHTTP | FirstMajor | Major | FirstMinor | Minor
    | LineAlmostDone => LineInv(p, c);
    case FieldStart => FieldStartInv(p, c);
    case Field => FieldInv(p, c);
    case Value => ValueCharInv(p, c);
    case ValueDiscardWs | ValueStart => ValueStartInv(p, c);
    case ValueDiscardWsAlmostDone | ValueDiscardLws | ValueLws | HeaderAlmostDone => ValueInv(p, c);
    case HeadersAlmostDone | HeadersDone | MessageDone => EndInv(p, c);
    case ChunkSizeStart | ChunkSize | ChunkParameters | ChunkSizeAlmostDone | ChunkDataAlmostDone
    | ChunkDataDone => ChunkInv(p, c);
    case BodyIdentity | ChunkData =>
  }

  lemma DeadInv(p: Parser, c: Byte)
    requires Inv(p, 1) && p.errno == OK && p.state == Dead
    ensures KeepsInv(Switch(p, c))
  {
    hide Name;
    hide FieldLegal;
    hide ValueLegal;
  }
}
