/** The request parser's state and one pass of its state switch over one byte. */
module HttpModel {
  import opened Common

  datatype State =
    | Dead | StartReq | ReqMethod | SpacesBeforeUrl
    | Schema | SchemaSlash | SchemaSlashSlash | ServerStart | Server | ServerWithAt
    | Path | QueryStart | Query | FragmentStart | Fragment
    | HttpStart | HttpH | HttpHT | HttpHTT | HttpHTTP | FirstMajor | Major | FirstMinor | Minor | LineAlmostDone
    | FieldStart | Field
    | ValueDiscardWs | ValueDiscardWsAlmostDone | ValueDiscardLws | ValueStart | Value | ValueLws | HeaderAlmostDone
    | ChunkSizeStart | ChunkSize | ChunkParameters | ChunkSizeAlmostDone
    | HeadersAlmostDone | HeadersDone
    | ChunkData | ChunkDataAlmostDone | ChunkDataDone | BodyIdentity | MessageDone

  datatype HeaderState =
    | General | HC | HCO | HCON
    | MatchConnection | MatchProxyConnection | MatchContentLength | MatchTransferEncoding | MatchUpgrade
    | Connection | ContentLength | TransferEncoding | Upgrade
    | MatchChunked | MatchKeepAlive | MatchClose
    | Chunked | KeepAlive | Close

  datatype Method =
    | DELETE | GET | HEAD | POST | PUT | CONNECT | OPTIONS | TRACE | COPY | LOCK | MKCOL | MOVE | PROPFIND | PROPPATCH
    | SEARCH | UNLOCK | REPORT | MKACTIVITY | CHECKOUT | MERGE | MSEARCH | NOTIFY | SUBSCRIBE | UNSUBSCRIBE
    | PATCH | PURGE | MKCALENDAR

  datatype Errno =
    | OK | INVALID_EOF_STATE | HEADER_OVERFLOW | CLOSED_CONNECTION | INVALID_VERSION | INVALID_METHOD | INVALID_URL
    | LF_EXPECTED | INVALID_HEADER_TOKEN | INVALID_CONTENT_LENGTH | INVALID_CHUNK_SIZE | INVALID_CONSTANT | STRICT

  datatype Flags = Flags(chunked: bool, keepAlive: bool, close: bool, trailing: bool, upgrade: bool)

  const NO_FLAGS := Flags(false, false, false, false, false)

  /** The largest 64-bit number, which stands for "no Content-Length". */
  const NO_LENGTH: nat := 0xFFFF_FFFF_FFFF_FFFF
  const MAX_HEADER_SIZE: nat := 80 * 1024

  datatype Parser = Parser(
    state: State, hstate: HeaderState, index: nat, nread: nat, length: nat, flags: Flags,
    mtd: Method, major: nat, minor: nat, errno: Errno, upgrade: bool)

  /** A parser as `http_parser_init` leaves it, for requests. */
  const NEW_PARSER := Parser(StartReq, General, 0, 0, 0, NO_FLAGS, DELETE, 0, 0, OK, false)

  /** The data callbacks, and the plain notifications. */
  datatype Kind = UrlData | FieldData | ValueData | BodyData
  datatype Notice = MessageBegin | HeadersComplete | MessageComplete

  /** How a pass of the switch ends: next byte, same byte again, error, or leaving the loop for an upgrade. */
  datatype Next = Break | Again | Fail | Exit

  /** The effects of one pass: the new state, a mark to set, a data callback to make, a notification. */
  datatype Turn = Turn(p: Parser, mark: Option<Kind>, emit: Option<Kind>, note: Option<Notice>, next: Next)

  function Error(p: Parser, e: Errno): Turn { Turn(p.(errno := e), None, None, None, Fail) }
  function Take(p: Parser, s: State): Turn { Turn(p.(state := s), None, None, None, Break) }
  function Redo(p: Parser, s: State): Turn { Turn(p.(state := s), None, None, None, Again) }
  function Require(p: Parser, ok: bool, s: State): Turn { if ok then Take(p, s) else Error(p, STRICT) }

  // ----- character classes -----

  function Lower(c: Byte): Byte {
    if c as int / 32 % 2 == 1 then c else (c as int + 32) as char
  }

  predicate IsAlpha(c: Byte) { 'a' <= Lower(c) <= 'z' }
  predicate IsNum(c: Byte) { '0' <= c <= '9' }
  function Digit(c: Byte): nat requires IsNum(c) { c as int - '0' as int }

  /** The lower-cased token character, or NUL for a byte that is no token character. */
  function Token(c: Byte): Byte {
    if 'A' <= c <= 'Z' then Lower(c)
    else if 'a' <= c <= 'z' || IsNum(c) || c in "!#$%&'*+-.^_`|~" then c
    else '\0'
  }

  /** The value of a hexadecimal digit; the table has entries for ASCII only, and the rest of it reads as zero. */
  function Unhex(c: Byte): Option<nat> {
    if IsNum(c) then Some(Digit(c))
    else if 'A' <= c <= 'F' then Some(c as int - 'A' as int + 10)
    else if 'a' <= c <= 'f' then Some(c as int - 'a' as int + 10)
    else if c as int >= 128 then Some(0)
    else None
  }

  predicate IsUrlChar(c: Byte) { '!' <= c <= '~' && c != '#' && c != '?' }
  predicate IsUserInfoChar(c: Byte) { IsAlpha(c) || IsNum(c) || c in "-_.!~*'()%;:&=+$," }

  // ----- the URL states -----

  predicate IsUrlState(s: State) {
    match s
    case Schema | SchemaSlash | SchemaSlashSlash | ServerStart | Server | ServerWithAt
    | Path | QueryStart | Query | FragmentStart | Fragment => true
    case _ => false
  }

  /** `parse_url_char`: the next URL state, or Dead. */
  function ParseUrlChar(s: State, c: Byte): (r: State)
    ensures r == Dead || IsUrlState(r)
  {
    if c == ' ' || c == '\r' || c == '\n' || c == '\t' || c as int == 12 then Dead
    else match s
      case SpacesBeforeUrl => if c == '/' || c == '*' then Path else if IsAlpha(c) then Schema else Dead
      case Schema => if IsAlpha(c) then Schema else if c == ':' then SchemaSlash else Dead
      case SchemaSlash => if c == '/' then SchemaSlashSlash else Dead
      case SchemaSlashSlash => if c == '/' then ServerStart else Dead
      case ServerWithAt => if c == '@' then Dead else ServerChar(c)
      case ServerStart => ServerChar(c)
      case Server => ServerChar(c)
      case Path => if IsUrlChar(c) then Path else if c == '?' then QueryStart else if c == '#' then FragmentStart else Dead
      case QueryStart => QueryChar(c)
      case Query => QueryChar(c)
      case FragmentStart => if IsUrlChar(c) || c == '?' then Fragment else if c == '#' then FragmentStart else Dead
      case Fragment => if IsUrlChar(c) || c == '?' || c == '#' then Fragment else Dead
      case _ => Dead
  }

  function ServerChar(c: Byte): State {
    if c == '/' then Path else if c == '?' then QueryStart else if c == '@' then ServerWithAt
    else if IsUserInfoChar(c) || c == '[' || c == ']' then Server else Dead
  }

  function QueryChar(c: Byte): State {
    if IsUrlChar(c) || c == '?' then Query else if c == '#' then FragmentStart else Dead
  }

  function UrlStep(p: Parser, s: State, c: Byte, mark: Option<Kind>): Turn {
    var s' := ParseUrlChar(s, c);
    if s' == Dead then Error(p.(state := Dead), INVALID_URL)
    else Turn(p.(state := s'), mark, None, None, Break)
  }

  function UrlTurn(p: Parser, c: Byte): Turn {
    match p.state
    case SpacesBeforeUrl =>
      if c == ' ' then Take(p, p.state)
      else UrlStep(p, if p.mtd == CONNECT then ServerStart else SpacesBeforeUrl, c, Some(UrlData))
    case Schema | SchemaSlash | SchemaSlashSlash | ServerStart =>
      if c == ' ' || c == '\r' || c == '\n' then Error(p, INVALID_URL) else UrlStep(p, p.state, c, None)
    case _ =>
      if c == ' ' then Turn(p.(state := HttpStart), None, Some(UrlData), None, Break)
      else if c == '\r' || c == '\n' then
        Turn(p.(major := 0, minor := 9, state := if c == '\r' then LineAlmostDone else FieldStart),
             None, Some(UrlData), None, Break)
      else UrlStep(p, p.state, c, None)
  }

  // ----- the request line around the URL -----

  function Name(m: Method): seq<Byte> {
    match m
    case DELETE => "DELETE" case GET => "GET" case HEAD => "HEAD" case POST => "POST" case PUT => "PUT"
    case CONNECT => "CONNECT" case OPTIONS => "OPTIONS" case TRACE => "TRACE" case COPY => "COPY" case LOCK => "LOCK"
    case MKCOL => "MKCOL" case MOVE => "MOVE" case PROPFIND => "PROPFIND" case PROPPATCH => "PROPPATCH"
    case SEARCH => "SEARCH" case UNLOCK => "UNLOCK" case REPORT => "REPORT" case MKACTIVITY => "MKACTIVITY"
    case CHECKOUT => "CHECKOUT" case MERGE => "MERGE" case MSEARCH => "M-SEARCH" case NOTIFY => "NOTIFY"
    case SUBSCRIBE => "SUBSCRIBE" case UNSUBSCRIBE => "UNSUBSCRIBE" case PATCH => "PATCH" case PURGE => "PURGE"
    case MKCALENDAR => "MKCALENDAR"
  }

  /** The character at `i` of a NUL-terminated text. */
  function CharAt(s: string, i: nat): char { if i < |s| then s[i] else '\0' }

  function FirstMethod(c: Byte): Option<Method> {
    match c
    case 'C' => Some(CONNECT) case 'D' => Some(DELETE) case 'G' => Some(GET) case 'H' => Some(HEAD)
    case 'L' => Some(LOCK) case 'M' => Some(MKCOL) case 'N' => Some(NOTIFY) case 'O' => Some(OPTIONS)
    case 'P' => Some(POST) case 'R' => Some(REPORT) case 'S' => Some(SUBSCRIBE) case 'T' => Some(TRACE)
    case 'U' => Some(UNLOCK)
    case _ => None
  }

  /** The method to switch to when the byte at `index` is not the current method's. */
  function SwitchMethod(m: Method, index: nat, c: Byte): Option<Method> {
    if m == CONNECT then
      if index == 1 && c == 'H' then Some(CHECKOUT) else if index == 2 && c == 'P' then Some(COPY) else None
    else if m == MKCOL then
      if index == 1 && c == 'O' then Some(MOVE) else if index == 1 && c == 'E' then Some(MERGE)
      else if index == 1 && c == '-' then Some(MSEARCH) else if index == 2 && c == 'A' then Some(MKACTIVITY)
      else if index == 3 && c == 'A' then Some(MKCALENDAR) else None
    else if m == SUBSCRIBE then if index == 1 && c == 'E' then Some(SEARCH) else None
    else if index == 1 && m == POST then
      if c == 'R' then Some(PROPFIND) else if c == 'U' then Some(PUT) else if c == 'A' then Some(PATCH) else None
    else if index == 2 then
      if m == PUT then if c == 'R' then Some(PURGE) else None
      else if m == UNLOCK then if c == 'S' then Some(UNSUBSCRIBE) else None
      else None
    else if index == 4 && m == PROPFIND && c == 'P' then Some(PROPPATCH)
    else None
  }

  function MethodTurn(p: Parser, c: Byte): Turn {
    match p.state
    case StartReq =>
      if c == '\r' || c == '\n' then Take(p, StartReq) else
        var q := p.(flags := NO_FLAGS, length := NO_LENGTH);
        if !IsAlpha(c) then Error(q, INVALID_METHOD) else
          (match FirstMethod(c)
           case None => Error(q.(mtd := DELETE, index := 1), INVALID_METHOD)
           case Some(m) => Turn(q.(mtd := m, index := 1, state := ReqMethod), None, None, Some(MessageBegin), Break))
    case _ =>
      if c == '\0' then Error(p, INVALID_METHOD) else
        var next := p.(index := p.index + 1);
        var expected := CharAt(Name(p.mtd), p.index);
        if c == ' ' && expected == '\0' then Take(next, SpacesBeforeUrl)
        else if c == expected then Take(next, ReqMethod)
        else (match SwitchMethod(p.mtd, p.index, c)
              case None => Error(p, INVALID_METHOD)
              case Some(m) => Take(next.(mtd := m), ReqMethod))
  }

  function LineTurn(p: Parser, c: Byte): Turn {
    match p.state
    case HttpStart => if c == 'H' then Take(p, HttpH) else if c == ' ' then Take(p, HttpStart) else Error(p, INVALID_CONSTANT)
    case HttpH => Require(p, c == 'T', HttpHT)
    case HttpHT => Require(p, c == 'T', HttpHTT)
    case HttpHTT => Require(p, c == 'P', HttpHTTP)
    case HttpHTTP => Require(p, c == '/', FirstMajor)
    case FirstMajor =>
      if !('1' <= c <= '9') then Error(p, INVALID_VERSION) else Take(p.(major := Digit(c)), Major)
    case Major =>
      if c == '.' then Take(p, FirstMinor)
      else if !IsNum(c) then Error(p, INVALID_VERSION)
      else
        var q := p.(major := p.major * 10 + Digit(c));
        if q.major > 999 then Error(q, INVALID_VERSION) else Take(q, Major)
    case FirstMinor => if !IsNum(c) then Error(p, INVALID_VERSION) else Take(p.(minor := Digit(c)), Minor)
    case Minor =>
      if c == '\r' then Take(p, LineAlmostDone)
      else if c == '\n' then Take(p, FieldStart)
      else if !IsNum(c) then Error(p, INVALID_VERSION)
      else
        var q := p.(minor := p.minor * 10 + Digit(c));
        if q.minor > 999 then Error(q, INVALID_VERSION) else Take(q, Minor)
    case _ => if c != '\n' then Error(p, LF_EXPECTED) else Take(p, FieldStart)
  }

  // ----- header fields -----

  function FieldStartTurn(p: Parser, c: Byte): Turn {
    if c == '\r' then Take(p, HeadersAlmostDone)
    else if c == '\n' then Redo(p, HeadersAlmostDone)
    else
      var t := Token(c);
      if t == '\0' then Error(p, INVALID_HEADER_TOKEN)
      else
        var h := if t == 'c' then HC else if t == 'p' then MatchProxyConnection
                 else if t == 't' then MatchTransferEncoding else if t == 'u' then MatchUpgrade else General;
        Turn(p.(index := 0, state := Field, hstate := h), Some(FieldData), None, None, Break)
  }

  /** One more character of a known name: stay, give up, or reach its last character. */
  function MatchName(p: Parser, name: string, c: Byte, full: HeaderState): Parser {
    var q := p.(index := p.index + 1);
    if q.index > |name| || c != CharAt(name, q.index) then q.(hstate := General)
    else if q.index == |name| - 1 then q.(hstate := full)
    else q
  }

  /** What a token character does to the header state; the impossible states are left as they are. */
  function FieldChar(p: Parser, t: Byte): Parser {
    match p.hstate
    case General => p
    case HC => p.(index := p.index + 1, hstate := if t == 'o' then HCO else General)
    case HCO => p.(index := p.index + 1, hstate := if t == 'n' then HCON else General)
    case HCON =>
      p.(index := p.index + 1,
         hstate := if t == 'n' then MatchConnection else if t == 't' then MatchContentLength else General)
    case MatchConnection => MatchName(p, "connection", t, Connection)
    case MatchProxyConnection => MatchName(p, "proxy-connection", t, Connection)
    case MatchContentLength => MatchName(p, "content-length", t, ContentLength)
    case MatchTransferEncoding => MatchName(p, "transfer-encoding", t, TransferEncoding)
    case MatchUpgrade => MatchName(p, "upgrade", t, Upgrade)
    case Connection | ContentLength | TransferEncoding | Upgrade => p.(hstate := General)
    case _ => p
  }

  function FieldTurn(p: Parser, c: Byte): Turn {
    var t := Token(c);
    if t != '\0' then Take(FieldChar(p, t), Field)
    else if c == ':' then Turn(p.(state := ValueDiscardWs), None, Some(FieldData), None, Break)
    else if c == '\r' then Turn(p.(state := HeaderAlmostDone), None, Some(FieldData), None, Break)
    else if c == '\n' then Turn(p.(state := FieldStart), None, Some(FieldData), None, Break)
    else Error(p, INVALID_HEADER_TOKEN)
  }

  // ----- header values -----

  function ValueStartTurn(p: Parser, c: Byte): Turn {
    var q := p.(state := Value, index := 0);
    var l := Lower(c);
    match p.hstate
    case Upgrade => Marked(q.(flags := q.flags.(upgrade := true), hstate := General))
    case TransferEncoding => Marked(q.(hstate := if l == 'c' then MatchChunked else General))
    case ContentLength => if !IsNum(c) then Error(q, INVALID_CONTENT_LENGTH) else Marked(q.(length := Digit(c)))
    case Connection => Marked(q.(hstate := if l == 'k' then MatchKeepAlive else if l == 'c' then MatchClose else General))
    case _ => Marked(q.(hstate := General))
  }

  function Marked(p: Parser): Turn { Turn(p, Some(ValueData), None, None, Break) }

  function ValueChar(p: Parser, c: Byte): Turn {
    match p.hstate
    case General | Connection | TransferEncoding => Take(p, Value)
    case ContentLength =>
      if c == ' ' then Take(p, Value)
      else if !IsNum(c) then Error(p, INVALID_CONTENT_LENGTH)
      else if (NO_LENGTH - 10) / 10 < p.length then Error(p, INVALID_CONTENT_LENGTH)
      else Take(p.(length := p.length * 10 + Digit(c)), Value)
    case MatchChunked => Take(MatchName(p, "chunked", Lower(c), Chunked), Value)
    case MatchKeepAlive => Take(MatchName(p, "keep-alive", Lower(c), KeepAlive), Value)
    case MatchClose => Take(MatchName(p, "close", Lower(c), Close), Value)
    case Chunked | KeepAlive | Close => Take(if c != ' ' then p.(hstate := General) else p, Value)
    case _ => Take(p.(hstate := General), Value)
  }

  function HeaderFlags(p: Parser): Flags {
    match p.hstate
    case KeepAlive => p.flags.(keepAlive := true)
    case Close => p.flags.(close := true)
    case Chunked => p.flags.(chunked := true)
    case _ => p.flags
  }

  function ValueTurn(p: Parser, c: Byte): Turn {
    match p.state
    case ValueDiscardWs =>
      if c == ' ' || c == '\t' then Take(p, ValueDiscardWs)
      else if c == '\r' then Take(p, ValueDiscardWsAlmostDone)
      else if c == '\n' then Take(p, ValueDiscardLws)
      else ValueStartTurn(p, c)
    case ValueStart => ValueStartTurn(p, c)
    case Value =>
      if c == '\r' then Turn(p.(state := HeaderAlmostDone), None, Some(ValueData), None, Break)
      else if c == '\n' then Turn(p.(state := HeaderAlmostDone), None, Some(ValueData), None, Again)
      else ValueChar(p, c)
    case HeaderAlmostDone => Require(p, c == '\n', ValueLws)
    case ValueLws =>
      if c == ' ' || c == '\t' then Redo(p, ValueStart) else Redo(p.(flags := HeaderFlags(p)), FieldStart)
    case ValueDiscardWsAlmostDone => Require(p, c == '\n', ValueDiscardLws)
    case _ =>
      if c == ' ' || c == '\t' then Take(p, ValueDiscardWs)
      else Turn(p.(state := FieldStart), Some(ValueData), Some(ValueData), None, Again)
  }

  // ----- the end of the headers, chunk framing, and the end of a message -----

  function ShouldKeepAlive(p: Parser): bool {
    if p.major > 0 && p.minor > 0 then !p.flags.close else p.flags.keepAlive
  }

  function NewMessage(p: Parser): State { if ShouldKeepAlive(p) then StartReq else Dead }

  function Complete(p: Parser, next: Next): Turn {
    Turn(p.(state := NewMessage(p)), None, None, Some(MessageComplete), next)
  }

  function EndTurn(p: Parser, c: Byte): Turn {
    match p.state
    case HeadersAlmostDone =>
      if c != '\n' then Error(p, STRICT)
      else if p.flags.trailing then Complete(p, Break)
      else Turn(p.(state := HeadersDone, upgrade := p.flags.upgrade || p.mtd == CONNECT),
                None, None, Some(HeadersComplete), Again)
    case HeadersDone =>
      if c != '\n' then Error(p, STRICT) else
        var q := p.(nread := 0);
        if q.upgrade then Complete(q, Exit)
        else if q.flags.chunked then Take(q, ChunkSizeStart)
        else if q.length == 0 then Complete(q, Break)
        else if q.length != NO_LENGTH then Take(q, BodyIdentity)
        else Complete(q, Break)
    case _ => Complete(p, Break)
  }

  function ChunkTurn(p: Parser, c: Byte): Turn {
    match p.state
    case ChunkSizeStart =>
      (match Unhex(c)
       case None => Error(p, INVALID_CHUNK_SIZE)
       case Some(v) => Take(p.(length := v), ChunkSize))
    case ChunkSize =>
      if c == '\r' then Take(p, ChunkSizeAlmostDone) else
        (match Unhex(c)
         case None => if c == ';' || c == ' ' then Take(p, ChunkParameters) else Error(p, INVALID_CHUNK_SIZE)
         case Some(v) =>
           if (NO_LENGTH - 16) / 16 < p.length then Error(p, INVALID_CONTENT_LENGTH)
           else Take(p.(length := p.length * 16 + v), ChunkSize))
    case ChunkParameters => Take(p, if c == '\r' then ChunkSizeAlmostDone else ChunkParameters)
    case ChunkSizeAlmostDone =>
      if c != '\n' then Error(p, STRICT) else
        var q := p.(nread := 0);
        if q.length == 0 then Take(q.(flags := q.flags.(trailing := true)), FieldStart) else Take(q, ChunkData)
    case ChunkDataAlmostDone =>
      if c != '\r' then Error(p, STRICT)
      else Turn(p.(state := ChunkDataDone), None, Some(BodyData), None, Break)
    case _ =>
      if c != '\n' then Error(p, STRICT) else Take(p.(nread := 0), ChunkSizeStart)
  }

  // ----- one pass of the switch -----

  /** The two states that take body bytes in bulk are not passes over one byte. */
  predicate TakesBody(s: State) { s == BodyIdentity || s == ChunkData }

  function Switch(p: Parser, c: Byte): Turn
    requires !TakesBody(p.state)
  {
    match p.state
    case Dead => if c == '\r' || c == '\n' then Take(p, Dead) else Error(p, CLOSED_CONNECTION)
    case StartReq | ReqMethod => MethodTurn(p, c)
    case SpacesBeforeUrl | Schema | SchemaSlash | SchemaSlashSlash | ServerStart
    | Server | ServerWithAt | Path | QueryStart | Query | FragmentStart | Fragment => UrlTurn(p, c)
    case HttpStart | HttpH | HttpHT | HttpHTT | HttpHTTP | FirstMajor | Major | FirstMinor | Minor
    | LineAlmostDone => LineTurn(p, c)
    case FieldStart => FieldStartTurn(p, c)
    case Field => FieldTurn(p, c)
    case ValueDiscardWs | ValueDiscardWsAlmostDone | ValueDiscardLws | ValueStart | Value | ValueLws
    | HeaderAlmostDone => ValueTurn(p, c)
    case HeadersAlmostDone | HeadersDone | MessageDone => EndTurn(p, c)
    case ChunkSizeStart | ChunkSize | ChunkParameters | ChunkSizeAlmostDone | ChunkDataAlmostDone
    | ChunkDataDone => ChunkTurn(p, c)
    case _ => Error(p, STRICT)
  }

  /** Header bytes are counted against the size limit before the switch sees them. */
  predicate ParsingHeader(s: State) {
    match s
    case ChunkData | ChunkDataAlmostDone | ChunkDataDone | BodyIdentity | MessageDone => false
    case _ => true
  }

  function Counted(p: Parser): Parser {
    if !ParsingHeader(p.state) then p
    else if p.nread + 1 > MAX_HEADER_SIZE then p.(nread := p.nread + 1, errno := HEADER_OVERFLOW)
    else p.(nread := p.nread + 1)
  }
}
