/** Requests as a client writes them, byte for byte, and the request object the server makes of them. */
module HttpClient {
  import opened Common
  import opened HttpModel
  import opened HttpBytes
  import opened HttpTrace
  import opened HttpMachine
  import opened HttpMethods
  import opened HttpHeaders
  import opened HttpValues
  import opened HttpFraming
  import opened HttpTargets
  import opened HttpHeaderLines
  import opened HttpRequestLine
  import opened HttpRoundTrip
  import opened HttpHandler
  import opened HttpRequestObject
  import opened HttpCharacters
  import opened HttpUris
  import opened HttpWords
  import opened Numerals

  // ----- methods -----

  /** The first words that the server knows, in the order of their numbers. */
  const VERBS: seq<Text> := [
    "DELETE", "GET", "HEAD", "POST", "PUT", "CONNECT", "OPTIONS", "TRACE", "COPY", "LOCK", "MKCOL", "MOVE", "PROPFIND"]
  const MORE_VERBS: seq<Text> := [
    "PROPPATCH", "SEARCH", "UNLOCK", "REPORT", "MKACTIVITY", "CHECKOUT", "MERGE", "M-SEARCH", "NOTIFY", "SUBSCRIBE",
    "UNSUBSCRIBE", "PATCH", "PURGE", "MKCALENDAR"]

  function Verb(n: nat): Text
    requires n < 27
  {
    if n < 13 then VERBS[n] else MORE_VERBS[n - 13]
  }

  function NumberOf(m: Method): (n: nat)
    ensures n < 27
  {
    match m
    case DELETE => 0 case GET => 1 case HEAD => 2 case POST => 3 case PUT => 4 case CONNECT => 5 case OPTIONS => 6
    case TRACE => 7 case COPY => 8 case LOCK => 9 case MKCOL => 10 case MOVE => 11 case PROPFIND => 12
    case PROPPATCH => 13 case SEARCH => 14 case UNLOCK => 15 case REPORT => 16 case MKACTIVITY => 17
    case CHECKOUT => 18 case MERGE => 19 case MSEARCH => 20 case NOTIFY => 21 case SUBSCRIBE => 22
    case UNSUBSCRIBE => 23 case PATCH => 24 case PURGE => 25 case MKCALENDAR => 26
  }

  /** The parser's method is known by its number, and its name is the word with that number. */
  lemma NamesAreVerbs(m: Method)
    ensures Name(m) == Verb(NumberOf(m))
  {
    hide Name;
    hide NumberOf;
    hide Verb;
    if IsEarly(m) { EarlyVerbs(m); } else { LateVerbs(m); }
  }

  lemma EarlyVerbs(m: Method)
    requires IsEarly(m)
    ensures Name(m) == Verb(NumberOf(m))
  {}

  lemma LateVerbs(m: Method)
    requires !IsEarly(m)
    ensures Name(m) == Verb(NumberOf(m))
  {}

  // ----- what a client writes -----

  /** A header with its value on one line. */
  datatype Entry = Entry(name: seq<Byte>, value: seq<Byte>)

  /** A body behind its length, or in chunks whose sizes are written in small or capital letters. */
  datatype Body = Whole(bytes: seq<Byte>) | Pieces(chunks: seq<seq<Byte>>, capital: bool)

  datatype ClientRequest = ClientRequest(mtd: Method, target: Local, fields: seq<Entry>, body: Body)

  const NEW_LINE: seq<Byte> := [13 as char, 10 as char]

  function FieldLine(f: Entry): seq<Byte> { f.name + (": " + (f.value + NEW_LINE)) }

  function FieldLines(fs: seq<Entry>): seq<Byte> { if fs == [] then [] else FieldLine(fs[0]) + FieldLines(fs[1..]) }

  function BodyField(b: Body): Entry {
    match b
    case Whole(bytes) => Entry("Content-Length", Numeral(|bytes|, 10, false))
    case Pieces(_, _) => Entry("Transfer-Encoding", "chunked")
  }

  function ChunkText(bytes: seq<Byte>, capital: bool): seq<Byte> {
    Numeral(|bytes|, 16, capital) + (NEW_LINE + (bytes + NEW_LINE))
  }

  function ChunksText(chunks: seq<seq<Byte>>, capital: bool): seq<Byte> {
    if chunks == [] then "0" + NEW_LINE else ChunkText(chunks[0], capital) + ChunksText(chunks[1..], capital)
  }

  function BodyWritten(b: Body): seq<Byte> {
    match b
    case Whole(bytes) => bytes
    case Pieces(chunks, capital) => ChunksText(chunks, capital) + NEW_LINE
  }

  function HeadText(c: ClientRequest): seq<Byte> {
    Verb(NumberOf(c.mtd)) + (" " + (LocalText(c.target) + (" HTTP/1.1" + NEW_LINE)))
    + (FieldLines(c.fields + [BodyField(c.body)]) + NEW_LINE)
  }

  function ClientText(c: ClientRequest): seq<Byte> { HeadText(c) + BodyWritten(c.body) }

  // ----- what may be written -----

  /** The headers that the server acts on are the client's own business. */
  predicate IsOrdinary(name: seq<Byte>) {
    && !SameIgnoringCase(name, "connection") && !SameIgnoringCase(name, "proxy-connection") && !SameIgnoringCase(name, "upgrade")
    && !SameIgnoringCase(name, "content-length") && !SameIgnoringCase(name, "transfer-encoding")
  }

  /** A token for a name, and a value of one line that does not start with a blank. */
  predicate IsField(f: Entry) {
    && f.name != [] && (forall i :: 0 <= i < |f.name| ==> IsTchar(f.name[i])) && IsOrdinary(f.name)
    && f.value != [] && f.value[0] as int != 0x20 && f.value[0] as int != 0x09
    && (forall i :: 0 <= i < |f.value| ==> f.value[i] as int != 0x0D && f.value[i] as int != 0x0A)
  }

  predicate IsBody(b: Body) {
    match b
    case Whole(bytes) => |bytes| <= 18446744073709551609
    case Pieces(chunks, _) =>
      forall i :: 0 <= i < |chunks| ==> chunks[i] != [] && |chunks[i]| <= 0xFFFF_FFFF_FFFF_FFEF
  }

  predicate IsRequest(c: ClientRequest) {
    && c.mtd != CONNECT && IsLocal(c.target) && c.target.fragment.None? && (forall i :: 0 <= i < |c.fields| ==> IsField(c.fields[i]))
    && IsBody(c.body) && |HeadText(c)| <= 81920
  }

  // ----- the message it is -----

  function AsHeader(f: Entry): Header { Header(f.name, [' '], f.value, []) }

  function AsHeaders(fs: seq<Entry>): seq<Header> { seq(|fs|, i requires 0 <= i < |fs| => AsHeader(fs[i])) }

  function AsChunk(bytes: seq<Byte>, capital: bool): Chunk { Chunk(Numeral(|bytes|, 16, capital), [], bytes) }

  function AsChunks(chunks: seq<seq<Byte>>, capital: bool): seq<Chunk> {
    if chunks == [] then [] else [AsChunk(chunks[0], capital)] + AsChunks(chunks[1..], capital)
  }

  function AsPayload(b: Body): Payload {
    match b
    case Whole(bytes) => Bytes(bytes)
    case Pieces(chunks, capital) =>
      Chunks(AsChunks(chunks, capital), Chunk("0", [], []), [])
  }

  function AsMessage(c: ClientRequest): Message {
    Message(Start(c.mtd, LocalText(c.target), Version("1", "1")), AsHeaders(c.fields + [BodyField(c.body)]), AsPayload(c.body))
  }

  lemma {:induction false} LinesAreWritten(fs: seq<Entry>)
    ensures Lines(AsHeaders(fs)) == FieldLines(fs)
  {
    if fs != [] {
      LinesAreWritten(fs[1..]);
      assert AsHeaders(fs)[1..] == AsHeaders(fs[1..]);
      var f := fs[0];
      assert Line(AsHeader(f)) == FieldLine(f);
    }
  }

  lemma VersionIsWritten()
    ensures VersionText(Version("1", "1")) == " HTTP/1.1" + NEW_LINE
  {}

  lemma BlankBetween(a: seq<Byte>, b: seq<Byte>)
    ensures (a + [' ']) + b == a + (" " + b)
  {}

  lemma StartIsWritten(mtd: Method, u: seq<Byte>)
    ensures StartText(Start(mtd, u, Version("1", "1"))) == Verb(NumberOf(mtd)) + (" " + (u + (" HTTP/1.1" + NEW_LINE)))
  {
    hide Name;
    hide Verb;
    hide NumberOf;
    hide VersionText;
    NamesAreVerbs(mtd);
    VersionIsWritten();
    BlankBetween(Name(mtd), u + VersionText(Version("1", "1")));
  }

  lemma HeadIsWritten(c: ClientRequest)
    ensures Head(AsMessage(c)) == HeadText(c)
  {
    hide Verb;
    hide NumberOf;
    hide StartText;
    hide LocalText;
    hide FieldLines;
    hide Lines;
    hide AsHeaders;
    hide BodyField;
    hide AsPayload;
    StartIsWritten(c.mtd, LocalText(c.target));
    LinesAreWritten(c.fields + [BodyField(c.body)]);
  }

  lemma {:induction false} ChunksAreWritten(chunks: seq<seq<Byte>>, capital: bool)
    ensures AllWritten(AsChunks(chunks, capital)) + WrittenSize(Chunk("0", [], [])) == ChunksText(chunks, capital)
    decreases |chunks|
  {
    var last := WrittenSize(Chunk("0", [], []));
    if chunks == [] {
      assert [] + last == last == "0" + NEW_LINE;
    } else {
      ChunksAreWritten(chunks[1..], capital);
      var one := AsChunk(chunks[0], capital);
      assert AsChunks(chunks, capital)[1..] == AsChunks(chunks[1..], capital);
      assert Written(one) == ChunkText(chunks[0], capital);
      hide Written;
      hide WrittenSize;
      assert Written(one) + AllWritten(AsChunks(chunks[1..], capital)) + last
             == Written(one) + (AllWritten(AsChunks(chunks[1..], capital)) + last);
    }
  }

  /** The message's text is what the client writes. */
  lemma MessageIsWritten(c: ClientRequest)
    ensures WrittenOut(AsMessage(c)) == ClientText(c)
  {
    HeadIsWritten(c);
    hide Head;
    hide HeadText;
    if c.body.Pieces? {
      ChunksAreWritten(c.body.chunks, c.body.capital);
      assert Lines([]) + CRLF == NEW_LINE;
    }
  }

  // ----- what its headers mean -----

  lemma FieldIsGood(m: Meant, f: Entry)
    requires IsField(f)
    ensures GoodHeader(AsHeader(f)) && Learned(m, AsHeader(f)) == m
  {
    forall i | 0 <= i < |f.name| ensures IsToken(f.name[i]) { TokenCharacters(f.name[i]); }
    OneBlank();
    KnownNames(f.name);
    hide SameIgnoringCase;
    hide Lowered;
    hide IsToken;
    hide IsTchar;
    hide IsPad;
    assert GoodHeader(AsHeader(f));
    HeaderMeans(m, AsHeader(f));
    hide Learned;
    hide Says;
    hide GoodHeader;
  }

  lemma OneBlank()
    ensures IsPad([' '])
  {
    assert [' '][1..] == [];
  }

  lemma {:induction false} FieldsAreGood(m: Meant, fs: seq<Entry>, b: Header)
    requires (forall i :: 0 <= i < |fs| ==> IsField(fs[i])) && GoodHeader(b)
    ensures AllGood(AsHeaders(fs) + [b]) && LearnedAll(m, AsHeaders(fs) + [b]) == Learned(m, b)
    decreases |fs|
  {
    hide IsField;
    hide GoodHeader;
    hide Learned;
    if fs == [] {
      assert AsHeaders(fs) + [b] == [b] && [b][1..] == [];
      assert LearnedAll(Learned(m, b), []) == Learned(m, b);
    } else {
      FieldIsGood(m, fs[0]);
      FieldsAreGood(m, fs[1..], b);
      assert (AsHeaders(fs) + [b])[1..] == AsHeaders(fs[1..]) + [b];
    }
  }

  // ----- the header that announces the body -----

  lemma {:induction false} NumeralIsDecimal(n: nat)
    ensures var ds := Numeral(n, 10, false); IsLength(ds) && WithoutBlanks(ds) == ds && forall i :: 0 <= i < |ds| ==> IsNum(ds[i])
  {
    if n < 10 {
      assert Numeral(n, 10, false)[1..] == [];
    } else {
      NumeralIsDecimal(n / 10);
      NoBlankBehind(Numeral(n / 10, 10, false), DigitFor(n % 10, false));
    }
  }

  lemma {:induction false} NoBlankBehind(ds: seq<Byte>, c: Byte)
    requires WithoutBlanks(ds) == ds && IsNum(c) && forall i :: 0 <= i < |ds| ==> IsNum(ds[i])
    ensures WithoutBlanks(ds + [c]) == ds + [c]
    decreases |ds|
  {
    if ds == [] {
      assert ds + [c] == [c] && [c][1..] == [];
    } else {
      assert (ds + [c])[1..] == ds[1..] + [c];
      assert [ds[0]] + WithoutBlanks(ds[1..]) == ds && WithoutBlanks(ds[1..]) == ds[1..];
      NoBlankBehind(ds[1..], c);
    }
  }

  lemma LengthName()
    ensures var name: seq<Byte> := "Content-Length"; IsName(name) && SameIgnoringCase(name, "content-length")
  {
    var name: seq<Byte> := "Content-Length";
    TokensAreName(name) by { assert forall i :: 0 <= i < |name| ==> IsTchar(name[i]); }
    hide IsName;
  }

  lemma TokensAreName(name: seq<Byte>)
    requires name != [] && forall i :: 0 <= i < |name| ==> IsTchar(name[i])
    ensures IsName(name)
  {
    hide IsTchar;
    hide IsToken;
    forall i | 0 <= i < |name| ensures IsToken(name[i]) { TokenCharacters(name[i]); }
  }

  lemma EncodingName()
    ensures var name: seq<Byte> := "Transfer-Encoding"; IsName(name) && SameIgnoringCase(name, "transfer-encoding")
  {
    var name: seq<Byte> := "Transfer-Encoding";
    TokensAreName(name) by { assert forall i :: 0 <= i < |name| ==> IsTchar(name[i]); }
    hide IsName;
    hide IsTchar;
  }

  lemma ChunkedSays()
    ensures Says("chunked", "chunked") && IsText("chunked")
  {
    var v: seq<Byte> := "chunked";
    assert v[..7] == v;
  }

  lemma NamedLength(m: Meant, name: seq<Byte>, ds: seq<Byte>)
    requires IsName(name) && SameIgnoringCase(name, "content-length") && IsNumber(ds)
    ensures var h := Header(name, [' '], ds, []); GoodHeader(h) && Learned(m, h) == m.(length := DecValue(0, ds))
  {
    OneBlank();
    KnownNames(name);
    DigitsAreText(ds);
    hide Lowered;
    hide IsName;
    hide IsPad;
    hide SameIgnoringCase;
    hide DecValue;
    hide IsText;
    hide IsNumber;
    IsNumberStarts(ds);
  }

  lemma IsNumberStarts(ds: seq<Byte>)
    requires IsNumber(ds)
    ensures ds != [] && IsLength(ds)
  {}

  lemma DigitsAreText(ds: seq<Byte>)
    requires IsNumber(ds)
    ensures IsText(ds)
  {}

  /** A length in decimal digits announces so many bytes. */
  lemma LengthAnnounces(m: Meant, n: nat)
    requires n <= 18446744073709551609
    ensures var h := Header("Content-Length", [' '], Numeral(n, 10, false), []);
            GoodHeader(h) && Learned(m, h) == m.(length := n)
  {
    hide Numeral;
    hide IsName;
    hide SameIgnoringCase;
    hide IsNumber;
    hide DecValue;
    hide GoodHeader;
    hide Learned;
    LengthName();
    DecimalIsNumber(n);
    NamedLength(m, "Content-Length", Numeral(n, 10, false));
  }

  lemma DecimalIsNumber(n: nat)
    requires n <= 18446744073709551609
    ensures var ds := Numeral(n, 10, false); IsNumber(ds) && DecValue(0, ds) == n
  {
    hide Numeral;
    hide ValueOf;
    hide DecValue;
    hide WithoutBlanks;
    NumeralIsDecimal(n);
    NumeralReads(n, 10, false);
    LargestLength();
    LengthIsNumber(0, Numeral(n, 10, false));
  }

  lemma NamedEncoding(m: Meant, name: seq<Byte>, v: seq<Byte>)
    requires IsName(name) && SameIgnoringCase(name, "transfer-encoding") && IsText(v) && v != [] && Says(v, "chunked")
    ensures var h := Header(name, [' '], v, []); GoodHeader(h) && Learned(m, h) == m.(flags := m.flags.(chunked := true))
  {
    OneBlank();
    KnownNames(name);
    KnownNamesDiffer(name);
    KnownWords(v);
    hide Lowered;
    hide IsName;
    hide IsPad;
    hide SameIgnoringCase;
    hide IsWord;
    hide Says;
    hide IsText;
  }

  lemma ChunkedAnnounces(m: Meant)
    ensures var h := Header("Transfer-Encoding", [' '], "chunked", []);
            GoodHeader(h) && Learned(m, h) == m.(flags := m.flags.(chunked := true))
  {
    hide IsName;
    hide SameIgnoringCase;
    hide Says;
    hide IsText;
    hide GoodHeader;
    hide Learned;
    EncodingName();
    ChunkedSays();
    NamedEncoding(m, "Transfer-Encoding", "chunked");
  }

  lemma KnownNamesDiffer(ds: seq<Byte>)
    ensures Lowered(ds) == LENGTH ==> Lowered(ds) != UPGRADE && Lowered(ds) != ENCODING && Lowered(ds) != CONNECTION && Lowered(ds) != PROXY
    ensures Lowered(ds) == ENCODING ==> Lowered(ds) != UPGRADE && Lowered(ds) != LENGTH && Lowered(ds) != CONNECTION && Lowered(ds) != PROXY
  {
    NamesDiffer();
  }

  // ----- chunk sizes -----

  function Pow16(k: nat): nat { if k == 0 then 1 else 16 * Pow16(k - 1) }

  lemma {:induction false} SizeIsShort(n: nat, k: nat, capital: bool)
    requires k > 0 && n < Pow16(k)
    ensures |Numeral(n, 16, capital)| <= k
    decreases k
  {
    if n >= 16 {
      assert k > 1;
      SizeIsShort(n / 16, k - 1, capital);
    }
  }

  lemma SixteenDigits()
    ensures Pow16(16) == 0x1_0000_0000_0000_0000
  {
    assert Pow16(4) == 0x1_0000 by { assert Pow16(2) == 256; }
    assert Pow16(8) == 0x1_0000_0000 by { assert Pow16(6) == 0x100_0000; }
    assert Pow16(12) == 0x1_0000_0000_0000 by { assert Pow16(10) == 0x100_0000_0000; }
    assert Pow16(14) == 0x100_0000_0000_0000;
  }

  lemma ChunkIsSized(bytes: seq<Byte>, capital: bool)
    requires |bytes| <= 0xFFFF_FFFF_FFFF_FFEF
    ensures WellSized(AsChunk(bytes, capital))
  {
    var n := |bytes|;
    SixteenDigits();
    SizeIsShort(n, 16, capital);
    SizeIsNumber(0, Numeral(n, 16, capital));
    NumeralReads(n, 16, capital);
    LargestLength();
    hide Numeral;
    hide HexValue;
    hide ValueOf;
    hide Pow16;
  }

  lemma {:induction false} ChunksAreSized(chunks: seq<seq<Byte>>, capital: bool)
    requires IsBody(Pieces(chunks, capital))
    ensures var cs := AsChunks(chunks, capital);
            |cs| == |chunks| && forall i :: 0 <= i < |cs| ==> WellSized(cs[i]) && cs[i].bytes != []
    decreases |chunks|
  {
    hide WellSized;
    if chunks != [] {
      ChunkIsSized(chunks[0], capital);
      ChunksAreSized(chunks[1..], capital);
    }
  }

  lemma LastIsSized()
    ensures WellSized(Chunk("0", [], []))
  {
    var zero: seq<Byte> := "0";
    assert zero[1..] == [];
    assert HexValue(0, zero) == HexValue(0, []) == 0;
  }

  // ----- from the client to the server's handler -----

  /** What the header for the body means, with ordinary headers before it. */
  lemma HeadersMean(c: ClientRequest, announced: Meant)
    requires forall i :: 0 <= i < |c.fields| ==> IsField(c.fields[i])
    requires var h := AsHeader(BodyField(c.body)); GoodHeader(h) && Learned(Meant(NO_FLAGS, NO_LENGTH), h) == announced
    ensures AllGood(AsMessage(c).headers) && HeadMeans(AsMessage(c)) == announced
  {
    hide GoodHeader;
    hide AllGood;
    hide Learned;
    hide LearnedAll;
    hide IsField;
    hide AsHeaders;
    hide BodyField;
    hide AsPayload;
    hide LocalText;
    SnocHeaders(c.fields, BodyField(c.body));
    FieldsAreGood(Meant(NO_FLAGS, NO_LENGTH), c.fields, AsHeader(BodyField(c.body)));
  }

  lemma SnocHeaders(fs: seq<Entry>, f: Entry)
    ensures AsHeaders(fs + [f]) == AsHeaders(fs) + [AsHeader(f)]
  {}

  /** What the header for a body says. */
  function Saying(b: Body): Meant {
    match b case Whole(bytes) => Meant(NO_FLAGS, |bytes|) case Pieces(_, _) => Meant(NO_FLAGS.(chunked := true), NO_LENGTH)
  }

  lemma BodyFieldSays(b: Body)
    requires IsBody(b)
    ensures var h := AsHeader(BodyField(b)); GoodHeader(h) && Learned(Meant(NO_FLAGS, NO_LENGTH), h) == Saying(b)
  {
    hide GoodHeader;
    hide Learned;
    hide Numeral;
    match b
    case Whole(bytes) => LengthAnnounces(Meant(NO_FLAGS, NO_LENGTH), |bytes|);
    case Pieces(_, _) => ChunkedAnnounces(Meant(NO_FLAGS, NO_LENGTH));
  }

  lemma BodyIsAnnounced(b: Body)
    requires IsBody(b)
    ensures Announced(AsPayload(b), Saying(b), false)
  {
    hide WellSized;
    hide Lines;
    hide AllGood;
    if b.Pieces? {
      ChunksAreSized(b.chunks, b.capital);
      LastIsSized();
      NoTrailers();
    }
  }

  lemma BodyFits(c: ClientRequest)
    requires IsRequest(c)
    ensures var m := AsMessage(c); AllGood(m.headers) && HeadMeans(m) == Saying(c.body) && Announced(m.payload, HeadMeans(m), false) && !Upgrades(m)
  {
    BodyFieldSays(c.body);
    BodyIsAnnounced(c.body);
    HeadersMean(c, Saying(c.body));
    hide Announced;
    hide GoodHeader;
    hide AllGood;
    hide Learned;
    hide HeadMeans;
    hide IsField;
    hide IsBody;
    hide IsLocal;
    hide HeadText;
    hide LocalText;
    hide AsHeaders;
    hide AsPayload;
    hide BodyField;
  }

  lemma NoTrailers()
    ensures AllGood([]) && Lines([]) == []
  {}

  lemma VersionIsGood()
    ensures GoodVersion(Version("1", "1")) && MajorOf(Version("1", "1")) == 1 && MinorOf(Version("1", "1")) == 1
  {
    var one: seq<Byte> := "1";
    assert one[1..] == [];
    assert DecValue(0, one) == DecValue(1, []) == 1;
  }

  lemma MessageIsFormed(c: ClientRequest)
    requires IsRequest(c)
    ensures WellFormed(0, AsMessage(c))
  {
    hide AllGood;
    hide HeadMeans;
    hide Announced;
    hide GoodVersion;
    hide Target;
    hide HeadText;
    hide LocalText;
    hide IsLocal;
    hide IsField;
    hide AsHeaders;
    hide AsPayload;
    hide BodyField;
    BodyFits(c);
    HeadIsWritten(c);
    VersionIsGood();
    LocalIsVisible(c.target);
    OriginTargets(LocalText(c.target));
    VisibleHasNoBreaks(LocalText(c.target));
  }

  /** The bytes of a body. */
  function BodyOf(b: Body): seq<Byte> { match b case Whole(bytes) => bytes case Pieces(chunks, _) => Together(chunks) }

  function Together(chunks: seq<seq<Byte>>): seq<Byte> { if chunks == [] then [] else chunks[0] + Together(chunks[1..]) }

  lemma {:induction false} BytesTogether(chunks: seq<seq<Byte>>, capital: bool)
    ensures AllBytes(AsChunks(chunks, capital)) == Together(chunks)
    decreases |chunks|
  {
    if chunks != [] {
      BytesTogether(chunks[1..], capital);
      assert AsChunks(chunks, capital)[1..] == AsChunks(chunks[1..], capital);
    }
  }

  function AsPairs(fs: seq<Entry>): seq<Pair> { seq(|fs|, i requires 0 <= i < |fs| => (fs[i].name, fs[i].value)) }

  lemma {:induction false} PairsAre(fs: seq<Entry>)
    ensures Pairs(AsHeaders(fs)) == AsPairs(fs)
  {
    if fs != [] {
      PairsAre(fs[1..]);
      assert AsHeaders(fs)[1..] == AsHeaders(fs[1..]);
      assert fs[0].value + [] == fs[0].value;
    }
  }

  /** What the handler is to get: target, the target's path, the headers with the one for the body, and the body. */
  function Expected(c: ClientRequest): Got {
    Got(LocalText(c.target), "/" + c.target.path, AsPairs(c.fields + [BodyField(c.body)]), BodyOf(c.body))
  }

  lemma {:induction false} EncodedHasNoMark(u: seq<Byte>)
    requires IsEncoded(u, IN_PATH)
    ensures '?' !in u
    decreases |u|
  {
    if u != [] {
      var n := if u[0] == '%' then 3 else 1;
      EncodedHasNoMark(u[n..]);
      assert u == u[..n] + u[n..];
    }
  }

  lemma {:induction false} UpToIs(s: seq<Byte>, rest: seq<Byte>)
    requires '?' !in s && (rest != [] ==> rest[0] == '?')
    ensures UpTo(s + rest, '?') == s
    decreases |s|
  {
    if s == [] {
      assert s + rest == rest;
    } else {
      assert (s + rest)[1..] == s[1..] + rest;
      UpToIs(s[1..], rest);
    }
  }

  lemma UrlIsPath(l: Local)
    requires IsLocal(l) && l.fragment.None?
    ensures UpTo(LocalText(l), '?') == "/" + l.path
  {
    EncodedHasNoMark(l.path);
    UpToIs("/" + l.path, Behind('?', l.query));
    assert LocalText(l) == ("/" + l.path) + Behind('?', l.query);
  }

  lemma AllHaveValues(c: ClientRequest)
    requires IsRequest(c)
    ensures var hs := AsMessage(c).headers; forall i :: 0 <= i < |hs| ==> hs[i].value != []
  {
    hide IsLocal;
    hide HeadText;
    hide IsOrdinary;
  }

  /**
   * From the client to the handler: a request written with its headers and its body, in one piece behind its length or
   * in chunks, comes out with target, path, headers and body as the client had them; the parser has the method that was
   * written, and is ready for the next request.
   */
  lemma ClientIsServed(c: ClientRequest)
    requires IsRequest(c)
    ensures Inv(NEW_PARSER, 0)
    ensures var f := Feed(NEW_PARSER, [], ClientText(c));
            && f.p.errno == OK && f.p.state == StartReq && NumberOf(f.p.mtd) == NumberOf(c.mtd) && f.p.major == 1 && f.p.minor == 1
            && !f.p.upgrade && ToRequest(HandleAll(EMPTY, f.tr)) == Expected(c)
  {
    MessageIsFormed(c);
    MessageIsWritten(c);
    NewIsReady();
    VersionIsGood();
    UrlIsPath(c.target);
    AllHaveValues(c);
    PairsAre(c.fields + [BodyField(c.body)]);
    if c.body.Pieces? { BytesTogether(c.body.chunks, c.body.capital); }
    BodyFits(c);
    NoTrailersIn(c);
    hide Feed;
    hide HandleAll;
    hide Inv;
    hide WellFormed;
    hide WrittenOut;
    hide AllGood;
    hide GoodVersion;
    hide HeadMeans;
    hide LocalText;
    hide IsRequest;
    hide Announced;
    hide Kept;
    hide AsHeaders;
    RequestRoundTrip(NEW_PARSER, [], AsMessage(c));
  }

  lemma NewIsReady()
    ensures Inv(NEW_PARSER, 0) && NEW_PARSER.errno == OK && NEW_PARSER.state == StartReq && NEW_PARSER.nread == 0
  {}

  lemma NoTrailersIn(c: ClientRequest)
    ensures Trailers(AsMessage(c).payload) == []
  {}
}
