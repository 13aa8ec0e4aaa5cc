/** Which header names the parser recognises. */
module HttpHeaders {
  import opened Common
  import opened HttpModel
  import opened HttpBytes
  import opened HttpTrace
  import opened HttpMachine

  const CONNECTION := "connection"
  const PROXY := "proxy-connection"
  const LENGTH := "content-length"
  const ENCODING := "transfer-encoding"
  const UPGRADE := "upgrade"

  /** `l` starts one of the names the parser knows. */
  predicate StartsName(l: seq<Byte>) { l <= CONNECTION || l <= PROXY || l <= LENGTH || l <= ENCODING || l <= UPGRADE }

  /** `l` is a proper start of the name, and the index is that of its last character. */
  predicate Within(l: seq<Byte>, name: string, least: nat, index: nat) {
    least <= |l| < |name| && l <= name && index == |l| - 1
  }

  /** What the header state says about the lower-cased name read so far. */
  predicate Tracks(h: HeaderState, index: nat, l: seq<Byte>) {
    match h
    case General => !StartsName(l)
    case HC => l == "c" && index == 0
    case HCO => l == "co" && index == 1
    case HCON => l == "con" && index == 2
    case MatchConnection => Within(l, CONNECTION, 4, index)
    case MatchProxyConnection => Within(l, PROXY, 1, index)
    case MatchContentLength => Within(l, LENGTH, 4, index)
    case MatchTransferEncoding => Within(l, ENCODING, 1, index)
    case MatchUpgrade => Within(l, UPGRADE, 1, index)
    case Connection => l == CONNECTION || l == PROXY
    case ContentLength => l == LENGTH
    case TransferEncoding => l == ENCODING
    case Upgrade => l == UPGRADE
    case _ => false
  }

  /** A longer text starts a name only if the shorter one does. */
  lemma PrefixCut(l: seq<Byte>, c: Byte, name: string)
    requires l + [c] <= name
    ensures l <= name && |l| < |name| && name[|l|] == c
  {
    assert (l + [c])[|l|] == name[|l|];
    assert l == (l + [c])[..|l|] == name[..|l|];
  }

  lemma PrefixGrows(l: seq<Byte>, c: Byte, name: string)
    requires l <= name && |l| < |name|
    ensures l + [c] <= name <==> name[|l|] == c
  {
    if name[|l|] == c { assert l + [c] == name[..|l| + 1]; } else if l + [c] <= name { PrefixCut(l, c, name); }
  }

  lemma StaysUnknown(l: seq<Byte>, c: Byte)
    requires !StartsName(l)
    ensures !StartsName(l + [c])
  {
    if l + [c] <= CONNECTION { PrefixCut(l, c, CONNECTION); }
    if l + [c] <= PROXY { PrefixCut(l, c, PROXY); }
    if l + [c] <= LENGTH { PrefixCut(l, c, LENGTH); }
    if l + [c] <= ENCODING { PrefixCut(l, c, ENCODING); }
    if l + [c] <= UPGRADE { PrefixCut(l, c, UPGRADE); }
  }

  /** One more character of a name being matched. */
  lemma MatchStep(p: Parser, name: string, c: Byte, full: HeaderState, l: seq<Byte>)
    requires l <= name && 1 <= |l| < |name| && p.index == |l| - 1
    ensures var q := MatchName(p, name, c, full);
            && q.index == |l|
            && (if name[|l|] != c then q.hstate == General && !(l + [c] <= name)
                else q.hstate == (if |l| + 1 == |name| then full else p.hstate) && l + [c] <= name)
  {
    PrefixGrows(l, c, name);
  }

  /** The name is told by its first four characters. */
  lemma OneName(l: seq<Byte>, name: string)
    requires l <= name
    requires name == CONNECTION || name == PROXY || name == LENGTH || name == ENCODING || name == UPGRADE
    requires |l| >= (if name == CONNECTION || name == LENGTH then 4 else 1)
    ensures l <= CONNECTION <==> name == CONNECTION
    ensures l <= PROXY <==> name == PROXY
    ensures l <= LENGTH <==> name == LENGTH
    ensures l <= ENCODING <==> name == ENCODING
    ensures l <= UPGRADE <==> name == UPGRADE
  {
    assert l[0] == name[0];
    if |l| >= 4 { assert l[3] == name[3]; }
  }

  /** A full name has no longer one behind it. */
  lemma NameEnds(l: seq<Byte>, c: Byte)
    requires l == CONNECTION || l == PROXY || l == LENGTH || l == ENCODING || l == UPGRADE
    ensures !StartsName(l + [c])
  {
    OneName(l, l);
    if l + [c] <= CONNECTION { PrefixCut(l, c, CONNECTION); }
    if l + [c] <= PROXY { PrefixCut(l, c, PROXY); }
    if l + [c] <= LENGTH { PrefixCut(l, c, LENGTH); }
    if l + [c] <= ENCODING { PrefixCut(l, c, ENCODING); }
    if l + [c] <= UPGRADE { PrefixCut(l, c, UPGRADE); }
  }

  lemma MatchTracks(p: Parser, name: string, least: nat, c: Byte, full: HeaderState, l: seq<Byte>)
    requires Within(l, name, least, p.index) && least >= 1
    requires name == CONNECTION || name == PROXY || name == LENGTH || name == ENCODING || name == UPGRADE
    requires least == if name == CONNECTION || name == LENGTH then 4 else 1
    ensures var q := MatchName(p, name, c, full);
            && q.index == |l|
            && (if name[|l|] != c then q.hstate == General && !StartsName(l + [c])
                else if |l| + 1 == |name| then q.hstate == full && l + [c] == name
                else q.hstate == p.hstate && Within(l + [c], name, least, |l|))
  {
    MatchStep(p, name, c, full, l);
    OneName(l, name);
    if name[|l|] != c {
      if l + [c] <= CONNECTION { PrefixCut(l, c, CONNECTION); }
      if l + [c] <= PROXY { PrefixCut(l, c, PROXY); }
      if l + [c] <= LENGTH { PrefixCut(l, c, LENGTH); }
      if l + [c] <= ENCODING { PrefixCut(l, c, ENCODING); }
      if l + [c] <= UPGRADE { PrefixCut(l, c, UPGRADE); }
    }
  }

  /** The first characters that "connection" and "content-length" share. */
  lemma SharedTracks(p: Parser, c: Byte, l: seq<Byte>)
    requires Tracks(p.hstate, p.index, l) && (p.hstate == HC || p.hstate == HCO || p.hstate == HCON)
    ensures Tracks(FieldChar(p, c).hstate, FieldChar(p, c).index, l + [c])
  {
    var m := l + [c];
    assert m[0] == l[0] == 'c' && PROXY[0] == 'p' && ENCODING[0] == 't' && UPGRADE[0] == 'u';
    assert !(m <= PROXY) && !(m <= ENCODING) && !(m <= UPGRADE);
    assert l <= CONNECTION && l <= LENGTH;
    PrefixGrows(l, c, CONNECTION);
    PrefixGrows(l, c, LENGTH);
  }

  /** Every character keeps the header state in step with the name. */
  lemma FieldTracks(p: Parser, c: Byte, l: seq<Byte>)
    requires Tracks(p.hstate, p.index, l)
    ensures Tracks(FieldChar(p, c).hstate, FieldChar(p, c).index, l + [c])
  {
    hide MatchName;
    hide StartsName;
    hide Within;
    match p.hstate
    case General => StaysUnknown(l, c);
    case HC => SharedTracks(p, c, l);
    case HCO => SharedTracks(p, c, l);
    case HCON => SharedTracks(p, c, l);
    case MatchConnection => MatchTracks(p, CONNECTION, 4, c, Connection, l);
    case MatchProxyConnection => MatchTracks(p, PROXY, 1, c, Connection, l);
    case MatchContentLength => MatchTracks(p, LENGTH, 4, c, ContentLength, l);
    case MatchTransferEncoding => MatchTracks(p, ENCODING, 1, c, TransferEncoding, l);
    case MatchUpgrade => MatchTracks(p, UPGRADE, 1, c, Upgrade, l);
    case _ => NameEnds(l, c);
  }

  // ----- in the parser -----

  predicate IsToken(c: Byte) { Token(c) != '\0' }

  predicate IsName(ds: seq<Byte>) { ds != [] && forall i :: 0 <= i < |ds| ==> IsToken(ds[i]) }

  function Lowered(ds: seq<Byte>): seq<Byte> {
    if ds == [] then [] else [Token(ds[0])] + Lowered(ds[1..])
  }

  lemma PrefixOne(x: Byte, name: string)
    requires name != []
    ensures [x] <= name <==> x == name[0]
  {
    if x == name[0] { assert name[..1] == [x]; }
  }

  /** The first letters of the known names. */
  lemma OneLetter(x: Byte)
    ensures StartsName([x]) <==> x == 'c' || x == 'p' || x == 't' || x == 'u'
    ensures x == 'p' ==> [x] <= PROXY
    ensures x == 't' ==> [x] <= ENCODING
    ensures x == 'u' ==> [x] <= UPGRADE
  {
    PrefixOne(x, CONNECTION);
    PrefixOne(x, PROXY);
    PrefixOne(x, LENGTH);
    PrefixOne(x, ENCODING);
    PrefixOne(x, UPGRADE);
  }

  lemma FirstTracks(p: Parser, c: Byte)
    requires p.state == FieldStart && IsToken(c)
    ensures var t := FieldStartTurn(p, c);
            && t == Turn(t.p, Some(FieldData), None, None, Break) && Tracks(t.p.hstate, t.p.index, [Token(c)])
            && t.p == p.(index := 0, state := Field, hstate := t.p.hstate)
  {
    hide Token;
    hide StartsName;
    TokenIsNoBreak(c);
    OneLetter(Token(c));
  }

  lemma TokenIsNoBreak(c: Byte)
    requires IsToken(c)
    ensures c != '\r' && c != '\n' && c != ':' && c != ' ' && c != '\t'
  {}

  lemma FieldByte(p: Parser, tr: Trace, c: Byte, l: seq<Byte>)
    requires p.errno == OK && Inv(p, 0) && p.state == Field && p.nread < MAX_HEADER_SIZE && IsToken(c)
    requires Tracks(p.hstate, p.index, l)
    ensures var r := OneByte(p, tr, c);
            && r == Run(p.(hstate := r.p.hstate, index := r.p.index, nread := p.nread + 1), Add(tr, Data(FieldData, [c])), Break)
            && Tracks(r.p.hstate, r.p.index, l + [Token(c)])
  {
    hide Inv;
    hide Add;
    hide Token;
    hide FieldChar;
    hide Tracks;
    var q := p.(nread := p.nread + 1);
    FieldTracks(q, Token(c), l);
    FieldCharKeeps(q, Token(c));
    HeadByte(p, tr, c);
  }

  lemma {:induction false} FieldBytes(p: Parser, tr: Trace, ds: seq<Byte>, l: seq<Byte>)
    requires p.errno == OK && Inv(p, 0) && p.state == Field && p.nread + |ds| <= MAX_HEADER_SIZE && IsName(ds)
    requires Tracks(p.hstate, p.index, l)
    ensures var f := Feed(p, tr, ds);
            && f == Fed(p.(hstate := f.p.hstate, index := f.p.index, nread := p.nread + |ds|), Add(tr, Data(FieldData, ds)))
            && Tracks(f.p.hstate, f.p.index, l + Lowered(ds))
    decreases |ds|
  {
    hide Inv;
    hide Add;
    hide Token;
    hide Tracks;
    hide OneByte;
    hide Feed;
    var c, rest := ds[0], ds[1..];
    assert ds == [c] + rest;
    FieldByte(p, tr, c, l);
    FeedOneMore(p, tr, c, rest);
    var r := OneByte(p, tr, c);
    assert l + [Token(c)] + Lowered(rest) == l + Lowered(ds);
    if rest == [] {
      assert ds == [c] && Lowered(rest) == [];
      assert l + [Token(c)] + [] == l + [Token(c)];
      FedOnly(r.p, r.tr);
    } else {
      FieldBytes(r.p, r.tr, rest, l + [Token(c)]);
      AddTwice(tr, FieldData, [c], rest);
    }
  }

  /** The start of a header line: right away, or behind a line whose value is settled by the next byte. */
  predicate LineStart(p: Parser) { p.state == FieldStart || p.state == ValueLws || p.state == ValueDiscardLws }

  /** The parser once the line before is settled: the flags its value sets. */
  function Resumed(p: Parser): Parser {
    if p.state == ValueLws then p.(state := FieldStart, flags := HeaderFlags(p)) else p.(state := FieldStart)
  }

  /** The callbacks once the line before is settled: an empty value is reported only then. */
  function Settled(p: Parser, tr: Trace): Trace {
    if p.state == ValueDiscardLws then Add(tr, Data(ValueData, [])) else tr
  }

  lemma ResumedInv(p: Parser)
    requires Inv(p, 0) && LineStart(p)
    ensures Inv(Resumed(p), 0)
  {
    hide Name;
  }

  lemma LwsSwitch(q: Parser, c: Byte)
    requires (q.state == ValueLws || q.state == ValueDiscardLws) && c != ' ' && c != '\t'
    ensures Switch(q, c) ==
            if q.state == ValueLws then Redo(q.(flags := HeaderFlags(q)), FieldStart)
            else Turn(q.(state := FieldStart), Some(ValueData), Some(ValueData), None, Again)
  {
    hide HeaderFlags;
  }

  lemma LwsPass(q: Parser, tr: Trace, c: Byte)
    requires q.errno == OK && (q.state == ValueLws || q.state == ValueDiscardLws) && c != ' ' && c != '\t'
    ensures Passes(q, tr, c) == Passes(Resumed(q), Settled(q, tr), c)
  {
    hide Switch;
    hide Add;
    hide HeaderFlags;
    LwsSwitch(q, c);
  }

  lemma ResumedFrame(p: Parser, tr: Trace, n: nat)
    ensures var q := Resumed(p);
            && q.state == FieldStart && q.errno == p.errno && q.nread == p.nread
            && Resumed(p.(nread := n)) == q.(nread := n) && Settled(p.(nread := n), tr) == Settled(p, tr)
    ensures p.state == FieldStart ==> Resumed(p) == p && Settled(p, tr) == tr
  {
    hide Add;
  }

  lemma Resumes(p: Parser, tr: Trace, c: Byte)
    requires p.errno == OK && Inv(p, 0) && LineStart(p) && p.nread < MAX_HEADER_SIZE && c != ' ' && c != '\t'
    ensures Inv(Resumed(p), 0) && OneByte(p, tr, c) == OneByte(Resumed(p), Settled(p, tr), c)
  {
    hide Inv;
    hide Passes;
    hide OneByte;
    hide Resumed;
    hide Settled;
    ResumedInv(p);
    ResumedFrame(p, tr, p.nread + 1);
    if p.state != FieldStart {
      LwsPass(p.(nread := p.nread + 1), tr, c);
      CountedByte(p, tr, c);
      CountedByte(Resumed(p), Settled(p, tr), c);
    }
  }

  lemma NameStart(p: Parser, tr: Trace, c: Byte)
    requires p.errno == OK && Inv(p, 0) && LineStart(p) && p.nread < MAX_HEADER_SIZE && IsToken(c)
    ensures var r := OneByte(p, tr, c);
            && r == Run(Resumed(p).(index := 0, state := Field, hstate := r.p.hstate, nread := p.nread + 1),
                        Add(Settled(p, tr), Data(FieldData, [c])), Break)
            && Tracks(r.p.hstate, r.p.index, [Token(c)])
  {
    hide Inv;
    hide Add;
    hide Tracks;
    hide FieldStartTurn;
    hide Token;
    hide OneByte;
    hide Settled;
    hide Resumed;
    TokenIsNoBreak(c);
    Resumes(p, tr, c);
    ResumedFrame(p, tr, 0);
    var q := Resumed(p);
    FirstTracks(q.(nread := q.nread + 1), c);
    HeadByte(q, Settled(p, tr), c);
  }

  lemma Colon(p: Parser, tr: Trace)
    requires p.errno == OK && Inv(p, 0) && p.state == Field && p.nread < MAX_HEADER_SIZE
    ensures OneByte(p, tr, ':') == Run(p.(state := ValueDiscardWs, nread := p.nread + 1), tr, Break)
  {
    hide Inv;
    hide Add;
    hide Switch;
    hide OneByte;
    ColonTurn(p.(nread := p.nread + 1));
    HeadByte(p, tr, ':');
  }

  lemma ColonTurn(p: Parser)
    requires p.state == Field
    ensures Switch(p, ':') == Turn(p.(state := ValueDiscardWs), None, Some(FieldData), None, Break)
  {}

  lemma NameBytes(p: Parser, tr: Trace, ds: seq<Byte>)
    requires p.errno == OK && Inv(p, 0) && LineStart(p) && IsName(ds) && p.nread + |ds| <= MAX_HEADER_SIZE
    ensures var f := Feed(p, tr, ds);
            && f == Fed(Resumed(p).(state := Field, hstate := f.p.hstate, index := f.p.index, nread := p.nread + |ds|),
                        Add(Settled(p, tr), Data(FieldData, ds)))
            && Tracks(f.p.hstate, f.p.index, Lowered(ds))
  {
    hide Inv;
    hide Add;
    hide Tracks;
    hide Token;
    hide OneByte;
    hide Feed;
    hide Resumed;
    hide Settled;
    var c, rest := ds[0], ds[1..];
    assert ds == [c] + rest;
    ResumedFrame(p, tr, 0);
    NameStart(p, tr, c);
    FeedOneMore(p, tr, c, rest);
    var r := OneByte(p, tr, c);
    assert [Token(c)] + Lowered(rest) == Lowered(ds);
    if rest == [] {
      FedOnly(r.p, r.tr);
      assert ds == [c] && Lowered(ds) == [Token(c)];
    } else {
      FieldBytes(r.p, r.tr, rest, [Token(c)]);
      AddTwice(Settled(p, tr), FieldData, [c], rest);
    }
  }

  /** A header's name is reported as written, and the header state tells what it is. */
  lemma NameLine(p: Parser, tr: Trace, ds: seq<Byte>)
    requires p.errno == OK && Inv(p, 0) && LineStart(p) && IsName(ds) && p.nread + |ds| < MAX_HEADER_SIZE
    ensures var f := Feed(p, tr, ds + [':']);
            && Inv(f.p, 0)
            && f == Fed(Resumed(p).(state := ValueDiscardWs, hstate := f.p.hstate, index := f.p.index, nread := p.nread + |ds| + 1),
                        Add(Settled(p, tr), Data(FieldData, ds)))
            && Tracks(f.p.hstate, f.p.index, Lowered(ds))
  {
    hide Inv;
    hide Add;
    hide Tracks;
    hide Lowered;
    hide OneByte;
    hide Feed;
    hide Resumed;
    hide Settled;
    hide IsName;
    ResumedFrame(p, tr, 0);
    NameBytes(p, tr, ds);
    FeedSplit(p, tr, ds, [':']);
    var f := Feed(p, tr, ds);
    Colon(f.p, f.tr);
    FeedOneMore(f.p, f.tr, ':', []);
    assert [':'] + [] == [':'];
    var g := OneByte(f.p, f.tr, ':');
    FedOnly(g.p, g.tr);
  }

  /** The parser takes a header for one it knows exactly when the lower-cased name is that header's. */
  lemma Recognised(h: HeaderState, index: nat, l: seq<Byte>)
    requires Tracks(h, index, l) && l != []
    ensures h == Connection <==> l == CONNECTION || l == PROXY
    ensures h == ContentLength <==> l == LENGTH
    ensures h == TransferEncoding <==> l == ENCODING
    ensures h == Upgrade <==> l == UPGRADE
  {
    assert LENGTH[3] == 't' && CONNECTION[3] == 'n' && |"con"| == 3;
    assert CONNECTION[0] == 'c' && PROXY[0] == 'p' && LENGTH[0] == 'c' && ENCODING[0] == 't' && UPGRADE[0] == 'u';
  }
}
