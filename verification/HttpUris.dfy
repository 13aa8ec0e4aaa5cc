/** Request targets as RFC 3986 and section 5.3 of RFC 7230 write them, and what the parser makes of them. */
module HttpUris {
  import opened Common
  import opened HttpModel
  import opened HttpBytes
  import opened HttpTrace
  import opened HttpMachine
  import opened HttpTargets
  import opened HttpCharacters
  import UrlSpec

  // ----- the grammar of the standard -----

  predicate IsHexDigit(c: Byte) { IsDecimal(c) || 0x41 <= c as int <= 0x46 || 0x61 <= c as int <= 0x66 }

  /** Unreserved characters, delimiters, characters of `extra`, and per cent signs with two hexadecimal digits behind each. */
  predicate IsEncoded(u: seq<Byte>, extra: string)
    decreases |u|
  {
    if u == [] then true
    else if u[0] == '%' then |u| >= 3 && IsHexDigit(u[1]) && IsHexDigit(u[2]) && IsEncoded(u[3..], extra)
    else (IsUnreserved(u[0]) || IsSubDelim(u[0]) || u[0] in extra) && IsEncoded(u[1..], extra)
  }

  /** What a part of a target may hold besides: sections 3.2.1, 3.3 and 3.4 of RFC 3986. */
  const IN_USER := ":"
  const IN_HOST := ""
  const IN_PATH := "/:@"
  const IN_QUERY := "/?:@"

  /** A part that may be absent, behind the character that announces it. */
  function Behind(c: Byte, part: Option<seq<Byte>>): seq<Byte> { match part case None => [] case Some(u) => [c] + u }

  predicate IsPart(part: Option<seq<Byte>>, extra: string) { part.Some? ==> IsEncoded(part.value, extra) }

  /** A path behind its first slash, and its query and fragment. */
  datatype Local = Local(path: seq<Byte>, query: Option<seq<Byte>>, fragment: Option<seq<Byte>>)

  predicate IsLocal(l: Local) { IsEncoded(l.path, IN_PATH) && IsPart(l.query, IN_QUERY) && IsPart(l.fragment, IN_QUERY) }

  function LocalText(l: Local): seq<Byte> { ['/'] + (l.path + (Behind('?', l.query) + Behind('#', l.fragment))) }

  /** A registered name or an address in brackets. */
  predicate IsHost(h: seq<Byte>) {
    || (h != [] && IsEncoded(h, IN_HOST))
    || (|h| > 2 && h[0] == '[' && h[|h| - 1] == ']'
        && forall i :: 0 < i < |h| - 1 ==> IsUnreserved(h[i]) || IsSubDelim(h[i]) || h[i] == ':')
  }

  predicate AreDecimals(ds: seq<Byte>) { forall i :: 0 <= i < |ds| ==> IsDecimal(ds[i]) }

  datatype Server = Server(user: Option<seq<Byte>>, host: seq<Byte>, port: Option<seq<Byte>>)

  predicate IsServer(s: Server) { IsPart(s.user, IN_USER) && IsHost(s.host) && (s.port.Some? ==> AreDecimals(s.port.value)) }

  function UserText(user: Option<seq<Byte>>): seq<Byte> { match user case None => [] case Some(u) => u + ['@'] }

  function ServerText(s: Server): seq<Byte> { UserText(s.user) + (s.host + Behind(':', s.port)) }

  predicate IsScheme(s: seq<Byte>) {
    s != [] && IsLetter(s[0]) && forall i :: 0 <= i < |s| ==> IsLetter(s[i]) || IsDecimal(s[i]) || s[i] in "+-."
  }

  /** An absolute URI; the path, if any, with its slash. */
  datatype Absolute = Absolute(scheme: seq<Byte>, server: Server, local: Option<Local>)

  predicate IsAbsolute(a: Absolute) { IsScheme(a.scheme) && IsServer(a.server) && (a.local.Some? ==> IsLocal(a.local.value)) }

  function AbsoluteText(a: Absolute): seq<Byte> {
    a.scheme + ("://" + (ServerText(a.server) + if a.local.None? then [] else LocalText(a.local.value)))
  }

  // ----- characters -----

  predicate AllVisible(u: seq<Byte>) { forall i :: 0 <= i < |u| ==> IsVisible(u[i]) }

  lemma TailIsVisible(u: seq<Byte>)
    ensures Tail(u) <==> AllVisible(u)
  {
    hide IsUrlChar;
    forall i | 0 <= i < |u| ensures IsVisible(u[i]) <==> IsUrlChar(u[i]) || u[i] == '?' || u[i] == '#' {
      UrlCharacters(u[i]);
    }
  }

  lemma {:induction false} EncodedIsVisible(u: seq<Byte>, extra: string)
    requires IsEncoded(u, extra) && forall c: Byte :: c in extra ==> IsVisible(c)
    ensures AllVisible(u)
    decreases |u|
  {
    if u != [] {
      var n := if u[0] == '%' then 3 else 1;
      EncodedIsVisible(u[n..], extra);
      assert u == u[..n] + u[n..];
    }
  }

  lemma PartIsVisible(c: Byte, part: Option<seq<Byte>>, extra: string)
    requires IsVisible(c) && IsPart(part, extra) && forall c: Byte :: c in extra ==> IsVisible(c)
    ensures AllVisible(Behind(c, part))
  {
    if part.Some? { EncodedIsVisible(part.value, extra); }
  }

  lemma LocalIsVisible(l: Local)
    requires IsLocal(l)
    ensures LocalText(l) != [] && AllVisible(LocalText(l)) && LocalText(l)[0] == '/' && Tail(LocalText(l)[1..])
  {
    hide IsEncoded;
    hide Behind;
    EncodedIsVisible(l.path, IN_PATH);
    PartIsVisible('?', l.query, IN_QUERY);
    PartIsVisible('#', l.fragment, IN_QUERY);
    TailIsVisible(LocalText(l)[1..]);
  }

  // ----- what is accepted -----

  /** A target that starts with a slash is accepted exactly when all its characters are visible ASCII. */
  lemma OriginTargets(u: seq<Byte>)
    requires u != [] && u[0] == '/'
    ensures Target(false, u) <==> AllVisible(u)
  {
    hide IsAlpha;
    hide NonEmptyAuthority;
    TailIsVisible(u[1..]);
    SlashIsNoLetter('/');
    assert u == ['/'] + u[1..];
  }

  predicate AllServer(u: seq<Byte>) { forall i :: 0 <= i < |u| ==> IsServerChar(u[i]) }

  lemma IsServerCharacter(c: Byte)
    ensures IsServerChar(c) <==> IsUnreserved(c) || IsSubDelim(c) || c in ":%[]"
    ensures IsServerChar(c) ==> c != '/' && c != '?' && c != '@'
  {
    hide IsUserInfoChar;
    ServerCharacters(c);
  }

  lemma {:induction false} EncodedIsServer(u: seq<Byte>, extra: string)
    requires IsEncoded(u, extra) && forall c: Byte :: c in extra ==> IsServerChar(c)
    ensures AllServer(u)
    decreases |u|
  {
    hide IsServerChar;
    hide IsUnreserved;
    hide IsSubDelim;
    if u != [] {
      var n := if u[0] == '%' then 3 else 1;
      HexIsUnreserved(u[n - 1]);
      if n == 3 { HexIsUnreserved(u[1]); }
      forall i | 0 <= i < n ensures IsServerChar(u[i]) { IsServerCharacter(u[i]); }
      EncodedIsServer(u[n..], extra);
      assert u == u[..n] + u[n..];
    }
  }

  lemma HexIsUnreserved(c: Byte)
    ensures IsHexDigit(c) || IsDecimal(c) ==> IsUnreserved(c)
  {}

  lemma HostIsServer(h: seq<Byte>)
    requires IsHost(h)
    ensures AllServer(h) && h != []
  {
    hide IsServerChar;
    hide IsUnreserved;
    hide IsSubDelim;
    hide IsEncoded;
    if IsEncoded(h, IN_HOST) {
      EncodedIsServer(h, IN_HOST);
    } else {
      forall i | 0 <= i < |h| ensures IsServerChar(h[i]) { IsServerCharacter(h[i]); }
    }
  }

  lemma PortIsServer(port: Option<seq<Byte>>)
    requires port.Some? ==> AreDecimals(port.value)
    ensures AllServer(Behind(':', port))
  {
    hide IsServerChar;
    hide IsUnreserved;
    IsServerCharacter(':');
    if port.Some? {
      forall i | 0 <= i < |port.value| ensures IsServerChar(port.value[i]) {
        HexIsUnreserved(port.value[i]);
        IsServerCharacter(port.value[i]);
      }
    }
  }

  /** Server characters in front leave an authority one. */
  lemma {:induction false} ServerGoesOn(u: seq<Byte>, rest: seq<Byte>, at: bool)
    requires AllServer(u) && u != []
    ensures Authority(u + rest, at) <==> Authority(rest, false)
    decreases |u|
  {
    hide IsServerChar;
    IsServerCharacter(u[0]);
    assert (u + rest)[1..] == u[1..] + rest;
    if |u| == 1 { assert u[1..] + rest == rest; } else { ServerGoesOn(u[1..], rest, false); }
  }

  lemma LocalIsAuthority(local: Option<Local>)
    requires local.Some? ==> IsLocal(local.value)
    ensures Authority(if local.None? then [] else LocalText(local.value), false)
  {
    hide LocalText;
    hide IsLocal;
    if local.Some? { LocalIsVisible(local.value); }
  }

  /** A server and what is behind it is an authority as the URL states take it. */
  lemma ServerIsAuthority(s: Server, rest: seq<Byte>)
    requires IsServer(s) && Authority(rest, false)
    ensures NonEmptyAuthority(ServerText(s) + rest)
  {
    hide Authority;
    hide IsServerChar;
    hide IsEncoded;
    hide IsHost;
    HostIsServer(s.host);
    PortIsServer(s.port);
    var named := s.host + Behind(':', s.port);
    ServerGoesOn(named, rest, false);
    ServerGoesOn(named, rest, true);
    if s.user.Some? {
      EncodedIsServer(s.user.value, IN_USER) by { IsServerCharacter(':'); }
      UserIsAuthority(s.user.value, named + rest);
      assert ServerText(s) + rest == s.user.value + (['@'] + (named + rest));
    } else {
      assert ServerText(s) + rest == named + rest;
    }
  }

  lemma UserIsAuthority(user: seq<Byte>, rest: seq<Byte>)
    requires AllServer(user) && Authority(rest, true)
    ensures Authority(user + (['@'] + rest), false)
  {
    hide IsServerChar;
    var tail := ['@'] + rest;
    assert tail[1..] == rest;
    if user == [] { assert user + tail == tail; } else { ServerGoesOn(user, tail, false); }
  }

  /** CONNECT takes every server. */
  lemma ServerAccepted(s: Server)
    requires IsServer(s)
    ensures Target(true, ServerText(s))
  {
    hide IsServer;
    hide ServerText;
    ServerIsAuthority(s, []);
    assert ServerText(s) + [] == ServerText(s);
  }

  /**
   * The other methods take every absolute URI whose scheme is of letters only: the URL states leave out the digits,
   * plus signs, hyphens and dots that section 3.1 of RFC 3986 allows in a scheme.
   */
  lemma AbsoluteAccepted(a: Absolute)
    requires IsAbsolute(a)
    ensures Target(false, AbsoluteText(a)) <==> forall i :: 0 <= i < |a.scheme| ==> IsLetter(a.scheme[i])
  {
    hide Authority;
    hide IsServer;
    hide IsLocal;
    hide LocalText;
    hide ServerText;
    hide IsAlpha;
    hide IsLetter;
    var rest := if a.local.None? then [] else LocalText(a.local.value);
    var u, k := AbsoluteText(a), |a.scheme|;
    LocalIsAuthority(a.local);
    ServerIsAuthority(a.server, rest);
    assert u[k + 3..] == ServerText(a.server) + rest;
    forall i | 0 <= i < k ensures IsAlpha(u[i]) <==> IsLetter(a.scheme[i]) { LettersAre(u[i]); }
    SlashIsNoLetter(u[0]);
    if forall i :: 0 <= i < k ==> IsLetter(a.scheme[i]) {
      assert SchemeOf(u, k);
    } else {
      var i :| 0 <= i < k && !IsLetter(a.scheme[i]);
      assert a.scheme[i] in "+-." || IsDecimal(a.scheme[i]);
      forall j | 1 <= j < |u| ensures !SchemeOf(u, j) {
        if j <= i {
          SchemeHasNoColon(a.scheme, j);
        }
      }
    }
  }

  lemma SchemeHasNoColon(s: seq<Byte>, j: nat)
    requires IsScheme(s) && j < |s|
    ensures s[j] != ':'
  {}

  // ----- in the parser -----

  /**
   * Path, query and fragment of sections 3.3 to 3.5 of RFC 3986, per cent escapes and all, are taken and reported
   * as they are.
   */
  lemma LocalReported(p: Parser, tr: Trace, l: Local)
    requires p.errno == OK && Inv(p, 0) && p.state == SpacesBeforeUrl && p.mtd != CONNECT
    requires IsLocal(l) && p.nread + |LocalText(l)| < MAX_HEADER_SIZE
    ensures var u := LocalText(l);
            Feed(p, tr, u + [' ']) == Fed(Ended(p, ' ').(nread := p.nread + |u| + 1), Add(tr, Data(UrlData, u)))
  {
    hide Inv;
    hide Feed;
    hide Ended;
    hide LocalText;
    hide IsLocal;
    hide Target;
    LocalIsVisible(l);
    VisibleHasNoBreaks(LocalText(l));
    OriginTargets(LocalText(l));
    TargetAccepted(p, tr, LocalText(l));
  }

  lemma VisibleHasNoBreaks(u: seq<Byte>)
    requires AllVisible(u)
    ensures NoBreaks(u)
  {}

  /** A target behind a slash is refused exactly for a control character, a DEL or a byte from 128 on. */
  lemma OriginDecided(p: Parser, tr: Trace, u: seq<Byte>)
    requires p.errno == OK && Inv(p, 0) && p.state == SpacesBeforeUrl && p.mtd != CONNECT
    requires u != [] && u[0] == '/' && NoBreaks(u) && p.nread + |u| < MAX_HEADER_SIZE
    ensures Feed(p, tr, u + [' ']).p.errno == OK <==> AllVisible(u)
  {
    hide Inv;
    hide Feed;
    hide Ended;
    hide Target;
    OriginTargets(u);
    TargetAccepted(p, tr, u);
  }

  // ----- URL-encoded text -----

  lemma {:induction false} EncodedIsEncoded(s: Text)
    ensures IsEncoded(UrlSpec.UrlEncode(s), IN_PATH)
    decreases |s|
  {
    hide UrlSpec.EncodeByte;
    if s != [] {
      UrlSpec.EncodedFromFront(s);
      EncodedIsEncoded(s[1..]);
      hide UrlSpec.UrlEncode;
      OneMoreEncoded(s[0], UrlSpec.UrlEncode(s[1..]));
    }
  }

  lemma OneMoreEncoded(c: Byte, rest: seq<Byte>)
    requires IsEncoded(rest, IN_PATH)
    ensures IsEncoded(UrlSpec.EncodeByte(c) + rest, IN_PATH)
  {
    var e := UrlSpec.EncodeByte(c);
    assert (e + rest)[|e|..] == rest;
  }

  /** What URL encoding writes behind a slash is a target for every string, and reported as it was written. */
  lemma UrlEncodedReported(p: Parser, tr: Trace, s: Text)
    requires p.errno == OK && Inv(p, 0) && p.state == SpacesBeforeUrl && p.mtd != CONNECT
    requires p.nread + |UrlSpec.UrlEncode(s)| + 1 < MAX_HEADER_SIZE
    ensures var u := ['/'] + UrlSpec.UrlEncode(s);
            Feed(p, tr, u + [' ']) == Fed(Ended(p, ' ').(nread := p.nread + |u| + 1), Add(tr, Data(UrlData, u)))
  {
    hide Inv;
    hide Feed;
    hide Ended;
    hide IsEncoded;
    EncodedIsEncoded(s);
    var l := Local(UrlSpec.UrlEncode(s), None, None);
    assert LocalText(l) == ['/'] + l.path;
    NothingEncoded();
    LocalReported(p, tr, l);
  }

  lemma NothingEncoded()
    ensures IsEncoded([], IN_QUERY)
  {}
}
