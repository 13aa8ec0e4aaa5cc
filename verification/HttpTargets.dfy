/** Request targets: the language of the URL states. */
module HttpTargets {
  import opened Common
  import opened HttpModel
  import opened HttpBytes
  import opened HttpTrace
  import opened HttpMachine

  // ----- a grammar -----

  /** The rest of a path, with query and fragment. */
  predicate Tail(u: seq<Byte>) { forall i :: 0 <= i < |u| ==> IsUrlChar(u[i]) || u[i] == '?' || u[i] == '#' }

  predicate IsServerChar(c: Byte) { IsUserInfoChar(c) || c == '[' || c == ']' }

  /** Server characters and at-signs, never two at-signs in a row, up to a slash or question mark with a tail. */
  predicate Authority(u: seq<Byte>, at: bool) {
    if u == [] then true
    else if u[0] == '/' || u[0] == '?' then Tail(u[1..])
    else if u[0] == '@' then !at && Authority(u[1..], true)
    else IsServerChar(u[0]) && Authority(u[1..], false)
  }

  predicate NonEmptyAuthority(u: seq<Byte>) { u != [] && Authority(u, false) }

  /** The first `k` characters are a scheme, followed by a colon, two slashes and an authority. */
  predicate SchemeOf(u: seq<Byte>, k: nat) {
    && k + 3 <= |u| && (forall i :: 0 <= i < k ==> IsAlpha(u[i]))
    && u[k] == ':' && u[k + 1] == '/' && u[k + 2] == '/' && NonEmptyAuthority(u[k + 3..])
  }

  /** Origin form, asterisk form and absolute form; authority form for CONNECT. */
  predicate Target(connect: bool, u: seq<Byte>) {
    if connect then NonEmptyAuthority(u)
    else u != [] && (((u[0] == '/' || u[0] == '*') && Tail(u[1..])) || exists k :: 1 <= k < |u| && SchemeOf(u, k))
  }

  // ----- the automaton -----

  function RunUrl(s: State, u: seq<Byte>): State
    decreases |u|
  {
    if u == [] || s == Dead then s else RunUrl(ParseUrlChar(s, u[0]), u[1..])
  }

  predicate InTail(s: State) { s == Path || s == QueryStart || s == Query || s == FragmentStart || s == Fragment }

  predicate InServer(s: State) { s == Server || s == ServerWithAt }

  /** The states in which a blank ends the target. */
  predicate MayEnd(s: State) { InTail(s) || InServer(s) }

  lemma {:induction false} DeadStays(u: seq<Byte>)
    ensures RunUrl(Dead, u) == Dead
  {}

  lemma TailStep(s: State, c: Byte)
    requires InTail(s)
    ensures var s' := ParseUrlChar(s, c); if IsUrlChar(c) || c == '?' || c == '#' then InTail(s') else s' == Dead
  {}

  lemma {:induction false} TailRuns(s: State, u: seq<Byte>)
    requires InTail(s)
    ensures if Tail(u) then InTail(RunUrl(s, u)) else RunUrl(s, u) == Dead
    decreases |u|
  {
    hide ParseUrlChar;
    if u != [] {
      TailStep(s, u[0]);
      var s' := ParseUrlChar(s, u[0]);
      assert Tail(u) <==> (IsUrlChar(u[0]) || u[0] == '?' || u[0] == '#') && Tail(u[1..]) by { TailSplits(u); }
      if s' == Dead { DeadStays(u[1..]); } else { TailRuns(s', u[1..]); }
    }
  }

  lemma TailSplits(u: seq<Byte>)
    requires u != []
    ensures Tail(u) <==> (IsUrlChar(u[0]) || u[0] == '?' || u[0] == '#') && Tail(u[1..])
  {
    hide IsUrlChar;
    assert u == [u[0]] + u[1..];
  }

  lemma ServerStep(s: State, c: Byte)
    requires s == ServerStart || InServer(s)
    ensures var s' := ParseUrlChar(s, c);
            if c == '/' || c == '?' then InTail(s')
            else if c == '@' then s' == if s == ServerWithAt then Dead else ServerWithAt
            else if IsServerChar(c) then s' == Server
            else s' == Dead
  {}

  lemma {:induction false} ServerRuns(s: State, u: seq<Byte>)
    requires s == ServerStart || InServer(s)
    ensures if Authority(u, s == ServerWithAt) then u == [] || MayEnd(RunUrl(s, u)) else RunUrl(s, u) == Dead
    decreases |u|
  {
    hide ParseUrlChar;
    hide IsServerChar;
    if u != [] {
      ServerStep(s, u[0]);
      var s' := ParseUrlChar(s, u[0]);
      if s' == Dead {
        DeadStays(u[1..]);
      } else if InTail(s') {
        TailRuns(s', u[1..]);
      } else {
        ServerRuns(s', u[1..]);
      }
    }
  }

  lemma SchemeStep(s: State, c: Byte)
    requires s == Schema || s == SchemaSlash || s == SchemaSlashSlash
    ensures var s' := ParseUrlChar(s, c);
            match s
            case Schema => s' == (if IsAlpha(c) then Schema else if c == ':' then SchemaSlash else Dead)
            case SchemaSlash => s' == if c == '/' then SchemaSlashSlash else Dead
            case _ => s' == if c == '/' then ServerStart else Dead
  {}

  /** Behind the colon. */
  lemma SlashesRun(u: seq<Byte>)
    ensures MayEnd(RunUrl(SchemaSlash, u)) <==> |u| >= 2 && u[0] == '/' && u[1] == '/' && NonEmptyAuthority(u[2..])
  {
    hide ParseUrlChar;
    hide Authority;
    if u != [] {
      SchemeStep(SchemaSlash, u[0]);
      DeadStays(u[1..]);
      if u[0] == '/' && |u| > 1 {
        SchemeStep(SchemaSlashSlash, u[1]);
        assert u[1..][1..] == u[2..];
        DeadStays(u[2..]);
        assert RunUrl(SchemaSlash, u) == RunUrl(SchemaSlashSlash, u[1..]);
        assert RunUrl(SchemaSlashSlash, u[1..]) == RunUrl(ParseUrlChar(SchemaSlashSlash, u[1]), u[2..]);
        if u[1] == '/' { ServerRuns(ServerStart, u[2..]); }
      }
    }
  }

  lemma SchemeShift(u: seq<Byte>, k: nat)
    requires u != []
    ensures SchemeOf(u, k + 1) <==> IsAlpha(u[0]) && SchemeOf(u[1..], k)
  {
    hide IsAlpha;
    hide NonEmptyAuthority;
    if k + 4 <= |u| {
      assert u[1..][k + 3..] == u[k + 4..];
      assert u[1..][k] == u[k + 1] && u[1..][k + 1] == u[k + 2] && u[1..][k + 2] == u[k + 3];
      forall i | 0 <= i < k ensures u[1..][i] == u[i + 1] {}
      if IsAlpha(u[0]) && SchemeOf(u[1..], k) {
        forall i | 0 <= i < k + 1 ensures IsAlpha(u[i]) { assert i > 0 ==> u[i] == u[1..][i - 1]; }
      }
      if SchemeOf(u, k + 1) {
        forall i | 0 <= i < k ensures IsAlpha(u[1..][i]) { assert u[1..][i] == u[i + 1]; }
      }
    }
  }

  lemma SchemeNow(u: seq<Byte>)
    requires u != []
    ensures SchemeOf(u, 0) <==> u[0] == ':' && |u| >= 3 && u[1] == '/' && u[2] == '/' && NonEmptyAuthority(u[3..])
    ensures u[0] == ':' ==> !IsAlpha(u[0])
  {}

  /** Inside a scheme. */
  lemma {:induction false} SchemeRuns(u: seq<Byte>)
    ensures MayEnd(RunUrl(Schema, u)) <==> exists k :: 0 <= k < |u| && SchemeOf(u, k)
    decreases |u|
  {
    hide ParseUrlChar;
    hide IsAlpha;
    hide SchemeOf;
    if u != [] {
      SchemeStep(Schema, u[0]);
      SchemeNow(u);
      DeadStays(u[1..]);
      forall k: nat | SchemeOf(u, k) ensures k == 0 || (IsAlpha(u[0]) && SchemeOf(u[1..], k - 1)) {
        if k > 0 { SchemeShift(u, k - 1); }
      }
      if IsAlpha(u[0]) {
        SchemeRuns(u[1..]);
        if MayEnd(RunUrl(Schema, u[1..])) {
          var k :| 0 <= k < |u[1..]| && SchemeOf(u[1..], k);
          SchemeShift(u, k);
          assert SchemeOf(u, k + 1);
        }
      } else if u[0] == ':' {
        SlashesRun(u[1..]);
        assert |u| >= 3 ==> u[1..][2..] == u[3..];
        assert SchemeOf(u, 0) || !MayEnd(RunUrl(Schema, u));
      }
    }
  }

  lemma FirstStep(c: Byte)
    ensures ParseUrlChar(SpacesBeforeUrl, c) == if c == '/' || c == '*' then Path else if IsAlpha(c) then Schema else Dead
  {}

  /** The URL states accept exactly the grammar. */
  lemma UrlLanguage(connect: bool, u: seq<Byte>)
    requires u != []
    ensures MayEnd(RunUrl(if connect then ServerStart else SpacesBeforeUrl, u)) <==> Target(connect, u)
  {
    hide ParseUrlChar;
    hide Authority;
    hide SchemeOf;
    hide IsAlpha;
    if connect {
      ServerRuns(ServerStart, u);
    } else {
      var rest := u[1..];
      FirstStep(u[0]);
      DeadStays(rest);
      TailRuns(Path, rest);
      SchemeRuns(rest);
      forall k: nat | k >= 1 ensures SchemeOf(u, k) <==> IsAlpha(u[0]) && SchemeOf(rest, k - 1) { SchemeShift(u, k - 1); }
      SlashIsNoLetter(u[0]);
      if exists k :: 0 <= k < |rest| && SchemeOf(rest, k) {
        var k :| 0 <= k < |rest| && SchemeOf(rest, k);
        assert IsAlpha(u[0]) ==> SchemeOf(u, k + 1);
      }
    }
  }

  lemma SlashIsNoLetter(c: Byte)
    ensures c == '/' || c == '*' ==> !IsAlpha(c)
  {}

  // ----- in the parser -----

  predicate NoBreaks(u: seq<Byte>) { forall i :: 0 <= i < |u| ==> u[i] != ' ' && u[i] != '\r' && u[i] != '\n' }

  lemma UrlTurnIs(p: Parser, c: Byte)
    requires IsUrlState(p.state) && c != ' ' && c != '\r' && c != '\n'
    ensures UrlTurn(p, c) == UrlStep(p, p.state, c, None)
  {
    hide ParseUrlChar;
  }

  /** One byte of a target. */
  lemma UrlByte(p: Parser, tr: Trace, c: Byte)
    requires p.errno == OK && Inv(p, 0) && IsUrlState(p.state) && p.nread < MAX_HEADER_SIZE
    requires c != ' ' && c != '\r' && c != '\n'
    ensures var s := ParseUrlChar(p.state, c);
            var r := OneByte(p, tr, c);
            if s == Dead then r.p.errno != OK
            else r == Run(p.(state := s, nread := p.nread + 1), Add(tr, Data(UrlData, [c])), Break)
  {
    hide ParseUrlChar;
    hide Add;
    hide Inv;
    var q := p.(nread := p.nread + 1);
    UrlTurnIs(q, c);
    if ParseUrlChar(p.state, c) != Dead { UrlMarks(ParseUrlChar(p.state, c)); }
    assert Switch(q, c) == UrlStep(q, q.state, c, None);
  }

  lemma UrlMarks(s: State)
    requires IsUrlState(s)
    ensures MarkOf(s) == Some(UrlData)
  {}

  /** The bytes of a target run the automaton and are reported as they are. */
  lemma {:induction false} UrlBytes(p: Parser, tr: Trace, u: seq<Byte>)
    requires p.errno == OK && Inv(p, 0) && IsUrlState(p.state) && p.nread + |u| <= MAX_HEADER_SIZE && NoBreaks(u) && u != []
    ensures var s := RunUrl(p.state, u);
            var f := Feed(p, tr, u);
            if s == Dead then f.p.errno != OK
            else IsUrlState(s) && f == Fed(p.(state := s, nread := p.nread + |u|), Add(tr, Data(UrlData, u)))
    decreases |u|
  {
    hide ParseUrlChar;
    hide Add;
    hide Inv;
    hide OneByte;
    var c := u[0];
    UrlByte(p, tr, c);
    OneByteInv(p, tr, c);
    var r := OneByte(p, tr, c);
    var s := ParseUrlChar(p.state, c);
    if s == Dead {
      DeadStays(u[1..]);
    } else if |u| == 1 {
      assert u == [c];
    } else {
      UrlBytes(r.p, r.tr, u[1..]);
      AddTwice(tr, UrlData, [c], u[1..]);
      assert [c] + u[1..] == u;
    }
  }

  lemma FirstByte(p: Parser, tr: Trace, c: Byte)
    requires p.errno == OK && Inv(p, 0) && p.state == SpacesBeforeUrl && p.nread < MAX_HEADER_SIZE
    requires c != ' ' && c != '\r' && c != '\n'
    ensures var s := ParseUrlChar(if p.mtd == CONNECT then ServerStart else SpacesBeforeUrl, c);
            var r := OneByte(p, tr, c);
            if s == Dead then r.p.errno != OK
            else r == Run(p.(state := s, nread := p.nread + 1), Add(tr, Data(UrlData, [c])), Break)
  {
    hide ParseUrlChar;
    hide Add;
    hide Inv;
    var q := p.(nread := p.nread + 1);
    var s := ParseUrlChar(if p.mtd == CONNECT then ServerStart else SpacesBeforeUrl, c);
    if s != Dead { UrlMarks(s); }
    assert Switch(q, c) == UrlStep(q, if p.mtd == CONNECT then ServerStart else SpacesBeforeUrl, c, Some(UrlData));
  }

  /** A blank ends the target, and so does the end of the line, which then stands for HTTP/0.9. */
  function Ended(p: Parser, c: Byte): Parser {
    if c == ' ' then p.(state := HttpStart) else p.(state := LineAlmostDone, major := 0, minor := 9)
  }

  lemma EndByte(p: Parser, tr: Trace, c: Byte)
    requires p.errno == OK && Inv(p, 0) && IsUrlState(p.state) && p.nread < MAX_HEADER_SIZE && (c == ' ' || c == '\r')
    ensures var r := OneByte(p, tr, c);
            if MayEnd(p.state) then r == Run(Ended(p, c).(nread := p.nread + 1), tr, Break) else r.p.errno != OK
  {
    hide Add;
    hide Inv;
    hide ParseUrlChar;
    var q := p.(nread := p.nread + 1);
    assert Switch(q, c) == if MayEnd(q.state) then Turn(Ended(q, c), None, Some(UrlData), None, Break) else Error(q, INVALID_URL);
  }

  lemma RunFirst(s: State, u: seq<Byte>)
    requires u != [] && s != Dead
    ensures RunUrl(s, u) == RunUrl(ParseUrlChar(s, u[0]), u[1..])
    ensures |u| == 1 ==> RunUrl(s, u) == ParseUrlChar(s, u[0])
  {
    hide ParseUrlChar;
  }

  /** The first byte and the rest of a target. */
  lemma TargetBytes(p: Parser, tr: Trace, u: seq<Byte>)
    requires p.errno == OK && Inv(p, 0) && p.state == SpacesBeforeUrl && u != [] && NoBreaks(u)
    requires p.nread + |u| <= MAX_HEADER_SIZE
    ensures var s := RunUrl(if p.mtd == CONNECT then ServerStart else SpacesBeforeUrl, u);
            var f := Feed(p, tr, u);
            if s == Dead then f.p.errno != OK
            else IsUrlState(s) && f == Fed(p.(state := s, nread := p.nread + |u|), Add(tr, Data(UrlData, u)))
  {
    hide ParseUrlChar;
    hide Add;
    hide Inv;
    hide OneByte;
    hide Feed;
    hide RunUrl;
    var c, rest := u[0], u[1..];
    assert u == [c] + rest;
    FirstByte(p, tr, c);
    FeedOneMore(p, tr, c, rest);
    RunFirst(if p.mtd == CONNECT then ServerStart else SpacesBeforeUrl, u);
    var r := OneByte(p, tr, c);
    if r.p.errno != OK {
      DeadStays(rest);
      FedStops(r.p, r.tr, rest);
    } else if rest == [] {
      assert u == [c];
      FedOnly(r.p, r.tr);
    } else {
      UrlBytes(r.p, r.tr, rest);
      AddTwice(tr, UrlData, [c], rest);
    }
  }

  /** A request's target is accepted exactly when the grammar has it, and reported unchanged. */
  lemma TargetAccepted(p: Parser, tr: Trace, u: seq<Byte>)
    requires p.errno == OK && Inv(p, 0) && p.state == SpacesBeforeUrl && u != [] && NoBreaks(u)
    requires p.nread + |u| < MAX_HEADER_SIZE
    ensures forall c :: c == ' ' || c == '\r' ==>
              var f := Feed(p, tr, u + [c]);
              && (f.p.errno == OK <==> Target(p.mtd == CONNECT, u))
              && (f.p.errno == OK ==> Inv(f.p, 0) && f == Fed(Ended(p, c).(nread := p.nread + |u| + 1), Add(tr, Data(UrlData, u))))
  {
    hide ParseUrlChar;
    hide Add;
    hide Inv;
    hide OneByte;
    hide Feed;
    hide RunUrl;
    hide Target;
    TargetBytes(p, tr, u);
    UrlLanguage(p.mtd == CONNECT, u);
    forall c | c == ' ' || c == '\r'
      ensures var f := Feed(p, tr, u + [c]);
              && (f.p.errno == OK <==> Target(p.mtd == CONNECT, u))
              && (f.p.errno == OK ==> Inv(f.p, 0) && f == Fed(Ended(p, c).(nread := p.nread + |u| + 1), Add(tr, Data(UrlData, u))))
    {
      FeedSplit(p, tr, u, [c]);
      FeedSplit(p, tr, u + [c], []);
      var f := Feed(p, tr, u);
      if f.p.errno == OK {
        EndByte(f.p, f.tr, c);
        FeedOneMore(f.p, f.tr, c, []);
        assert [c] + [] == [c];
        var r := OneByte(f.p, f.tr, c);
        FedOnly(r.p, r.tr);
      } else {
        FedStops(f.p, f.tr, [c]);
      }
    }
  }
}
