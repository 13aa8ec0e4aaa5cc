/** The order of the callbacks over every run. */
module HttpOrder {
  import opened Common
  import opened HttpModel
  import opened HttpBytes
  import opened HttpTrace
  import opened HttpMachine

  /** Where a message's callbacks stand in their grammar:
      begin, url, (field value?)*, headers complete, body?, (field value?)*, message complete. */
  datatype Phase = Idle | Begun | InUrl | InField | InValue | HeadDone | InBody | TrailerField | TrailerValue | Broken

  predicate InHead(ph: Phase) { ph == InUrl || ph == InField || ph == InValue }
  predicate AfterHead(ph: Phase) { ph == HeadDone || ph == InBody || ph == TrailerField || ph == TrailerValue }

  function NextPhase(ph: Phase, e: Event): Phase {
    match e
    case Data(k, _) => DataPhase(ph, k)
    case Note(MessageBegin) => if ph == Idle then Begun else Broken
    case Note(HeadersComplete) => if InHead(ph) then HeadDone else Broken
    case Note(MessageComplete) => if AfterHead(ph) then Idle else Broken
  }

  function DataPhase(ph: Phase, k: Kind): Phase {
    match k
    case UrlData => if ph == Begun || ph == InUrl then InUrl else Broken
    case FieldData => if InHead(ph) then InField else if AfterHead(ph) then TrailerField else Broken
    case ValueData =>
      if ph == InField || ph == InValue then InValue
      else if ph == TrailerField || ph == TrailerValue then TrailerValue else Broken
    case BodyData => if ph == HeadDone || ph == InBody then InBody else Broken
  }

  function PhaseOf(tr: Trace): Phase {
    if tr == [] then Idle else NextPhase(PhaseOf(tr[..|tr| - 1]), tr[|tr| - 1])
  }

  lemma PhaseAdded(tr: Trace, e: Event)
    ensures PhaseOf(Add(tr, e)) == NextPhase(PhaseOf(tr), e)
  {
    var n := |tr| - 1;
    if e.Data? && EndsWith(tr, e.kind) {
      assert Add(tr, e)[..n] == tr[..n];
      SamePhase(PhaseOf(tr[..n]), e.kind, tr[n].bytes, e.bytes, Add(tr, e)[n].bytes);
    } else {
      assert (tr + [e])[..|tr|] == tr;
    }
  }

  lemma SamePhase(ph: Phase, k: Kind, x: seq<Byte>, y: seq<Byte>, z: seq<Byte>)
    ensures NextPhase(NextPhase(ph, Data(k, x)), Data(k, y)) == NextPhase(ph, Data(k, z))
  {}

  /** The stretch of a message a parser state belongs to. */
  datatype Zone = Between | MethodName | RequestLine | HeaderEdge | HeaderName | ValueEdge | Text | HeadEnd | Framing | BodyEnd

  function ZoneOf(s: State): Zone {
    match s
    case Dead | StartReq => Between
    case ReqMethod | SpacesBeforeUrl => MethodName
    case FieldStart | HeadersAlmostDone => HeaderEdge
    case Field | ValueDiscardWs | ValueDiscardWsAlmostDone | ValueDiscardLws => HeaderName
    case ValueStart | ValueLws | HeaderAlmostDone => ValueEdge
    case Value => Text
    case HeadersDone => HeadEnd
    case ChunkSizeStart | ChunkSize | ChunkParameters | ChunkSizeAlmostDone | ChunkData | BodyIdentity => Framing
    case ChunkDataAlmostDone | ChunkDataDone | MessageDone => BodyEnd
    case _ => RequestLine
  }

  predicate ZoneFits(z: Zone, trailing: bool, ph: Phase) {
    match z
    case Between => ph == Idle
    case MethodName => ph == Begun && !trailing
    case RequestLine => ph == InUrl && !trailing
    case HeaderEdge => if trailing then AfterHead(ph) else InHead(ph)
    case HeaderName => ph == if trailing then TrailerField else InField
    case ValueEdge => if trailing then ph == TrailerField || ph == TrailerValue else ph == InField || ph == InValue
    case Text => ph == if trailing then TrailerValue else InValue
    case HeadEnd => ph == HeadDone && !trailing
    case Framing => (ph == HeadDone || ph == InBody) && !trailing
    case BodyEnd => ph == InBody && !trailing
  }

  /** The phases a parser can be in. */
  predicate Fits(p: Parser, ph: Phase) { ZoneFits(ZoneOf(p.state), p.flags.trailing, ph) }

  /** The phase after a pass, and after the byte when the pass takes it. */
  function PassPhase(ph: Phase, t: Turn): Phase {
    var ph1 := if t.mark == Some(ValueData) && t.emit == Some(ValueData) then DataPhase(ph, ValueData) else ph;
    if t.note.Some? then NextPhase(ph1, Note(t.note.value)) else ph1
  }

  function BytePhase(ph: Phase, s: State): Phase {
    match MarkOf(s) case Some(k) => DataPhase(ph, k) case None => ph
  }

  predicate StaysInOrder(ph: Phase, t: Turn) {
    match t.next
    case Fail => true
    case Again => Fits(t.p, PassPhase(ph, t))
    case Break => Fits(t.p, BytePhase(PassPhase(ph, t), t.p.state))
    case Exit => Fits(t.p, PassPhase(ph, t))
  }

  lemma MethodOrder(p: Parser, c: Byte, ph: Phase)
    requires Fits(p, ph) && (p.state == StartReq || p.state == ReqMethod)
    ensures StaysInOrder(ph, MethodTurn(p, c))
  {
    hide SwitchMethod;
    hide Name;
    hide FirstMethod;
  }

  lemma UrlOrder(p: Parser, c: Byte, ph: Phase)
    requires Fits(p, ph) && (p.state == SpacesBeforeUrl || IsUrlState(p.state))
    ensures StaysInOrder(ph, UrlTurn(p, c))
  {
    hide ParseUrlChar;
  }

  /** A pass that only moves on, to a state of the same zone or another that fits. */
  lemma PlainOrder(ph: Phase, t: Turn)
    requires t.mark == None && t.emit == None && t.note == None && MarkOf(t.p.state) == None
    requires ZoneFits(ZoneOf(t.p.state), t.p.flags.trailing, ph)
    ensures StaysInOrder(ph, t)
  {}

  lemma LineMoves(p: Parser, c: Byte)
    requires ZoneOf(p.state) == RequestLine && !IsUrlState(p.state)
    ensures var t := LineTurn(p, c);
            && t.mark == None && t.emit == None && t.note == None && MarkOf(t.p.state) == None && t.p.flags == p.flags
            && (ZoneOf(t.p.state) == RequestLine || t.p.state == FieldStart)
  {}

  lemma LineOrder(p: Parser, c: Byte, ph: Phase)
    requires Fits(p, ph) && ZoneOf(p.state) == RequestLine && !IsUrlState(p.state)
    ensures StaysInOrder(ph, LineTurn(p, c))
  {
    hide LineTurn;
    LineMoves(p, c);
    PlainOrder(ph, LineTurn(p, c));
  }

  lemma FieldStartOrder(p: Parser, c: Byte, ph: Phase)
    requires Fits(p, ph) && p.state == FieldStart
    ensures StaysInOrder(ph, FieldStartTurn(p, c))
  {
    hide Token;
  }

  lemma FieldOrder(p: Parser, c: Byte, ph: Phase)
    requires Fits(p, ph) && p.state == Field
    ensures StaysInOrder(ph, FieldTurn(p, c))
  {
    hide FieldChar;
    hide Token;
    FieldCharKeeps(p, Token(c));
  }

  lemma ValueStartMoves(p: Parser, c: Byte)
    ensures var t := ValueStartTurn(p, c);
            t.next == Fail || (t.next == Break && t.mark == Some(ValueData) && t.emit == None && t.note == None
                               && t.p.state == Value && t.p.flags.trailing == p.flags.trailing)
  {
    hide Lower;
  }

  lemma ValueStartOrder(p: Parser, c: Byte, ph: Phase)
    requires Fits(p, ph) && (p.state == ValueStart || p.state == ValueDiscardWs)
    ensures StaysInOrder(ph, ValueTurn(p, c))
  {
    hide ValueTurn;
    hide StaysInOrder;
    ValueStartMoves(p, c);
    ValueTurns(p, c);
    var t := ValueTurn(p, c);
    FailsInOrder(ph, t);
    if t.mark.Some? { TextBegins(p, ph, t); } else if t.next != Fail { PlainOrder(ph, t); }
  }

  lemma ValueTurns(p: Parser, c: Byte)
    requires p.state == ValueStart || p.state == ValueDiscardWs
    ensures var t := ValueTurn(p, c);
            || t == ValueStartTurn(p, c)
            || (p.state == ValueDiscardWs && t == Take(t.p, t.p.state) && t.p.flags == p.flags && ZoneOf(t.p.state) == HeaderName
                && MarkOf(t.p.state) == None)
  {
    hide ValueStartTurn;
  }

  /** The first character of a value. */
  lemma TextBegins(p: Parser, ph: Phase, t: Turn)
    requires Fits(p, ph) && (p.state == ValueStart || p.state == ValueDiscardWs)
    requires t.next == Break && t.mark == Some(ValueData) && t.emit == None && t.note == None
    requires t.p.state == Value && t.p.flags.trailing == p.flags.trailing
    ensures StaysInOrder(ph, t)
  {}

  lemma FailsInOrder(ph: Phase, t: Turn)
    ensures t.next == Fail ==> StaysInOrder(ph, t)
  {}

  lemma ValueCharMoves(p: Parser, c: Byte)
    requires p.state == Value
    ensures var t := ValueChar(p, c);
            t.next == Fail || (t.next == Break && t.mark == None && t.emit == None && t.note == None
                               && t.p.state == Value && t.p.flags == p.flags)
  {
    hide Lower;
  }

  lemma ValueCharOrder(p: Parser, c: Byte, ph: Phase)
    requires Fits(p, ph) && p.state == Value
    ensures StaysInOrder(ph, ValueTurn(p, c))
  {
    hide ValueStartTurn;
    hide ValueChar;
    ValueCharMoves(p, c);
  }

  lemma LwsOrder(p: Parser, c: Byte, ph: Phase)
    requires Fits(p, ph) && (p.state == ValueLws || p.state == HeaderAlmostDone)
    ensures StaysInOrder(ph, ValueTurn(p, c))
  {
    hide ValueStartTurn;
    hide ValueChar;
  }

  lemma DiscardOrder(p: Parser, c: Byte, ph: Phase)
    requires Fits(p, ph) && (p.state == ValueDiscardWsAlmostDone || p.state == ValueDiscardLws)
    ensures StaysInOrder(ph, ValueTurn(p, c))
  {
    hide ValueStartTurn;
    hide ValueChar;
  }

  lemma HeadersAlmostDoneOrder(p: Parser, c: Byte, ph: Phase)
    requires Fits(p, ph) && p.state == HeadersAlmostDone
    ensures StaysInOrder(ph, EndTurn(p, c))
  {
    hide StaysInOrder;
    hide ZoneFits;
    var t := EndTurn(p, c);
    FailsInOrder(ph, t);
    if c == '\n' {
      if p.flags.trailing { AtEdge(p, ph); CompleteOrder(p, ph, Break); } else { HeadEnds(p, ph, t); }
    }
  }

  lemma AtEdge(p: Parser, ph: Phase)
    requires Fits(p, ph) && p.state == HeadersAlmostDone && p.flags.trailing
    ensures AfterHead(ph)
  {}

  lemma CompleteOrder(p: Parser, ph: Phase, next: Next)
    requires AfterHead(ph)
    ensures StaysInOrder(ph, Complete(p, next))
  {}

  lemma HeadEnds(p: Parser, ph: Phase, t: Turn)
    requires Fits(p, ph) && p.state == HeadersAlmostDone && !p.flags.trailing
    requires t.next == Again && t.mark == None && t.note == Some(HeadersComplete)
    requires t.p.state == HeadersDone && !t.p.flags.trailing
    ensures StaysInOrder(ph, t)
  {}

  lemma EndOrder(p: Parser, c: Byte, ph: Phase)
    requires Fits(p, ph) && (p.state == HeadersDone || p.state == MessageDone)
    ensures StaysInOrder(ph, EndTurn(p, c))
  {
    hide StaysInOrder;
    var t := EndTurn(p, c);
    FailsInOrder(ph, t);
    if t == Complete(p, Break) {
      CompleteOrder(p, ph, Break);
    } else if c == '\n' {
      var q := p.(nread := 0);
      CompleteOrder(q, ph, t.next);
      if t != Complete(q, t.next) { PlainOrder(ph, t); }
    }
  }

  lemma ChunkSizeTurns(p: Parser, c: Byte)
    requires p.state == ChunkSizeStart || p.state == ChunkSize || p.state == ChunkParameters
    ensures var t := ChunkTurn(p, c);
            t.next == Fail
            || (t == Take(t.p, t.p.state) && t.p.flags == p.flags
                && (t.p.state == ChunkSize || t.p.state == ChunkParameters || t.p.state == ChunkSizeAlmostDone))
  {
    hide Unhex;
  }

  lemma ChunkSizeOrder(p: Parser, c: Byte, ph: Phase)
    requires Fits(p, ph) && (p.state == ChunkSizeStart || p.state == ChunkSize || p.state == ChunkParameters)
    ensures StaysInOrder(ph, ChunkTurn(p, c))
  {
    hide ChunkTurn;
    ChunkSizeTurns(p, c);
  }

  lemma ChunkOrder(p: Parser, c: Byte, ph: Phase)
    requires Fits(p, ph) && (p.state == ChunkSizeAlmostDone || p.state == ChunkDataAlmostDone || p.state == ChunkDataDone)
    ensures StaysInOrder(ph, ChunkTurn(p, c))
  {
    hide Unhex;
  }

  lemma DeadOrder(p: Parser, c: Byte, ph: Phase)
    requires Fits(p, ph) && p.state == Dead
    ensures StaysInOrder(ph, Switch(p, c))
  {}

  lemma SwitchOrder(p: Parser, c: Byte, ph: Phase)
    requires Fits(p, ph) && !TakesBody(p.state)
    ensures StaysInOrder(ph, Switch(p, c))
  {
    hide StaysInOrder;
    hide Fits;
    hide MethodTurn;
    hide UrlTurn;
    hide LineTurn;
    hide FieldStartTurn;
    hide FieldTurn;
    hide ValueTurn;
    hide EndTurn;
    hide ChunkTurn;
    match p.state
    case Dead => DeadOrder(p, c, ph);
    case StartReq | ReqMethod => MethodOrder(p, c, ph);
    case SpacesBeforeUrl | Schema | SchemaSlash | SchemaSlashSlash | ServerStart
    | Server | ServerWithAt | Path | QueryStart | Query | FragmentStart | Fragment => UrlOrder(p, c, ph);
    case HttpStart | HttpH | HttpHT | HttpHTT | HttpHTTP | FirstMajor | Major | FirstMinor | Minor
    | LineAlmostDone => LineOrder(p, c, ph);
    case FieldStart => FieldStartOrder(p, c, ph);
    case Field => FieldOrder(p, c, ph);
    case Value => ValueCharOrder(p, c, ph);
    case ValueDiscardWs | ValueStart => ValueStartOrder(p, c, ph);
    case ValueDiscardWsAlmostDone | ValueDiscardLws => DiscardOrder(p, c, ph);
    case ValueLws | HeaderAlmostDone => LwsOrder(p, c, ph);
    case HeadersAlmostDone => HeadersAlmostDoneOrder(p, c, ph);
    case HeadersDone | MessageDone => EndOrder(p, c, ph);
    case ChunkSizeStart | ChunkSize | ChunkParameters => ChunkSizeOrder(p, c, ph);
    case ChunkSizeAlmostDone | ChunkDataAlmostDone | ChunkDataDone => ChunkOrder(p, c, ph);
    case BodyIdentity | ChunkData =>
  }

  lemma AfterPassPhase(tr: Trace, t: Turn)
    ensures PhaseOf(AfterPass(tr, t)) == PassPhase(PhaseOf(tr), t)
  {
    hide Add;
    PhaseAdded(tr, Data(ValueData, []));
    var tr1 := if t.mark == Some(ValueData) && t.emit == Some(ValueData) then Add(tr, Data(ValueData, [])) else tr;
    if t.note.Some? { PhaseAdded(tr1, Note(t.note.value)); }
  }

  lemma WithBytePhase(tr: Trace, s: State, c: Byte)
    ensures PhaseOf(WithByte(tr, s, c)) == BytePhase(PhaseOf(tr), s)
  {
    hide Add;
    if MarkOf(s).Some? {
      PhaseAdded(tr, Data(MarkOf(s).value, [c]));
    }
  }

  lemma {:induction false} PassesOrder(p: Parser, tr: Trace, c: Byte)
    requires p.errno == OK && !TakesBody(p.state) && Fits(p, PhaseOf(tr))
    ensures var r := Passes(p, tr, c); r.p.errno == OK ==> Fits(r.p, PhaseOf(r.tr))
    decreases Rank(p.state)
  {
    hide Switch;
    hide Fits;
    hide PassPhase;
    hide AfterPass;
    SwitchShape(p, c);
    SwitchOrder(p, c, PhaseOf(tr));
    var t := Switch(p, c);
    AfterPassPhase(tr, t);
    if t.next == Again {
      PassesOrder(t.p, AfterPass(tr, t), c);
    } else if t.next == Break {
      WithBytePhase(AfterPass(tr, t), t.p.state, c);
    }
  }

  lemma BodyByteOrder(p: Parser, tr: Trace, c: Byte)
    requires TakesBody(p.state) && p.length > 0 && Fits(p, PhaseOf(tr))
    ensures var r := BodyByte(p, tr, c); Fits(r.p, PhaseOf(r.tr))
  {
    hide Add;
    hide PhaseOf;
    PhaseAdded(tr, Data(BodyData, [c]));
    PhaseAdded(Add(tr, Data(BodyData, [c])), Note(MessageComplete));
  }

  /** Over every run the callbacks come in grammar order, and the phase reached is one of the parser's state. */
  lemma {:induction false} CallbacksInOrder(p: Parser, tr: Trace, data: seq<Byte>)
    requires p.errno == OK && Inv(p, 0) && Fits(p, PhaseOf(tr))
    ensures var f := Feed(p, tr, data); f.p.errno == OK ==> Fits(f.p, PhaseOf(f.tr)) && PhaseOf(f.tr) != Broken
    decreases |data|
  {
    hide Inv;
    hide PhaseOf;
    if data != [] {
      var c := data[0];
      OneByteInv(p, tr, c);
      OneByteOrder(p, tr, c);
      var r := OneByte(p, tr, c);
      if r.p.errno == OK { CallbacksInOrder(r.p, r.tr, data[1..]); }
    }
  }

  lemma OneByteOrder(p: Parser, tr: Trace, c: Byte)
    requires p.errno == OK && Inv(p, 0) && Fits(p, PhaseOf(tr))
    ensures var r := OneByte(p, tr, c); r.p.errno == OK ==> Fits(r.p, PhaseOf(r.tr))
  {
    hide Inv;
    hide PhaseOf;
    hide Passes;
    hide BodyByte;
    CountedInv(p);
    var q := Counted(p);
    if q.errno == OK {
      if TakesBody(q.state) {
        BodyHasLength(p);
        BodyByteOrder(q, tr, c);
      } else {
        PassesOrder(q, tr, c);
      }
    }
  }
}
