module HttpExecute {
  import opened Common
  import opened HttpModel
  import opened HttpBytes
  import opened HttpTrace
  import opened HttpMachine
  import opened HttpMarks
  import opened HttpHandler

  /** The marks a call starts with: data that was being collected goes on at the buffer's first byte. */
  function InitialMarks(s: State): Marks {
    match MarkOf(s) case Some(k) => One(k, 0) case None => NO_MARKS
  }

  lemma InitialSim(s: State, tr: Trace, data: seq<Byte>)
    requires MarkOf(s).Some? ==> EndsWith(tr, MarkOf(s).value)
    ensures Sim(s, InitialMarks(s), tr, tr, data, 0)
  {
    hide Add;
    if MarkOf(s).Some? {
      PendingOne(tr, MarkOf(s).value, 0, data, 0);
      assert data[0..0] == [];
      AddEmpty(tr, MarkOf(s).value);
    }
  }

  /** The body marks after `n` more body bytes. */
  lemma BodySim(s: State, m: Marks, reported: Trace, tr: Trace, data: seq<Byte>, pos: nat, n: nat, s': State)
    requires TakesBody(s) && Sim(s, m, reported, tr, data, pos) && pos + n <= |data| && n > 0
    requires s' == ChunkData || s' == ChunkDataAlmostDone || s' == BodyIdentity
    ensures var m' := Mark(m, BodyData, pos);
            && m'.body.Some? && m' == One(BodyData, m'.body.value) && m'.body.value <= pos
            && Add(tr, Data(BodyData, data[pos..pos + n])) == Add(reported, Data(BodyData, data[m'.body.value..pos + n]))
            && Sim(s', m', reported, Add(tr, Data(BodyData, data[pos..pos + n])), data, pos + n)
  {
    hide Add;
    var start := Mark(m, BodyData, pos).body.value;
    if m.body.Some? {
      PendingOne(reported, BodyData, start, data, pos);
      AddTwice(reported, BodyData, data[start..pos], data[pos..pos + n]);
      assert data[start..pos] + data[pos..pos + n] == data[start..pos + n];
    }
    PendingOne(reported, BodyData, start, data, pos + n);
  }

  lemma FeedOne(p: Parser, tr: Trace, c: Byte)
    requires p.errno == OK && Inv(p, 0)
    ensures Feed(p, tr, [c]) == Fed(OneByte(p, tr, c).p, OneByte(p, tr, c).tr)
  {
    hide OneByte;
    hide Inv;
  }

  class HttpParser {
    var p: Parser
    var events: seq<Event>  // the callbacks made, in order

    ghost predicate Valid()
      reads this
    {
      p.errno == OK ==>
        Inv(p, 0) && (MarkOf(p.state).Some? ==> EndsWith(Join(events), MarkOf(p.state).value))
    }

    constructor ()
      ensures Valid() && p.errno == OK && p.state == StartReq && events == []
    {
      p := NEW_PARSER;
      events := [];
    }

    /** CALLBACK_DATA: reports the marked bytes up to `pos` and clears the mark. */
    method Report(data: seq<Byte>, m: Marks, k: Kind, pos: nat) returns (m': Marks)
      requires pos <= |data| && Inside(m, pos)
      modifies this`events
      ensures (Join(events), m') == Emitted(Join(old(events)), m, k, data, pos)
      ensures Inside(m', pos) && (m.Get(k).None? ==> events == old(events))
    {
      hide Add;
      m' := m;
      if m.Get(k).Some? {
        JoinSnoc(events, Data(k, data[m.Get(k).value..pos]));
        events := events + [Data(k, data[m.Get(k).value..pos])];
        m' := m.Put(k, None);
      }
    }

    method Notify(note: Option<Notice>)
      modifies this`events
      ensures Join(events) == Noted(Join(old(events)), note)
    {
      hide Add;
      if note.Some? {
        JoinSnoc(events, Note(note.value));
        events := events + [Note(note.value)];
      }
    }

    /** One pass of the switch over the byte at `pos`. */
    method Pass(data: seq<Byte>, m: Marks, pos: nat) returns (m': Marks, next: Next)
      requires p.errno == OK && !TakesBody(p.state) && pos < |data| && Inside(m, pos)
      modifies this
      ensures p == Switch(old(p), data[pos]).p && next == Switch(old(p), data[pos]).next
      ensures (Join(events), m') == Applied(Join(old(events)), m, Switch(old(p), data[pos]), data, pos)
    {
      hide Switch;
      hide Add;
      var t := Switch(p, data[pos]);
      p := t.p;
      m' := m;
      if t.mark.Some? {
        m' := Mark(m', t.mark.value, pos);
      }
      if t.emit.Some? {
        m' := Report(data, m', t.emit.value, pos);
      }
      Notify(t.note);
      next := t.next;
    }

    /** All passes over one byte outside a body: the loop behind `reexecute_byte`. */
    method ByteAt(data: seq<Byte>, m: Marks, pos: nat, ghost tr: Trace) returns (m': Marks, next: Next)
      requires p.errno == OK && !TakesBody(p.state) && pos < |data|
      requires Sim(p.state, m, Join(events), tr, data, pos)
      modifies this
      ensures p == Passes(old(p), tr, data[pos]).p && next == Passes(old(p), tr, data[pos]).next
      ensures next != Again
      ensures next != Fail ==> Sim(p.state, m', Join(events), Passes(old(p), tr, data[pos]).tr, data, pos + 1)
      decreases Rank(p.state)
    {
      hide Switch;
      hide Add;
      hide Applied;
      hide Pending;
      hide MarksFit;
      ghost var t := Switch(p, data[pos]);
      SwitchShape(p, data[pos]);
      FitsInside(p.state, m, pos);
      if t.next != Fail { PassSim(p, m, Join(events), tr, data, pos); }
      m', next := Pass(data, m, pos);
      if next == Again {
        m', next := ByteAt(data, m', pos, AfterPass(tr, t));
      }
    }

    /** The last body byte of a message: reports the body, then goes on in `s_message_done`. */
    method FinishBody(data: seq<Byte>, m: Marks, end: nat, ghost start: nat) returns (m': Marks)
      requires p.errno == OK && 0 < end <= |data| && start <= end && m == One(BodyData, start)
      modifies this
      ensures m' == NO_MARKS && p == old(p).(state := NewMessage(old(p)))
      ensures Join(events) == Add(Add(Join(old(events)), Data(BodyData, data[start..end])), Note(MessageComplete))
    {
      hide Add;
      hide Switch;
      hide Join;
      hide NewMessage;
      p := p.(state := MessageDone);
      m' := Report(data, m, BodyData, end);
      MessageDoneSwitch(old(p), data[end - 1]);
      var t := Switch(p, data[end - 1]);
      p := t.p;
      Notify(t.note);
    }

    /** `s_body_identity` and `s_chunk_data`: takes as many body bytes as the buffer holds. */
    method BodyAt(data: seq<Byte>, m: Marks, pos: nat, ghost tr: Trace) returns (m': Marks, n: nat)
      requires p.errno == OK && TakesBody(p.state) && 0 < p.length && pos < |data|
      requires Sim(p.state, m, Join(events), tr, data, pos)
      modifies this
      ensures 0 < n <= old(p.length) && pos + n <= |data|
      ensures var e := BodyEnd(old(p), tr, data[pos..pos + n]);
              p == e.p && Sim(p.state, m', Join(events), e.tr, data, pos + n)
    {
      hide Add;
      hide Join;
      n := if p.length < |data| - pos then p.length else |data| - pos;
      m' := Mark(m, BodyData, pos);
      p := p.(length := p.length - n);
      if p.length == 0 && p.state == BodyIdentity {
        BodySim(p.state, m, Join(events), tr, data, pos, n, p.state);
        m' := FinishBody(data, m', pos + n, m'.body.value);
      } else if p.length == 0 {
        BodySim(p.state, m, Join(events), tr, data, pos, n, ChunkDataAlmostDone);
        p := p.(state := ChunkDataAlmostDone);
      } else {
        BodySim(p.state, m, Join(events), tr, data, pos, n, p.state);
      }
    }

    /** The callbacks for a mark left when the buffer ends. */
    method ReportLeftover(data: seq<Byte>, m: Marks, ghost tr: Trace)
      requires Sim(p.state, m, Join(events), tr, data, |data|) && MarkCount(m) <= 1
      modifies this`events
      ensures Join(events) == tr
    {
      hide Add;
      hide Join;
      FitsInside(p.state, m, |data|);
      var m' := Report(data, m, FieldData, |data|);
      m' := Report(data, m', ValueData, |data|);
      m' := Report(data, m', UrlData, |data|);
      m' := Report(data, m', BodyData, |data|);
    }

    /** One turn of the main loop: a byte with all its passes, or a stretch of body bytes. */
    method Iterate(data: seq<Byte>, m: Marks, pos: nat, ghost tr: Trace)
      returns (m': Marks, pos': nat, next: Next, ghost tr': Trace)
      requires p.errno == OK && Inv(p, 0) && pos < |data| && Sim(p.state, m, Join(events), tr, data, pos)
      modifies this
      ensures next == Fail ==> p.errno != OK && pos' == pos && Feed(old(p), tr, data[pos..pos + 1]).p == p
      ensures next != Fail ==>
                p.errno == OK && Inv(p, 0) && pos < pos' <= |data| && Feed(old(p), tr, data[pos..pos']) == Fed(p, tr')
                && Sim(p.state, m', Join(events), tr', data, pos') && MarkCount(m') <= 1
      ensures next == Exit ==> p.upgrade && MarkOf(p.state) == None && !TakesBody(p.state) && p.state != ChunkDataAlmostDone
      ensures Smooth(old(p), tr, data[pos..]) ==
              match next
              case Fail => false
              case Exit => pos' == |data|
              case _ => Smooth(p, tr', data[pos'..])
    {
      hide Inv;
      hide Join;
      hide Passes;
      hide Feed;
      hide Sim;
      hide Counted;
      hide BodyEnd;
      hide Smooth;
      CountedInv(p);
      OneByteInv(p, tr, data[pos]);
      SmoothOne(p, tr, data[pos..]);
      FeedOne(p, tr, data[pos]);
      assert data[pos..pos + 1] == [data[pos]];
      ghost var before := p;
      m', pos', next, tr' := m, pos, Fail, tr;
      p := Counted(p);
      if p.errno == OK {
        if TakesBody(p.state) {
          BodyHasLength(p);
          var n;
          m', n := BodyAt(data, m, pos, tr);
          FeedBody(before, tr, data[pos..pos + n]);
          FeedInvAt(before, tr, data[pos..pos + n]);
          BodyEndOK(before, tr, data[pos..pos + n]);
          SmoothBody(before, tr, data[pos..pos + n], data[pos + n..]);
          assert data[pos..] == data[pos..pos + n] + data[pos + n..];
          OneMarkAtMost(p.state, m', Join(events), BodyEnd(before, tr, data[pos..pos + n]).tr, data, pos + n);
          pos', next, tr' := pos + n, Break, BodyEnd(before, tr, data[pos..pos + n]).tr;
        } else {
          ExitMeansUpgrade(p, tr, data[pos]);
          m', next := ByteAt(data, m, pos, tr);
          if next != Fail {
            pos', tr' := pos + 1, OneByte(before, tr, data[pos]).tr;
            OneMarkAtMost(p.state, m', Join(events), tr', data, pos');
            SmoothNothing(p, tr');
            assert data[pos..][1..] == data[pos + 1..] && (pos + 1 == |data| ==> data[pos + 1..] == []);
          }
        }
      }
    }

    /** `http_parser_execute` on a non-empty buffer: as far as it got without an error, the parser and the joined
        callbacks are those of the byte machine; it stops early only at an error or for an upgrade. */
    method Run(data: seq<Byte>) returns (nparsed: nat)
      requires Valid() && p.errno == OK && data != []
      modifies this
      ensures Valid() && nparsed <= |data|
      ensures p.errno == OK ==> nparsed > 0 && Feed(old(p), Join(old(events)), data[..nparsed]) == Fed(p, Join(events))
      ensures p.errno == OK && nparsed < |data| ==> p.upgrade
      ensures p.errno == OK && nparsed == |data| <==> Smooth(old(p), Join(old(events)), data)
      ensures p.errno != OK ==> nparsed < |data| && Feed(old(p), Join(old(events)), data[..nparsed + 1]).p == p
    {
      hide Inv;
      hide Join;
      hide Feed;
      hide Sim;
      hide Smooth;
      ghost var p0, tr0 := p, Join(events);
      ghost var tr := tr0;
      var m := InitialMarks(p.state);
      InitialSim(p.state, tr0, data);
      OneMarkAtMost(p.state, m, tr0, tr0, data, 0);
      var pos: nat := 0;
      FeedNothing(p, tr0, data);
      FeedInv(p0, tr0, data[..0]);
      assert data[0..] == data;
      while pos < |data|
        invariant pos <= |data| && p.errno == OK && Inv(p, 0)
        invariant Feed(p0, tr0, data[..pos]) == Fed(p, tr)
        invariant Sim(p.state, m, Join(events), tr, data, pos) && MarkCount(m) <= 1
        invariant Smooth(p0, tr0, data) == Smooth(p, tr, data[pos..])
      {
        ghost var before := pos;
        var next;
        FeedSplit(p0, tr0, data[..pos], data[pos..pos + 1]);
        assert data[..pos] + data[pos..pos + 1] == data[..pos + 1];
        m, pos, next, tr := Iterate(data, m, pos, tr);
        if next == Fail {
          return pos;
        }
        FeedSplit(p0, tr0, data[..before], data[before..pos]);
        assert data[..before] + data[before..pos] == data[..pos];
        FeedInv(p0, tr0, data[..pos]);
        if next == Exit {
          NothingMarked(p.state, m, Join(events), tr, data, pos);
          return pos;
        }
      }
      assert data[..pos] == data && data[pos..] == [];
      SmoothNothing(p, tr);
      FeedInv(p0, tr0, data[..pos]);
      ReportLeftover(data, m, tr);
      return |data|;
    }

    /** `http_parser_execute`: a parser in error does nothing; an empty buffer means the end of the input. */
    method Execute(data: seq<Byte>) returns (nparsed: nat)
      requires Valid()
      modifies this
      ensures Valid()
      ensures old(p.errno) != OK ==> nparsed == 0 && p == old(p) && events == old(events)
      ensures old(p.errno) == OK && data == [] ==>
                (var quiet := p.state == Dead || p.state == StartReq;
                 events == old(events) && nparsed == (if quiet then 0 else 1)
                 && p == if quiet then old(p) else old(p).(errno := INVALID_EOF_STATE))
      ensures old(p.errno) == OK && data != [] ==> nparsed <= |data|
      ensures old(p.errno) == OK && data != [] && p.errno == OK ==>
                nparsed > 0 && Feed(old(p), Join(old(events)), data[..nparsed]) == Fed(p, Join(events))
      ensures old(p.errno) == OK && data != [] ==>
                (p.errno == OK && nparsed == |data| <==> Smooth(old(p), Join(old(events)), data))
    {
      hide Inv;
      hide Join;
      hide Feed;
      hide Smooth;
      if p.errno != OK {
        return 0;
      }
      if data == [] {
        if p.state == Dead || p.state == StartReq {
          return 0;
        }
        p := p.(errno := INVALID_EOF_STATE);
        return 1;
      }
      nparsed := Run(data);
    }

    /** Feeds a request in pieces, as reads from a socket cut it. */
    method ExecutePieces(pieces: seq<seq<Byte>>) returns (ok: bool)
      requires Valid() && p.errno == OK && forall i :: 0 <= i < |pieces| ==> pieces[i] != []
      modifies this
      ensures Valid()
      ensures Smooth(old(p), Join(old(events)), Flatten(pieces)) ==>
                ok && p.errno == OK && Feed(old(p), Join(old(events)), Flatten(pieces)) == Fed(p, Join(events))
      decreases |pieces|
    {
      hide Inv;
      hide Join;
      hide Feed;
      hide Smooth;
      if pieces == [] {
        FeedNothing(p, Join(events), []);
        return true;
      }
      ghost var p0, tr0 := p, Join(events);
      ghost var rest := Flatten(pieces[1..]);
      if Smooth(p0, tr0, pieces[0] + rest) { SmoothSplit(p0, tr0, pieces[0], rest); }
      FeedSplit(p0, tr0, pieces[0], rest);
      var nparsed := Execute(pieces[0]);
      if nparsed != |pieces[0]| || p.errno != OK {
        return false;
      }
      assert pieces[0][..nparsed] == pieces[0];
      ok := ExecutePieces(pieces[1..]);
    }
  }

  function Flatten(pieces: seq<seq<Byte>>): seq<Byte> {
    if pieces == [] then [] else pieces[0] + Flatten(pieces[1..])
  }

  /** Split invariance: what one call takes whole without error, any sequence of non-empty pieces takes to the same
      parser, the same callbacks once adjacent data callbacks are joined, and the same request. */
  method SplitInvariance(whole: HttpParser, cut: HttpParser, pieces: seq<seq<Byte>>) returns (nparsed: nat, ok: bool)
    requires whole != cut && whole.Valid() && cut.Valid() && whole.p == cut.p && whole.p.errno == OK
    requires Join(whole.events) == Join(cut.events)
    requires pieces != [] && forall i :: 0 <= i < |pieces| ==> pieces[i] != []
    modifies whole, cut
    ensures nparsed == |Flatten(pieces)| && whole.p.errno == OK ==>
              ok && cut.p == whole.p && Join(cut.events) == Join(whole.events)
              && HandleAll(EMPTY, cut.events) == HandleAll(EMPTY, whole.events)
  {
    hide Inv;
    hide Join;
    hide Feed;
    hide Smooth;
    hide Handle;
    var data := Flatten(pieces);
    assert data != [] by { assert pieces[0] != []; }
    nparsed := whole.Execute(data);
    assert nparsed == |data| ==> data[..nparsed] == data;
    ok := cut.ExecutePieces(pieces);
    HandleJoined(EMPTY, whole.events);
    HandleJoined(EMPTY, cut.events);
  }

  lemma SmoothOne(p: Parser, tr: Trace, data: seq<Byte>)
    requires p.errno == OK && Inv(p, 0) && data != []
    ensures var r := OneByte(p, tr, data[0]);
            (r.next != Fail ==> r.p.errno == OK && Inv(r.p, 0))
            && Smooth(p, tr, data) == (r.next != Fail && (r.next == Exit ==> |data| == 1) && Smooth(r.p, r.tr, data[1..]))
  {
    hide OneByte;
    hide Inv;
    OneByteInv(p, tr, data[0]);
  }

  lemma SmoothNothing(p: Parser, tr: Trace)
    requires p.errno == OK && Inv(p, 0)
    ensures Smooth(p, tr, [])
  {}

  lemma BodyEndOK(p: Parser, tr: Trace, bytes: seq<Byte>)
    requires TakesBody(p.state) && |bytes| <= p.length && p.errno == OK
    ensures BodyEnd(p, tr, bytes).p.errno == OK
  {
    hide Add;
  }

  lemma NothingMarked(s: State, m: Marks, reported: Trace, tr: Trace, data: seq<Byte>, pos: nat)
    requires Sim(s, m, reported, tr, data, pos) && MarkOf(s) == None && !TakesBody(s) && s != ChunkDataAlmostDone
    ensures reported == tr
  {
    hide Add;
  }

  lemma SwitchExits(p: Parser, c: Byte)
    requires p.state == HeadersDone && Switch(p, c).next == Exit
    ensures var q := Switch(p, c).p; q.upgrade && (q.state == StartReq || q.state == Dead)
  {}

  lemma {:induction false} ExitMeansUpgrade(p: Parser, tr: Trace, c: Byte)
    requires p.errno == OK && !TakesBody(p.state)
    ensures var r := Passes(p, tr, c);
            r.next == Exit ==> r.p.upgrade && MarkOf(r.p.state) == None && !TakesBody(r.p.state) && r.p.state != ChunkDataAlmostDone
    decreases Rank(p.state)
  {
    hide Switch;
    hide Add;
    SwitchShape(p, c);
    var t := Switch(p, c);
    if t.next == Again { ExitMeansUpgrade(t.p, AfterPass(tr, t), c); }
    else if t.next == Exit { SwitchExits(p, c); }
  }

  lemma MessageDoneSwitch(p: Parser, c: Byte)
    ensures Switch(p.(state := MessageDone), c) == Turn(p.(state := NewMessage(p)), None, None, Some(MessageComplete), Break)
  {}

  lemma FeedNothing(p: Parser, tr: Trace, data: seq<Byte>)
    requires p.errno == OK ==> Inv(p, 0)
    ensures Feed(p, tr, data[..0]) == Fed(p, tr)
  {}

  lemma FeedInvAt(p: Parser, tr: Trace, data: seq<Byte>)
    requires p.errno == OK ==> Inv(p, 0)
    ensures var f := Feed(p, tr, data); f.p.errno == OK ==> Inv(f.p, 0)
  {
    hide Inv;
    FeedSplit(p, tr, data, []);
  }
}
