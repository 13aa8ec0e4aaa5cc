module HttpConservation {
  import opened Common
  import opened HttpModel
  import opened HttpBytes
  import opened HttpTrace
  import opened HttpMachine
  import opened HttpLengths

  /** The body bytes a trace delivers. */
  function BodyOf(tr: Trace): seq<Byte> {
    if tr == [] then []
    else BodyOf(tr[..|tr| - 1]) + BodyIn(tr[|tr| - 1])
  }

  function BodyIn(e: Event): seq<Byte> { if e.Data? && e.kind == BodyData then e.bytes else [] }

  lemma BodyAdded(tr: Trace, e: Event)
    ensures BodyOf(Add(tr, e)) == BodyOf(tr) + BodyIn(e)
  {
    var n := |tr| - 1;
    if e.Data? && EndsWith(tr, e.kind) {
      assert Add(tr, e)[..n] == tr[..n];
      var last := Data(e.kind, tr[n].bytes + e.bytes);
      assert BodyIn(last) == BodyIn(tr[n]) + BodyIn(e);
      assert BodyOf(tr[..n]) + (BodyIn(tr[n]) + BodyIn(e)) == BodyOf(tr) + BodyIn(e);
    } else {
      assert (tr + [e])[..|tr|] == tr;
    }
  }

  lemma NoBody(tr: Trace, e: Event)
    requires BodyIn(e) == []
    ensures BodyOf(Add(tr, e)) == BodyOf(tr)
  {
    BodyAdded(tr, e);
  }

  /** Body bytes announced and not yet seen. */
  function Owed(p: Parser): nat { if TakesBody(p.state) then p.length else 0 }

  /** The digits after all passes over one byte. */
  function NoticedAll(p: Parser, c: Byte, w: Digits): Digits
    requires p.errno == OK && !TakesBody(p.state)
    decreases Rank(p.state)
  {
    var t := Switch(p, c);
    SwitchShape(p, c);
    if t.next == Again then NoticedAll(t.p, c, Noticed(p, c, w)) else Noticed(p, c, w)
  }

  lemma {:induction false} PassesLength(p: Parser, tr: Trace, c: Byte, w: Digits)
    requires p.errno == OK && !TakesBody(p.state) && Inv(p, 1) && Agrees(p, w)
    ensures var r := Passes(p, tr, c);
            && (r.next != Fail ==> Agrees(r.p, NoticedAll(p, c, w)) && Announces(r.p, NoticedAll(p, c, w)))
            && BodyOf(r.tr) == BodyOf(tr)
    decreases Rank(p.state)
  {
    hide Switch;
    hide Inv;
    hide Agrees;
    hide Announces;
    hide Noticed;
    hide Add;
    hide BodyOf;
    SwitchShape(p, c);
    SwitchKeepsInv(p, c);
    SwitchLength(p, c, w);
    var t := Switch(p, c);
    PassDelivers(tr, t);
    if t.next == Again {
      PassesLength(t.p, AfterPass(tr, t), c, Noticed(p, c, w));
    } else if t.next == Break && MarkOf(t.p.state).Some? {
      MarksAreNotBody(t.p.state);
      NoBody(AfterPass(tr, t), Data(MarkOf(t.p.state).value, [c]));
    }
  }

  lemma MarksAreNotBody(s: State)
    ensures MarkOf(s) != Some(BodyData)
  {}

  lemma PassDelivers(tr: Trace, t: Turn)
    ensures BodyOf(AfterPass(tr, t)) == BodyOf(tr)
  {
    hide Add;
    hide BodyOf;
    var tr1 := if t.mark == Some(ValueData) && t.emit == Some(ValueData) then Add(tr, Data(ValueData, [])) else tr;
    NoBody(tr, Data(ValueData, []));
    if t.note.Some? { NoBody(tr1, Note(t.note.value)); }
  }

  // ----- whole runs -----

  /** The digits after one byte. */
  function ByteNoticed(p: Parser, c: Byte, w: Digits): Digits
    requires p.errno == OK && Inv(p, 0)
  {
    var q := Counted(p);
    if q.errno != OK || TakesBody(q.state) then w else NoticedAll(q, c, w)
  }

  function BodyByteOf(p: Parser, c: Byte): seq<Byte> { if TakesBody(p.state) then [c] else [] }

  /** The bytes of the input that arrive while a body is being read. */
  function BodyInput(p: Parser, tr: Trace, data: seq<Byte>): seq<Byte>
    requires p.errno == OK ==> Inv(p, 0)
    decreases |data|
  {
    if data == [] || p.errno != OK then []
    else
      var r := OneByte(p, tr, data[0]);
      OneByteInv(p, tr, data[0]);
      BodyByteOf(p, data[0]) + BodyInput(r.p, r.tr, data[1..])
  }

  /** The length announced by a byte that leads from `p` to `q`: the number written, if a body starts there. */
  function AnnouncedBy(p: Parser, q: Parser, w: Digits): nat {
    if TakesBody(p.state) || q.errno != OK then 0
    else if q.state == BodyIdentity then Decimal(w)
    else if q.state == ChunkData then Hexadecimal(w)
    else 0
  }

  /** The sum of the lengths written in the input: one number for every body that starts. */
  function Announced(p: Parser, tr: Trace, data: seq<Byte>, w: Digits): nat
    requires p.errno == OK ==> Inv(p, 0)
    decreases |data|
  {
    if data == [] || p.errno != OK then 0
    else
      var r := OneByte(p, tr, data[0]);
      OneByteInv(p, tr, data[0]);
      var w' := ByteNoticed(p, data[0], w);
      AnnouncedBy(p, r.p, w') + Announced(r.p, r.tr, data[1..], w')
  }

  lemma ByteLength(p: Parser, tr: Trace, c: Byte, w: Digits)
    requires p.errno == OK && Inv(p, 0) && Agrees(p, w) && OneByte(p, tr, c).p.errno == OK
    ensures var r := OneByte(p, tr, c);
            var w' := ByteNoticed(p, c, w);
            && Agrees(r.p, w')
            && BodyOf(r.tr) == BodyOf(tr) + BodyByteOf(p, c)
            && |BodyByteOf(p, c)| + Owed(r.p) == Owed(p) + AnnouncedBy(p, r.p, w')
  {
    hide Inv;
    hide Passes;
    hide NoticedAll;
    hide BodyOf;
    hide Add;
    CountedInv(p);
    OneByteInv(p, tr, c);
    var q := Counted(p);
    if q.errno == OK {
      if TakesBody(q.state) {
        BodyByteLength(q, tr, c, w);
      } else {
        CountedAgrees(p, w);
        PassesLength(q, tr, c, w);
      }
    }
  }

  lemma CountedAgrees(p: Parser, w: Digits)
    requires Agrees(p, w)
    ensures Agrees(Counted(p), w)
  {
    hide Decimal;
    hide Hexadecimal;
  }

  lemma BodyByteLength(p: Parser, tr: Trace, c: Byte, w: Digits)
    requires p.errno == OK && TakesBody(p.state) && Inv(p, 0)
    ensures p.length > 0
    ensures var r := BodyByte(p, tr, c);
            Agrees(r.p, w) && BodyOf(r.tr) == BodyOf(tr) + [c] && Owed(r.p) == p.length - 1
  {
    hide Name;
    hide BodyOf;
    hide Add;
    hide Decimal;
    hide Hexadecimal;
    BodyAdded(tr, Data(BodyData, [c]));
    NoBody(Add(tr, Data(BodyData, [c])), Note(MessageComplete));
  }

  /**
   * Conservation: whatever arrives, the body callbacks deliver exactly the bytes of the bodies, in order, and
   * their number with what is still owed is the sum of the lengths written in the headers and the chunk sizes.
   */
  lemma {:induction false} BodyConserved(p: Parser, tr: Trace, data: seq<Byte>, w: Digits)
    requires p.errno == OK ==> Inv(p, 0) && Agrees(p, w)
    ensures var f := Feed(p, tr, data);
            f.p.errno == OK ==>
              && BodyOf(f.tr) == BodyOf(tr) + BodyInput(p, tr, data)
              && |BodyInput(p, tr, data)| + Owed(f.p) == Owed(p) + Announced(p, tr, data, w)
    decreases |data|
  {
    hide Inv;
    hide Agrees;
    hide OneByte;
    hide ByteNoticed;
    hide BodyOf;
    hide BodyByteOf;
    hide AnnouncedBy;
    hide Owed;
    if p.errno == OK && data != [] {
      var c := data[0];
      OneByteInv(p, tr, c);
      var r := OneByte(p, tr, c);
      if r.p.errno == OK {
        ByteLength(p, tr, c, w);
        BodyConserved(r.p, r.tr, data[1..], ByteNoticed(p, c, w));
        assert BodyOf(tr) + BodyByteOf(p, c) + BodyInput(r.p, r.tr, data[1..]) == BodyOf(tr) + BodyInput(p, tr, data);
      } else {
        FedStops(r.p, r.tr, data[1..]);
      }
    }
  }

  /** A run of a new parser that stops between bodies has delivered exactly what was announced. */
  lemma NothingOwed(data: seq<Byte>)
    ensures Inv(NEW_PARSER, 0)
    ensures var f := Feed(NEW_PARSER, [], data);
            f.p.errno == OK && !TakesBody(f.p.state) ==>
              BodyOf(f.tr) == BodyInput(NEW_PARSER, [], data) && |BodyOf(f.tr)| == Announced(NEW_PARSER, [], data, None)
  {
    BodyConserved(NEW_PARSER, [], data, None);
    assert BodyOf([]) + BodyInput(NEW_PARSER, [], data) == BodyInput(NEW_PARSER, [], data);
  }
}
