/** The source's own assertions, at every pass of every run. */
module HttpAsserts {
  import opened Common
  import opened HttpModel
  import opened HttpBytes
  import opened HttpTrace
  import opened HttpMachine

  /** A header state that the switch inside a field name knows. */
  predicate KnownInField(h: HeaderState) {
    match h
    case MatchChunked | MatchKeepAlive | MatchClose | Chunked | KeepAlive | Close => false
    case _ => true
  }

  /** What the state switch asserts on entry to the parser's state. */
  predicate Asserted(p: Parser) {
    match p.state
    case Field => KnownInField(p.hstate)
    case Value => p.hstate != Connection && p.hstate != TransferEncoding
    case BodyIdentity => p.length != 0 && p.length != NO_LENGTH
    case ChunkSizeStart => p.nread == 1 && p.flags.chunked
    case ChunkSize | ChunkParameters | ChunkSizeAlmostDone | ChunkDataDone => p.flags.chunked
    case ChunkData => p.flags.chunked && p.length != 0 && p.length != NO_LENGTH
    case ChunkDataAlmostDone => p.flags.chunked && p.length == 0
    case _ => true
  }

  /** The assertions of all passes over one byte. */
  predicate PassesAsserted(p: Parser, c: Byte)
    requires p.errno == OK && !TakesBody(p.state)
    decreases Rank(p.state)
  {
    Asserted(p) &&
    (SwitchShape(p, c);
     var t := Switch(p, c);
     t.next == Again ==> PassesAsserted(t.p, c))
  }

  /** The assertions of a whole run. */
  predicate RunAsserted(p: Parser, tr: Trace, data: seq<Byte>)
    requires p.errno == OK ==> Inv(p, 0)
    decreases |data|
  {
    p.errno != OK || data == [] ||
    (var q := Counted(p);
     var r := OneByte(p, tr, data[0]);
     OneByteInv(p, tr, data[0]);
     && (q.errno == OK ==> if TakesBody(q.state) then Asserted(q) else PassesAsserted(q, data[0]))
     && RunAsserted(r.p, r.tr, data[1..]))
  }

  lemma InvAsserts(p: Parser)
    requires Inv(p, 1)
    ensures Asserted(p)
  {
    hide Name;
  }

  lemma {:induction false} PassesAssert(p: Parser, c: Byte)
    requires p.errno == OK && !TakesBody(p.state) && Inv(p, 1)
    ensures PassesAsserted(p, c)
    decreases Rank(p.state)
  {
    hide Inv;
    hide Asserted;
    hide Switch;
    InvAsserts(p);
    SwitchShape(p, c);
    SwitchKeepsInv(p, c);
    var t := Switch(p, c);
    if t.next == Again { PassesAssert(t.p, c); }
  }

  /** No assertion fires, whatever bytes arrive. */
  lemma {:induction false} NoAssertFires(p: Parser, tr: Trace, data: seq<Byte>)
    requires p.errno == OK ==> Inv(p, 0)
    ensures RunAsserted(p, tr, data)
    decreases |data|
  {
    hide Inv;
    hide Asserted;
    hide PassesAsserted;
    hide OneByte;
    hide Counted;
    if p.errno == OK && data != [] {
      var q := Counted(p);
      CountedInv(p);
      OneByteInv(p, tr, data[0]);
      if q.errno == OK {
        if TakesBody(q.state) { InvAsserts(q); } else { PassesAssert(q, data[0]); }
      }
      NoAssertFires(OneByte(p, tr, data[0]).p, OneByte(p, tr, data[0]).tr, data[1..]);
    }
  }

  /** A new parser has the invariant, so its runs are covered. */
  lemma NewParserRuns(data: seq<Byte>)
    ensures Inv(NEW_PARSER, 0) && RunAsserted(NEW_PARSER, [], data)
  {
    NoAssertFires(NEW_PARSER, [], data);
  }
}
