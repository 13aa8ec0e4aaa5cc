/** The marks into the caller's buffer, and how a pass of the switch moves them. */
module HttpMarks {
  import opened Common
  import opened HttpModel
  import opened HttpBytes
  import opened HttpTrace
  import opened HttpMachine

  /** Where the data not yet reported begins, one mark per data callback. */
  datatype Marks = Marks(url: Option<nat>, field: Option<nat>, value: Option<nat>, body: Option<nat>) {
    function Get(k: Kind): Option<nat> {
      match k case UrlData => url case FieldData => field case ValueData => value case BodyData => body
    }
    function Put(k: Kind, m: Option<nat>): Marks {
      match k
      case UrlData => this.(url := m) case FieldData => this.(field := m)
      case ValueData => this.(value := m) case BodyData => this.(body := m)
    }
  }

  const NO_MARKS := Marks(None, None, None, None)

  function One(k: Kind, start: nat): Marks { NO_MARKS.Put(k, Some(start)) }

  /** Setting a mark does not move one that is set. */
  function Mark(m: Marks, k: Kind, pos: nat): Marks {
    if m.Get(k).Some? then m else m.Put(k, Some(pos))
  }

  predicate Inside(m: Marks, pos: nat) {
    && (m.url.Some? ==> m.url.value <= pos) && (m.field.Some? ==> m.field.value <= pos)
    && (m.value.Some? ==> m.value.value <= pos) && (m.body.Some? ==> m.body.value <= pos)
  }

  /** The marks a state may have at `pos`: its own, or a body mark around body bytes; never two. */
  predicate MarksFit(s: State, m: Marks, pos: nat) {
    match MarkOf(s)
    case Some(k) => m.Get(k).Some? && m == One(k, m.Get(k).value) && m.Get(k).value <= pos
    case None =>
      m == NO_MARKS
      || (m.body.Some? && m == One(BodyData, m.body.value) && m.body.value <= pos
          && (s == ChunkData || s == ChunkDataAlmostDone || s == BodyIdentity))
  }

  /** The trace as it will be once the marked data has been reported. */
  function Pending(tr: Trace, m: Marks, data: seq<Byte>, pos: nat): Trace
    requires pos <= |data| && Inside(m, pos)
  {
    if m.url.Some? then Add(tr, Data(UrlData, data[m.url.value..pos]))
    else if m.field.Some? then Add(tr, Data(FieldData, data[m.field.value..pos]))
    else if m.value.Some? then Add(tr, Data(ValueData, data[m.value.value..pos]))
    else if m.body.Some? then Add(tr, Data(BodyData, data[m.body.value..pos]))
    else tr
  }

  function MarkCount(m: Marks): nat {
    (if m.url.Some? then 1 else 0) + (if m.field.Some? then 1 else 0)
    + (if m.value.Some? then 1 else 0) + (if m.body.Some? then 1 else 0)
  }

  lemma FitsInside(s: State, m: Marks, pos: nat)
    requires MarksFit(s, m, pos)
    ensures Inside(m, pos)
  {}

  lemma PendingOne(tr: Trace, k: Kind, start: nat, data: seq<Byte>, pos: nat)
    requires start <= pos <= |data|
    ensures Inside(One(k, start), pos)
            && Pending(tr, One(k, start), data, pos) == Add(tr, Data(k, data[start..pos]))
  {
    hide Add;
  }

  /** The callbacks made so far, with the marked data, are the byte machine's trace. */
  ghost predicate Sim(s: State, m: Marks, reported: Trace, tr: Trace, data: seq<Byte>, pos: nat) {
    pos <= |data| && MarksFit(s, m, pos) && (FitsInside(s, m, pos); tr == Pending(reported, m, data, pos))
  }

  /** Never two marks at once. */
  lemma OneMarkAtMost(s: State, m: Marks, reported: Trace, tr: Trace, data: seq<Byte>, pos: nat)
    requires Sim(s, m, reported, tr, data, pos)
    ensures MarkCount(m) <= 1
  {
    hide Add;
  }

  /** A data callback: the marked bytes up to `pos`, if there is a mark. */
  function Emitted(reported: Trace, m: Marks, k: Kind, data: seq<Byte>, pos: nat): (r: (Trace, Marks))
    requires pos <= |data| && Inside(m, pos)
  {
    match m.Get(k)
    case None => (reported, m)
    case Some(start) => (Add(reported, Data(k, data[start..pos])), m.Put(k, None))
  }

  /** The marks and reports after one pass. */
  function Applied(reported: Trace, m: Marks, t: Turn, data: seq<Byte>, pos: nat): (r: (Trace, Marks))
    requires pos <= |data| && Inside(m, pos)
  {
    var m1 := if t.mark.Some? then Mark(m, t.mark.value, pos) else m;
    var (r2, m2) := if t.emit.Some? then Emitted(reported, m1, t.emit.value, data, pos) else (reported, m1);
    (Noted(r2, t.note), m2)
  }

  lemma Grow(reported: Trace, k: Kind, start: nat, data: seq<Byte>, pos: nat)
    requires start <= pos < |data|
    ensures Add(Add(reported, Data(k, data[start..pos])), Data(k, [data[pos]])) == Add(reported, Data(k, data[start..pos + 1]))
  {
    hide Add;
    AddTwice(reported, k, data[start..pos], [data[pos]]);
    assert data[start..pos] + [data[pos]] == data[start..pos + 1];
  }

  /** One pass of the switch keeps the marks and the byte machine in step. */
  lemma PassSim(p: Parser, m: Marks, reported: Trace, tr: Trace, data: seq<Byte>, pos: nat)
    requires p.errno == OK && !TakesBody(p.state) && pos < |data| && Sim(p.state, m, reported, tr, data, pos)
    requires Switch(p, data[pos]).next != Fail
    ensures (FitsInside(p.state, m, pos); true)
    ensures var t := Switch(p, data[pos]);
            var (r', m') := Applied(reported, m, t, data, pos);
            && (t.next != Break ==> Sim(t.p.state, m', r', AfterPass(tr, t), data, pos))
            && (t.next != Again ==> Sim(t.p.state, m', r', WithByte(AfterPass(tr, t), t.p.state, data[pos]), data, pos + 1))
  {
    hide Switch;
    hide Add;
    var t := Switch(p, data[pos]);
    SwitchShape(p, data[pos]);
    FitsInside(p.state, m, pos);
    match (MarkOf(p.state), MarkOf(t.p.state))
    case (None, None) =>
      if t.mark == Some(ValueData) && t.emit == Some(ValueData) {
        assert data[pos..pos] == [];
      }
    case (None, Some(k)) =>
      PendingOne(reported, k, pos, data, pos + 1);
      assert data[pos..pos + 1] == [data[pos]];
    case (Some(k), Some(k')) =>
      var start := m.Get(k).value;
      PendingOne(reported, k, start, data, pos);
      PendingOne(reported, k, start, data, pos + 1);
      Grow(reported, k, start, data, pos);
    case (Some(k), None) =>
      PendingOne(reported, k, m.Get(k).value, data, pos);
  }
}
