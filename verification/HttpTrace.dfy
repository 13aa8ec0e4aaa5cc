/** Callback traces, joined so that it does not matter into how many pieces a piece of data was cut. */
module HttpTrace {
  import opened Common
  import opened HttpModel

  datatype Event = Data(kind: Kind, bytes: seq<Byte>) | Note(notice: Notice)

  type Trace = seq<Event>

  predicate EndsWith(tr: Trace, k: Kind) {
    tr != [] && tr[|tr| - 1].Data? && tr[|tr| - 1].kind == k
  }

  /** Appends an event; data that follows data of its own kind is joined to it. */
  function Add(tr: Trace, e: Event): Trace {
    if e.Data? && EndsWith(tr, e.kind)
    then tr[..|tr| - 1] + [Data(e.kind, tr[|tr| - 1].bytes + e.bytes)]
    else tr + [e]
  }

  function Join(events: seq<Event>): Trace {
    if events == [] then [] else Add(Join(events[..|events| - 1]), events[|events| - 1])
  }

  lemma JoinSnoc(events: seq<Event>, e: Event)
    ensures Join(events + [e]) == Add(Join(events), e)
  {
    assert (events + [e])[..|events|] == events;
  }

  lemma AddTwice(tr: Trace, k: Kind, x: seq<Byte>, y: seq<Byte>)
    ensures Add(Add(tr, Data(k, x)), Data(k, y)) == Add(tr, Data(k, x + y))
    ensures EndsWith(Add(tr, Data(k, x)), k)
  {
    if EndsWith(tr, k) {
      assert tr[|tr| - 1].bytes + x + y == tr[|tr| - 1].bytes + (x + y);
    }
  }

  lemma AddEmpty(tr: Trace, k: Kind)
    requires EndsWith(tr, k)
    ensures Add(tr, Data(k, [])) == tr
  {
    assert tr[|tr| - 1].bytes + [] == tr[|tr| - 1].bytes;
    assert tr == tr[..|tr| - 1] + [tr[|tr| - 1]];
  }
}
