/** The request object that the callbacks fill in. */
module HttpHandler {
  import opened Common
  import opened HttpModel
  import opened HttpTrace

  datatype Request = Request(
    rawUrl: seq<Byte>, url: seq<Byte>, building: bool, field: seq<Byte>, value: seq<Byte>,
    headers: seq<(seq<Byte>, seq<Byte>)>, body: seq<Byte>)

  const EMPTY := Request([], [], false, [], [], [], [])

  function UpTo(s: seq<Byte>, c: Byte): seq<Byte> {
    if s == [] || s[0] == c then [] else [s[0]] + UpTo(s[1..], c)
  }

  /** One callback. A string moved into the header table is left empty. */
  function Handle(r: Request, e: Event): Request {
    match e
    case Note(MessageBegin) => EMPTY
    case Note(HeadersComplete) =>
      if r.field != [] then r.(headers := r.headers + [(r.field, r.value)], field := [], value := []) else r
    case Note(MessageComplete) => r.(url := UpTo(r.rawUrl, '?'))
    case Data(UrlData, x) => r.(rawUrl := r.rawUrl + x)
    case Data(FieldData, x) =>
      if r.building then r.(field := r.field + x)
      else if r.value != [] then r.(headers := r.headers + [(r.field, r.value)], value := [], field := x, building := true)
      else r.(field := x, building := true)
    case Data(ValueData, x) =>
      if r.building then r.(building := false, value := x) else r.(value := r.value + x)
    case Data(BodyData, x) => r.(body := r.body + x)
  }

  function HandleAll(r: Request, events: seq<Event>): Request {
    if events == [] then r else Handle(HandleAll(r, events[..|events| - 1]), events[|events| - 1])
  }

  lemma HandleInTwo(r: Request, k: Kind, x: seq<Byte>, y: seq<Byte>)
    ensures Handle(Handle(r, Data(k, x)), Data(k, y)) == Handle(r, Data(k, x + y))
  {
    assert r.rawUrl + x + y == r.rawUrl + (x + y) && r.body + x + y == r.body + (x + y);
    assert r.field + x + y == r.field + (x + y) && r.value + x + y == r.value + (x + y);
  }

  lemma HandleAdded(r: Request, tr: Trace, e: Event)
    ensures HandleAll(r, Add(tr, e)) == Handle(HandleAll(r, tr), e)
  {
    hide Handle;
    var n := |tr| - 1;
    if e.Data? && EndsWith(tr, e.kind) {
      HandleInTwo(HandleAll(r, tr[..n]), e.kind, tr[n].bytes, e.bytes);
      assert Add(tr, e)[..n] == tr[..n];
    } else {
      assert (tr + [e])[..|tr|] == tr;
    }
  }

  /** The request depends on the joined callbacks only: cutting data into more callbacks changes nothing. */
  lemma {:induction false} HandleJoined(r: Request, events: seq<Event>)
    ensures HandleAll(r, events) == HandleAll(r, Join(events))
  {
    hide Handle;
    hide Add;
    if events != [] {
      var n := |events| - 1;
      HandleJoined(r, events[..n]);
      HandleAdded(r, Join(events[..n]), events[n]);
    }
  }
}
