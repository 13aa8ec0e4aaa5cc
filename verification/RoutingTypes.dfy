/** Values shared by the router model: parameter kinds, rule tokens, captures and scanners. */
module RoutingTypes {
  import opened Common

  datatype ParamType = INT | UINT | DOUBLE | STRING | PATH

  /** One step of a rule: a literal character or a typed parameter. */
  datatype Token = Lit(c: char) | Param(t: ParamType)

  datatype Capture =
    | IntCap(i: int)
    | UintCap(u: nat)
    | DoubleCap(d: real)
    | TextCap(s: string)

  /** The captures of a match, one list per value kind; `<path>` and `<str>` share `strings`. */
  datatype RoutingParams = RoutingParams(
    ints: seq<int>, uints: seq<nat>, doubles: seq<real>, strings: seq<string>)
  {
    function Push(c: Capture): RoutingParams {
      match c
      case IntCap(i) => this.(ints := ints + [i])
      case UintCap(u) => this.(uints := uints + [u])
      case DoubleCap(d) => this.(doubles := doubles + [d])
      case TextCap(s) => this.(strings := strings + [s])
    }
  }

  const NO_PARAMS := RoutingParams([], [], [], [])

  /** What strtoll, strtoull and strtod report: the value, where they stopped, and whether errno is ERANGE. */
  datatype Scan<+T> = Scan(value: T, end: nat, erange: bool)

  /** A scanner stops somewhere between where it started and the end of the text. */
  ghost predicate StopsInside<T>(f: (string, nat) -> Scan<T>) {
    forall u: string, p: nat :: p <= |u| ==> p <= f(u, p).end <= |u|
  }

  type IntScanner = f: (string, nat) -> Scan<int> | StopsInside(f)
    witness (u: string, p: nat) => Scan(0, p, false)
  type UintScanner = f: (string, nat) -> Scan<nat> | StopsInside(f)
    witness (u: string, p: nat) => Scan(0, p, false)
  type DoubleScanner = f: (string, nat) -> Scan<real> | StopsInside(f)
    witness (u: string, p: nat) => Scan(0.0, p, false)

  datatype Libc = Libc(strtoll: IntScanner, strtoull: UintScanner, strtod: DoubleScanner)

  /** A parameter value read from a URL, with the position just after it. */
  datatype Piece = Piece(cap: Capture, end: nat)

  predicate IsDigit(c: char) { '0' <= c <= '9' }

  function FromScan(s: Scan<Capture>, pos: nat): Option<Piece> {
    if !s.erange && s.end != pos then Some(Piece(s.value, s.end)) else None
  }

  function SlashFrom(url: string, pos: nat): (e: nat)
    requires pos <= |url|
    ensures pos <= e <= |url| && '/' !in url[pos..e] && (e < |url| ==> url[e] == '/')
    decreases |url| - pos
  {
    if pos == |url| || url[pos] == '/' then pos else SlashFrom(url, pos + 1)
  }

  /** Reads one parameter of kind `t` at `pos`, or fails; a success always moves forward. */
  function Consume(lib: Libc, t: ParamType, url: string, pos: nat): (r: Option<Piece>)
    requires pos < |url|
    ensures r.Some? ==> pos < r.value.end <= |url|
    ensures r.Some? ==> r.value.cap.IntCap? == t.INT? && r.value.cap.UintCap? == t.UINT?
                        && r.value.cap.DoubleCap? == t.DOUBLE?
  {
    var c := url[pos];
    match t
    case INT =>
      if !(IsDigit(c) || c == '+' || c == '-') then None else
        var s := lib.strtoll(url, pos);
        FromScan(Scan(IntCap(s.value), s.end, s.erange), pos)
    case UINT =>
      if !(IsDigit(c) || c == '+') then None else
        var s := lib.strtoull(url, pos);
        FromScan(Scan(UintCap(s.value), s.end, s.erange), pos)
    case DOUBLE =>
      if !(IsDigit(c) || c == '+' || c == '-' || c == '.') then None else
        var s := lib.strtod(url, pos);
        FromScan(Scan(DoubleCap(s.value), s.end, s.erange), pos)
    case STRING =>
      var e := SlashFrom(url, pos);
      if e == pos then None else Some(Piece(TextCap(url[pos..e]), e))
    case PATH =>
      Some(Piece(TextCap(url[pos..]), |url|))
  }
}
