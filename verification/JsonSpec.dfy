/** JSON values, their printed form, and a parser that leaves its text alone. */
module JsonSpec {
  import opened Common

  datatype Json =
    | JNull | JFalse | JTrue
    | JNumber(text: Text)
    | JString(s: Text)
    | JList(items: seq<Json>)
    | JObject(members: seq<Member>)

  datatype Member = Member(key: Text, val: Json)

  /** Values without numbers, whose printing goes through floating point. */
  predicate Plain(v: Json) {
    match v
    case JNumber(_) => false
    case JList(items) => forall i :: 0 <= i < |items| ==> Plain(items[i])
    case JObject(members) => forall i :: 0 <= i < |members| ==> Plain(members[i].val)
    case _ => true
  }

  // ----- printing -----

  function HexChar(n: nat): Byte
    requires n < 16
  {
    if n < 10 then ('0' as int + n) as char else ('a' as int + n - 10) as char
  }

  function EscapeByte(c: Byte): Text {
    if c == '"' then ['\\', '"']
    else if c == '\\' then ['\\', '\\']
    else if c == '\n' then ['\\', 'n']
    else if c as int == 8 then ['\\', 'b']
    else if c as int == 12 then ['\\', 'f']
    else if c == '\r' then ['\\', 'r']
    else if c == '\t' then ['\\', 't']
    else if c as int < 0x20 then ['\\', 'u', '0', '0', HexChar(c as int / 16), HexChar(c as int % 16)]
    else [c]
  }

  function Escape(s: Text): Text {
    if s == [] then [] else EscapeByte(s[0]) + Escape(s[1..])
  }

  function DumpString(s: Text): Text { ['"'] + Escape(s) + ['"'] }

  function Dump(v: Json): Text
    requires Plain(v)
    decreases v, 1
  {
    match v
    case JNull => ['n', 'u', 'l', 'l']
    case JFalse => ['f', 'a', 'l', 's', 'e']
    case JTrue => ['t', 'r', 'u', 'e']
    case JString(s) => DumpString(s)
    case JList(items) => ['['] + DumpItems(items) + [']']
    case JObject(members) => ['{'] + DumpMembers(members) + ['}']
  }

  function DumpItems(items: seq<Json>): Text
    requires forall i :: 0 <= i < |items| ==> Plain(items[i])
    decreases items, 0
  {
    if items == [] then []
    else if |items| == 1 then Dump(items[0])
    else Dump(items[0]) + [','] + DumpItems(items[1..])
  }

  function DumpMembers(members: seq<Member>): Text
    requires forall i :: 0 <= i < |members| ==> Plain(members[i].val)
    decreases members, 0
  {
    if members == [] then []
    else
      var one := DumpString(members[0].key) + [':'] + Dump(members[0].val);
      if |members| == 1 then one else one + [','] + DumpMembers(members[1..])
  }

  lemma NoItems()
    ensures DumpItems([]) == [] && DumpMembers([]) == []
  {}

  // ----- reading -----

  predicate IsSpace(c: Byte) { c == ' ' || c == '\t' || c == '\r' || c == '\n' }

  function Skip(t: Text, pos: nat): (p: nat)
    requires Terminated(t) && pos < |t|
    ensures pos <= p < |t| && !IsSpace(t[p])
    decreases |t| - pos
  {
    if IsSpace(t[pos]) then Skip(t, pos + 1) else pos
  }

  predicate IsSimpleEscape(c: Byte) {
    c == '"' || c == '\\' || c == '/' || c == 'b' || c == 'f' || c == 'n' || c == 'r' || c == 't'
  }

  /** The closing quote of the string whose text starts at `pos`. */
  function ScanString(t: Text, pos: nat): (e: Option<nat>)
    requires Terminated(t) && pos < |t|
    ensures e.Some? ==> pos <= e.value < |t| - 1 && t[e.value] == '"'
    decreases |t| - pos
  {
    if t[pos] == '"' then Some(pos)
    else if t[pos] == '\0' then None
    else if t[pos] != '\\' then ScanString(t, pos + 1)
    else if t[pos + 1] == 'u' then
      if IsHex(t[pos + 2]) && IsHex(t[pos + 3]) && IsHex(t[pos + 4]) && IsHex(t[pos + 5]) then ScanString(t, pos + 6) else None
    else if IsSimpleEscape(t[pos + 1]) then ScanString(t, pos + 2)
    else None
  }

  /** Every backslash of `s` starts a known escape that ends inside `s`. */
  predicate WellEscaped(s: Text)
    decreases |s|
  {
    if s == [] then true
    else if s[0] != '\\' then WellEscaped(s[1..])
    else if |s| < 2 then false
    else if s[1] == 'u' then
      |s| >= 6 && IsHex(s[2]) && IsHex(s[3]) && IsHex(s[4]) && IsHex(s[5]) && WellEscaped(s[6..])
    else IsSimpleEscape(s[1]) && WellEscaped(s[2..])
  }

  function CodeOf(a: Byte, b: Byte, c: Byte, d: Byte): (n: nat)
    requires IsHex(a) && IsHex(b) && IsHex(c) && IsHex(d)
    ensures n < 0x10000
  {
    FromHex(a) * 4096 + FromHex(b) * 256 + FromHex(c) * 16 + FromHex(d)
  }

  /** A code point below 2^16 in UTF-8. */
  function Utf8(code: nat): (s: Text)
    requires code < 0x10000
    ensures 1 <= |s| <= 3
  {
    if code >= 0x800 then [(0xE0 + code / 4096) as char, (0x80 + code / 64 % 64) as char, (0x80 + code % 64) as char]
    else if code >= 0x80 then [(0xC0 + code / 64) as char, (0x80 + code % 64) as char]
    else [code as char]
  }

  function SimpleEscape(c: Byte): Byte
    requires IsSimpleEscape(c)
  {
    if c == 'b' then 8 as char else if c == 'f' then 12 as char else if c == 'n' then '\n'
    else if c == 'r' then '\r' else if c == 't' then '\t' else c
  }

  function Unescape(s: Text): Text
    requires WellEscaped(s)
    decreases |s|
  {
    if s == [] then []
    else if s[0] != '\\' then [s[0]] + Unescape(s[1..])
    else if s[1] == 'u' then Utf8(CodeOf(s[2], s[3], s[4], s[5])) + Unescape(s[6..])
    else [SimpleEscape(s[1])] + Unescape(s[2..])
  }

  lemma {:induction false} ScanIsWellEscaped(t: Text, pos: nat)
    requires Terminated(t) && pos < |t| && ScanString(t, pos).Some?
    ensures WellEscaped(t[pos..ScanString(t, pos).value])
    decreases |t| - pos
  {
    var e := ScanString(t, pos).value;
    var s := t[pos..e];
    if t[pos] == '"' {
    } else if t[pos] != '\\' {
      ScanIsWellEscaped(t, pos + 1);
      assert s[1..] == t[pos + 1..e];
    } else if t[pos + 1] == 'u' {
      ScanIsWellEscaped(t, pos + 6);
      assert s[6..] == t[pos + 6..e];
    } else {
      ScanIsWellEscaped(t, pos + 2);
      assert s[2..] == t[pos + 2..e];
    }
  }

  // ----- numbers -----

  /** The states of the number automaton, 0 to 6, and 7 for a refused text. */
  function AfterZero(n: nat): nat requires n <= 6 { [2, 2, 7, 3, 4, 6, 6][n] }
  function AfterDigit(n: nat): nat requires n <= 6 { [3, 3, 7, 3, 4, 6, 6][n] }
  function AfterPoint(n: nat): nat requires n <= 6 { [7, 7, 4, 4, 7, 7, 7][n] }
  function AfterMinus(n: nat): nat requires n <= 6 { [1, 7, 7, 7, 7, 6, 7][n] }
  function AfterPlus(n: nat): nat requires n <= 6 { [7, 7, 7, 7, 7, 6, 7][n] }
  function AfterE(n: nat): nat requires n <= 6 { [7, 7, 7, 5, 5, 7, 7][n] }

  predicate IsDigit(c: Byte) { '0' <= c <= '9' }

  function SkipDigits(t: Text, pos: nat): (p: nat)
    requires Terminated(t) && pos < |t|
    ensures pos <= p < |t|
    decreases |t| - pos
  {
    if IsDigit(t[pos]) then SkipDigits(t, pos + 1) else pos
  }

  /** The end of the number being read in state `n`, where the text can stop. */
  function ScanNumber(t: Text, pos: nat, n: nat): (e: Option<nat>)
    requires Terminated(t) && pos < |t| && n <= 7
    ensures e.Some? ==> pos <= e.value < |t| && (n == 0 ==> pos < e.value)
    decreases |t| - pos
  {
    if n == 7 then None else
      var c := t[pos];
      if c == '0' then ScanNumber(t, pos + 1, AfterZero(n))
      else if IsDigit(c) then ScanNumber(t, SkipDigits(t, pos + 1), AfterDigit(n))
      else if c == '.' then ScanNumber(t, pos + 1, AfterPoint(n))
      else if c == '-' then ScanNumber(t, pos + 1, AfterMinus(n))
      else if c == '+' then ScanNumber(t, pos + 1, AfterPlus(n))
      else if c == 'e' || c == 'E' then ScanNumber(t, pos + 1, AfterE(n))
      else if n == 2 || n == 3 || n == 4 || n == 6 then Some(pos)
      else None
  }

  // ----- values -----

  datatype Parsed = Bad | Good(v: Json, pos: nat)

  predicate WordAt(t: Text, pos: nat, w: Text) { pos + |w| <= |t| && t[pos..pos + |w|] == w }

  function ParseString(t: Text, pos: nat): (r: Parsed)
    requires Terminated(t) && pos < |t|
    ensures r.Good? ==> pos < r.pos < |t| && r.v.JString?
  {
    if t[pos] != '"' then Bad else
      match ScanString(t, pos + 1)
      case None => Bad
      case Some(e) =>
        ScanIsWellEscaped(t, pos + 1);
        Good(JString(Unescape(t[pos + 1..e])), e + 1)
  }

  function ParseWord(t: Text, pos: nat, w: Text, v: Json): (r: Parsed)
    requires Terminated(t) && pos < |t| && w != [] && forall i :: 0 <= i < |w| ==> w[i] != '\0'
    ensures r.Good? ==> pos < r.pos < |t|
  {
    if WordAt(t, pos, w) then
      assert t[pos..pos + |w|][|w| - 1] != '\0';
      Good(v, pos + |w|)
    else Bad
  }

  function ParseValue(t: Text, pos: nat): (r: Parsed)
    requires Terminated(t) && pos < |t|
    ensures r.Good? ==> pos < r.pos < |t|
    decreases |t| - pos, 0
  {
    var c := t[pos];
    if c == '[' then
      var p := Skip(t, pos + 1);
      if t[p] == ']' then Good(JList([]), p + 1) else ParseItems(t, p, [])
    else if c == '{' then
      var p := Skip(t, pos + 1);
      if t[p] == '}' then Good(JObject([]), p + 1) else ParseMembers(t, p, [])
    else if c == '"' then ParseString(t, pos)
    else if c == 't' then ParseWord(t, pos, ['t', 'r', 'u', 'e'], JTrue)
    else if c == 'f' then ParseWord(t, pos, ['f', 'a', 'l', 's', 'e'], JFalse)
    else if c == 'n' then ParseWord(t, pos, ['n', 'u', 'l', 'l'], JNull)
    else
      match ScanNumber(t, pos, 0)
      case None => Bad
      case Some(e) => Good(JNumber(t[pos..e]), e)
  }

  /** The items of a list from the first one on, behind those already read. */
  function ParseItems(t: Text, pos: nat, done: seq<Json>): (r: Parsed)
    requires Terminated(t) && pos < |t|
    ensures r.Good? ==> pos < r.pos < |t|
    decreases |t| - pos, 1
  {
    match ParseValue(t, pos)
    case Bad => Bad
    case Good(v, p0) =>
      var p := Skip(t, p0);
      if t[p] == ']' then Good(JList(done + [v]), p + 1)
      else if t[p] == ',' then ParseItems(t, Skip(t, p + 1), done + [v])
      else Bad
  }

  function ParseMembers(t: Text, pos: nat, done: seq<Member>): (r: Parsed)
    requires Terminated(t) && pos < |t|
    ensures r.Good? ==> pos < r.pos < |t|
    decreases |t| - pos, 1
  {
    match ParseString(t, pos)
    case Bad => Bad
    case Good(k, p0) =>
      var p1 := Skip(t, p0);
      if t[p1] != ':' then Bad else
        match ParseValue(t, Skip(t, p1 + 1))
        case Bad => Bad
        case Good(v, p2) =>
          var p := Skip(t, p2);
          if t[p] == '}' then Good(JObject(done + [Member(k.s, v)]), p + 1)
          else if t[p] == ',' then ParseMembers(t, Skip(t, p + 1), done + [Member(k.s, v)])
          else Bad
  }

  /** The whole text: one value between blanks, up to a NUL. */
  function Parse(t: Text): (r: Option<Json>)
    requires Terminated(t)
  {
    match ParseValue(t, Skip(t, 0))
    case Bad => None
    case Good(v, p) => if t[Skip(t, p)] == '\0' then Some(v) else None
  }
}
