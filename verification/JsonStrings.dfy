/** What the escapes of JSON strings stand for: section 7 of RFC 8259, and UTF-8 as section 3 of RFC 3629 has it. */
module JsonStrings {
  import opened Common
  import opened JsonSpec
  import opened JsonRoundTrip
  import opened Numerals

  // ----- UTF-8 -----

  predicate Continues(b: int) { 0x80 <= b < 0xC0 }

  predicate IsSurrogate(code: nat) { 0xD800 <= code <= 0xDFFF }

  /** The code point at the start of a text, below 2^16 and not in a longer form than it needs, and its number of bytes. */
  function Decoded(t: Text): Option<(nat, nat)> {
    if t == [] then None
    else
      var b := t[0] as int;
      if b < 0x80 then Some((b, 1))
      else if 0xC0 <= b < 0xE0 && |t| >= 2 && Continues(t[1] as int) then
        var code := (b - 0xC0) * 0x40 + (t[1] as int - 0x80);
        if code < 0x80 then None else Some((code, 2))
      else if 0xE0 <= b < 0xF0 && |t| >= 3 && Continues(t[1] as int) && Continues(t[2] as int) then
        var code := (b - 0xE0) * 0x1000 + (t[1] as int - 0x80) * 0x40 + (t[2] as int - 0x80);
        if code < 0x800 || IsSurrogate(code) then None else Some((code, 3))
      else None
  }

  lemma ThreeBytes(code: nat)
    requires code < 0x10000
    ensures code == code / 4096 * 0x1000 + code / 64 % 64 * 0x40 + code % 64 && code / 4096 < 16
  {
    assert code / 64 / 64 == code / 4096;
  }

  /**
   * A code point is written in its shortest form, except for surrogates: those have no form in UTF-8, and the bytes
   * written for them are none.
   */
  lemma Utf8Decodes(code: nat, rest: Text)
    requires code < 0x10000
    ensures Decoded(Utf8(code) + rest) == Some((code, |Utf8(code)|)) <==> !IsSurrogate(code)
    ensures IsSurrogate(code) ==> Decoded(Utf8(code) + rest) == None
  {
    ThreeBytes(code);
  }

  // ----- escapes -----

  /** The code of the character that a backslash and a letter stand for. */
  function Stands(c: Byte): Option<nat> {
    match c
    case '"' => Some(0x22) case '\\' => Some(0x5C) case '/' => Some(0x2F) case 'b' => Some(0x08)
    case 'f' => Some(0x0C) case 'n' => Some(0x0A) case 'r' => Some(0x0D) case 't' => Some(0x09)
    case _ => None
  }

  /** A byte that stands for itself, a backslash with a letter, or a backslash with `u` and four digits. */
  datatype Unit = Raw(c: Byte) | Simple(c: Byte) | Code(digits: Text)

  predicate IsUnit(u: Unit) {
    match u
    case Raw(c) => c != '"' && c != '\\' && c as int != 0
    case Simple(c) => Stands(c).Some?
    case Code(digits) => |digits| == 4 && AreHexDigits(digits)
  }

  function UnitText(u: Unit): Text { match u case Raw(c) => [c] case Simple(c) => ['\\', c] case Code(digits) => ['\\', 'u'] + digits }

  function UnitMeans(u: Unit): Text
    requires IsUnit(u)
  {
    match u
    case Raw(c) => [c]
    case Simple(c) => [Stands(c).value as char]
    case Code(digits) =>
      FourDigits(digits);
      Utf8(ValueOf(0, digits, 16))
  }

  predicate AreUnits(us: seq<Unit>) { forall i :: 0 <= i < |us| ==> IsUnit(us[i]) }

  function UnitsText(us: seq<Unit>): Text { if us == [] then [] else UnitText(us[0]) + UnitsText(us[1..]) }

  function UnitsMean(us: seq<Unit>): Text
    requires AreUnits(us)
  {
    if us == [] then [] else UnitMeans(us[0]) + UnitsMean(us[1..])
  }

  lemma FourDigits(ds: Text)
    requires |ds| == 4 && AreHexDigits(ds)
    ensures ValueOf(0, ds, 16)
            == DigitValue(ds[0]) * 4096 + DigitValue(ds[1]) * 256 + DigitValue(ds[2]) * 16 + DigitValue(ds[3]) < 0x10000
  {
    hide DigitValue;
    var a, b, c, d := DigitValue(ds[0]), DigitValue(ds[1]), DigitValue(ds[2]), DigitValue(ds[3]);
    assert ValueOf(0, ds, 16) == ValueOf(a, ds[1..], 16);
    assert ValueOf(a, ds[1..], 16) == ValueOf(a * 16 + b, ds[2..], 16) by { assert ds[1..][1..] == ds[2..]; }
    assert ValueOf(a * 16 + b, ds[2..], 16) == ValueOf((a * 16 + b) * 16 + c, ds[3..], 16) by { assert ds[2..][1..] == ds[3..]; }
    assert ValueOf((a * 16 + b) * 16 + c, ds[3..], 16) == ValueOf(((a * 16 + b) * 16 + c) * 16 + d, [], 16) by { assert ds[3..][1..] == []; }
  }

  lemma CodeIsValue(ds: Text)
    requires |ds| == 4 && AreHexDigits(ds)
    ensures IsHex(ds[0]) && IsHex(ds[1]) && IsHex(ds[2]) && IsHex(ds[3])
    ensures CodeOf(ds[0], ds[1], ds[2], ds[3]) == ValueOf(0, ds, 16)
  {
    FourDigits(ds);
    SharedDigits(ds[0]);
    SharedDigits(ds[1]);
    SharedDigits(ds[2]);
    SharedDigits(ds[3]);
  }

  lemma SimpleStands(c: Byte)
    ensures IsSimpleEscape(c) <==> Stands(c).Some?
    ensures IsSimpleEscape(c) ==> SimpleEscape(c) as int == Stands(c).value && c != 'u'
  {}

  // ----- written strings are read -----

  /** One unit is read over by the scan and read as what it stands for. */
  lemma UnitReads(u: Unit, rest: Text)
    requires IsUnit(u) && WellEscaped(rest)
    ensures WellEscaped(UnitText(u) + rest) && Unescape(UnitText(u) + rest) == UnitMeans(u) + Unescape(rest)
  {
    var s := UnitText(u) + rest;
    match u
    case Raw(c) => assert s[1..] == rest;
    case Simple(c) =>
      SimpleStands(c);
      assert s[2..] == rest;
    case Code(ds) =>
      CodeIsValue(ds);
      assert s[2] == ds[0] && s[3] == ds[1] && s[4] == ds[2] && s[5] == ds[3] && s[6..] == rest;
  }

  lemma {:induction false} UnitsRead(us: seq<Unit>)
    requires AreUnits(us)
    ensures WellEscaped(UnitsText(us)) && Unescape(UnitsText(us)) == UnitsMean(us)
  {
    hide IsUnit;
    hide UnitText;
    hide UnitMeans;
    if us != [] {
      UnitsRead(us[1..]);
      UnitReads(us[0], UnitsText(us[1..]));
    }
  }

  lemma ScanOverUnit(t: Text, pos: nat, u: Unit)
    requires Terminated(t) && WordAt(t, pos, UnitText(u)) && pos + |UnitText(u)| < |t| && IsUnit(u)
    ensures ScanString(t, pos) == ScanString(t, pos + |UnitText(u)|)
  {
    var w := UnitText(u);
    WordHas(t, pos, w, 0);
    match u
    case Raw(c) =>
    case Simple(c) =>
      SimpleStands(c);
      WordHas(t, pos, w, 1);
    case Code(ds) =>
      CodeIsValue(ds);
      WordHas(t, pos, w, 1);
      WordHas(t, pos, w, 2);
      WordHas(t, pos, w, 3);
      WordHas(t, pos, w, 4);
      WordHas(t, pos, w, 5);
  }

  lemma {:induction false} ScanFindsEnd(t: Text, pos: nat, us: seq<Unit>)
    requires Terminated(t) && WordAt(t, pos, UnitsText(us) + ['"']) && AreUnits(us)
    ensures pos + |UnitsText(us)| < |t| && ScanString(t, pos) == Some(pos + |UnitsText(us)|)
    decreases |us|
  {
    hide WordAt;
    hide ScanString;
    hide UnitText;
    hide IsUnit;
    WordIs(t, pos, UnitsText(us) + ['"']);
    WordHas(t, pos, UnitsText(us) + ['"'], |UnitsText(us)|);
    if us == [] {
      ScanAtQuote(t, pos);
    } else {
      var e := UnitText(us[0]);
      assert UnitsText(us) + ['"'] == e + (UnitsText(us[1..]) + ['"']);
      WordSplit(t, pos, e, UnitsText(us[1..]) + ['"']);
      ScanFindsEnd(t, pos + |e|, us[1..]);
      ScanOverUnit(t, pos, us[0]);
    }
  }

  function Quoted(us: seq<Unit>): Text { ['"'] + (UnitsText(us) + ['"']) }

  /** A string written with any escapes is read as what they stand for. */
  lemma WrittenStringReads(t: Text, pos: nat, us: seq<Unit>)
    requires Terminated(t) && WordAt(t, pos, Quoted(us)) && AreUnits(us)
    ensures pos + |Quoted(us)| < |t| && ParseString(t, pos) == Good(JString(UnitsMean(us)), pos + |Quoted(us)|)
  {
    hide WordAt;
    hide ScanString;
    hide UnitsText;
    hide UnitsMean;
    hide Unescape;
    hide WellEscaped;
    hide AreUnits;
    WordIs(t, pos, Quoted(us));
    WordHas(t, pos, Quoted(us), 0);
    WordHas(t, pos, Quoted(us), |Quoted(us)| - 1);
    WordSplit(t, pos, ['"'], UnitsText(us) + ['"']);
    ScanFindsEnd(t, pos + 1, us);
    WordSplit(t, pos + 1, UnitsText(us), ['"']);
    WordIs(t, pos + 1, UnitsText(us));
    UnitsRead(us);
  }

  // ----- what is read was written so -----

  lemma CodeScanned(t: Text, pos: nat)
    requires Terminated(t) && pos < |t| && t[pos] == '\\' && ScanString(t, pos).Some? && t[pos + 1] == 'u'
    ensures pos + 6 < |t| && ScanString(t, pos) == ScanString(t, pos + 6) && IsUnit(Code(t[pos + 2..pos + 6]))
    ensures t[pos..pos + 6] == ['\\', 'u'] + t[pos + 2..pos + 6]
  {
    SharedDigits(t[pos + 2]);
    SharedDigits(t[pos + 3]);
    SharedDigits(t[pos + 4]);
    SharedDigits(t[pos + 5]);
  }

  /** The unit that the scan reads over. */
  lemma UnitScanned(t: Text, pos: nat) returns (u: Unit)
    requires Terminated(t) && pos < |t| && t[pos] != '"' && ScanString(t, pos).Some?
    ensures IsUnit(u) && pos + |UnitText(u)| < |t| && UnitText(u) == t[pos..pos + |UnitText(u)|]
    ensures ScanString(t, pos + |UnitText(u)|) == ScanString(t, pos)
  {
    if t[pos] != '\\' {
      u := Raw(t[pos]);
    } else if t[pos + 1] == 'u' {
      u := Code(t[pos + 2..pos + 6]);
      CodeScanned(t, pos);
    } else {
      u := Simple(t[pos + 1]);
      SimpleStands(t[pos + 1]);
    }
  }

  lemma {:induction false} UnitsScanned(t: Text, pos: nat) returns (us: seq<Unit>)
    requires Terminated(t) && pos < |t| && ScanString(t, pos).Some?
    ensures AreUnits(us) && UnitsText(us) == t[pos..ScanString(t, pos).value]
    decreases |t| - pos
  {
    hide UnitText;
    hide IsUnit;
    us := [];
    if t[pos] == '"' {
      ScanAtQuote(t, pos);
    } else {
      hide ScanString;
      var u := UnitScanned(t, pos);
      UnitNotEmpty(u);
      var k, e := pos + |UnitText(u)|, ScanString(t, pos).value;
      var rest := UnitsScanned(t, k);
      us := [u] + rest;
      assert us[1..] == rest;
      assert t[pos..e] == t[pos..k] + t[k..e];
    }
  }

  lemma UnitNotEmpty(u: Unit)
    ensures UnitText(u) != []
  {}

  /** What is read as a string was written as one, and means what was read. */
  lemma StringRead(t: Text, pos: nat) returns (us: seq<Unit>)
    requires Terminated(t) && pos < |t| && ParseString(t, pos).Good?
    ensures AreUnits(us) && Quoted(us) == t[pos..ParseString(t, pos).pos] && ParseString(t, pos).v == JString(UnitsMean(us))
  {
    hide ScanString;
    hide Unescape;
    hide UnitsMean;
    hide UnitsText;
    hide WellEscaped;
    hide AreUnits;
    us := UnitsScanned(t, pos + 1);
    var e := ScanString(t, pos + 1).value;
    UnitsRead(us);
    assert t[pos..e + 1] == ['"'] + (t[pos + 1..e] + ['"']);
  }

  /** A pair of surrogates stands for no character: each of the two is written by itself. */
  lemma PairIsNoCharacter()
    ensures var us := [Code("d83d"), Code("de00")]; AreUnits(us) && Decoded(UnitsMean(us)) == None
  {
    var us: seq<Unit> := [Code("d83d"), Code("de00")];
    FourDigits("d83d");
    FourDigits("de00");
    assert us[1..] == [Code("de00")];
    assert UnitsMean(us) == UnitMeans(us[0]) + UnitsMean(us[1..]);
    Utf8Decodes(0xD83D, UnitsMean(us[1..]));
  }

  // ----- what the printer writes -----

  /** What the standard asks of a string's text: no bare quote, backslash or control character. */
  predicate IsStrict(u: Unit) { IsUnit(u) && (u.Raw? ==> u.c as int >= 0x20) }

  /** A byte is escaped exactly if it is a quote, a backslash or a control character. */
  lemma ByteIsWritten(c: Byte) returns (u: Unit)
    ensures IsStrict(u) && UnitText(u) == EscapeByte(c) && UnitMeans(u) == [c]
    ensures u.Raw? <==> c as int >= 0x20 && c as int != 0x22 && c as int != 0x5C
  {
    if c in "\"\\\n\r\t" || c as int == 8 || c as int == 12 {
      u := Simple(EscapeByte(c)[1]);
    } else if c as int < 0x20 {
      var ds: Text := ['0', '0', HexChar(c as int / 16), HexChar(c as int % 16)];
      u := Code(ds);
      HexIsDigit(c as int / 16);
      HexIsDigit(c as int % 16);
      FourDigits(ds);
      assert DigitValue('0') == 0;
    } else {
      u := Raw(c);
    }
  }

  lemma HexIsDigit(n: nat)
    requires n < 16
    ensures IsHexDigit(HexChar(n)) && DigitValue(HexChar(n)) == n
  {}

  /** The printed text of every byte string is one that the standard has, and means the string. */
  lemma {:induction false} EscapeIsStandard(s: Text) returns (us: seq<Unit>)
    ensures AreUnits(us) && UnitsText(us) == Escape(s) && UnitsMean(us) == s && forall i :: 0 <= i < |us| ==> IsStrict(us[i])
  {
    hide IsUnit;
    hide UnitText;
    hide UnitMeans;
    hide EscapeByte;
    us := [];
    if s != [] {
      var u := ByteIsWritten(s[0]);
      StrictIsUnit(u);
      var rest := EscapeIsStandard(s[1..]);
      us := [u] + rest;
      assert us[1..] == rest;
    }
  }

  lemma StrictIsUnit(u: Unit)
    requires IsStrict(u)
    ensures IsUnit(u)
  {}
}
