/** The parser that edits its own buffer. */
module JsonReader {
  import opened Common
  import opened JsonSpec
  import opened JsonInPlaceValues
  import opened JsonUnescape
  import opened JsonRoundTrip
  import opened JsonPrinter

  /** The number automaton's move on a character, or None where the number can only stop. */
  function NumberMove(c: Byte, n: nat): Option<nat>
    requires n <= 6
  {
    if c == '0' then Some(AfterZero(n))
    else if IsDigit(c) then Some(AfterDigit(n))
    else if c == '.' then Some(AfterPoint(n))
    else if c == '-' then Some(AfterMinus(n))
    else if c == '+' then Some(AfterPlus(n))
    else if c == 'e' || c == 'E' then Some(AfterE(n))
    else None
  }

  /** One look of the string scan. */
  lemma ScanLook(t: Text, pos: nat)
    requires Terminated(t) && pos < |t|
    ensures t[pos] == '"' ==> ScanString(t, pos) == Some(pos)
    ensures t[pos] == '\0' ==> ScanString(t, pos) == None
    ensures t[pos] != '"' && t[pos] != '\0' ==> pos + 1 < |t|
    ensures t[pos] != '"' && t[pos] != '\0' && t[pos] != '\\' ==> ScanString(t, pos) == ScanString(t, pos + 1)
  {}

  /** The edits of `decode_string`: a NUL at the closing quote and the flag at the opening one. */
  lemma StringEdited(b: Text, c: Text, t: Text, pos: nat, e: nat, escaped: bool)
    requires |b| == |t| && pos < e < |t| && b[pos + 1..] == t[pos + 1..]
    requires c == b[e := '\0'][pos := if escaped then 1 as char else '\0']
    requires WellEscaped(t[pos + 1..e]) && (!escaped ==> '\\' !in t[pos + 1..e])
    ensures c[e + 1..] == t[e + 1..] && c[..pos] == b[..pos]
    ensures Readable(c, pos + 1, e) && StringView(c, pos + 1, e) == Unescape(t[pos + 1..e])
  {
    hide Unescape;
    hide WellEscaped;
    assert c[pos + 1..e] == b[pos + 1..][..e - pos - 1] == t[pos + 1..][..e - pos - 1] == t[pos + 1..e];
    assert c[e + 1..] == b[pos + 1..][e - pos..] == t[pos + 1..][e - pos..] == t[e + 1..];
    if !escaped { NoEscapes(t[pos + 1..e]); }
  }

  class Reader {
    const buf: array<Byte>
    var data: nat

    constructor (text: Text)
      ensures buf.Length == |text| + 1 && buf[..] == text + ['\0'] && data == 0 && fresh(buf)
    {
      var b := new Byte[|text| + 1](_ => '\0');
      forall i | 0 <= i < |text| {
        b[i] := text[i];
      }
      buf := b;
      data := 0;
    }

    /** What is still to be parsed stands in the buffer as in the original text `t`. */
    ghost predicate Ready(t: Text)
      reads this, buf
    {
      |t| == buf.Length && Terminated(t) && data < |t| && buf[data..] == t[data..]
    }

    lemma Sees(t: Text, i: nat)
      requires Ready(t) && data <= i < |t|
      ensures buf[i] == t[i]
    {
      assert buf[data..][i - data] == t[data..][i - data];
    }

    /** Moves on inside the unparsed text. */
    method Advance(to: nat, ghost t: Text)
      requires Ready(t) && data <= to < |t|
      modifies this`data
      ensures Ready(t) && data == to
    {
      assert buf[to..] == buf[data..][to - data..] && t[to..] == t[data..][to - data..];
      data := to;
    }

    method WsSkip(ghost t: Text)
      requires Ready(t)
      modifies this`data
      ensures Ready(t) && data == Skip(t, old(data))
    {
      Sees(t, data);
      while IsSpace(buf[data])
        invariant Ready(t) && Skip(t, data) == Skip(t, old(data)) && buf[data] == t[data]
        decreases |t| - data
      {
        Advance(data + 1, t);
        Sees(t, data);
      }
    }

    /** The escape behind a backslash: how many bytes it takes with the backslash, or 0 when it is none. The four
        digits are looked at one after the other, so that the NUL stops the look. */
    method EscapeLength(ghost t: Text) returns (n: nat)
      requires Ready(t) && t[data] == '\\'
      ensures n == 0 ==> ScanString(t, data).None?
      ensures n > 0 ==> data + n < |t| && ScanString(t, data) == ScanString(t, data + n)
    {
      Sees(t, data + 1);
      if buf[data + 1] == 'u' {
        Sees(t, data + 2);
        if IsHex(buf[data + 2]) {
          Sees(t, data + 3);
          if IsHex(buf[data + 3]) {
            Sees(t, data + 4);
            if IsHex(buf[data + 4]) {
              Sees(t, data + 5);
              if IsHex(buf[data + 5]) {
                return 6;
              }
            }
          }
        }
        return 0;
      }
      return if IsSimpleEscape(buf[data + 1]) then 2 else 0;
    }

    /** The scan of `decode_string` over the text of a string, noting whether it holds a backslash. */
    method ScanText(ghost t: Text) returns (ok: bool, escaped: bool)
      requires Ready(t)
      modifies this`data
      ensures Ready(t) && ok == ScanString(t, old(data)).Some?
      ensures ok ==> data == ScanString(t, old(data)).value && (!escaped ==> '\\' !in t[old(data)..data])
    {
      hide Terminated;
      escaped := false;
      ghost var start := data;
      while true
        invariant Ready(t) && start <= data && ScanString(t, data) == ScanString(t, start)
        invariant !escaped ==> '\\' !in t[start..data]
        decreases |t| - data
      {
        var c := buf[data];
        Sees(t, data);
        ScanLook(t, data);
        if c == '"' {
          return true, escaped;
        } else if c == '\0' {
          return false, escaped;
        } else if c != '\\' {
          assert t[start..data + 1] == t[start..data] + [c];
          Advance(data + 1, t);
        } else {
          escaped := true;
          var n := EscapeLength(t);
          if n == 0 {
            return false, escaped;
          }
          Advance(data + n, t);
        }
      }
    }

    /** `decode_string`: on success the closing quote becomes a NUL and the opening one the flag byte. */
    method DecodeString(ghost t: Text) returns (r: Option<RValue>)
      requires Ready(t)
      modifies this`data, buf
      ensures r.Some? == ParseString(t, old(data)).Good?
      ensures r.Some? ==> Ready(t) && data == ParseString(t, old(data)).pos && r.value.RString? && Held(buf[..], r.value, old(data), data)
      ensures r.Some? ==> View(buf[..], r.value) == ParseString(t, old(data)).v
      ensures buf[..old(data)] == old(buf[..data])
    {
      hide ScanString;
      hide Unescape;
      hide WellEscaped;
      hide StringView;
      hide Readable;
      Sees(t, data);
      if buf[data] != '"' {
        return None;
      }
      var pos := data;
      Advance(data + 1, t);
      ghost var b := buf[..];
      var ok, escaped := ScanText(t);
      if !ok {
        return None;
      }
      ScanIsWellEscaped(t, pos + 1);
      var e := data;
      buf[e] := '\0';
      buf[pos] := if escaped then 1 as char else '\0';
      data := e + 1;
      StringEdited(b, buf[..], t, pos, e, escaped);
      r := Some(RString(pos + 1, e));
    }

    /** A literal word: its bytes are compared one after the other. */
    method DecodeWord(ghost t: Text, w: Text) returns (ok: bool)
      requires Ready(t) && w != [] && forall i :: 0 <= i < |w| ==> w[i] != '\0'
      modifies this`data
      ensures ok == WordAt(t, old(data), w)
      ensures ok ==> Ready(t) && data == old(data) + |w|
    {
      ghost var pos := data;
      var i := 0;
      while i < |w|
        invariant 0 <= i <= |w| && data == pos && pos + i < |t| && t[pos..pos + i] == w[..i]
      {
        Sees(t, data + i);
        if buf[data + i] != w[i] {
          WordMismatch(t, pos, w, i);
          return false;
        }
        i := i + 1;
        assert t[pos..pos + i] == t[pos..pos + i - 1] + [w[i - 1]];
      }
      assert w[..|w|] == w;
      Advance(data + |w|, t);
      return true;
    }

    /** `decode_number`: runs the automaton to the end of the number. */
    method DecodeNumber(ghost t: Text) returns (r: Option<RValue>)
      requires Ready(t)
      modifies this`data
      ensures r.Some? == ScanNumber(t, old(data), 0).Some?
      ensures r.Some? ==> Ready(t) && data == ScanNumber(t, old(data), 0).value && r.value == RNumber(old(data), data)
    {
      hide NumberMove;
      hide SkipDigits;
      var start := data;
      var state := 0;
      while state != 7
        invariant Ready(t) && start <= data && state <= 7 && ScanNumber(t, data, state) == ScanNumber(t, start, 0)
        decreases |t| - data
      {
        var c := buf[data];
        Sees(t, data);
        NumberLook(t, data, state);
        var move := NumberMove(c, state);
        if move.None? {
          return if state == 2 || state == 3 || state == 4 || state == 6 then Some(RNumber(start, data)) else None;
        }
        state := move.value;
        Advance(data + 1, t);
        if IsDigit(c) && c != '0' {
          DigitSkip(t);
        }
      }
      return None;
    }

    method DigitSkip(ghost t: Text)
      requires Ready(t)
      modifies this`data
      ensures Ready(t) && data == SkipDigits(t, old(data))
    {
      Sees(t, data);
      while IsDigit(buf[data])
        invariant Ready(t) && SkipDigits(t, data) == SkipDigits(t, old(data)) && buf[data] == t[data]
        decreases |t| - data
      {
        Advance(data + 1, t);
        Sees(t, data);
      }
    }

    /** `decode_value`: the value read is the one the text holds, and only bytes already read have been edited. */
    method DecodeValue(ghost t: Text) returns (r: Option<RValue>)
      requires Ready(t)
      modifies this`data, buf
      ensures r.Some? == ParseValue(t, old(data)).Good?
      ensures r.Some? ==> Ready(t) && data == ParseValue(t, old(data)).pos && Held(buf[..], r.value, old(data), data)
      ensures r.Some? ==> View(buf[..], r.value) == ParseValue(t, old(data)).v
      ensures buf[..old(data)] == old(buf[..data])
      decreases buf.Length - data, 1
    {
      hide ParseItems;
      hide ParseMembers;
      hide ParseString;
      hide ScanNumber;
      hide StringView;
      hide Skip;
      hide WordAt;
      var c := buf[data];
      var pos := data;
      Sees(t, data);
      if c == '[' {
        r := DecodeList(t);
      } else if c == '{' {
        r := DecodeObject(t);
      } else if c == '"' {
        r := DecodeString(t);
      } else if c == 't' {
        var ok := DecodeWord(t, ['t', 'r', 'u', 'e']);
        r := if ok then Some(RTrue) else None;
      } else if c == 'f' {
        var ok := DecodeWord(t, ['f', 'a', 'l', 's', 'e']);
        r := if ok then Some(RFalse) else None;
      } else if c == 'n' {
        var ok := DecodeWord(t, ['n', 'u', 'l', 'l']);
        r := if ok then Some(RNull) else None;
      } else {
        assert buf[pos..] == t[pos..];
        r := DecodeNumber(t);
        assert r.Some? ==> buf[..][pos..data] == buf[pos..][..data - pos] == t[pos..][..data - pos] == t[pos..data];
      }
    }

    /** `decode_list`. */
    method DecodeList(ghost t: Text) returns (r: Option<RValue>)
      requires Ready(t) && t[data] == '['
      modifies this`data, buf
      ensures r.Some? == ParseValue(t, old(data)).Good?
      ensures r.Some? ==> Ready(t) && data == ParseValue(t, old(data)).pos && Held(buf[..], r.value, old(data), data)
      ensures r.Some? ==> View(buf[..], r.value) == ParseValue(t, old(data)).v
      ensures buf[..old(data)] == old(buf[..data])
      decreases buf.Length - data, 0
    {
      hide ParseItems;
      hide ParseMembers;
      hide Skip;
      ghost var pos := data;
      Advance(data + 1, t);
      WsSkip(t);
      Sees(t, data);
      if buf[data] == ']' {
        Advance(data + 1, t);
        return Some(RList([]));
      }
      r := DecodeItems(t, pos);
    }

    /** The loop of `decode_list` from the first item on. */
    method DecodeItems(ghost t: Text, ghost pos: nat) returns (r: Option<RValue>)
      requires Ready(t) && pos < data
      modifies this`data, buf
      ensures r.Some? == ParseItems(t, old(data), []).Good?
      ensures r.Some? ==> Ready(t) && data == ParseItems(t, old(data), []).pos && Held(buf[..], r.value, pos, data)
      ensures r.Some? ==> View(buf[..], r.value) == ParseItems(t, old(data), []).v
      ensures buf[..pos] == old(buf[..pos])
      decreases buf.Length - data, 2
    {
      hide ParseValue;
      hide ParseItems;
      hide View;
      hide Held;
      hide Skip;
      hide ViewItems;
      hide HeldItems;
      ghost var first := data;
      var items: seq<RValue> := [];
      NoItemsView(buf[..], pos, data);
      while true
        invariant Ready(t) && pos < first <= data && buf[..pos] == old(buf[..pos])
        invariant HeldItems(buf[..], items, pos, data)
        invariant ParseItems(t, data, ViewItems(buf[..], items)) == ParseItems(t, first, [])
        decreases buf.Length - data
      {
        ghost var b := buf[..];
        ghost var from := data;
        ItemsLook(t, from, ViewItems(b, items));
        var v := DecodeValue(t);
        if v.None? {
          return None;
        }
        ItemsGrow(b, buf[..], items, v.value, pos, from, data);
        PrefixOfPrefix(b, buf[..], pos, from);
        items := items + [v.value];
        ghost var to := data;
        var c := Separator(t, ']');
        HeldItemsWider(buf[..], items, pos, to, pos, data);
        if c == ']' {
          ListOf(buf[..], items, pos, data);
          return Some(RList(items));
        }
        if c != ',' {
          return None;
        }
      }
    }

    /** `decode_object`. */
    method DecodeObject(ghost t: Text) returns (r: Option<RValue>)
      requires Ready(t) && t[data] == '{'
      modifies this`data, buf
      ensures r.Some? == ParseValue(t, old(data)).Good?
      ensures r.Some? ==> Ready(t) && data == ParseValue(t, old(data)).pos && Held(buf[..], r.value, old(data), data)
      ensures r.Some? ==> View(buf[..], r.value) == ParseValue(t, old(data)).v
      ensures buf[..old(data)] == old(buf[..data])
      decreases buf.Length - data, 0
    {
      hide ParseItems;
      hide ParseMembers;
      hide Skip;
      ghost var pos := data;
      Advance(data + 1, t);
      WsSkip(t);
      Sees(t, data);
      if buf[data] == '}' {
        Advance(data + 1, t);
        return Some(RObject([]));
      }
      r := DecodeMembers(t, pos);
    }

    /** A key: read like a string, then unescaped at once. */
    method DecodeKey(ghost t: Text) returns (r: Option<RValue>)
      requires Ready(t)
      modifies this`data, buf
      ensures var k := ParseString(t, old(data));
              r.Some? == (k.Good? && t[Skip(t, k.pos)] == ':')
      ensures r.Some? ==> Ready(t) && data == Skip(t, ParseString(t, old(data)).pos) + 1
      ensures r.Some? ==> r.value.RString? && Held(buf[..], r.value, old(data), data)
      ensures r.Some? ==> JString(StringView(buf[..], r.value.s, r.value.e)) == ParseString(t, old(data)).v
      ensures buf[..old(data)] == old(buf[..data])
    {
      hide ParseString;
      hide Skip;
      hide Unescape;
      hide WellEscaped;
      ghost var pos := data;
      ghost var b0 := buf[..];
      r := DecodeString(t);
      if r.None? {
        return None;
      }
      ghost var b1 := buf[..];
      assert b1[..pos] == b0[..pos];
      WsSkip(t);
      Sees(t, data);
      if buf[data] != ':' {
        return None;
      }
      Advance(data + 1, t);
      var s, e := r.value.s, r.value.e;
      var end := UnescapeInPlace(buf, s, e);
      assert buf[..][data..] == buf[e + 1..][data - e - 1..] == b1[e + 1..][data - e - 1..] == b1[data..] == t[data..];
      assert buf[..][..pos] == buf[..s - 1][..pos] == b1[..s - 1][..pos] == b1[..pos];
      return Some(RString(s, end));
    }

    /** The loop of `decode_object` from the first member on. */
    method DecodeMembers(ghost t: Text, ghost pos: nat) returns (r: Option<RValue>)
      requires Ready(t) && pos < data
      modifies this`data, buf
      ensures r.Some? == ParseMembers(t, old(data), []).Good?
      ensures r.Some? ==> Ready(t) && data == ParseMembers(t, old(data), []).pos && Held(buf[..], r.value, pos, data)
      ensures r.Some? ==> View(buf[..], r.value) == ParseMembers(t, old(data), []).v
      ensures buf[..pos] == old(buf[..pos])
      decreases buf.Length - data, 2
    {
      hide ParseValue;
      hide ParseMembers;
      hide ParseString;
      hide View;
      hide Held;
      hide Skip;
      hide StringView;
      hide ViewMembers;
      hide HeldMembers;
      hide MemberAt;
      hide HeldMember;
      hide ViewMember;
      ghost var first := data;
      var members: seq<RMember> := [];
      NoMembersView(buf[..], pos, data);
      while true
        invariant Ready(t) && pos < first <= data && buf[..pos] == old(buf[..pos])
        invariant HeldMembers(buf[..], members, pos, data)
        invariant ParseMembers(t, data, ViewMembers(buf[..], members)) == ParseMembers(t, first, [])
        decreases buf.Length - data
      {
        ghost var b := buf[..];
        ghost var from := data;
        MembersLook(t, from, ViewMembers(b, members));
        var m := DecodeMember(t);
        if m.None? {
          return None;
        }
        MembersGrow(b, buf[..], members, m.value, pos, from, data);
        PrefixOfPrefix(b, buf[..], pos, from);
        members := members + [m.value];
        ghost var to := data;
        var c := Separator(t, '}');
        HeldMembersWider(buf[..], members, pos, to, pos, data);
        if c == '}' {
          ObjectOf(buf[..], members, pos, data);
          return Some(RObject(members));
        }
        if c != ',' {
          return None;
        }
      }
    }

    /** What follows an item: its closing bracket, a comma with the blanks behind it, or something else. */
    method Separator(ghost t: Text, close: Byte) returns (c: Byte)
      requires Ready(t) && close != ',' && close != '\0'
      modifies this`data
      ensures c == t[Skip(t, old(data))] && Ready(t) && old(data) <= data
      ensures c == close ==> data == Skip(t, old(data)) + 1
      ensures c == ',' ==> Skip(t, old(data)) + 1 < |t| && data == Skip(t, Skip(t, old(data)) + 1)
    {
      hide Skip;
      WsSkip(t);
      Sees(t, data);
      c := buf[data];
      if c == close {
        Advance(data + 1, t);
      } else if c == ',' {
        Advance(data + 1, t);
        WsSkip(t);
      }
    }

    /** One key and its value. */
    method DecodeMember(ghost t: Text) returns (r: Option<RMember>)
      requires Ready(t)
      modifies this`data, buf
      ensures r.Some? == MemberAt(t, old(data)).Some?
      ensures r.Some? ==> Ready(t) && data == MemberAt(t, old(data)).value.1 && HeldMember(buf[..], r.value, old(data), data)
      ensures r.Some? ==> ViewMember(buf[..], r.value) == MemberAt(t, old(data)).value.0
      ensures buf[..old(data)] == old(buf[..data])
      decreases buf.Length - data, 1
    {
      hide ParseValue;
      hide ParseString;
      hide View;
      hide ViewMember;
      hide Held;
      hide Skip;
      hide StringView;
      ghost var b := buf[..];
      ghost var from := data;
      var k := DecodeKey(t);
      if k.None? {
        return None;
      }
      KeyHeld(buf[..], k.value, from, data);
      ghost var bk := buf[..];
      WsSkip(t);
      ghost var mid := data;
      var v := DecodeValue(t);
      if v.None? {
        PrefixOfPrefix(bk, buf[..], from, mid);
        return None;
      }
      PrefixOfPrefix(bk, buf[..], from, mid);
      var m := RMember(k.value.s, k.value.e, v.value);
      OneMember(bk, buf[..], m, from, mid, data);
      r := Some(m);
    }

    /** `parse` behind `load`: the value of the text, or nothing. */
    method Load(ghost t: Text) returns (r: Option<RValue>)
      requires data == 0 && |t| == buf.Length && Terminated(t) && buf[..] == t
      modifies this`data, buf
      ensures r.Some? == Parse(t).Some?
      ensures r.Some? ==> View(buf[..], r.value) == Parse(t).value && Held(buf[..], r.value, 0, buf.Length)
    {
      hide ParseValue;
      hide Held;
      hide View;
      WsSkip(t);
      r := DecodeValue(t);
      if r.Some? {
        HeldWider(buf[..], r.value, Skip(t, 0), data, 0, buf.Length);
        WsSkip(t);
        Sees(t, data);
        if buf[data] != '\0' {
          r := None;
        }
      }
    }

    /** `rvalue::s`: unescapes the string on its first call; the whole value reads as before. */
    method ReadString(v: RValue, s: nat, e: nat) returns (w: RValue, end: nat, text: Text)
      requires Held(buf[..], v, 0, buf.Length) && HasString(v, s, e)
      modifies buf
      ensures 1 <= s <= end <= e < buf.Length
      ensures JString(text) == old(View(buf[..], RString(s, e)))
      ensures View(buf[..], w) == old(View(buf[..], v)) && Held(buf[..], w, 0, buf.Length)
      ensures HasString(w, s, end) && View(buf[..], RString(s, end)) == JString(text) && buf[s - 1] == '\0'
      ensures old(buf[s - 1]) == '\0' ==> end == e && buf[..] == old(buf[..])
    {
      ghost var b := buf[..];
      StringPlace(b, v, 0, buf.Length, s, e);
      assert b[s..e] == buf[s..e];
      end := UnescapeInPlace(buf, s, e);
      ReadIsReread(b, buf[..], s, e, end);
      ReadKeepsView(b, buf[..], v, 0, buf.Length, s, e, end);
      ShortenedHas(v, s, e, end);
      w := Shortened(v, s, end);
      text := buf[s..end];
    }
  }

  /** Printing a value, loading the text and viewing what was loaded gives the value back. */
  method LoadPrinted(v: Json) returns (reader: Reader, r: Option<RValue>)
    requires Plain(v)
    ensures r.Some? && View(reader.buf[..], r.value) == v
    ensures Held(reader.buf[..], r.value, 0, reader.buf.Length)
  {
    hide Dump;
    hide Parse;
    var text := DumpTo(v, []);
    assert [] + Dump(v) == Dump(v);
    reader := new Reader(text);
    ParseDump(v);
    r := reader.Load(text + ['\0']);
  }

  /** Two reads of the same string give the same text. */
  method ReadTwice(reader: Reader, v: RValue, s: nat, e: nat) returns (first: Text, second: Text, w: RValue)
    requires Held(reader.buf[..], v, 0, reader.buf.Length) && HasString(v, s, e)
    modifies reader.buf
    ensures first == second && View(reader.buf[..], w) == old(View(reader.buf[..], v))
  {
    hide View;
    hide HasString;
    hide Held;
    var end, end';
    w, end, first := reader.ReadString(v, s, e);
    w, end', second := reader.ReadString(w, s, end);
  }

  lemma ReadIsReread(b: Text, c: Text, s: nat, e: nat, end: nat)
    requires |b| == |c| && 1 <= s <= end <= e < |b| && c[s - 1] == '\0' && c[s..end] == StringView(b, s, e)
    requires b[..s - 1] == c[..s - 1] && b[e + 1..] == c[e + 1..]
    ensures Reread(b, c, s, e, end)
  {
    assert b[0..s - 1] == c[0..s - 1];
  }

  lemma {:induction false} ShortenedHas(v: RValue, s: nat, e: nat, end: nat)
    requires HasString(v, s, e)
    ensures HasString(Shortened(v, s, end), s, end)
    decreases v, 1
  {
    match v
    case RList(items) => ItemsShortenedHave(items, s, e, end);
    case RObject(members) => MembersShortenedHave(members, s, e, end);
    case _ =>
  }

  lemma {:induction false} ItemsShortenedHave(items: seq<RValue>, s: nat, e: nat, end: nat)
    requires ItemsHaveString(items, s, e)
    ensures ItemsHaveString(ItemsShortened(items, s, end), s, end)
    decreases items, 0
  {
    var n := |items| - 1;
    if HasString(items[n], s, e) {
      ShortenedHas(items[n], s, e, end);
    } else {
      ItemsShortenedHave(items[..n], s, e, end);
    }
    var short := ItemsShortened(items, s, end);
    assert short[..|short| - 1] == ItemsShortened(items[..n], s, end);
  }

  lemma {:induction false} MemberShortenedHas(m: RMember, s: nat, e: nat, end: nat)
    requires MemberHasString(m, s, e)
    ensures MemberHasString(MemberShortened(m, s, end), s, end)
    decreases m, 2
  {
    ShortenedHas(m.val, s, e, end);
  }

  lemma {:induction false} MembersShortenedHave(members: seq<RMember>, s: nat, e: nat, end: nat)
    requires MembersHaveString(members, s, e)
    ensures MembersHaveString(MembersShortened(members, s, end), s, end)
    decreases members, 0
  {
    var n := |members| - 1;
    if MemberHasString(members[n], s, e) {
      MemberShortenedHas(members[n], s, e, end);
    } else {
      MembersShortenedHave(members[..n], s, e, end);
    }
    var short := MembersShortened(members, s, end);
    assert short[..|short| - 1] == MembersShortened(members[..n], s, end);
  }

  lemma NoItemsView(b: Text, lo: nat, hi: nat)
    requires lo <= hi
    ensures ViewItems(b, []) == [] && HeldItems(b, [], lo, hi)
  {}

  lemma NoMembersView(b: Text, lo: nat, hi: nat)
    requires lo <= hi
    ensures ViewMembers(b, []) == [] && HeldMembers(b, [], lo, hi)
  {}

  lemma PrefixOfPrefix(b: Text, c: Text, lo: nat, hi: nat)
    requires |b| == |c| && lo <= hi <= |b| && b[..hi] == c[..hi]
    ensures b[..lo] == c[..lo]
  {
    assert b[..lo] == b[..hi][..lo] && c[..lo] == c[..hi][..lo];
  }

  lemma WordMismatch(t: Text, pos: nat, w: Text, i: nat)
    requires i < |w| && pos + i < |t| && t[pos + i] != w[i]
    ensures !WordAt(t, pos, w)
  {
    if pos + |w| <= |t| {
      assert t[pos..pos + |w|][i] == t[pos + i];
    }
  }

  lemma ListOf(b: Text, items: seq<RValue>, lo: nat, hi: nat)
    requires HeldItems(b, items, lo, hi)
    ensures View(b, RList(items)) == JList(ViewItems(b, items)) && Held(b, RList(items), lo, hi)
  {}

  /** One more item: the earlier ones are out of reach of its edits. */
  lemma ItemsGrow(b: Text, c: Text, items: seq<RValue>, v: RValue, lo: nat, from: nat, to: nat)
    requires |b| == |c| && lo <= from <= to && from <= |b| && b[..from] == c[..from]
    requires HeldItems(b, items, lo, from) && Held(c, v, from, to)
    ensures ViewItems(c, items + [v]) == ViewItems(b, items) + [View(c, v)]
    ensures HeldItems(c, items + [v], lo, to)
  {
    assert b[lo..from] == b[..from][lo..] == c[..from][lo..] == c[lo..from];
    ViewItemsFrame(b, c, items, lo, from);
    AppendItem(c, items, v, lo, from, to);
  }

  /** The parser's step over one item. */
  lemma ItemsLook(t: Text, pos: nat, done: seq<Json>)
    requires Terminated(t) && pos < |t|
    ensures ParseItems(t, pos, done) ==
            match ParseValue(t, pos)
            case Bad => Bad
            case Good(v, p0) =>
              var p := Skip(t, p0);
              if t[p] == ']' then Good(JList(done + [v]), p + 1)
              else if t[p] == ',' then ParseItems(t, Skip(t, p + 1), done + [v])
              else Bad
  {
    hide ParseValue;
    hide Skip;
  }

  lemma KeyHeld(b: Text, k: RValue, lo: nat, hi: nat)
    requires k.RString? && Held(b, k, lo, hi)
    ensures lo < k.s <= k.e < hi && Readable(b, k.s, k.e)
  {}

  lemma ObjectOf(b: Text, members: seq<RMember>, lo: nat, hi: nat)
    requires HeldMembers(b, members, lo, hi)
    ensures View(b, RObject(members)) == JObject(ViewMembers(b, members)) && Held(b, RObject(members), lo, hi)
  {}

  /** A member's key is out of reach of its value's edits. */
  lemma OneMember(bk: Text, c: Text, m: RMember, from: nat, mid: nat, to: nat)
    requires |bk| == |c| && from <= mid <= to && mid <= |bk| && bk[..mid] == c[..mid]
    requires from < m.ks <= m.ke < mid && Readable(bk, m.ks, m.ke) && Held(c, m.val, mid, to)
    ensures ViewMember(c, m) == Member(StringView(bk, m.ks, m.ke), View(c, m.val)) && HeldMember(c, m, from, to)
  {
    hide StringView;
    hide Readable;
    hide Held;
    hide View;
    assert bk[from..mid] == bk[..mid][from..] == c[..mid][from..] == c[from..mid];
    SameString(bk, c, from, mid, m.ks, m.ke);
  }

  /** One more member: the earlier ones are out of reach of its edits. */
  lemma MembersGrow(b: Text, c: Text, members: seq<RMember>, m: RMember, lo: nat, from: nat, to: nat)
    requires |b| == |c| && lo <= from <= to && from <= |b| && b[..from] == c[..from]
    requires HeldMembers(b, members, lo, from) && HeldMember(c, m, from, to)
    ensures ViewMembers(c, members + [m]) == ViewMembers(b, members) + [ViewMember(c, m)]
    ensures HeldMembers(c, members + [m], lo, to)
  {
    hide ViewMember;
    hide HeldMember;
    assert b[lo..from] == b[..from][lo..] == c[..from][lo..] == c[lo..from];
    ViewMembersFrame(b, c, members, lo, from);
    AppendMember(c, members, m, lo, from, to);
  }

  /** The member at `pos`, and the position behind it. */
  function MemberAt(t: Text, pos: nat): (r: Option<(Member, nat)>)
    requires Terminated(t) && pos < |t|
    ensures r.Some? ==> pos < r.value.1 < |t|
  {
    match ParseString(t, pos)
    case Bad => None
    case Good(k, p0) =>
      var p := Skip(t, p0);
      if t[p] != ':' then None else
        match ParseValue(t, Skip(t, p + 1))
        case Bad => None
        case Good(v, q) => Some((Member(k.s, v), q))
  }

  /** The parser's step over one member. */
  lemma MembersLook(t: Text, pos: nat, done: seq<Member>)
    requires Terminated(t) && pos < |t|
    ensures ParseMembers(t, pos, done) ==
            match MemberAt(t, pos)
            case None => Bad
            case Some((m, q)) =>
              var p := Skip(t, q);
              if t[p] == '}' then Good(JObject(done + [m]), p + 1)
              else if t[p] == ',' then ParseMembers(t, Skip(t, p + 1), done + [m])
              else Bad
  {
    hide ParseValue;
    hide ParseString;
    hide Skip;
  }

  /** One step of the number automaton. */
  lemma NumberLook(t: Text, pos: nat, n: nat)
    requires Terminated(t) && pos < |t| && n <= 6
    ensures match NumberMove(t[pos], n)
            case None => ScanNumber(t, pos, n) == if n == 2 || n == 3 || n == 4 || n == 6 then Some(pos) else None
            case Some(n') =>
              n' <= 7 && pos + 1 < |t|
              && ScanNumber(t, pos, n) == ScanNumber(t, if IsDigit(t[pos]) && t[pos] != '0' then SkipDigits(t, pos + 1) else pos + 1, n')
  {}
}
