/** Parsing a printed value gives the value back. */
module JsonRoundTrip {
  import opened Common
  import opened JsonSpec

  lemma WordSplit(t: Text, pos: nat, a: Text, b: Text)
    ensures WordAt(t, pos, a + b) <==> WordAt(t, pos, a) && WordAt(t, pos + |a|, b)
  {
    if pos + |a| + |b| <= |t| {
      var w := t[pos..pos + |a| + |b|];
      assert w == t[pos..pos + |a|] + t[pos + |a|..pos + |a| + |b|];
      assert w == a + b ==> w[..|a|] == a && w[|a|..] == b;
    }
  }

  lemma WordHas(t: Text, pos: nat, w: Text, i: nat)
    requires WordAt(t, pos, w) && i < |w|
    ensures t[pos + i] == w[i]
  {
    assert t[pos..pos + |w|][i] == w[i];
  }

  lemma WordIs(t: Text, pos: nat, w: Text)
    requires WordAt(t, pos, w)
    ensures pos + |w| <= |t| && t[pos..pos + |w|] == w
  {}

  // ----- strings -----

  lemma HexRoundTrip(n: nat)
    requires n < 16
    ensures IsHex(HexChar(n)) && FromHex(HexChar(n)) == n
  {}

  /** One escaped byte is read over by the scan and read back by the unescape. */
  lemma EscapeByteReads(c: Byte, rest: Text)
    requires WellEscaped(rest)
    ensures WellEscaped(EscapeByte(c) + rest) && Unescape(EscapeByte(c) + rest) == [c] + Unescape(rest)
  {
    var e := EscapeByte(c);
    var s := e + rest;
    HexRoundTrip(c as int / 16 % 16);
    HexRoundTrip(c as int % 16);
    if |e| == 1 {
      assert s[1..] == rest;
    } else if |e| == 2 {
      assert s[2..] == rest;
    } else {
      assert s[6..] == rest;
      assert FromHex('0') == 0 && c as int < 0x20;
      assert CodeOf(s[2], s[3], s[4], s[5]) == c as int;
    }
  }

  /** Unescaping an escaped string gives the string back. */
  lemma {:induction false} UnescapeEscape(s: Text)
    ensures WellEscaped(Escape(s)) && Unescape(Escape(s)) == s
  {
    if s != [] {
      UnescapeEscape(s[1..]);
      EscapeByteReads(s[0], Escape(s[1..]));
    }
  }

  lemma ScanOverByte(t: Text, pos: nat, c: Byte)
    requires Terminated(t) && WordAt(t, pos, EscapeByte(c)) && pos + |EscapeByte(c)| < |t|
    ensures ScanString(t, pos) == ScanString(t, pos + |EscapeByte(c)|)
  {
    var e := EscapeByte(c);
    HexRoundTrip(c as int / 16 % 16);
    HexRoundTrip(c as int % 16);
    WordHas(t, pos, e, 0);
    if |e| == 2 {
      WordHas(t, pos, e, 1);
    } else if |e| == 6 {
      WordHas(t, pos, e, 1);
      WordHas(t, pos, e, 2);
      WordHas(t, pos, e, 3);
      WordHas(t, pos, e, 4);
      WordHas(t, pos, e, 5);
    }
  }

  lemma ScanAtQuote(t: Text, pos: nat)
    requires Terminated(t) && pos < |t| && t[pos] == '"'
    ensures ScanString(t, pos) == Some(pos)
  {}

  /** The scan finds the closing quote behind an escaped string, not a quote inside it. */
  lemma {:induction false} ScanFindsQuote(t: Text, pos: nat, s: Text)
    requires Terminated(t) && WordAt(t, pos, Escape(s) + ['"'])
    ensures pos + |Escape(s)| < |t| && ScanString(t, pos) == Some(pos + |Escape(s)|)
    decreases |s|
  {
    hide WordAt;
    hide ScanString;
    hide EscapeByte;
    WordIs(t, pos, Escape(s) + ['"']);
    WordHas(t, pos, Escape(s) + ['"'], |Escape(s)|);
    if s == [] {
      ScanAtQuote(t, pos);
    } else {
      var e := EscapeByte(s[0]);
      assert Escape(s) + ['"'] == e + (Escape(s[1..]) + ['"']);
      WordSplit(t, pos, e, Escape(s[1..]) + ['"']);
      ScanFindsQuote(t, pos + |e|, s[1..]);
      ScanOverByte(t, pos, s[0]);
    }
  }

  lemma StringParses(t: Text, pos: nat, s: Text)
    requires Terminated(t) && WordAt(t, pos, DumpString(s))
    ensures pos + |DumpString(s)| < |t| && ParseString(t, pos) == Good(JString(s), pos + |DumpString(s)|)
  {
    hide WordAt;
    hide ScanString;
    hide Escape;
    hide Unescape;
    hide WellEscaped;
    assert DumpString(s) == ['"'] + (Escape(s) + ['"']);
    WordIs(t, pos, DumpString(s));
    WordHas(t, pos, DumpString(s), 0);
    WordHas(t, pos, DumpString(s), |DumpString(s)| - 1);
    WordSplit(t, pos, ['"'], Escape(s) + ['"']);
    ScanFindsQuote(t, pos + 1, s);
    WordSplit(t, pos + 1, Escape(s), ['"']);
    WordIs(t, pos + 1, Escape(s));
    UnescapeEscape(s);
  }

  // ----- values -----

  predicate StartsValue(c: Byte) { c == 'n' || c == 'f' || c == 't' || c == '"' || c == '[' || c == '{' }

  lemma DumpStarts(v: Json)
    requires Plain(v)
    ensures |Dump(v)| > 0 && StartsValue(Dump(v)[0])
  {}

  lemma SkipStays(t: Text, pos: nat)
    requires Terminated(t) && pos < |t| && !IsSpace(t[pos])
    ensures Skip(t, pos) == pos
  {}

  lemma WordParses(t: Text, pos: nat, w: Text, v: Json)
    requires Terminated(t) && pos < |t| && w != [] && (forall i :: 0 <= i < |w| ==> w[i] != '\0') && WordAt(t, pos, w)
    ensures ParseWord(t, pos, w, v) == Good(v, pos + |w|)
  {}

  /** Wherever a printed value stands in a text, parsing there gives the value and ends just behind it. */
  lemma {:induction false} DumpParses(v: Json, t: Text, pos: nat)
    requires Plain(v) && Terminated(t) && WordAt(t, pos, Dump(v)) && pos + |Dump(v)| < |t|
    ensures ParseValue(t, pos) == Good(v, pos + |Dump(v)|)
    decreases v, 2
  {
    hide WordAt;
    hide ParseItems;
    hide ParseMembers;
    hide ParseString;
    hide ParseWord;
    hide ScanNumber;
    hide Skip;
    hide DumpString;
    DumpStarts(v);
    WordHas(t, pos, Dump(v), 0);
    match v
    case JNull => WordParses(t, pos, Dump(v), v);
    case JFalse => WordParses(t, pos, Dump(v), v);
    case JTrue => WordParses(t, pos, Dump(v), v);
    case JString(s) =>
      QuoteFirst(s);
      StringParses(t, pos, s);
    case JList(items) => ListParses(items, t, pos);
    case JObject(members) => ObjectParses(members, t, pos);
  }

  lemma QuoteFirst(s: Text)
    ensures |DumpString(s)| > 0 && DumpString(s)[0] == '"'
  {}

  lemma {:induction false} ListParses(items: seq<Json>, t: Text, pos: nat)
    requires Plain(JList(items)) && Terminated(t) && WordAt(t, pos, Dump(JList(items))) && pos + |Dump(JList(items))| < |t|
    ensures ParseValue(t, pos) == Good(JList(items), pos + |Dump(JList(items))|)
    decreases items, 1
  {
    hide WordAt;
    hide ParseItems;
    hide ParseMembers;
    hide Skip;
    hide DumpItems;
    WordHas(t, pos, Dump(JList(items)), 0);
    WordSplit(t, pos, ['['] + DumpItems(items), [']']);
    WordSplit(t, pos, ['['], DumpItems(items));
    WordHas(t, pos + 1 + |DumpItems(items)|, [']'], 0);
    if items == [] {
      NoItems();
      SkipStays(t, pos + 1);
    } else {
      ItemsStart(items);
      WordHas(t, pos + 1, DumpItems(items), 0);
      SkipStays(t, pos + 1);
      ItemsParse(items, t, pos + 1, []);
      assert [] + items == items;
    }
  }

  lemma {:induction false} ObjectParses(members: seq<Member>, t: Text, pos: nat)
    requires Plain(JObject(members)) && Terminated(t) && WordAt(t, pos, Dump(JObject(members)))
    requires pos + |Dump(JObject(members))| < |t|
    ensures ParseValue(t, pos) == Good(JObject(members), pos + |Dump(JObject(members))|)
    decreases members, 1
  {
    hide WordAt;
    hide ParseItems;
    hide ParseMembers;
    hide Skip;
    hide DumpMembers;
    WordHas(t, pos, Dump(JObject(members)), 0);
    WordSplit(t, pos, ['{'] + DumpMembers(members), ['}']);
    WordSplit(t, pos, ['{'], DumpMembers(members));
    WordHas(t, pos + 1 + |DumpMembers(members)|, ['}'], 0);
    if members == [] {
      NoItems();
      SkipStays(t, pos + 1);
    } else {
      MembersStart(members);
      WordHas(t, pos + 1, DumpMembers(members), 0);
      SkipStays(t, pos + 1);
      MembersParse(members, t, pos + 1, []);
      assert [] + members == members;
    }
  }

  lemma ItemsStart(items: seq<Json>)
    requires items != [] && forall i :: 0 <= i < |items| ==> Plain(items[i])
    ensures |DumpItems(items)| > 0 && StartsValue(DumpItems(items)[0])
  {
    DumpStarts(items[0]);
  }

  lemma MembersStart(members: seq<Member>)
    requires members != [] && forall i :: 0 <= i < |members| ==> Plain(members[i].val)
    ensures |DumpMembers(members)| > 0 && DumpMembers(members)[0] == '"'
  {}

  /** The parser's step over one item and what stands behind it. */
  lemma ItemStep(t: Text, pos: nat, done: seq<Json>, v: Json, p: nat)
    requires Terminated(t) && pos < |t| && ParseValue(t, pos) == Good(v, p) && !IsSpace(t[p])
    ensures t[p] == ']' ==> ParseItems(t, pos, done) == Good(JList(done + [v]), p + 1)
    ensures t[p] == ',' && !IsSpace(t[p + 1]) ==> ParseItems(t, pos, done) == ParseItems(t, p + 1, done + [v])
  {
    hide ParseValue;
  }

  lemma {:induction false} ItemsParse(items: seq<Json>, t: Text, pos: nat, done: seq<Json>)
    requires items != [] && (forall i :: 0 <= i < |items| ==> Plain(items[i])) && Terminated(t)
    requires WordAt(t, pos, DumpItems(items)) && pos + |DumpItems(items)| < |t| - 1
    requires t[pos + |DumpItems(items)|] == ']'
    ensures ParseItems(t, pos, done) == Good(JList(done + items), pos + |DumpItems(items)| + 1)
    decreases items, 0
  {
    hide WordAt;
    hide ParseItems;
    hide ParseValue;
    hide Dump;
    var d := Dump(items[0]);
    if |items| == 1 {
      DumpParses(items[0], t, pos);
      ItemStep(t, pos, done, items[0], pos + |d|);
      assert done + [items[0]] == done + items;
    } else {
      var rest := items[1..];
      WordSplit(t, pos, d + [','], DumpItems(rest));
      WordSplit(t, pos, d, [',']);
      WordHas(t, pos + |d|, [','], 0);
      DumpParses(items[0], t, pos);
      ItemsStart(rest);
      WordHas(t, pos + |d| + 1, DumpItems(rest), 0);
      ItemStep(t, pos, done, items[0], pos + |d|);
      ItemsParse(rest, t, pos + |d| + 1, done + [items[0]]);
      assert done + [items[0]] + rest == done + items;
    }
  }

  /** The parser's step over one member and what stands behind it. */
  lemma MemberStep(t: Text, pos: nat, done: seq<Member>, k: Text, q: nat, v: Json, p: nat)
    requires Terminated(t) && pos < |t| && ParseString(t, pos) == Good(JString(k), q) && t[q] == ':'
    requires q + 1 < |t| && !IsSpace(t[q + 1]) && ParseValue(t, q + 1) == Good(v, p) && !IsSpace(t[p])
    ensures t[p] == '}' ==> ParseMembers(t, pos, done) == Good(JObject(done + [Member(k, v)]), p + 1)
    ensures t[p] == ',' && !IsSpace(t[p + 1]) ==> ParseMembers(t, pos, done) == ParseMembers(t, p + 1, done + [Member(k, v)])
  {
    hide ParseValue;
    hide ParseString;
  }

  lemma {:induction false} MembersParse(members: seq<Member>, t: Text, pos: nat, done: seq<Member>)
    requires members != [] && (forall i :: 0 <= i < |members| ==> Plain(members[i].val)) && Terminated(t)
    requires WordAt(t, pos, DumpMembers(members)) && pos + |DumpMembers(members)| < |t| - 1
    requires t[pos + |DumpMembers(members)|] == '}'
    ensures ParseMembers(t, pos, done) == Good(JObject(done + members), pos + |DumpMembers(members)| + 1)
    decreases members, 0
  {
    hide WordAt;
    hide ParseMembers;
    hide ParseValue;
    hide ParseString;
    hide Dump;
    hide DumpString;
    var m := members[0];
    var k := DumpString(m.key);
    var one := k + [':'] + Dump(m.val);
    if |members| == 1 {
      MemberParses(m, t, pos);
      DumpParses(m.val, t, pos + |k| + 1);
      MemberStep(t, pos, done, m.key, pos + |k|, m.val, pos + |one|);
      assert done + [m] == done + members;
    } else {
      var rest := members[1..];
      WordSplit(t, pos, one + [','], DumpMembers(rest));
      WordSplit(t, pos, one, [',']);
      WordHas(t, pos + |one|, [','], 0);
      MembersStart(rest);
      WordHas(t, pos + |one| + 1, DumpMembers(rest), 0);
      MemberParses(m, t, pos);
      DumpParses(m.val, t, pos + |k| + 1);
      MemberStep(t, pos, done, m.key, pos + |k|, m.val, pos + |one|);
      MembersParse(rest, t, pos + |one| + 1, done + [m]);
      assert done + [m] + rest == done + members;
    }
  }

  /** The key and colon of a member. */
  lemma MemberParses(m: Member, t: Text, pos: nat)
    requires Plain(m.val) && Terminated(t) && WordAt(t, pos, DumpString(m.key) + [':'] + Dump(m.val))
    ensures var k := DumpString(m.key);
            && pos + |k| + 1 < |t| && WordAt(t, pos + |k| + 1, Dump(m.val))
            && ParseString(t, pos) == Good(JString(m.key), pos + |k|)
            && t[pos + |k|] == ':' && !IsSpace(t[pos + |k| + 1])
  {
    hide WordAt;
    hide ParseString;
    hide Dump;
    hide DumpString;
    var k, d := DumpString(m.key), Dump(m.val);
    WordSplit(t, pos, k + [':'], d);
    WordSplit(t, pos, k, [':']);
    WordHas(t, pos + |k|, [':'], 0);
    DumpStarts(m.val);
    WordHas(t, pos + |k| + 1, d, 0);
    WordIs(t, pos + |k| + 1, d);
    StringParses(t, pos, m.key);
  }

  /** The round trip: parsing what was printed gives back the value. */
  lemma ParseDump(v: Json)
    requires Plain(v)
    ensures Parse(Dump(v) + ['\0']) == Some(v)
  {
    var t := Dump(v) + ['\0'];
    assert t[0..|Dump(v)|] == Dump(v);
    DumpStarts(v);
    SkipStays(t, 0);
    DumpParses(v, t, 0);
    SkipStays(t, |Dump(v)|);
  }
}
