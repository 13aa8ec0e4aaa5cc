/** URL encoding, and the query-string decoder that overwrites its own text. */
module UrlSpec {
  import opened Common
  import opened Numerals

  predicate IsAlnum(c: Byte) { '0' <= c <= '9' || 'A' <= c <= 'Z' || 'a' <= c <= 'z' }

  predicate Unreserved(c: Byte) { IsAlnum(c) || c == '-' || c == '_' || c == '.' || c == '~' }

  function ToHex(x: nat): Byte
    requires x < 16
  {
    if x > 9 then (x + 55) as char else (x + 48) as char
  }

  function EncodeByte(c: Byte): Text {
    if Unreserved(c) then [c]
    else if c == ' ' then ['+']
    else ['%', ToHex(c as int / 16), ToHex(c as int % 16)]
  }

  function UrlEncode(s: Text): Text {
    if s == [] then [] else UrlEncode(s[..|s| - 1]) + EncodeByte(s[|s| - 1])
  }

  /** The characters that end a key or a value. */
  predicate Ends(c: Byte) { c == '=' || c == '#' || c == '&' || c == '\0' }

  /** A per cent sign without two hexadecimal digits behind it. */
  predicate Broken(t: Text, j: nat)
    requires Terminated(t) && j < |t|
  {
    t[j] == '%' && !(IsHex(t[j + 1]) && IsHex(t[j + 2]))
  }

  /** The byte written at `j`, and how many characters wrote it. */
  function ByteAt(t: Text, j: nat): (r: (Byte, nat))
    requires Terminated(t) && j < |t| && !Ends(t[j]) && !Broken(t, j)
    ensures 1 <= r.1 && j + r.1 < |t|
  {
    if t[j] == '+' then (' ', 1)
    else if t[j] == '%' then ((FromHex(t[j + 1]) * 16 + FromHex(t[j + 2])) as char, 3)
    else (t[j], 1)
  }

  /** The text from `j` on, decoded up to its end or to the first broken escape. */
  function QsDecode(t: Text, j: nat): Text
    requires Terminated(t) && j < |t|
    decreases |t| - j
  {
    if Ends(t[j]) || Broken(t, j) then []
    else
      var (c, n) := ByteAt(t, j);
      [c] + QsDecode(t, j + n)
  }

  // ----- round trip -----

  lemma UpperHexReads(x: nat)
    requires x < 16
    ensures IsHex(ToHex(x)) && FromHex(ToHex(x)) == x
  {}

  /** An encoded byte is read back. */
  lemma ByteRoundTrip(t: Text, j: nat, c: Byte)
    requires Terminated(t) && j + |EncodeByte(c)| < |t| && t[j..j + |EncodeByte(c)|] == EncodeByte(c)
    ensures !Ends(t[j]) && !Broken(t, j) && ByteAt(t, j) == (c, |EncodeByte(c)|)
  {
    var e := EncodeByte(c);
    var w := t[j..j + |e|];
    assert w[0] == t[j];
    UpperHexReads(c as int / 16);
    UpperHexReads(c as int % 16);
    if |e| == 3 {
      assert w[1] == t[j + 1] && w[2] == t[j + 2];
    }
  }

  lemma {:induction false} EncodedFromFront(s: Text)
    requires s != []
    ensures UrlEncode(s) == EncodeByte(s[0]) + UrlEncode(s[1..])
    decreases |s|
  {
    hide EncodeByte;
    if |s| > 1 {
      var front := s[..|s| - 1];
      EncodedFromFront(front);
      assert front[1..] == s[1..][..|s| - 2];
    }
  }

  lemma DecodeStep(t: Text, j: nat, c: Byte)
    requires Terminated(t) && j + |EncodeByte(c)| < |t| && t[j..j + |EncodeByte(c)|] == EncodeByte(c)
    ensures QsDecode(t, j) == [c] + QsDecode(t, j + |EncodeByte(c)|)
  {
    hide EncodeByte;
    hide ByteAt;
    hide Broken;
    ByteRoundTrip(t, j, c);
  }

  lemma SplitRest(t: Text, j: nat, a: Text, b: Text)
    requires j + |a| + |b| <= |t| && t[j..j + |a| + |b|] == a + b
    ensures t[j..j + |a|] == a && t[j + |a|..j + |a| + |b|] == b
  {
    assert t[j..j + |a|] == t[j..j + |a| + |b|][..|a|];
    assert t[j + |a|..j + |a| + |b|] == t[j..j + |a| + |b|][|a|..];
  }

  /** What ends a key or a value in a query. */
  predicate Delimits(c: Byte) { c in "=&#" || c as int == 0 }

  /** Wherever an encoded string stands before a delimiter or a NUL, decoding there gives the string back. */
  lemma {:induction false} DecodeAt(t: Text, j: nat, s: Text)
    requires Terminated(t) && j + |UrlEncode(s)| < |t| && t[j..j + |UrlEncode(s)|] == UrlEncode(s)
    requires Delimits(t[j + |UrlEncode(s)|])
    ensures QsDecode(t, j) == s
    decreases |s|
  {
    hide EncodeByte;
    if s != [] {
      hide UrlEncode;
      hide QsDecode;
      EncodedFromFront(s);
      var e := EncodeByte(s[0]);
      SplitRest(t, j, e, UrlEncode(s[1..]));
      DecodeStep(t, j, s[0]);
      DecodeAt(t, j + |e|, s[1..]);
    }
  }

  /** Any other character but a plus sign and an escape stands for itself. */
  lemma PlainDecodes(t: Text, j: nat)
    requires Terminated(t) && j < |t|
    ensures !Delimits(t[j]) && t[j] != '%' ==> j + 1 < |t| && QsDecode(t, j) == [if t[j] == '+' then ' ' else t[j]] + QsDecode(t, j + 1)
    ensures Delimits(t[j]) ==> QsDecode(t, j) == []
  {}

  /** A per cent sign with two digits behind it stands for their number, and without them ends the text. */
  lemma EscapeDecodes(t: Text, j: nat)
    requires Terminated(t) && j < |t| && t[j] == '%'
    ensures j + 2 < |t| && IsHexDigit(t[j + 1]) && IsHexDigit(t[j + 2]) ==>
              && j + 3 < |t| && ValueOf(0, t[j + 1..j + 3], 16) < 256
              && QsDecode(t, j) == [ValueOf(0, t[j + 1..j + 3], 16) as char] + QsDecode(t, j + 3)
    ensures !(j + 2 < |t| && IsHexDigit(t[j + 1]) && IsHexDigit(t[j + 2])) ==> QsDecode(t, j) == []
  {
    SharedDigits(t[j + 1]);
    if j + 2 < |t| {
      SharedDigits(t[j + 2]);
      if IsHexDigit(t[j + 1]) && IsHexDigit(t[j + 2]) { TwoDigits(t[j + 1..j + 3]); }
    }
  }

  lemma TwoDigits(ds: Text)
    requires |ds| == 2 && AreHexDigits(ds)
    ensures ValueOf(0, ds, 16) == DigitValue(ds[0]) * 16 + DigitValue(ds[1])
  {
    var last := ds[1..];
    assert last[1..] == [] && last[0] == ds[1];
    assert ValueOf(0, ds, 16) == ValueOf(DigitValue(ds[0]), last, 16);
    assert ValueOf(DigitValue(ds[0]), last, 16) == ValueOf(DigitValue(ds[0]) * 16 + DigitValue(ds[1]), [], 16);
  }

  /** Unreserved characters, of section 2.3 of RFC 3986, stand for themselves, and every other byte is a plus sign or escaped. */
  lemma EncodedByte(c: Byte)
    ensures var code := c as int;
            if 0x41 <= code <= 0x5A || 0x61 <= code <= 0x7A || 0x30 <= code <= 0x39 || c in "-._~" then EncodeByte(c) == [c]
            else if code == 0x20 then EncodeByte(c) == "+"
            else EncodeByte(c) == ['%', DigitFor(code / 16, true), DigitFor(code % 16, true)]
  {}
}
