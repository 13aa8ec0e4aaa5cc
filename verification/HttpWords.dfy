/** Names, words and numbers in headers, whatever their case, and what a header means. */
module HttpWords {
  import opened Common
  import opened HttpModel
  import opened HttpHeaders
  import opened HttpValues
  import opened HttpFraming
  import opened HttpHeaderLines
  import opened Numerals

  // ----- letters without case -----

  /** The same character, or the capital letter to a small one. */
  predicate SameLetter(c: Byte, l: Byte) { c == l || (0x61 <= l as int <= 0x7A && c as int == l as int - 0x20) }

  predicate SameIgnoringCase(s: seq<Byte>, word: string) {
    |s| == |word| && forall i :: 0 <= i < |s| ==> word[i] as int < 256 && SameLetter(s[i], word[i])
  }

  /** A word the parser looks for: small letters and hyphens. */
  predicate IsPlainWord(word: string) { forall i :: 0 <= i < |word| ==> word[i] == '-' || 'a' <= word[i] <= 'z' }

  lemma TokenIsSmall(c: Byte, l: Byte)
    requires IsToken(c) && (l == '-' || 'a' <= l <= 'z')
    ensures Token(c) == l <==> SameLetter(c, l)
  {}

  /** The parser compares header names without regard to case. */
  lemma {:induction false} NamesIgnoreCase(ds: seq<Byte>, word: string)
    requires (forall i :: 0 <= i < |ds| ==> IsToken(ds[i])) && IsPlainWord(word)
    ensures Lowered(ds) == word <==> SameIgnoringCase(ds, word)
    decreases |ds|
  {
    hide IsToken;
    hide Token;
    hide SameLetter;
    if ds != [] && word != [] {
      TokenIsSmall(ds[0], word[0]);
      NamesIgnoreCase(ds[1..], word[1..]);
      SameFromFront(ds, word);
      assert Lowered(ds) == [Token(ds[0])] + Lowered(ds[1..]);
      assert word == [word[0]] + word[1..];
    }
  }

  lemma SameFromFront(s: seq<Byte>, word: string)
    requires s != [] && word != [] && IsPlainWord(word)
    ensures SameIgnoringCase(s, word) <==> SameLetter(s[0], word[0]) && SameIgnoringCase(s[1..], word[1..])
  {
    hide SameLetter;
    if SameLetter(s[0], word[0]) && SameIgnoringCase(s[1..], word[1..]) {
      forall i | 0 <= i < |s| ensures SameLetter(s[i], word[i]) {
        if i > 0 { assert s[i] == s[1..][i - 1] && word[i] == word[1..][i - 1]; }
      }
    }
    if SameIgnoringCase(s, word) {
      forall i | 0 <= i < |s| - 1 ensures SameLetter(s[1..][i], word[1..][i]) {
        assert s[1..][i] == s[i + 1] && word[1..][i] == word[i + 1];
      }
    }
  }

  lemma LowerIsSmall(c: Byte, l: Byte)
    requires c != '\r' && (l == '-' || 'a' <= l <= 'z')
    ensures Lower(c) == l <==> SameLetter(c, l)
  {}

  /** So it compares the words of values. */
  lemma {:induction false} ValuesIgnoreCase(v: seq<Byte>, word: string)
    requires NoBreakIn(v) && IsPlainWord(word)
    ensures Low(v) == word <==> SameIgnoringCase(v, word)
    decreases |v|
  {
    hide Lower;
    hide SameLetter;
    if v != [] && word != [] {
      var i, k := |v| - 1, |word| - 1;
      LowerIsSmall(v[i], word[k]);
      ValuesIgnoreCase(v[..i], word[..k]);
      assert word == word[..k] + [word[k]];
      assert SameIgnoringCase(v, word) <==> SameIgnoringCase(v[..i], word[..k]) && SameLetter(v[i], word[k]);
    }
  }

  lemma KnownWordsArePlain()
    ensures IsPlainWord("connection") && IsPlainWord("proxy-connection") && IsPlainWord("content-length")
    ensures IsPlainWord("transfer-encoding") && IsPlainWord("upgrade")
    ensures IsPlainWord("chunked") && IsPlainWord("keep-alive") && IsPlainWord("close")
  {}

  /** The headers the parser acts on, told by their names in any case. */
  lemma KnownNames(ds: seq<Byte>)
    requires IsName(ds)
    ensures Lowered(ds) == CONNECTION <==> SameIgnoringCase(ds, "connection")
    ensures Lowered(ds) == PROXY <==> SameIgnoringCase(ds, "proxy-connection")
    ensures Lowered(ds) == LENGTH <==> SameIgnoringCase(ds, "content-length")
    ensures Lowered(ds) == ENCODING <==> SameIgnoringCase(ds, "transfer-encoding")
    ensures Lowered(ds) == UPGRADE <==> SameIgnoringCase(ds, "upgrade")
  {
    KnownWordsArePlain();
    hide IsPlainWord;
    hide IsToken;
    hide SameIgnoringCase;
    NamesIgnoreCase(ds, "connection");
    NamesIgnoreCase(ds, "proxy-connection");
    NamesIgnoreCase(ds, "content-length");
    NamesIgnoreCase(ds, "transfer-encoding");
    NamesIgnoreCase(ds, "upgrade");
  }

  /** A value that is a word, in any case and with blanks behind it. */
  predicate Says(v: seq<Byte>, word: string) {
    |v| >= |word| && SameIgnoringCase(v[..|word|], word) && forall i :: |word| <= i < |v| ==> v[i] as int == 0x20
  }

  lemma KnownWord(v: seq<Byte>, word: string)
    requires NoBreakIn(v) && IsPlainWord(word)
    ensures IsWord(v, word) <==> Says(v, word)
  {
    hide SameIgnoringCase;
    if |v| >= |word| { ValuesIgnoreCase(v[..|word|], word); }
  }

  lemma KnownWords(v: seq<Byte>)
    requires NoBreakIn(v)
    ensures IsWord(v, CHUNKED) <==> Says(v, "chunked")
    ensures IsWord(v, KEEP_ALIVE) <==> Says(v, "keep-alive")
    ensures IsWord(v, CLOSE) <==> Says(v, "close")
  {
    KnownWordsArePlain();
    hide IsPlainWord;
    hide IsWord;
    hide Says;
    KnownWord(v, "chunked");
    KnownWord(v, "keep-alive");
    KnownWord(v, "close");
  }

  // ----- numbers -----

  /** The digits of a Content-Length, which may have blanks among them. */
  function WithoutBlanks(ds: seq<Byte>): seq<Byte> {
    if ds == [] then [] else (if ds[0] as int == 0x20 then [] else [ds[0]]) + WithoutBlanks(ds[1..])
  }

  lemma {:induction false} LengthIsNumber(v: nat, ds: seq<Byte>)
    requires IsLength(ds)
    ensures AreHexDigits(WithoutBlanks(ds)) && DecValue(v, ds) == ValueOf(v, WithoutBlanks(ds), 10)
    decreases |ds|
  {
    if ds != [] {
      var rest := WithoutBlanks(ds[1..]);
      var n := if ds[0] == ' ' then v else v * 10 + (ds[0] as int - 0x30);
      LengthIsNumber(n, ds[1..]);
      if ds[0] == ' ' {
        assert [] + rest == rest;
      } else {
        assert ([ds[0]] + rest)[1..] == rest;
      }
    }
  }

  /** The largest length that is taken, and the number that stands for none. */
  lemma LargestLength()
    ensures NO_LENGTH == 0xFFFF_FFFF_FFFF_FFFF
    ensures MAX_LENGTH == 18446744073709551609 && MAX_SIZE == 0xFFFF_FFFF_FFFF_FFEF
  {}

  lemma {:induction false} SizeIsNumber(v: nat, ds: seq<Byte>)
    requires AreHexDigits(ds)
    ensures forall i :: 0 <= i < |ds| ==> IsHex(ds[i])
    ensures HexValue(v, ds) == ValueOf(v, ds, 16)
    decreases |ds|
  {
    forall i | 0 <= i < |ds| ensures IsHex(ds[i]) { SharedDigits(ds[i]); }
    if ds != [] {
      assert HexDigit(ds[0]) == DigitValue(ds[0]);
      SizeIsNumber(v * 16 + DigitValue(ds[0]), ds[1..]);
    }
  }

  // ----- what a header means -----

  /**
   * Of all headers the parser acts on Content-Length, Transfer-Encoding: chunked, Upgrade with any value, and the words
   * keep-alive and close of Connection and Proxy-Connection, whatever the case of names and words.
   */
  lemma HeaderMeans(m: Meant, h: Header)
    requires GoodHeader(h)
    ensures var l := Learned(m, h);
            var connecting := SameIgnoringCase(h.name, "connection") || SameIgnoringCase(h.name, "proxy-connection");
            && (l.flags.upgrade <==> m.flags.upgrade || (SameIgnoringCase(h.name, "upgrade") && h.value != []))
            && (l.flags.chunked <==>
                  m.flags.chunked || (SameIgnoringCase(h.name, "transfer-encoding") && Says(h.value, "chunked") && h.folds == []))
            && (l.flags.keepAlive <==> m.flags.keepAlive || (connecting && Says(h.value, "keep-alive") && h.folds == []))
            && (l.flags.close <==> m.flags.close || (connecting && Says(h.value, "close") && h.folds == []))
            && l.flags.trailing == m.flags.trailing
    ensures SameIgnoringCase(h.name, "content-length") && h.value != [] ==>
              AreHexDigits(WithoutBlanks(h.value)) && Learned(m, h).length == ValueOf(0, WithoutBlanks(h.value), 10)
    ensures !SameIgnoringCase(h.name, "content-length") || h.value == [] ==> Learned(m, h).length == m.length
  {
    KnownNames(h.name);
    KnownWords(h.value);
    KnownWordsDiffer(h.value);
    NamesDiffer();
    if Lowered(h.name) == LENGTH && h.value != [] { LengthIsNumber(0, h.value); }
    hide SameIgnoringCase;
    hide Says;
    hide IsWord;
    hide Lowered;
    hide DecValue;
    hide ValueOf;
    hide WithoutBlanks;
    hide AreHexDigits;
    hide IsName;
    hide IsPad;
  }

  lemma NamesDiffer()
    ensures CONNECTION != LENGTH && CONNECTION != ENCODING && CONNECTION != UPGRADE && CONNECTION != PROXY
    ensures PROXY != LENGTH && PROXY != ENCODING && PROXY != UPGRADE && LENGTH != ENCODING && LENGTH != UPGRADE && ENCODING != UPGRADE
  {
    assert CONNECTION[0] == 'c' && PROXY[0] == 'p' && LENGTH[0] == 'c' && ENCODING[0] == 't' && UPGRADE[0] == 'u';
  }

  /** No value says two things, and an empty one says nothing. */
  lemma KnownWordsDiffer(v: seq<Byte>)
    ensures !(Says(v, "keep-alive") && Says(v, "close"))
    ensures v == [] ==> !Says(v, "chunked") && !Says(v, "keep-alive") && !Says(v, "close")
  {
    FirstSaid(v, "keep-alive");
    FirstSaid(v, "close");
    hide Says;
  }

  lemma FirstSaid(v: seq<Byte>, word: string)
    requires word != [] && word[0] as int < 256
    ensures Says(v, word) ==> v != [] && SameLetter(v[0], word[0])
  {
    if Says(v, word) { assert v[..|word|][0] == v[0]; }
  }

  // ----- whether the connection stays open -----

  /** Section 6.3 of RFC 7230: not after close; else from HTTP/1.1 on, and before it only with keep-alive. */
  predicate Persists(major: nat, minor: nat, f: Flags) {
    !f.close && (major > 1 || (major == 1 && minor >= 1) || f.keepAlive)
  }

  /**
   * The parser goes by this for the versions 1.1 to 1.999, 2.1 and so on. For those that end in .0 from 2.0 on it wants
   * keep-alive, and where it wants it, close does not count.
   */
  lemma PersistsAsStandard(p: Parser)
    ensures (ShouldKeepAlive(p) <==> Persists(p.major, p.minor, p.flags)) <==>
              || (p.major > 0 && p.minor > 0)
              || if p.major > 1 then p.flags.keepAlive != p.flags.close else !(p.flags.keepAlive && p.flags.close)
  {}
}
