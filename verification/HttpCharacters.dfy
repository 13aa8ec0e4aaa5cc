/** The character classes of the standards, written out, and the parser's classes against them. */
module HttpCharacters {
  import opened Common
  import opened HttpModel
  import opened HttpHeaders

  /** Appendix B.1 of RFC 5234. */
  predicate IsLetter(c: Byte) { 0x41 <= c as int <= 0x5A || 0x61 <= c as int <= 0x7A }

  predicate IsDecimal(c: Byte) { 0x30 <= c as int <= 0x39 }

  /** Visible ASCII: no control character, no blank, no DEL and no byte from 128 on. */
  predicate IsVisible(c: Byte) { 0x21 <= c as int <= 0x7E }

  /** Section 2.3 of RFC 3986. */
  predicate IsUnreserved(c: Byte) { IsLetter(c) || IsDecimal(c) || c in "-._~" }

  /** Section 2.2 of RFC 3986. */
  predicate IsSubDelim(c: Byte) { c in "!$&'()*+,;=" }

  /** Section 3.2.6 of RFC 7230. */
  predicate IsTchar(c: Byte) { c in "!#$%&'*+-.^_`|~" || IsDecimal(c) || IsLetter(c) }

  lemma LettersAre(c: Byte)
    ensures IsAlpha(c) <==> IsLetter(c)
    ensures IsNum(c) <==> IsDecimal(c)
  {}

  /** A path goes on with any visible character but those that start a query and a fragment. */
  lemma UrlCharacters(c: Byte)
    ensures IsUrlChar(c) <==> IsVisible(c) && c != '?' && c != '#'
    ensures IsUrlChar(c) <==> IsUnreserved(c) || IsSubDelim(c) || c in ":@/%" || c in "\"<>[\\]^`{|}"
  {}

  /** The characters of an authority besides its at-sign: those of section 3.2 of RFC 3986. */
  lemma ServerCharacters(c: Byte)
    ensures IsUserInfoChar(c) <==> IsUnreserved(c) || IsSubDelim(c) || c in ":%"
  {
    hide IsAlpha;
    hide IsNum;
    hide IsLetter;
    LettersAre(c);
  }

  /** Header names are tokens. */
  lemma TokenCharacters(c: Byte)
    ensures IsToken(c) <==> IsTchar(c)
  {}
}
