module UrlCoding {
  import opened Common
  import opened UrlSpec

  method UrlEncodeText(str: Text) returns (r: Text)
    ensures r == UrlEncode(str)
  {
    hide EncodeByte;
    r := [];
    var i := 0;
    while i < |str|
      invariant 0 <= i <= |str| && r == UrlEncode(str[..i])
    {
      assert str[..i + 1][..i] == str[..i];
      var e := EncodeOne(str[i]);
      r := r + e;
      i := i + 1;
    }
    assert str[..i] == str;
  }

  method EncodeOne(c: Byte) returns (e: Text)
    ensures e == EncodeByte(c)
  {
    if Unreserved(c) {
      return [c];
    } else if c == ' ' {
      return ['+'];
    }
    return ['%', ToHex(c as int / 16), ToHex(c as int % 16)];
  }

  /** `qs_decode`: the result grows from the front of the buffer and never reaches the text still to be read. */
  method DecodeInPlace(qs: array<Byte>) returns (i: nat)
    requires Terminated(qs[..])
    modifies qs
    ensures i < qs.Length && qs[..i] == QsDecode(old(qs[..]), 0) && qs[i] == '\0'
  {
    hide Broken;
    hide ByteAt;
    hide QsDecode;
    ghost var t := qs[..];
    assert qs[..0] + QsDecode(t, 0) == QsDecode(t, 0);
    i := 0;
    var j := 0;
    while !Ends(qs[j])
      invariant 0 <= i <= j < qs.Length == |t| && qs[j..] == t[j..]
      invariant qs[..i] + QsDecode(t, j) == QsDecode(t, 0)
      decreases qs.Length - j
    {
      SameRest(qs[..], t, j);
      if Broken(qs[..], j) {
        qs[i] := '\0';
        return;
      }
      var (c, n) := ByteAt(qs[..], j);
      ghost var before := qs[..];
      qs[i] := c;
      assert qs[..i + 1] == before[..i] + [c];
      assert qs[j + n..] == before[j..][n..] == t[j..][n..];
      i, j := i + 1, j + n;
    }
    SameRest(qs[..], t, j);
    qs[i] := '\0';
  }

  /** What is read at `j` depends on the text from `j` on alone. */
  lemma SameRest(b: Text, t: Text, j: nat)
    requires Terminated(t) && |b| == |t| && j < |t| && b[j..] == t[j..]
    ensures Terminated(b) && b[j] == t[j]
    ensures Broken(b, j) <==> Broken(t, j)
    ensures !Ends(t[j]) && !Broken(t, j) ==> ByteAt(b, j) == ByteAt(t, j)
    ensures Ends(t[j]) || Broken(t, j) ==> QsDecode(t, j) == []
    ensures !Ends(t[j]) && !Broken(t, j) ==> QsDecode(t, j) == [ByteAt(t, j).0] + QsDecode(t, j + ByteAt(t, j).1)
  {
    assert forall k :: j <= k < |t| ==> b[k] == b[j..][k - j] && t[k] == t[j..][k - j];
  }

  /** Encoding a string and decoding the text in place gives the string and its length back. */
  method RoundTrip(s: Text) returns (qs: array<Byte>, n: nat)
    ensures n == |s| && n < qs.Length && qs[..n] == s && qs[n] == '\0'
  {
    hide QsDecode;
    hide UrlEncode;
    var text := UrlEncodeText(s);
    qs := new Byte[|text| + 1](_ => '\0');
    forall k | 0 <= k < |text| {
      qs[k] := text[k];
    }
    ghost var t := qs[..];
    assert t[0..|t| - 1] == text;
    DecodeAt(t, 0, s);
    n := DecodeInPlace(qs);
    assert |qs[..n]| == n;
  }
}
