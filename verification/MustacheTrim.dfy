/** Tags that stand alone on their line: the blanks before them and the rest of the line go. */
module MustacheTrim {
  import opened Common
  import opened MustacheModel
  import opened MustacheFlat

  /** Nothing but blanks from `i` up to `e`. */
  predicate BlanksIn(s: Text, i: nat, e: nat)
    requires e <= |s|
  {
    forall k :: i <= k < e ==> s[k] == ' '
  }

  /** Where the blanks at the end of a text start. */
  function LastWord(s: Text, e: nat): (r: nat)
    requires e <= |s|
    ensures r <= e && BlanksIn(s, r, e) && (r > 0 ==> s[r - 1] != ' ')
  {
    if e == 0 || s[e - 1] != ' ' then e else LastWord(s, e - 1)
  }

  /** Where the blanks at the front of a text end. */
  function FirstWord(s: Text, i: nat): (r: nat)
    requires i <= |s|
    ensures i <= r <= |s| && BlanksIn(s, i, r) && (r < |s| ==> s[r] != ' ')
    decreases |s| - i
  {
    if i == |s| || s[i] != ' ' then i else FirstWord(s, i + 1)
  }

  /** The text before a tag ends, from `i` on, in a blank line; the first text may be such a line from its start. */
  predicate BlankLineFrom(text: Text, first: bool, i: nat) {
    i <= |text| && BlanksIn(text, i, |text|) && if i == 0 then first else text[i - 1] == '\n'
  }

  /** The text before a tag without the blanks of the tag's line, if there is nothing else on it. */
  function BeforeTag(text: Text, first: bool): (r: Option<Text>)
    ensures r.Some? <==> exists i: nat :: BlankLineFrom(text, first, i)
    ensures r.Some? ==> r.value <= text && BlankLineFrom(text, first, |r.value|)
  {
    var i := LastWord(text, |text|);
    assert forall k: nat :: BlankLineFrom(text, first, k) ==> k == i;
    assert (if i == 0 then first else text[i - 1] == '\n') ==> BlankLineFrom(text, first, i);
    if i == 0 then (if first then Some([]) else None)
    else if text[i - 1] == '\n' then Some(text[..i]) else None
  }

  /** The text behind a tag without the rest of the tag's line, if it is blank; the template's end ends a line too. */
  function BehindTag(text: Text, final: bool): (r: Option<Text>)
    ensures r.Some? ==> |r.value| <= |text| && text[|text| - |r.value|..] == r.value
  {
    var v := text[FirstWord(text, 0)..];
    if v == [] then (if final then Some(text) else None)
    else if v[0] == '\n' then Some(v[1..])
    else if v[0] == '\r' && |v| > 1 && v[1] == '\n' then Some(v[2..])
    else None
  }

  /** Tags with their texts, and the text behind the last one. */
  datatype Cuts = Cuts(pieces: seq<Piece>, last: Text)

  function TextAt(c: Cuts, i: nat): Text
    requires i <= |c.pieces|
  {
    if i < |c.pieces| then c.pieces[i].text else c.last
  }

  function WithText(c: Cuts, i: nat, text: Text): Cuts
    requires i <= |c.pieces|
  {
    if i < |c.pieces| then c.(pieces := c.pieces[i := c.pieces[i].(text := text)]) else c.(last := text)
  }

  /** A partial remembers the blanks before it, by which all its lines will be indented. */
  function Indenting(kind: Kind, n: nat): Kind { if kind.Partial? then Partial(n) else kind }

  /** One tag; tags that print a value are left alone. */
  function TrimTag(c: Cuts, i: nat): (r: Cuts)
    requires i < |c.pieces|
    ensures |r.pieces| == |c.pieces|
  {
    var p := c.pieces[i];
    if p.kind == Tag || p.kind == UnescapeTag then c
    else
      match (BeforeTag(p.text, i == 0), BehindTag(TextAt(c, i + 1), i + 1 == |c.pieces|))
      case (Some(before), Some(behind)) =>
        var trimmed := Piece(before, Indenting(p.kind, |p.text| - |before|), p.name);
        WithText(c.(pieces := c.pieces[i := trimmed]), i + 1, behind)
      case _ => c
  }

  /** The tags before `n`, from the last one on. */
  function TrimTags(c: Cuts, n: nat): (r: Cuts)
    requires n <= |c.pieces|
    ensures |r.pieces| == |c.pieces|
    decreases n
  {
    if n == 0 then c else TrimTags(TrimTag(c, n - 1), n - 1)
  }

  /** The same tags, up to texts and the indentation of partials. */
  ghost predicate SameTags(p: seq<Piece>, q: seq<Piece>) {
    |p| == |q| && forall j :: 0 <= j < |p| ==> p[j].name == q[j].name && Indenting(p[j].kind, 0) == Indenting(q[j].kind, 0)
  }

  lemma {:induction false} TrimKeepsTags(c: Cuts, n: nat)
    requires n <= |c.pieces|
    ensures SameTags(c.pieces, TrimTags(c, n).pieces)
    decreases n
  {
    hide BeforeTag;
    hide BehindTag;
    if n > 0 {
      assert SameTags(c.pieces, TrimTag(c, n - 1).pieces);
      TrimKeepsTags(TrimTag(c, n - 1), n - 1);
    }
  }

  function Trim(c: Cuts): Cuts { TrimTags(c, |c.pieces|) }

  /** The last loop of `parse`. */
  method TrimLines(pieces: seq<Piece>, last: Text) returns (r: Cuts)
    ensures r == Trim(Cuts(pieces, last))
  {
    hide BeforeTag;
    hide BehindTag;
    r := Cuts(pieces, last);
    var i := |pieces|;
    while i > 0
      invariant 0 <= i <= |pieces| == |r.pieces| && TrimTags(r, i) == Trim(Cuts(pieces, last))
    {
      i := i - 1;
      ghost var c := r;
      var p := r.pieces[i];
      if p.kind != Tag && p.kind != UnescapeTag {
        var before := BeforeTag(p.text, i == 0);
        if before.Some? {
          var behind := BehindTag(TextAt(r, i + 1), i + 1 == |r.pieces|);
          if behind.Some? {
            var trimmed := Piece(before.value, Indenting(p.kind, |p.text| - |before.value|), p.name);
            r := WithText(r.(pieces := r.pieces[i := trimmed]), i + 1, behind.value);
          }
        }
      }
      assert r == TrimTag(c, i);
    }
  }
}
