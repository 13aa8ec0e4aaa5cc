/** Cutting a template's text into texts and tags. */
module MustacheScan {
  import opened Common
  import opened MustacheModel
  import opened MustacheFlat
  import opened MustacheParse

  /** The character at `i`; behind the last one there is a NUL. */
  function CharAt(body: Text, i: nat): Byte { if i < |body| then body[i] else '\0' }

  /** `w` stands in the body at `i`. */
  predicate Stands(body: Text, i: nat, w: Text) { i + |w| <= |body| && body[i..i + |w|] == w }

  /** Where `w` stands first from `i` on. */
  function FindText(body: Text, w: Text, i: nat): (r: Option<nat>)
    ensures r.Some? ==> i <= r.value && Stands(body, r.value, w) && forall k :: i <= k < r.value ==> !Stands(body, k, w)
    ensures r.None? ==> forall k :: i <= k ==> !Stands(body, k, w)
    decreases |body| - i
  {
    if i > |body| then None else if Stands(body, i, w) then Some(i) else FindText(body, w, i + 1)
  }

  /** The delimiters in use. */
  datatype Delims = Delims(open: Text, close: Text)

  const STANDARD := Delims(['{', '{'], ['}', '}'])

  predicate Usable(d: Delims) { d.open != [] && d.close != [] }

  function SkipBlanks(body: Text, i: nat): (r: nat)
    ensures i <= r && CharAt(body, r) != ' ' && forall k :: i <= k < r ==> CharAt(body, k) == ' '
    ensures i <= |body| ==> r <= |body|
    decreases |body| - i
  {
    if CharAt(body, i) == ' ' then SkipBlanks(body, i + 1) else i
  }

  function TrimBlanks(body: Text, e: nat): (r: nat)
    ensures r <= e && (r > 0 ==> CharAt(body, r - 1) != ' ') && forall k :: r <= k < e ==> CharAt(body, k) == ' '
  {
    if e > 0 && CharAt(body, e - 1) == ' ' then TrimBlanks(body, e - 1) else e
  }

  /** `substr(s, e - s)`: a negative length reads to the end of the body. */
  function Cut(body: Text, s: nat, e: nat): Text
    requires s <= |body| && e <= |body|
  {
    if s <= e then body[s..e] else body[s..]
  }

  /** The name of a tag whose blanks at both ends are skipped. */
  function NameOf(body: Text, i: nat, e: nat): Text
    requires i <= |body| && e <= |body|
  {
    Cut(body, SkipBlanks(body, i), TrimBlanks(body, e))
  }

  function FindBlank(body: Text, i: nat, e: nat): (r: Option<nat>)
    ensures r.Some? ==> i <= r.value < e && CharAt(body, r.value) == ' ' && forall k :: i <= k < r.value ==> CharAt(body, k) != ' '
    ensures r.None? ==> forall k :: i <= k < e ==> CharAt(body, k) != ' '
    decreases e - i
  {
    if i >= e then None else if CharAt(body, i) == ' ' then Some(i) else FindBlank(body, i + 1, e)
  }

  /** The delimiters that a tag between an equals sign at `i` and a closing delimiter at `e` changes to. */
  function ChangeAt(body: Text, i: nat, e: nat): (r: Option<Delims>)
    requires i < e <= |body|
    ensures r.Some? ==> Usable(r.value)
  {
    if body[e - 1] != '=' then None
    else
      var from, to := SkipBlanks(body, i + 1), TrimBlanks(body, e - 1);
      match FindBlank(body, from, to)
      case None => None
      case Some(k) =>
        var d := Delims(body[from..k], Cut(body, SkipBlanks(body, k), to));
        if !Usable(d) || ' ' in d.close then None else Some(d)
  }

  /** A tag, where the text behind it starts, and the delimiters from there on; or an exception. */
  datatype Cutting = Found(kind: Kind, name: Text, next: nat, delims: Delims) | Throws

  /** The tag between the opening delimiter, which ends at `i`, and the closing one at `e`. */
  function CutTag(body: Text, d: Delims, i: nat, e: nat): (r: Cutting)
    requires i < e && Stands(body, e, d.close) && Usable(d)
    ensures r.Found? ==> e < r.next <= |body| && Usable(r.delims)
  {
    var next := e + |d.close|;
    match body[i]
    case '#' => Found(OpenBlock, NameOf(body, i + 1, e), next, d)
    case '/' => Found(CloseBlock, NameOf(body, i + 1, e), next, d)
    case '^' => Found(ElseBlock, NameOf(body, i + 1, e), next, d)
    case '!' => Found(Ignore, Cut(body, i + 1, e), next, d)
    case '>' => Found(Partial(0), NameOf(body, i + 1, e), next, d)
    case '{' =>
      if d != STANDARD || CharAt(body, e + 2) != '}' then Throws
      else Found(UnescapeTag, NameOf(body, i + 1, e), next + 1, d)
    case '&' => Found(UnescapeTag, NameOf(body, i + 1, e), next, d)
    case '=' =>
      (match ChangeAt(body, i, e)
       case None => Throws
       case Some(d') => Found(Ignore, Cut(body, i + 1, e), next, d'))
    case _ => Found(Tag, NameOf(body, i, e), next, d)
  }

  datatype Scanned = Refused | Scanned(pieces: seq<Piece>, last: Text)

  /** The tags from `current` on, each with the text before it. */
  function Scan(body: Text, d: Delims, current: nat): Scanned
    requires current <= |body| && Usable(d)
    decreases |body| - current
  {
    match FindText(body, d.open, current)
    case None => Scanned([], body[current..])
    case Some(start) =>
      var i := start + |d.open|;
      match FindText(body, d.close, i)
      case None => Refused
      case Some(e) =>
        if e == i then Refused
        else
          match CutTag(body, d, i, e)
          case Throws => Refused
          case Found(kind, name, next, d') =>
            Prepend([Piece(body[current..start], kind, name)], Scan(body, d', next))
  }

  /** The scan before what is already cut. */
  function Prepend(done: seq<Piece>, rest: Scanned): Scanned {
    if rest.Scanned? then Scanned(done + rest.pieces, rest.last) else rest
  }

  lemma PrependStep(done: seq<Piece>, piece: Piece, rest: Scanned)
    ensures Prepend(done, Prepend([piece], rest)) == Prepend(done + [piece], rest)
  {
    assert rest.Scanned? ==> done + ([piece] + rest.pieces) == done + [piece] + rest.pieces;
  }

  lemma PrependNone(done: seq<Piece>, last: Text)
    ensures Prepend(done, Scanned([], last)) == Scanned(done, last) && Prepend(done, Refused) == Refused
  {}

  lemma PrependNothing(rest: Scanned)
    ensures Prepend([], rest) == rest
  {}

  /** The first loop of `parse`, up to its switch over the kinds of tags. */
  method ScanBody(body: Text) returns (r: Scanned)
    ensures r == Scan(body, STANDARD, 0)
  {
    hide CutTag;
    hide Stands;
    hide FindText;
    hide Prepend;
    PrependNothing(Scan(body, STANDARD, 0));
    var current: nat, pieces: seq<Piece> := 0, [];
    var delims := STANDARD;
    while true
      invariant current <= |body| && Usable(delims)
      invariant Prepend(pieces, Scan(body, delims, current)) == Scan(body, STANDARD, 0)
      decreases |body| - current
    {
      PrependNone(pieces, body[current..]);
      var start := FindText(body, delims.open, current);
      if start.None? {
        return Scanned(pieces, body[current..]);
      }
      StandsEnds(body, start.value, delims.open);
      var idx := start.value + |delims.open|;
      var end := FindText(body, delims.close, idx);
      if end.None? || end.value == idx {
        return Refused;
      }
      var tag := CutTag(body, delims, idx, end.value);
      if tag.Throws? {
        return Refused;
      }
      var piece := Piece(body[current..start.value], tag.kind, tag.name);
      PrependStep(pieces, piece, Scan(body, tag.delims, tag.next));
      pieces := pieces + [piece];
      current, delims := tag.next, tag.delims;
    }
  }

  lemma StandsEnds(body: Text, i: nat, w: Text)
    requires Stands(body, i, w)
    ensures i + |w| <= |body|
  {}

  // ----- written templates -----

  /**
   * How a tag is written: with blanks around its name, and an ampersand or three braces where it is not escaped; or a
   * change of the delimiters.
   */
  datatype Mark = Usual(ampersand: bool, left: nat, right: nat) | Change(to: Delims, left: nat, gap: nat, right: nat)

  function ChangeText(m: Mark): Text
    requires m.Change?
  {
    Blanks(m.left) + m.to.open + (Blanks(m.gap + 1) + m.to.close + Blanks(m.right)) + ['=']
  }

  function Sigil(kind: Kind, m: Mark): Text {
    if m.Change? then ['=']
    else
      match kind
      case OpenBlock => ['#'] case CloseBlock => ['/'] case ElseBlock => ['^'] case Ignore => ['!'] case Partial(_) => ['>']
      case UnescapeTag => if m.ampersand then ['&'] else ['{']
      case Tag => []
  }

  function Padded(p: Piece, m: Mark): Text {
    if p.kind == Ignore || m.Change? then p.name else Blanks(m.left) + p.name + Blanks(m.right)
  }

  /** What stands between the delimiters. */
  function Inside(p: Piece, m: Mark): Text { Sigil(p.kind, m) + Padded(p, m) }

  predicate Triple(p: Piece, m: Mark) { p.kind == UnescapeTag && m.Usual? && !m.ampersand }

  function Closing(p: Piece, m: Mark, d: Delims): Text { if Triple(p, m) then ['}', '}', '}'] else d.close }

  function TagText(p: Piece, m: Mark, d: Delims): Text { d.open + (Inside(p, m) + Closing(p, m, d)) }

  /** Behind `s`, `w` stands for the first time: none stands earlier, not even across the border. */
  predicate FirstBehind(s: Text, w: Text) { forall k :: 0 <= k < |s| ==> !Stands(s + w, k, w) }

  predicate IsSigil(c: Byte) {
    c == '#' || c == '/' || c == '^' || c == '!' || c == '>' || c == '{' || c == '&' || c == '='
  }

  /** A name that can be told from the blanks and the sign before it, and delimiters that can be told apart. */
  predicate CleanName(p: Piece, m: Mark, d: Delims) {
    match m
    case Usual(ampersand, left, right) =>
      && (p.kind != Ignore ==> p.name != [] && p.name[0] != ' ' && p.name[|p.name| - 1] != ' ')
      && (p.kind == Tag ==> left > 0 || !IsSigil(p.name[0])) && (p.kind.Partial? ==> p.kind.width == 0)
      && (Triple(p, m) ==> d == STANDARD)
    case Change(to, _, _, _) =>
      p.kind == Ignore && p.name == ChangeText(m) && Usable(to) && ' ' !in to.open && ' ' !in to.close
  }

  datatype Written = Written(piece: Piece, mark: Mark)

  /** A tag and the text before it that can be told from the delimiters in use. */
  predicate Clean(w: Written, d: Delims) {
    && Usable(d) && CleanName(w.piece, w.mark, d) && Inside(w.piece, w.mark) != []
    && FirstBehind(w.piece.text, d.open) && FirstBehind(Inside(w.piece, w.mark), d.close)
  }

  function After(w: Written, d: Delims): Delims { if w.mark.Change? then w.mark.to else d }

  /** All tags are clean in the delimiters in use, and the text behind them holds no opening one. */
  predicate AllClean(ws: seq<Written>, last: Text, d: Delims)
    decreases |ws|
  {
    if ws == [] then Usable(d) && forall k :: 0 <= k < |last| ==> !Stands(last, k, d.open)
    else Clean(ws[0], d) && AllClean(ws[1..], last, After(ws[0], d))
  }

  function AllText(ws: seq<Written>, last: Text, d: Delims): Text
    decreases |ws|
  {
    if ws == [] then last
    else ws[0].piece.text + TagText(ws[0].piece, ws[0].mark, d) + AllText(ws[1..], last, After(ws[0], d))
  }

  function PiecesOf(ws: seq<Written>): seq<Piece> {
    if ws == [] then [] else [ws[0].piece] + PiecesOf(ws[1..])
  }

  lemma StandsSplit(body: Text, i: nat, a: Text, b: Text)
    requires Stands(body, i, a + b)
    ensures Stands(body, i, a) && Stands(body, i + |a|, b)
  {
    var w := body[i..i + |a| + |b|];
    assert body[i..i + |a|] == w[..|a|] && body[i + |a|..i + |a| + |b|] == w[|a|..];
  }

  lemma StandsHas(body: Text, i: nat, w: Text, k: nat)
    requires Stands(body, i, w) && k < |w|
    ensures body[i + k] == w[k]
  {
    assert body[i..i + |w|][k] == w[k];
  }

  lemma StandsIs(body: Text, i: nat, w: Text)
    requires Stands(body, i, w)
    ensures i + |w| <= |body| && body[i..i + |w|] == w
  {}

  lemma StandsWithin(body: Text, i: nat, s: Text, k: nat, w: Text)
    requires Stands(body, i, s) && i <= k && k + |w| <= i + |s|
    ensures Stands(body, k, w) <==> Stands(s, k - i, w)
  {
    var x, y := s[k - i..k - i + |w|], body[k..k + |w|];
    forall j | 0 <= j < |w| ensures x[j] == y[j] { StandsHas(body, i, s, k - i + j); }
    assert x == y;
  }

  /** The first place of a delimiter behind a text that can be told from it. */
  lemma FoundBehind(body: Text, i: nat, s: Text, w: Text)
    requires Stands(body, i, s + w) && FirstBehind(s, w)
    ensures FindText(body, w, i) == Some(i + |s|)
  {
    StandsSplit(body, i, s, w);
    forall k | i <= k < i + |s| ensures !Stands(body, k, w) {
      assert !Stands(s + w, k - i, w);
      StandsWithin(body, i, s + w, k, w);
    }
  }

  lemma {:induction false} SkipIs(body: Text, i: nat, s: nat)
    requires i <= s && CharAt(body, s) != ' ' && forall k :: i <= k < s ==> CharAt(body, k) == ' '
    ensures SkipBlanks(body, i) == s
    decreases s - i
  {
    if i < s { SkipIs(body, i + 1, s); }
  }

  lemma {:induction false} TrimIs(body: Text, e: nat, end: nat)
    requires 0 < e <= end && CharAt(body, e - 1) != ' ' && forall k :: e <= k < end ==> CharAt(body, k) == ' '
    ensures TrimBlanks(body, end) == e
  {
    if e < end { TrimIs(body, e, end - 1); }
  }

  predicate BlanksAt(body: Text, i: nat, e: nat) { forall k :: i <= k < e ==> CharAt(body, k) == ' ' }

  predicate WordAt(body: Text, i: nat, w: Text) {
    i + |w| <= |body| && body[i..i + |w|] == w && forall k :: i <= k < i + |w| ==> CharAt(body, k) != ' '
  }

  lemma BlanksStand(body: Text, i: nat, n: nat)
    requires Stands(body, i, Blanks(n))
    ensures |Blanks(n)| == n && BlanksAt(body, i, i + n)
  {
    forall k | i <= k < i + n ensures CharAt(body, k) == ' ' { StandsHas(body, i, Blanks(n), k - i); }
  }

  lemma NameBetween(body: Text, i: nat, left: nat, name: Text, right: nat)
    requires Stands(body, i, Blanks(left) + name + Blanks(right)) && name != [] && name[0] != ' ' && name[|name| - 1] != ' '
    ensures i + left + |name| + right <= |body|
    ensures NameOf(body, i, i + left + |name| + right) == name && body[i] == if left > 0 then ' ' else name[0]
  {
    var s, e := i + left, i + left + |name|;
    StandsSplit(body, i, Blanks(left) + name, Blanks(right));
    StandsSplit(body, i, Blanks(left), name);
    BlanksStand(body, i, left);
    BlanksStand(body, e, right);
    StandsHas(body, s, name, 0);
    StandsHas(body, s, name, |name| - 1);
    SkipIs(body, i, s);
    TrimIs(body, e, e + right);
  }

  // ----- a change of delimiters -----

  lemma {:induction false} BlankIs(body: Text, i: nat, k: nat, e: nat)
    requires i <= k < e && CharAt(body, k) == ' ' && forall j :: i <= j < k ==> CharAt(body, j) != ' '
    ensures FindBlank(body, i, e) == Some(k)
    decreases k - i
  {
    if i < k { BlankIs(body, i + 1, k, e); }
  }

  lemma WordStands(body: Text, i: nat, w: Text)
    requires Stands(body, i, w) && ' ' !in w && w != []
    ensures WordAt(body, i, w)
  {
    forall k | i <= k < i + |w| ensures CharAt(body, k) != ' ' { StandsHas(body, i, w, k - i); }
  }

  /** The new delimiters are read from the two words between the blanks. */
  lemma ChangeRead(body: Text, i: nat, from: nat, k: nat, c: nat, to: nat, e: nat, d: Delims)
    requires i < from && Usable(d) && ' ' !in d.close && k == from + |d.open| && k < c && to == c + |d.close| && to < e <= |body|
    requires BlanksAt(body, i + 1, from) && WordAt(body, from, d.open) && BlanksAt(body, k, c) && WordAt(body, c, d.close)
    requires BlanksAt(body, to, e - 1) && body[e - 1] == '='
    ensures ChangeAt(body, i, e) == Some(d)
  {
    hide SkipBlanks;
    hide TrimBlanks;
    hide FindBlank;
    BetweenBlanks(body, i + 1, from, d.open);
    BetweenBlanks(body, k, c, d.close);
    BackToWord(body, c, d.close, e - 1);
    BlankIs(body, from, k, to);
  }

  lemma BetweenBlanks(body: Text, i: nat, s: nat, w: Text)
    requires i <= s && BlanksAt(body, i, s) && WordAt(body, s, w) && w != []
    ensures SkipBlanks(body, i) == s
  {
    hide SkipBlanks;
    SkipIs(body, i, s);
  }

  lemma BackToWord(body: Text, c: nat, w: Text, e: nat)
    requires WordAt(body, c, w) && w != [] && BlanksAt(body, c + |w|, e) && c + |w| <= e
    ensures TrimBlanks(body, e) == c + |w|
  {
    hide TrimBlanks;
    TrimIs(body, c + |w|, e);
  }

  /** A change of delimiters is read as it was written. */
  lemma ChangeWritten(body: Text, i: nat, m: Mark)
    requires m.Change? && Usable(m.to) && ' ' !in m.to.open && ' ' !in m.to.close
    requires Stands(body, i + 1, ChangeText(m))
    ensures var e := i + 1 + |ChangeText(m)|; e <= |body| && ChangeAt(body, i, e) == Some(m.to)
  {
    hide Stands;
    hide ChangeAt;
    hide CharAt;
    hide Blanks;
    var open, close, left := m.to.open, m.to.close, Blanks(m.left);
    var gap, right := Blanks(m.gap + 1), Blanks(m.right);
    var from := i + 1 + |left|;
    var k := from + |open|;
    var c := k + |gap|;
    var to := c + |close|;
    var e := i + 1 + |ChangeText(m)|;
    StandsSplit(body, i + 1, left + open + (gap + close + right), ['=']);
    StandsEnds(body, e - 1, ['=']);
    StandsHas(body, e - 1, ['='], 0);
    StandsSplit(body, i + 1, left + open, gap + close + right);
    StandsSplit(body, i + 1, left, open);
    StandsSplit(body, k, gap + close, right);
    StandsSplit(body, k, gap, close);
    BlanksStand(body, i + 1, m.left);
    BlanksStand(body, k, m.gap + 1);
    BlanksStand(body, to, m.right);
    WordStands(body, from, open);
    WordStands(body, c, close);
    ChangeRead(body, i, from, k, c, to, e, m.to);
  }

  // ----- tags -----

  lemma CutIs(body: Text, i: nat, w: Text)
    requires Stands(body, i, w)
    ensures i + |w| <= |body| && Cut(body, i, i + |w|) == w
  {}

  /** The tag that a first character tells. */
  lemma CutBySigil(body: Text, d: Delims, i: nat, e: nat, kind: Kind, m: Mark)
    requires i < e && Stands(body, e, d.close) && Usable(d) && m.Usual? && kind != Tag && [body[i]] == Sigil(kind, m)
    requires kind.Partial? ==> kind.width == 0
    requires kind == UnescapeTag && !m.ampersand ==> d == STANDARD && CharAt(body, e + 2) == '}'
    ensures CutTag(body, d, i, e) ==
            Found(kind, if kind == Ignore then Cut(body, i + 1, e) else NameOf(body, i + 1, e),
                  e + if kind == UnescapeTag && !m.ampersand then 3 else |d.close|, d)
  {
    hide NameOf;
    hide Cut;
    assert body[i] == Sigil(kind, m)[0];
  }

  lemma CutPlain(body: Text, d: Delims, i: nat, e: nat)
    requires i < e && Stands(body, e, d.close) && Usable(d) && !IsSigil(body[i])
    ensures CutTag(body, d, i, e) == Found(Tag, NameOf(body, i, e), e + |d.close|, d)
  {
    hide NameOf;
    hide Cut;
  }

  lemma CutChange(body: Text, d: Delims, i: nat, e: nat, to: Delims)
    requires i < e && Stands(body, e, d.close) && Usable(d) && body[i] == '=' && ChangeAt(body, i, e) == Some(to)
    ensures CutTag(body, d, i, e) == Found(Ignore, Cut(body, i + 1, e), e + |d.close|, to)
  {
    hide NameOf;
    hide Cut;
    hide ChangeAt;
  }

  lemma ClosingStands(body: Text, e: nat, p: Piece, m: Mark, d: Delims)
    requires Stands(body, e, Closing(p, m, d)) && (Triple(p, m) ==> d == STANDARD)
    ensures Stands(body, e, d.close) && (Triple(p, m) ==> CharAt(body, e + 2) == '}')
  {
    if Triple(p, m) {
      assert Closing(p, m, d) == ['}', '}'] + ['}'];
      StandsSplit(body, e, ['}', '}'], ['}']);
      StandsHas(body, e, Closing(p, m, d), 2);
    }
  }

  lemma ChangeCut(body: Text, d: Delims, i: nat, e: nat, p: Piece, m: Mark)
    requires Usable(d) && m.Change? && CleanName(p, m, d) && Stands(body, i, Inside(p, m)) && e == i + |Inside(p, m)|
    requires Stands(body, e, d.close)
    ensures i < e && CutTag(body, d, i, e) == Found(Ignore, p.name, e + |d.close|, m.to)
  {
    hide Stands;
    hide ChangeText;
    hide CutTag;
    hide ChangeAt;
    StandsSplit(body, i, ['='], p.name);
    StandsEnds(body, i, Inside(p, m));
    StandsHas(body, i, ['='], 0);
    ChangeWritten(body, i, m);
    CutChange(body, d, i, e, m.to);
    CutIs(body, i + 1, p.name);
  }

  lemma UsualCut(body: Text, d: Delims, i: nat, e: nat, p: Piece, m: Mark)
    requires Usable(d) && m.Usual? && CleanName(p, m, d) && p.kind != Tag && Stands(body, i, Inside(p, m)) && e == i + |Inside(p, m)|
    requires Stands(body, e, d.close) && (Triple(p, m) ==> CharAt(body, e + 2) == '}')
    ensures i < e && CutTag(body, d, i, e) == Found(p.kind, p.name, e + |Closing(p, m, d)|, d)
  {
    hide Stands;
    hide NameOf;
    hide CutTag;
    hide Padded;
    var sigil := Sigil(p.kind, m);
    StandsSplit(body, i, sigil, Padded(p, m));
    StandsEnds(body, i, Inside(p, m));
    StandsHas(body, i, sigil, 0);
    CutBySigil(body, d, i, e, p.kind, m);
    PaddedRead(body, i + 1, e, p, m, d);
  }

  lemma PaddedRead(body: Text, i: nat, e: nat, p: Piece, m: Mark, d: Delims)
    requires m.Usual? && CleanName(p, m, d) && Stands(body, i, Padded(p, m)) && e == i + |Padded(p, m)|
    ensures i <= e <= |body| && p.name == if p.kind == Ignore then Cut(body, i, e) else NameOf(body, i, e)
  {
    hide Stands;
    hide NameOf;
    if p.kind == Ignore { CutIs(body, i, p.name); } else { NameBetween(body, i, m.left, p.name, m.right); }
  }

  /** The tag is cut as it was written. */
  lemma CutWritten(body: Text, d: Delims, i: nat, p: Piece, m: Mark)
    requires Usable(d) && CleanName(p, m, d) && Inside(p, m) != [] && Stands(body, i, Inside(p, m) + Closing(p, m, d))
    ensures var e := i + |Inside(p, m)|;
            i < e && Stands(body, e, d.close)
            && CutTag(body, d, i, e) == Found(p.kind, p.name, e + |Closing(p, m, d)|, After(Written(p, m), d))
  {
    hide Stands;
    hide CutTag;
    hide NameOf;
    var e := i + |Inside(p, m)|;
    StandsSplit(body, i, Inside(p, m), Closing(p, m, d));
    ClosingStands(body, e, p, m, d);
    if m.Change? {
      ChangeCut(body, d, i, e, p, m);
    } else if p.kind == Tag {
      assert Inside(p, m) == Padded(p, m);
      NameBetween(body, i, m.left, p.name, m.right);
      CutPlain(body, d, i, e);
    } else {
      UsualCut(body, d, i, e, p, m);
    }
  }

  lemma ScanTag(body: Text, d: Delims, current: nat, start: nat, e: nat)
    requires Usable(d) && current <= start <= |body| && FindText(body, d.open, current) == Some(start)
    requires var i := start + |d.open|; i < e && FindText(body, d.close, i) == Some(e) && CutTag(body, d, i, e).Found?
    ensures var tag := CutTag(body, d, start + |d.open|, e);
            Scan(body, d, current) == Prepend([Piece(body[current..start], tag.kind, tag.name)], Scan(body, tag.delims, tag.next))
  {
    hide CutTag;
    hide FindText;
    hide Prepend;
  }

  lemma ClosingFound(body: Text, d: Delims, i: nat, p: Piece, m: Mark)
    requires FirstBehind(Inside(p, m), d.close) && Stands(body, i, Inside(p, m) + Closing(p, m, d)) && (Triple(p, m) ==> d == STANDARD)
    ensures FindText(body, d.close, i) == Some(i + |Inside(p, m)|)
  {
    hide Stands;
    hide Inside;
    hide FirstBehind;
    if Triple(p, m) {
      assert Inside(p, m) + Closing(p, m, d) == (Inside(p, m) + d.close) + ['}'];
      StandsSplit(body, i, Inside(p, m) + d.close, ['}']);
    }
    FoundBehind(body, i, Inside(p, m), d.close);
  }

  /** One written tag with the text before it. */
  lemma ScanStep(body: Text, d: Delims, current: nat, w: Written)
    requires current <= |body| && Clean(w, d) && Stands(body, current, w.piece.text + TagText(w.piece, w.mark, d))
    ensures var next := current + |w.piece.text + TagText(w.piece, w.mark, d)|;
            next <= |body| && Usable(After(w, d)) && Scan(body, d, current) == Prepend([w.piece], Scan(body, After(w, d), next))
  {
    hide Stands;
    hide CutTag;
    hide Inside;
    hide Closing;
    hide Scan;
    hide FirstBehind;
    var p, m := w.piece, w.mark;
    var start := current + |p.text|;
    var i := start + |d.open|;
    StandsSplit(body, current, p.text, TagText(p, m, d));
    assert p.text + TagText(p, m, d) == (p.text + d.open) + (Inside(p, m) + Closing(p, m, d));
    StandsSplit(body, current, p.text + d.open, Inside(p, m) + Closing(p, m, d));
    FoundBehind(body, current, p.text, d.open);
    StandsIs(body, current, p.text);
    ClosingFound(body, d, i, p, m);
    CutWritten(body, d, i, p, m);
    ScanTag(body, d, current, start, i + |Inside(p, m)|);
    StandsEnds(body, i, Inside(p, m) + Closing(p, m, d));
  }

  lemma SuffixSplits(body: Text, i: nat, a: Text, b: Text)
    requires i <= |body| && body[i..] == a + b
    ensures Stands(body, i, a) && i + |a| <= |body| && body[i + |a|..] == b
  {
    assert body[i..i + |a|] == body[i..][..|a|] && body[i + |a|..] == body[i..][|a|..];
  }

  /** Scanning a written template gives its tags and texts back, whatever delimiters it changes to. */
  lemma {:induction false} ScanWritten(body: Text, d: Delims, current: nat, ws: seq<Written>, last: Text)
    requires AllClean(ws, last, d) && current <= |body| && body[current..] == AllText(ws, last, d)
    ensures Usable(d) && Scan(body, d, current) == Scanned(PiecesOf(ws), last)
    decreases |ws|
  {
    hide Scan;
    hide TagText;
    hide Stands;
    hide FirstBehind;
    hide CleanName;
    if ws == [] {
      NoneLeft(body, d, current, last);
    } else {
      var w := ws[0];
      var one := w.piece.text + TagText(w.piece, w.mark, d);
      SuffixSplits(body, current, one, AllText(ws[1..], last, After(w, d)));
      ScanStep(body, d, current, w);
      ScanWritten(body, After(w, d), current + |one|, ws[1..], last);
    }
  }

  lemma NoneLeft(body: Text, d: Delims, current: nat, last: Text)
    requires current <= |body| && body[current..] == last && AllClean([], last, d)
    ensures Scan(body, d, current) == Scanned([], last)
  {
    assert body[current..current + |last|] == body[current..];
    forall k | current <= k ensures !Stands(body, k, d.open) {
      if k + |d.open| <= |body| { StandsWithin(body, current, last, k, d.open); }
    }
  }

  /** A template written out, scanned and nested is the template. */
  lemma TemplateRoundTrip(t: Template, ws: seq<Written>)
    requires AllClean(ws, End(t), STANDARD) && PiecesOf(ws) == Pieces(t)
    ensures Scan(AllText(ws, End(t), STANDARD), STANDARD, 0) == Scanned(Pieces(t), End(t)) && Nest(Pieces(t), End(t)) == Some((t, []))
  {
    hide Nest;
    hide Scan;
    hide Clean;
    hide AllClean;
    var body := AllText(ws, End(t), STANDARD);
    assert body[0..] == body;
    ScanWritten(body, STANDARD, 0, ws, End(t));
    NestPieces(t, [], End(t));
    assert Pieces(t) + [] == Pieces(t);
  }
}
