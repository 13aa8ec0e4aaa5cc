/** What the parts of a template come to, case by case: names, sections, indented lines, and tags alone on a line. */
module MustacheLanguage {
  import opened Common
  import opened JsonSpec
  import opened MustacheModel
  import opened MustacheFlat
  import opened MustacheScan
  import opened MustacheTrim
  import opened MustacheMeaning

  // ----- names -----

  /** A member of an object is the first one with its key. */
  lemma {:induction false} MemberIsFirst(members: seq<Member>, name: Text, v: Json)
    ensures MemberOf(members, name) == Some(v) <==>
              exists i :: 0 <= i < |members| && members[i] == Member(name, v) && forall j :: 0 <= j < i ==> members[j].key != name
  {
    if members != [] {
      var rest := members[1..];
      MemberIsFirst(rest, name, v);
      if members[0].key == name {
        assert members[0] == Member(name, members[0].val);
      } else {
        if i :| 0 <= i < |rest| && rest[i] == Member(name, v) && forall j :: 0 <= j < i ==> rest[j].key != name {
          assert members[i + 1] == rest[i];
          assert forall j :: 0 <= j < i + 1 ==> members[j].key != name by {
            forall j | 0 <= j < i + 1 ensures members[j].key != name { if j > 0 { assert members[j] == rest[j - 1]; } }
          }
        }
        if i :| 0 <= i < |members| && members[i] == Member(name, v) && forall j :: 0 <= j < i ==> members[j].key != name {
          assert rest[i - 1] == members[i];
          assert forall j :: 0 <= j < i - 1 ==> rest[j].key != name by {
            forall j | 0 <= j < i - 1 ensures rest[j].key != name { assert rest[j] == members[j + 1]; }
          }
        }
      }
    }
  }

  /** An object of the value under the last name, in an object under the name before it, and so on. */
  function Wrapped(names: seq<Text>, v: Json): Json {
    if names == [] then v else JObject([Member(names[0], Wrapped(names[1..], v))])
  }

  lemma {:induction false} PathUnwraps(names: seq<Text>, v: Json)
    ensures Path(Wrapped(names, v), names) == Some(v)
  {
    if names != [] {
      var m := Member(names[0], Wrapped(names[1..], v));
      assert MemberOf([m], names[0]) == Some(m.val);
      PathUnwraps(names[1..], v);
    }
  }

  /** A path leads nowhere from what is no object. */
  lemma PathNeedsObject(view: Json, names: seq<Text>)
    requires names != [] && !view.JObject?
    ensures Path(view, names) == None
  {}

  /** A name is looked up in the innermost context that knows the whole path; a single dot is the innermost context itself. */
  lemma {:induction false} FoundInnermost(name: Text, stack: seq<Json>, v: Json)
    requires name != "."
    ensures Find(name, stack) == Some(v) <==>
              exists k :: 0 <= k < |stack| && Path(stack[k], Split(name)) == Some(v)
                && forall j :: k < j < |stack| ==> Path(stack[j], Split(name)).None?
    decreases |stack|
  {
    hide Path;
    hide Split;
    if stack != [] {
      var n := |stack| - 1;
      var front := stack[..n];
      FoundInnermost(name, front, v);
      if Path(stack[n], Split(name)).None? {
        if k :| 0 <= k < |front| && Path(front[k], Split(name)) == Some(v) && forall j :: k < j < |front| ==> Path(front[j], Split(name)).None? {
          assert stack[k] == front[k] && forall j :: k < j < n ==> stack[j] == front[j];
        }
        if k :| 0 <= k < |stack| && Path(stack[k], Split(name)) == Some(v) && forall j :: k < j < |stack| ==> Path(stack[j], Split(name)).None? {
          assert stack[k] == front[k] && forall j :: k < j < n ==> stack[j] == front[j];
        }
      }
    }
  }

  lemma DotIsContext(stack: seq<Json>)
    requires stack != []
    ensures Find(".", stack) == Some(stack[|stack| - 1])
  {}

  // ----- tags -----

  /** Strings print escaped or as they are, numbers as their text, unknown names nothing; other values throw. */
  lemma TagPrints(lib: Library, name: Text, escaped: bool, stack: seq<Json>, indent: nat, depth: nat)
    requires stack != []
    ensures EvalPart(lib, Value(name, escaped), stack, indent, depth) ==
            match Find(name, stack)
            case None => Prints([])
            case Some(JString(s)) => Prints(if escaped then Html(s) else s)
            case Some(JNumber(text)) => Prints(text)
            case Some(_) => Fails
  {}

  // ----- sections -----

  function Concat(texts: seq<Text>): Text { if texts == [] then [] else texts[0] + Concat(texts[1..]) }

  /** What a section's body is rendered for: nothing, the value itself, or each item of a list. */
  function Rounds(found: Option<Json>): seq<Json> {
    match found
    case None => []
    case Some(JNull) => []
    case Some(JFalse) => []
    case Some(JList(items)) => items
    case Some(v) => [v]
  }

  lemma {:induction false} EachPrints(lib: Library, body: Template, stack: seq<Json>, items: seq<Json>, texts: seq<Text>, indent: nat, depth: nat)
    requires stack != [] && |texts| == |items|
    requires forall i :: 0 <= i < |items| ==> Eval(lib, body, stack + [items[i]], indent, false, depth) == Prints(texts[i])
    ensures EvalEach(lib, body, stack, items, indent, depth) == Prints(Concat(seq(|texts|, i requires 0 <= i < |texts| => Blanks(indent) + texts[i])))
    decreases |items|
  {
    hide Eval;
    hide Blanks;
    var all := seq(|texts|, i requires 0 <= i < |texts| => Blanks(indent) + texts[i]);
    if items != [] {
      EachPrints(lib, body, stack, items[1..], texts[1..], indent, depth);
      assert all[1..] == seq(|texts[1..]|, i requires 0 <= i < |texts[1..]| => Blanks(indent) + texts[1..][i]);
    }
  }

  lemma NoBlanks()
    ensures Blanks(0) == []
  {}

  /** A section prints its body for every round, each time with the round's value on the stack. */
  lemma SectionPrints(lib: Library, name: Text, body: Template, stack: seq<Json>, texts: seq<Text>, depth: nat)
    requires stack != []
    requires var rounds := Rounds(Find(name, stack));
             |texts| == |rounds| && forall i :: 0 <= i < |rounds| ==> Eval(lib, body, stack + [rounds[i]], 0, false, depth) == Prints(texts[i])
    ensures EvalPart(lib, Section(name, body), stack, 0, depth) == Prints(Concat(texts))
  {
    hide Eval;
    hide Find;
    ConcatOne(texts);
    var found := Find(name, stack);
    match found
    case Some(JList(items)) =>
      EachPrints(lib, body, stack, items, texts, 0, depth);
      NoBlanks();
      assert forall i :: 0 <= i < |texts| ==> Blanks(0) + texts[i] == texts[i];
      assert seq(|texts|, i requires 0 <= i < |texts| => Blanks(0) + texts[i]) == texts;
    case _ =>
  }

  lemma ConcatOne(texts: seq<Text>)
    ensures |texts| == 1 ==> Concat(texts) == texts[0]
  {
    if |texts| == 1 { assert texts[0] + [] == texts[0]; }
  }

  /** An inverted section prints its body exactly where the section has no round. */
  lemma InvertedPrints(lib: Library, name: Text, body: Template, stack: seq<Json>, indent: nat, depth: nat)
    requires stack != []
    ensures EvalPart(lib, Inverted(name, body), stack, indent, depth)
            == if Rounds(Find(name, stack)) == [] then Eval(lib, body, stack + [JNull], indent, false, depth) else Prints([])
  {
    hide Eval;
    hide Find;
  }

  /**
   * A partial prints what its template means in the same contexts. Alone on its line behind `width` blanks its lines are
   * indented by so much more than those around it; elsewhere on a line they are not indented at all.
   */
  lemma PartialPrints(lib: Library, name: Text, width: nat, stack: seq<Json>, indent: nat, depth: nat)
    requires stack != [] && StructureOf(lib(name)).Nested? && depth > 0
    ensures var n := if width == 0 then 0 else indent + width;
            var m := Eval(lib, StructureOf(lib(name)).t, stack, n, true, depth - 1);
            EvalPart(lib, Include(name, width), stack, indent, depth) == if m.Prints? then Prints(Blanks(n) + m.text) else m
  {
    hide StructureOf;
    hide Eval;
    hide Blanks;
  }

  // ----- indented lines -----

  predicate IsLine(t: Text) { forall i :: 0 <= i < |t| ==> t[i] as int != 0x0A }

  /** Lines with a text between each two of them. */
  function Joined(lines: seq<Text>, between: Text): Text
    requires lines != []
  {
    if |lines| == 1 then lines[0] else Joined(lines[..|lines| - 1], between) + between + lines[|lines| - 1]
  }

  const LINE_FEED: Text := [10 as char]

  lemma {:induction false} LineStays(before: Text, line: Text, n: nat, final: bool)
    requires IsLine(line)
    ensures Indented(before + line, n, final) == if line == [] then Indented(before, n, final) else Indented(before, n, false) + line
    decreases |line|
  {
    if line == [] {
      assert before + line == before;
    } else {
      var k := |line| - 1;
      var text := before + line;
      assert text[..|text| - 1] == before + line[..k] && line == line[..k] + [line[k]];
      LineStays(before, line[..k], n, false);
    }
  }

  /** Every line but the first is behind the indentation; behind a template's very last line end there is none. */
  lemma {:induction false} LinesAreIndented(lines: seq<Text>, n: nat, final: bool)
    requires lines != [] && forall i :: 0 <= i < |lines| ==> IsLine(lines[i])
    ensures var k := |lines| - 1;
            Indented(Joined(lines, LINE_FEED), n, final)
            == if final && k > 0 && lines[k] == [] then Joined(lines[..k], LINE_FEED + Blanks(n)) + LINE_FEED
               else Joined(lines, LINE_FEED + Blanks(n))
    decreases |lines|
  {
    hide Blanks;
    hide IsLine;
    var k := |lines| - 1;
    if k == 0 {
      LineStays([], lines[0], n, final);
      assert [] + lines[0] == lines[0];
      assert Indented([], n, final) == [];
    } else {
      var front := Joined(lines[..k], LINE_FEED);
      LinesAreIndented(lines[..k], n, false);
      LineStays(front + LINE_FEED, lines[k], n, final);
      BreakIndented(front, n, final);
      BreakIndented(front, n, false);
    }
  }

  lemma BreakIndented(before: Text, n: nat, final: bool)
    ensures Indented(before + LINE_FEED, n, final) == Indented(before, n, false) + if final then LINE_FEED else LINE_FEED + Blanks(n)
  {
    var text := before + LINE_FEED;
    assert text[..|text| - 1] == before;
  }

  lemma BlanksAre(n: nat)
    ensures |Blanks(n)| == n && forall i :: 0 <= i < n ==> Blanks(n)[i] as int == 0x20
  {}

  // ----- tags alone on a line -----

  predicate PrintsValue(kind: Kind) { kind == Tag || kind == UnescapeTag }

  /** A text up to the start of a line: the start of the template, or behind a line feed. */
  predicate AtLineStart(a: Text, first: bool) { if a == [] then first else a[|a| - 1] as int == 0x0A }

  const RETURN_LINE_FEED: Text := [13 as char, 10 as char]

  lemma LastWordIs(a: Text, m: nat, e: nat)
    requires |a| <= e <= |a| + m && (a != [] ==> a[|a| - 1] != ' ')
    ensures LastWord(a + Blanks(m), e) == |a|
    decreases e
  {
    BlanksAre(m);
    if e > |a| {
      assert (a + Blanks(m))[e - 1] == Blanks(m)[e - 1 - |a|];
      LastWordIs(a, m, e - 1);
    }
  }

  lemma FirstWordIs(k: nat, b: Text, i: nat)
    requires i <= k && (b != [] ==> b[0] != ' ')
    ensures FirstWord(Blanks(k) + b, i) == k
    decreases k - i
  {
    BlanksAre(k);
    if i < k {
      assert (Blanks(k) + b)[i] == Blanks(k)[i];
      FirstWordIs(k, b, i + 1);
    } else if b != [] {
      assert (Blanks(k) + b)[k] == b[0];
    }
  }

  /** Before a tag: blanks at the start of a line go. */
  lemma BeforeLoneTag(a: Text, m: nat, first: bool)
    requires AtLineStart(a, first)
    ensures BeforeTag(a + Blanks(m), first) == Some(a)
  {
    LastWordIs(a, m, |a| + m);
    BlanksAre(m);
    assert (a + Blanks(m))[..|a|] == a;
    if a != [] { assert (a + Blanks(m))[|a| - 1] == a[|a| - 1]; }
  }

  /** Behind a tag: blanks go with the line end they stand before; at the end of the template they stay. */
  lemma BehindLoneTag(k: nat, end: Text, b: Text, final: bool)
    requires end == LINE_FEED || end == RETURN_LINE_FEED
    ensures BehindTag(Blanks(k) + (end + b), final) == Some(b)
    ensures BehindTag(Blanks(k), final) == if final then Some(Blanks(k)) else None
  {
    var v := end + b;
    FirstWordIs(k, v, 0);
    FirstWordIs(k, [], 0);
    assert (Blanks(k) + v)[k..] == v && Blanks(k) + [] == Blanks(k);
    assert v[1..] == end[1..] + b;
    assert end == RETURN_LINE_FEED ==> v[2..] == b;
    assert end == LINE_FEED ==> v[1..] == b;
  }

  /**
   * A tag that prints no value and stands alone on its line takes the line with it: the blanks before it, which a
   * partial keeps as its indentation, and the blanks behind it with the line end.
   */
  lemma LoneTagIsTrimmed(front: seq<Piece>, back: seq<Piece>, last: Text, a: Text, m: nat, kind: Kind, name: Text, next: Piece, k: nat, end: Text, b: Text)
    requires !PrintsValue(kind) && AtLineStart(a, front == []) && (end == LINE_FEED || end == RETURN_LINE_FEED)
    requires next.text == Blanks(k) + (end + b)
    ensures TrimTag(Cuts(front + [Piece(a + Blanks(m), kind, name)] + ([next] + back), last), |front|)
            == Cuts(front + [Piece(a, if kind.Partial? then Partial(m) else kind, name)] + ([next.(text := b)] + back), last)
  {
    hide BeforeTag;
    hide BehindTag;
    hide Blanks;
    BeforeLoneTag(a, m, front == []);
    BehindLoneTag(k, end, b, false);
    BlanksAre(m);
    var i := |front|;
    var p := Piece(a + Blanks(m), kind, name);
    var q := Piece(a, if kind.Partial? then Partial(m) else kind, name);
    var all := front + [p] + ([next] + back);
    assert all[i] == p && all[i + 1] == next;
    assert all[i := q][i + 1 := next.(text := b)] == front + [q] + ([next.(text := b)] + back);
  }

  /** The same for the last tag, before the text at the end. */
  lemma LastLoneTagIsTrimmed(front: seq<Piece>, a: Text, m: nat, kind: Kind, name: Text, k: nat, end: Text, b: Text)
    requires !PrintsValue(kind) && AtLineStart(a, front == []) && (end == LINE_FEED || end == RETURN_LINE_FEED)
    ensures TrimTag(Cuts(front + [Piece(a + Blanks(m), kind, name)], Blanks(k) + (end + b)), |front|)
            == Cuts(front + [Piece(a, if kind.Partial? then Partial(m) else kind, name)], b)
  {
    hide BeforeTag;
    hide BehindTag;
    hide Blanks;
    BeforeLoneTag(a, m, front == []);
    BehindLoneTag(k, end, b, true);
    BlanksAre(m);
    var p := Piece(a + Blanks(m), kind, name);
    var q := Piece(a, if kind.Partial? then Partial(m) else kind, name);
    assert (front + [p])[|front| := q] == front + [q];
  }

  /** A tag that prints a value, or has something else before it on its line, is left alone. */
  lemma OtherTagsStay(c: Cuts, i: nat)
    requires i < |c.pieces|
    requires PrintsValue(c.pieces[i].kind)
             || exists j :: 0 <= j < |c.pieces[i].text| && c.pieces[i].text[j] !in " \n" && IsLine(c.pieces[i].text[j..])
    ensures TrimTag(c, i) == c
  {
    if !PrintsValue(c.pieces[i].kind) {
      var text := c.pieces[i].text;
      var j :| 0 <= j < |text| && text[j] !in " \n" && IsLine(text[j..]);
      NotAlone(text, i == 0, j);
    }
  }

  lemma NotAlone(text: Text, first: bool, j: nat)
    requires j < |text| && text[j] !in " \n" && IsLine(text[j..])
    ensures BeforeTag(text, first) == None
  {
    NoBreakFrom(text, j);
  }

  lemma NoBreakFrom(text: Text, j: nat)
    requires j <= |text| && IsLine(text[j..])
    ensures forall i :: j <= i < |text| ==> text[i] as int != 0x0A
  {
    forall i | j <= i < |text| ensures text[i] as int != 0x0A { assert text[j..][i - j] == text[i]; }
  }
}
