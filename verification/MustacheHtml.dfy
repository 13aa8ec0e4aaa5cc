/** Escaped output: reading its entities back, and no markup but what the template itself holds. */
module MustacheHtml {
  import opened Common
  import opened Numerals
  import opened JsonSpec
  import opened MustacheModel
  import opened MustacheFlat
  import opened MustacheParse
  import opened MustacheScan
  import opened MustacheTrim
  import opened MustacheMeaning
  import opened MustacheMachine

  // ----- reading entities -----

  /** Character references of HTML: decimal and hexadecimal numbers, and the names that escaping uses. */
  function Entity(name: Text): Option<Byte> {
    if name == "amp" then Some(38 as char)
    else if name == "lt" then Some(60 as char)
    else if name == "gt" then Some(62 as char)
    else if name == "quot" then Some(34 as char)
    else if |name| < 2 || name[0] != '#' then None
    else
      var (ds, base) := if name[1] == 'x' then (name[2..], 16) else (name[1..], 10);
      if ds != [] && AreHexDigits(ds) && ValueOf(0, ds, base) < 256 then Some(ValueOf(0, ds, base) as char) else None
  }

  function SemicolonFrom(t: Text, i: nat): (e: nat)
    requires i <= |t|
    ensures i <= e <= |t|
    decreases |t| - i
  {
    if i == |t| || t[i] == ';' then i else SemicolonFrom(t, i + 1)
  }

  lemma {:induction false} SemicolonIs(t: Text, i: nat, e: nat)
    requires i <= e < |t| && t[e] == ';' && forall k :: i <= k < e ==> t[k] != ';'
    ensures SemicolonFrom(t, i) == e
    decreases e - i
  {
    if i < e { SemicolonIs(t, i + 1, e); }
  }

  /** The text that a browser shows. */
  function Unhtml(t: Text): Text
    decreases |t|
  {
    if t == [] then []
    else
      var e := SemicolonFrom(t, 1);
      if t[0] == '&' && e < |t| && Entity(t[1..e]).Some? then [Entity(t[1..e]).value] + Unhtml(t[e + 1..])
      else [t[0]] + Unhtml(t[1..])
  }

  lemma ReadEntity(name: Text, c: Byte, rest: Text)
    requires ';' !in name && Entity(name) == Some(c)
    ensures Unhtml((['&'] + name + [';']) + rest) == [c] + Unhtml(rest)
  {
    hide Entity;
    var t, e := (['&'] + name + [';']) + rest, |name| + 1;
    assert forall k :: 1 <= k < e ==> t[k] == name[k - 1];
    SemicolonIs(t, 1, e);
    assert t[1..e] == name && t[e + 1..] == rest;
  }

  lemma NumberedEntities()
    ensures Entity("#39") == Some(39 as char) && Entity("#x2F") == Some(47 as char)
  {
    var d: Text, h: Text := "39", "2F";
    var n: Text, m: Text := "#39", "#x2F";
    assert n[1..] == d && m[2..] == h;
    assert d[1..] == "9" && h[1..] == "F";
    assert ValueOf(0, d, 10) == ValueOf(3, "9", 10) == 39;
    assert ValueOf(0, h, 16) == ValueOf(2, "F", 16) == 47;
  }

  /** One escaped byte. */
  lemma ByteReads(c: Byte, rest: Text)
    ensures Unhtml(HtmlByte(c) + rest) == [c] + Unhtml(rest)
  {
    hide Unhtml;
    hide Entity;
    if c in "&<>\"'/" {
      NumberedEntities();
      var name: Text := if c == '&' then "amp" else if c == '<' then "lt" else if c == '>' then "gt" else if c == '"' then "quot"
                        else if c == '\'' then "#39" else "#x2F";
      NamedEntities();
      assert HtmlByte(c) == ['&'] + name + [';'];
      ReadEntity(name, c, rest);
    } else {
      PlainReads(c, rest);
    }
  }

  lemma NamedEntities()
    ensures Entity("amp") == Some('&') && Entity("lt") == Some('<') && Entity("gt") == Some('>') && Entity("quot") == Some('"')
  {}

  lemma PlainReads(c: Byte, rest: Text)
    requires c != '&'
    ensures Unhtml([c] + rest) == [c] + Unhtml(rest)
  {
    assert ([c] + rest)[1..] == rest;
  }

  lemma {:induction false} HtmlFromFront(s: Text)
    requires s != []
    ensures Html(s) == HtmlByte(s[0]) + Html(s[1..])
    decreases |s|
  {
    hide HtmlByte;
    if |s| > 1 {
      var front := s[..|s| - 1];
      HtmlFromFront(front);
      assert front[1..] == s[1..][..|s| - 2];
    } else {
      assert s[..0] == [] && s[1..] == [];
      assert Html([]) + HtmlByte(s[0]) == HtmlByte(s[0]) + Html([]);
    }
  }

  /** A browser shows escaped text as it was. */
  lemma {:induction false} UnhtmlHtml(s: Text)
    ensures Unhtml(Html(s)) == s
  {
    hide HtmlByte;
    if s != [] {
      hide Html;
      HtmlFromFront(s);
      ByteReads(s[0], Html(s[1..]));
      UnhtmlHtml(s[1..]);
    }
  }

  // ----- no markup but the template's own -----

  predicate NoMarkUp(t: Text) { forall i :: 0 <= i < |t| ==> !MarkUp(t[i]) }

  /** Numbers are printed as they are; those of a JSON text hold no markup. */
  predicate CleanNumbers(v: Json) {
    match v
    case JNumber(text) => NoMarkUp(text)
    case JList(items) => forall i :: 0 <= i < |items| ==> CleanNumbers(items[i])
    case JObject(members) => forall i :: 0 <= i < |members| ==> CleanNumbers(members[i].val)
    case _ => true
  }

  predicate NumbersClean(stack: seq<Json>) { forall i :: 0 <= i < |stack| ==> CleanNumbers(stack[i]) }

  /** All tags escape, no text holds markup, and the partials are among `names`. */
  ghost predicate Escaping(c: Code, names: set<Text>) {
    && (forall i :: 0 <= i < |c.texts| ==> NoMarkUp(c.texts[i]))
    && (forall i :: 0 <= i < |c.actions| ==> c.actions[i].kind != UnescapeTag && (c.actions[i].kind.Partial? ==> c.actions[i].name in names))
  }

  /** So it is in all partials with these names. */
  ghost predicate PartialsEscape(lib: Library, names: set<Text>) {
    forall name :: name in names && Compile(lib(name)).Some? ==> Escaping(Compile(lib(name)).value, names)
  }

  lemma {:induction false} MemberIsClean(members: seq<Member>, name: Text)
    requires forall i :: 0 <= i < |members| ==> CleanNumbers(members[i].val)
    ensures MemberOf(members, name).Some? ==> CleanNumbers(MemberOf(members, name).value)
  {
    hide CleanNumbers;
    if members != [] { MemberIsClean(members[1..], name); }
  }

  lemma {:induction false} PathIsClean(view: Json, names: seq<Text>)
    requires CleanNumbers(view)
    ensures Path(view, names).Some? ==> CleanNumbers(Path(view, names).value)
    decreases |names|
  {
    if names != [] && view.JObject? {
      MemberIsClean(view.members, names[0]);
      var next := MemberOf(view.members, names[0]);
      if next.Some? { PathIsClean(next.value, names[1..]); }
    }
  }

  lemma {:induction false} InnermostIsClean(stack: seq<Json>, names: seq<Text>)
    requires NumbersClean(stack)
    ensures Innermost(stack, names).Some? ==> CleanNumbers(Innermost(stack, names).value)
  {
    hide CleanNumbers;
    if stack != [] {
      PathIsClean(stack[|stack| - 1], names);
      InnermostIsClean(stack[..|stack| - 1], names);
    }
  }

  lemma FindIsClean(name: Text, stack: seq<Json>)
    requires NumbersClean(stack) && (stack != [] || name != ['.'])
    ensures Find(name, stack).Some? ==> CleanNumbers(Find(name, stack).value)
  {
    hide CleanNumbers;
    if name != ['.'] { InnermostIsClean(stack, Split(name)); }
  }

  lemma {:induction false} ShownIsClean(text: Text, n: nat, final: bool)
    requires NoMarkUp(text)
    ensures NoMarkUp(Shown(text, n, final))
  {
    hide MarkUp;
    if n > 0 { IndentedIsClean(text, n, final); }
  }

  lemma {:induction false} IndentedIsClean(text: Text, n: nat, final: bool)
    requires NoMarkUp(text)
    ensures NoMarkUp(Indented(text, n, final))
  {
    if text != [] { IndentedIsClean(text[..|text| - 1], n, false); }
  }

  /** A printed tag holds no markup when it is escaped. */
  lemma PrintedIsClean(found: Option<Json>)
    requires found.Some? ==> CleanNumbers(found.value)
    ensures Printed(found, true).Some? ==> NoMarkUp(Printed(found, true).value)
  {
    hide MarkUp;
    if found.Some? && found.value.JString? { HtmlIsSafe(found.value.s); }
  }

  lemma BlanksBehind(out: Text, n: nat)
    requires NoMarkUp(out)
    ensures NoMarkUp(out + Blanks(n))
  {}

  ghost predicate SafeOutcome(o: Outcome) { o.Ended? ==> NumbersClean(o.stack) && NoMarkUp(o.out) }

  ghost predicate SafeNext(n: Next) { match n case Goes(_, stack, out) => NumbersClean(stack) && NoMarkUp(out) case Stops(how) => SafeOutcome(how) }

  lemma {:induction false} TurnIsSafe(
    lib: Library, names: set<Text>, c: Code, current: nat, stack: seq<Json>, out: Text, indent: nat, limit: nat)
    requires Sound(c) && current < |c.actions| && Escaping(c, names) && PartialsEscape(lib, names) && NumbersClean(stack) && NoMarkUp(out)
    ensures SafeNext(Turn(lib, c, current, stack, out, indent, limit))
    decreases limit, 2
  {
    hide Runs;
    hide Each;
    hide Compile;
    hide Find;
    hide Printed;
    hide Shown;
    hide MarkUp;
    var a := c.actions[current];
    ShownIsClean(c.texts[current], indent, current == |c.texts| - 1);
    var shown := out + ShownAt(c, current, indent);
    if a.kind.Partial? {
      var inner := Compile(lib(a.name));
      if inner.Some? {
        var deeper := Deeper(indent, a.kind.width);
        BlanksBehind(shown, deeper);
        RunsAreSafe(lib, names, inner.value, 0, |inner.value.texts| - 1, stack, shown + Blanks(deeper), deeper, limit);
      }
    } else if a.kind != Ignore && a.kind != CloseBlock && (stack != [] || a.name != ['.']) {
      var found := Find(a.name, stack);
      FindIsClean(a.name, stack);
      PrintedIsClean(found);
      if a.kind == OpenBlock && !Falsy(found) && found.value.JList? {
        EachIsSafe(lib, names, c, current + 1, a.pos, found.value.items, stack, shown, indent, limit);
      }
    }
  }

  lemma {:induction false} RunsAreSafe(
    lib: Library, names: set<Text>, c: Code, current: nat, end: nat, stack: seq<Json>, out: Text, indent: nat, limit: nat)
    requires Sound(c) && end < |c.texts| && Escaping(c, names) && PartialsEscape(lib, names) && NumbersClean(stack) && NoMarkUp(out)
    ensures SafeOutcome(Runs(lib, c, current, end, stack, out, indent, limit))
    decreases limit, 0
  {
    hide Turn;
    hide Shown;
    hide MarkUp;
    hide CleanNumbers;
    ShownIsClean(c.texts[end], indent, end == |c.texts| - 1);
    if limit > 0 && current < end {
      TurnIsSafe(lib, names, c, current, stack, out, indent, limit - 1);
      match Turn(lib, c, current, stack, out, indent, limit - 1)
      case Goes(next, stack', out') => RunsAreSafe(lib, names, c, next, end, stack', out', indent, limit - 1);
      case Stops(_) =>
    }
  }

  lemma {:induction false} EachIsSafe(
    lib: Library, names: set<Text>, c: Code, begin: nat, end: nat, items: seq<Json>, stack: seq<Json>, out: Text, indent: nat, limit: nat)
    requires Sound(c) && end < |c.texts| && Escaping(c, names) && PartialsEscape(lib, names) && NumbersClean(stack) && NoMarkUp(out)
    requires NumbersClean(items)
    ensures SafeOutcome(Each(lib, c, begin, end, items, stack, out, indent, limit))
    decreases limit, 1, |items|
  {
    hide Runs;
    hide MarkUp;
    hide CleanNumbers;
    if items != [] {
      BlanksBehind(out, indent);
      RunsAreSafe(lib, names, c, begin, end, stack + [items[0]], out + Blanks(indent), indent, limit);
      match Runs(lib, c, begin, end, stack + [items[0]], out + Blanks(indent), indent, limit)
      case Ended(stack', out') =>
        if stack' != [] { EachIsSafe(lib, names, c, begin, end, items[1..], stack'[..|stack'| - 1], out', indent, limit); }
      case _ =>
    }
  }

  /**
   * When all tags of a template and its partials escape, and none of their texts holds markup, then nothing that is
   * printed does, whatever strings the context holds; of templates with blocks left open too.
   */
  lemma EscapedOutputIsSafe(lib: Library, names: set<Text>, c: Code, ctx: Json, limit: nat)
    requires Sound(c) && Escaping(c, names) && PartialsEscape(lib, names) && CleanNumbers(ctx)
    ensures var o := Rendered(lib, c, ctx, limit); o.Ended? ==> NoMarkUp(o.out)
  {
    hide Runs;
    hide Escaping;
    hide PartialsEscape;
    hide CleanNumbers;
    RunsAreSafe(lib, names, c, 0, |c.texts| - 1, [ctx], [], 0, limit);
  }
}
