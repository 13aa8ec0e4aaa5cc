/** Templates from text to output: parsing, and the interpreter of their flat actions. */
module Mustache {
  import opened Common
  import opened JsonSpec
  import opened MustacheModel
  import opened MustacheFlat
  import opened MustacheParse
  import opened MustacheScan
  import opened MustacheTrim
  import opened MustacheMeaning
  import opened MustacheMachine
  import opened MustacheRuns

  /** How a method of the renderer comes back; `Watched` when the turns it is watched for are used up. */
  datatype Status = Returned | Thrown | Broken | Watched

  class Renderer {
    const lib: Library
    const code: Code
    var stack: seq<Json>
    var out: Text

    constructor (lib: Library, code: Code, stack: seq<Json>, out: Text)
      ensures this.lib == lib && this.code == code && this.stack == stack && this.out == out
    {
      this.lib, this.code, this.stack, this.out := lib, code, stack, out;
    }

    /** The stack and the output are those of the outcome, where there is one. */
    ghost predicate Says(s: Status, o: Outcome)
      reads this
    {
      match o
      case Ended(stack', out') => s == Returned && stack == stack' && out == out'
      case Threw => s == Thrown
      case Undefined => s == Broken
      case Running => s == Watched
    }

    /** The same after one turn of the loop, which goes on at `next`. */
    ghost predicate SaysNext(s: Status, next: nat, n: Next)
      reads this
    {
      match n
      case Goes(current, stack', out') => s == Returned && next == current && stack == stack' && out == out'
      case Stops(how) => s != Returned && Says(s, how)
    }

    /** `render_fragment`: a text, with blanks behind its line ends where lines are indented. */
    method RenderFragment(i: nat, indent: nat)
      requires i < |code.texts|
      modifies this`out
      ensures out == old(out) + ShownAt(code, i, indent)
    {
      var text := code.texts[i];
      if indent == 0 {
        out := out + text;
        return;
      }
      var final := i == |code.texts| - 1;
      var j := 0;
      assert out + [] == out;
      while j < |text|
        invariant 0 <= j <= |text| && out == old(out) + Indented(text[..j], indent, final && j == |text|)
      {
        assert text[..j + 1][..j] == text[..j];
        out := out + [text[j]];
        if text[j] == '\n' && !(final && j + 1 == |text|) {
          out := out + Blanks(indent);
        }
        j := j + 1;
      }
      assert text[..j] == text;
      IndentedEnd(text, indent, final);
    }

    /** `render_internal` between two actions: what it has done after `limit` turns. */
    method RenderInternal(begin: nat, end: nat, indent: nat, limit: nat) returns (status: Status)
      requires Sound(code) && end < |code.texts|
      modifies this
      ensures Says(status, Runs(lib, code, begin, end, old(stack), old(out) + Blanks(indent), indent, limit))
      decreases limit, 0
    {
      hide Turn;
      hide ShownAt;
      hide Blanks;
      NoBlanks(out);
      if indent > 0 {
        out := out + Blanks(indent);
      }
      var current: nat, left: nat := begin, limit;
      ghost var goal := Runs(lib, code, begin, end, stack, out, indent, limit);
      while current < end
        invariant left <= limit && Runs(lib, code, current, end, stack, out, indent, left) == goal
        decreases left
      {
        if left == 0 {
          return Watched;
        }
        left := left - 1;
        status, current := Step(current, indent, left);
        if status != Returned {
          return;
        }
      }
      if left == 0 {
        return Watched;
      }
      RenderFragment(end, indent);
      status := Returned;
    }

    /** The body of the loop: the text before an action, the action, and the move to the next one. */
    method Step(current: nat, indent: nat, limit: nat) returns (status: Status, next: nat)
      requires Sound(code) && current < |code.actions|
      modifies this
      ensures SaysNext(status, next, Turn(lib, code, current, old(stack), old(out), indent, limit))
      decreases limit, 2
    {
      hide Runs;
      hide Each;
      hide Find;
      hide Printed;
      hide Compile;
      hide ShownAt;
      hide Blanks;
      RenderFragment(current, indent);
      var action := code.actions[current];
      status, next := Returned, current + 1;
      if action.kind == CloseBlock {
        if stack == [] {
          return Broken, next;
        }
        stack := stack[..|stack| - 1];
      } else if action.kind.Partial? {
        status := RenderPartial(action.name, Deeper(indent, action.kind.width), limit);
      } else if action.kind != Ignore {
        if stack == [] && action.name == ['.'] {
          return Broken, next;
        }
        var found := FindContext(action.name, stack);
        if action.kind == OpenBlock {
          if Falsy(found) {
            next := action.pos + 1;
          } else if found.value.JList? {
            next := action.pos + 1;
            status := RenderEach(current + 1, action.pos, found.value.items, indent, limit);
          } else {
            stack := stack + [found.value];
          }
        } else if action.kind == ElseBlock {
          if Falsy(found) {
            stack := stack + [JNull];
          } else {
            next := action.pos + 1;
          }
        } else {
          var ok := PrintTag(found, action.kind == Tag);
          status := if ok then Returned else Thrown;
        }
      }
    }

    /** The value a tag has found, printed. */
    method PrintTag(found: Option<Json>, escaped: bool) returns (ok: bool)
      modifies this`out
      ensures ok == Printed(found, escaped).Some?
      ensures ok ==> out == old(out) + Printed(found, escaped).value
      ensures !ok ==> out == old(out)
    {
      hide Html;
      match found
      case None =>
        assert out + [] == out;
        ok := true;
      case Some(JNumber(text)) =>
        out := out + text;
        ok := true;
      case Some(JString(s)) =>
        if escaped {
          var html := EscapeHtml(s, out);
          out := html;
        } else {
          out := out + s;
        }
        ok := true;
      case _ =>
        ok := false;
    }

    /** A list's block: the range between its two actions once for every item. */
    method RenderEach(begin: nat, end: nat, items: seq<Json>, indent: nat, limit: nat) returns (status: Status)
      requires Sound(code) && end < |code.texts|
      modifies this
      ensures Says(status, Each(lib, code, begin, end, items, old(stack), old(out), indent, limit))
      decreases limit, 1
    {
      hide Runs;
      hide Blanks;
      ghost var goal := Each(lib, code, begin, end, items, stack, out, indent, limit);
      var i := 0;
      assert items[i..] == items;
      while i < |items|
        invariant 0 <= i <= |items| && Each(lib, code, begin, end, items[i..], stack, out, indent, limit) == goal
      {
        assert items[i..][1..] == items[i + 1..];
        stack := stack + [items[i]];
        status := RenderInternal(begin, end, indent, limit);
        if status != Returned {
          return;
        }
        if stack == [] {
          return Broken;
        }
        stack := stack[..|stack| - 1];
        i := i + 1;
      }
      status := Returned;
    }

    /** A partial: another template, loaded by its name and rendered with the same stack into the same output. */
    method RenderPartial(name: Text, indent: nat, limit: nat) returns (status: Status)
      modifies this
      ensures match Compile(lib(name))
              case None => status == Thrown
              case Some(c) => Says(status, Runs(lib, c, 0, |c.texts| - 1, old(stack), old(out) + Blanks(indent), indent, limit))
      decreases limit, 1
    {
      hide Runs;
      hide Blanks;
      hide Compile;
      var loaded := Load(lib(name));
      if loaded.None? {
        return Thrown;
      }
      var partial := new Renderer(lib, loaded.value, stack, out);
      status := partial.RenderInternal(0, |loaded.value.texts| - 1, indent, limit);
      stack, out := partial.stack, partial.out;
    }
  }

  lemma NoBlanks(out: Text)
    ensures out + Blanks(0) == out
  {}

  lemma IndentedEnd(text: Text, n: nat, final: bool)
    ensures text == [] ==> Indented(text, n, final) == Indented(text, n, false)
  {}

  /** `find_context`: the contexts from the innermost one on, the names of a dotted path one after the other. */
  method FindContext(name: Text, stack: seq<Json>) returns (found: Option<Json>)
    requires stack != [] || name != ['.']
    ensures found == Find(name, stack)
  {
    if name == ['.'] {
      return Some(stack[|stack| - 1]);
    }
    var names := SplitName(name);
    var it := |stack|;
    assert stack[..it] == stack;
    while it > 0
      invariant 0 <= it <= |stack| && Innermost(stack, names) == Innermost(stack[..it], names)
    {
      it := it - 1;
      assert stack[..it + 1][..it] == stack[..it];
      var view := stack[it];
      var j := 0;
      while j < |names| && view.JObject? && MemberOf(view.members, names[j]).Some?
        invariant 0 <= j <= |names| && Path(stack[it], names) == Path(view, names[j..])
      {
        assert names[j..][1..] == names[j + 1..];
        view := MemberOf(view.members, names[j]).value;
        j := j + 1;
      }
      if j == |names| {
        return Some(view);
      }
    }
    return None;
  }

  /** The names between the dots. */
  method SplitName(name: Text) returns (names: seq<Text>)
    ensures names == Split(name)
  {
    hide Split;
    names := [];
    var from, i := 0, 0;
    SplitAll(name);
    while i < |name|
      invariant 0 <= from <= i <= |name| && '.' !in name[from..i]
      invariant Split(name) == names + Split(name[from..])
    {
      if name[i] == '.' {
        SplitAt(name[from..], i - from);
        assert name[from..][..i - from] == name[from..i] && name[from..][i - from + 1..] == name[i + 1..];
        names := names + [name[from..i]];
        from := i + 1;
      }
      i := i + 1;
    }
    assert name[from..i] == name[from..];
    SplitNone(name[from..]);
    names := names + [name[from..]];
  }

  lemma SplitAll(name: Text)
    ensures name[0..] == name && [] + Split(name) == Split(name)
  {}

  lemma {:induction false} SplitNone(name: Text)
    requires '.' !in name
    ensures Split(name) == [name]
  {
    if name != [] {
      SplitNone(name[1..]);
      assert [name[0]] + name[1..] == name;
    }
  }

  lemma {:induction false} SplitAt(name: Text, i: nat)
    requires i < |name| && name[i] == '.' && '.' !in name[..i]
    ensures Split(name) == [name[..i]] + Split(name[i + 1..])
  {
    if i > 0 {
      assert name[0] == name[..i][0];
      assert name[1..][..i - 1] == name[..i][1..];
      SplitAt(name[1..], i - 1);
      assert name[1..][i..] == name[i + 1..];
      assert [name[0]] + name[1..][..i - 1] == name[..i];
    }
  }

  /** `escape`: appends the escaped text. */
  method EscapeHtml(s: Text, out: Text) returns (r: Text)
    ensures r == out + Html(s)
  {
    hide HtmlByte;
    r := out;
    var i := 0;
    while i < |s|
      invariant 0 <= i <= |s| && r == out + Html(s[..i])
    {
      assert s[..i + 1][..i] == s[..i];
      r := r + HtmlByte(s[i]);
      i := i + 1;
    }
    assert s[..i] == s;
  }

  // ----- parsing -----

  /** The loop of `parse` over the tags: the actions, with the blocks matched. */
  method ParseTags(cuts: Cuts) returns (r: Option<Code>)
    ensures r == if Run(START, cuts.pieces).None? then None else Some(Flattened(cuts))
  {
    hide Run;
    var pieces, last := cuts.pieces, cuts.last;
    var actions: seq<Action>, texts: seq<Text> := [], [];
    var blocks: seq<nat> := [];
    var i := 0;
    TextsUpTo(pieces, last, 0);
    assert pieces[0..] == pieces;
    while i < |pieces|
      invariant 0 <= i <= |pieces| && Valid(State(actions, blocks))
      invariant Run(State(actions, blocks), pieces[i..]) == Run(START, pieces)
      invariant texts + TextsOf(pieces[i..], last) == TextsOf(pieces, last)
    {
      var p := pieces[i];
      RunFirst(State(actions, blocks), pieces[i..]);
      TextsUpTo(pieces, last, i);
      assert pieces[i..][1..] == pieces[i + 1..];
      texts := texts + [p.text];
      match p.kind {
        case OpenBlock =>
          blocks := blocks + [|actions|];
          actions := actions + [Action(p.kind, p.name, 0)];
        case ElseBlock =>
          blocks := blocks + [|actions|];
          actions := actions + [Action(p.kind, p.name, 0)];
        case CloseBlock =>
          if blocks == [] {
            return None;
          }
          var matched := blocks[|blocks| - 1];
          if actions[matched].name != p.name {
            return None;
          }
          actions := Closed(actions, matched);
          actions := actions + [Action(CloseBlock, p.name, matched)];
          blocks := blocks[..|blocks| - 1];
        case _ =>
          actions := actions + [Action(p.kind, p.name, 0)];
      }
      i := i + 1;
    }
    RunNothing(State(actions, blocks));
    TextsUpTo(pieces, last, i);
    texts := texts + [last];
    actions := actions + [Action(Ignore, [], 0)];
    return Some(Code(actions, texts));
  }

  lemma TextsUpTo(pieces: seq<Piece>, last: Text, i: nat)
    requires i <= |pieces|
    ensures i == |pieces| ==> TextsOf(pieces[i..], last) == [last]
    ensures i < |pieces| ==> TextsOf(pieces[i..], last) == [pieces[i].text] + TextsOf(pieces[i + 1..], last)
    ensures i == 0 ==> [] + TextsOf(pieces[i..], last) == TextsOf(pieces, last)
  {
    if i < |pieces| {
      assert pieces[i..][1..] == pieces[i + 1..];
    }
    if i == 0 { assert pieces[i..] == pieces; }
  }

  /** `parse`: the tags are cut, lone ones take their lines with them, and the blocks are matched. */
  method Load(body: Text) returns (r: Option<Code>)
    ensures r == Compile(body)
  {
    hide Run;
    hide Scan;
    hide Trim;
    hide Flattened;
    var scanned := ScanBody(body);
    if scanned.Refused? {
      return None;
    }
    var cuts := TrimLines(scanned.pieces, scanned.last);
    r := ParseTags(cuts);
  }

  /** A template's text rendered in a context, partials taken from `lib`, watched for `limit` turns. */
  method Render(lib: Library, body: Text, ctx: Json, limit: nat) returns (status: Status, text: Text)
    ensures match Compile(body)
            case None => status == Thrown
            case Some(c) =>
              match Rendered(lib, c, ctx, limit)
              case Ended(_, out) => status == Returned && text == out
              case Threw => status == Thrown
              case Undefined => status == Broken
              case Running => status == Watched
  {
    hide Compile;
    hide Runs;
    var code := Load(body);
    if code.None? {
      return Thrown, [];
    }
    var renderer := new Renderer(lib, code.value, [ctx], []);
    NoBlanks([]);
    status := renderer.RenderInternal(0, |code.value.texts| - 1, 0, limit);
    text := renderer.out;
  }

  // ----- what templates with closed blocks render to -----

  /** Watched for `n` turns or more, rendering has ended with this meaning. */
  ghost predicate RendersBy(lib: Library, c: Code, ctx: Json, m: Meaning, n: nat)
    requires Sound(c)
  {
    forall limit: nat :: n <= limit ==> Rendered(lib, c, ctx, limit) == if m.Prints? then Ended([ctx], m.text) else Threw
  }

  ghost predicate RendersTo(lib: Library, c: Code, ctx: Json, m: Meaning)
    requires Sound(c)
  {
    exists n: nat :: RendersBy(lib, c, ctx, m, n)
  }

  /**
   * A template whose blocks are all closed is rendered with the meaning of its blocks, or throws where that fails, and
   * its rendering ends, if the depth of partials within partials is bounded.
   */
  lemma RendersMeaning(lib: Library, body: Text, ctx: Json, depth: nat)
    requires StructureOf(body).Nested?
    ensures Compile(body).Some?
    ensures var m := Eval(lib, StructureOf(body).t, [ctx], 0, true, depth);
            !m.Unknown? ==> RendersTo(lib, Compile(body).value, ctx, m)
  {
    hide Compile;
    hide StructureOf;
    hide Lays;
    hide Eval;
    hide Runs;
    CompiledLays(body);
    var t, c := StructureOf(body).t, Compile(body).value;
    var m := Eval(lib, t, [ctx], 0, true, depth);
    var n := WholeRuns(Range(lib, c, |c.texts| - 1, 0), t, 0, [ctx], [], depth);
    if !m.Unknown? {
      var o := if m.Prints? then Ended([ctx], m.text) else Threw;
      assert m.Prints? ==> [] + m.text == m.text;
      forall limit: nat | n <= limit ensures Rendered(lib, c, ctx, limit) == o {
        RunsMore(lib, c, 0, |c.texts| - 1, [ctx], [], 0, n, limit);
      }
      assert RendersBy(lib, c, ctx, m, n);
    }
  }

  lemma TrimmedNests(t: Template)
    ensures var cuts := Trim(Cuts(Pieces(t), End(t)));
            Run(START, cuts.pieces).Some? && Nest(cuts.pieces, cuts.last).Some? && Nest(cuts.pieces, cuts.last).value.1 == []
  {
    hide Run;
    hide Nest;
    hide TrimTags;
    var ps := Pieces(t);
    var cuts := Trim(Cuts(ps, End(t)));
    RunPieces(START, t);
    TrimKeepsTags(Cuts(ps, End(t)), |ps|);
    RunSame(START, START, ps, cuts.pieces);
    ParseIsNest(cuts.pieces, cuts.last);
  }

  /** The template with the lines of its lone tags gone. */
  function Trimmed(t: Template): Template {
    TrimmedNests(t);
    var cuts := Trim(Cuts(Pieces(t), End(t)));
    Nest(cuts.pieces, cuts.last).value.0
  }

  /**
   * From text to output: a template of nested blocks, written out in any form and with any delimiters, parsed and
   * rendered, prints what its blocks mean once the lines of its lone tags are gone.
   */
  lemma WrittenRenders(lib: Library, t: Template, ws: seq<Written>, ctx: Json, depth: nat)
    requires AllClean(ws, End(t), STANDARD) && PiecesOf(ws) == Pieces(t)
    ensures var body := AllText(ws, End(t), STANDARD);
            && Compile(body).Some?
            && var m := Eval(lib, Trimmed(t), [ctx], 0, true, depth);
            !m.Unknown? ==> RendersTo(lib, Compile(body).value, ctx, m)
  {
    hide Scan;
    hide Nest;
    hide Run;
    hide Trim;
    hide AllClean;
    hide Eval;
    hide Compile;
    hide RendersTo;
    TemplateRoundTrip(t, ws);
    TrimmedNests(t);
    RendersMeaning(lib, AllText(ws, End(t), STANDARD), ctx, depth);
  }
}
