/** Runs of templates whose blocks are all closed end, with the output of their meaning; others may go on for ever. */
module MustacheRuns {
  import opened Common
  import opened JsonSpec
  import opened MustacheModel
  import opened MustacheFlat
  import opened MustacheParse
  import opened MustacheTrim
  import opened MustacheMeaning
  import opened MustacheMachine

  /** A range of a template's actions that is rendered, and the indentation of its lines. */
  datatype Range = Range(lib: Library, code: Code, end: nat, indent: nat)

  ghost predicate Fits(r: Range) { Sound(r.code) && r.end < |r.code.texts| }

  function From(r: Range, i: nat, stack: seq<Json>, out: Text, limit: nat): Outcome
    requires Fits(r)
  {
    Runs(r.lib, r.code, i, r.end, stack, out, r.indent, limit)
  }

  function TurnAt(r: Range, i: nat, stack: seq<Json>, out: Text, limit: nat): Next
    requires Fits(r) && i < r.end
  {
    Turn(r.lib, r.code, i, stack, out, r.indent, limit)
  }

  /** What a template prints before its last text. */
  function Front(r: Range, t: Template, stack: seq<Json>, depth: nat): Meaning
    requires stack != []
    decreases t
  {
    match t
    case Last(_) => Prints([])
    case More(text, part, rest) =>
      Join(Join(Prints(Shown(text, r.indent, false)), EvalPart(r.lib, part, stack, r.indent, depth)), Front(r, rest, stack, depth))
  }

  lemma {:induction false} EvalIsFront(r: Range, t: Template, stack: seq<Json>, final: bool, depth: nat)
    requires stack != []
    ensures Eval(r.lib, t, stack, r.indent, final, depth) == Join(Front(r, t, stack, depth), Prints(Shown(End(t), r.indent, final)))
    decreases t
  {
    hide EvalPart;
    hide Shown;
    match t
    case Last(text) => assert [] + Shown(text, r.indent, final) == Shown(text, r.indent, final);
    case More(text, part, rest) =>
      EvalIsFront(r, rest, stack, final, depth);
      JoinAssociates(Join(Prints(Shown(text, r.indent, false)), EvalPart(r.lib, part, stack, r.indent, depth)),
                     Front(r, rest, stack, depth), Prints(Shown(End(rest), r.indent, final)));
  }

  /** A run from `i` says what it says from `j` on, behind the output `m`, or throws. */
  ghost predicate Leads(r: Range, i: nat, stack: seq<Json>, out: Text, n: nat, m: Meaning, j: nat, k: nat)
    requires Fits(r)
  {
    && (m.Prints? ==> From(r, i, stack, out, n) == From(r, j, stack, out + m.text, k))
    && (m.Fails? ==> From(r, i, stack, out, n) == Threw)
  }

  /** Watching from `j` on for `k` turns is enough. */
  ghost predicate Enough(r: Range, stack: seq<Json>, out: Text, m: Meaning, j: nat, k: nat)
    requires Fits(r)
  {
    m.Prints? ==> From(r, j, stack, out + m.text, k) != Running
  }

  /** A turn that prints `m` behind its text and goes on at `j`, or throws. */
  lemma PrintTurn(r: Range, i: nat, stack: seq<Json>, out: Text, q: nat, m: Meaning, j: nat, k: nat) returns (n: nat)
    requires Fits(r) && i < r.end
    requires var before := Prints(ShownAt(r.code, i, r.indent)); Enough(r, stack, out, Join(before, m), j, k)
    requires m.Prints? ==> TurnAt(r, i, stack, out, q) == Goes(j, stack, out + ShownAt(r.code, i, r.indent) + m.text)
    requires m.Fails? ==> TurnAt(r, i, stack, out, q) == Stops(Threw)
    ensures Leads(r, i, stack, out, n, Join(Prints(ShownAt(r.code, i, r.indent)), m), j, k)
  {
    hide Turn;
    hide Runs;
    hide ShownAt;
    n := 0;
    var text := ShownAt(r.code, i, r.indent);
    if m.Prints? {
      assert out + text + m.text == out + (text + m.text);
      n := TurnThen(r.lib, r.code, i, r.end, stack, out, r.indent, q, Goes(j, stack, out + text + m.text), k);
    } else if m.Fails? {
      TurnStops(r.lib, r.code, i, r.end, stack, out, r.indent, q);
      n := q + 1;
    }
  }

  lemma {:induction false} EndText(c: Code, t: Template, i: nat)
    requires Lays(c.actions, c.texts, t, i)
    ensures i + Size(t) < |c.texts| && c.texts[i + Size(t)] == End(t)
    decreases t
  {
    hide LaysPart;
    if t.More? { EndText(c, t.rest, i + PartSize(t.part)); }
  }

  lemma ShownInside(r: Range, i: nat)
    requires Fits(r) && i < r.end
    ensures ShownAt(r.code, i, r.indent) == Shown(r.code.texts[i], r.indent, false)
  {}

  /** The parts of a template, one after the other, up to its last text. */
  lemma {:induction false} FrontRuns(r: Range, t: Template, i: nat, stack: seq<Json>, out: Text, depth: nat, k: nat) returns (n: nat)
    requires Fits(r) && Lays(r.code.actions, r.code.texts, t, i) && i + Size(t) <= r.end && stack != []
    requires Enough(r, stack, out, Front(r, t, stack, depth), i + Size(t), k)
    ensures Leads(r, i, stack, out, n, Front(r, t, stack, depth), i + Size(t), k)
    decreases depth, t, 2
  {
    hide Runs;
    hide LaysPart;
    hide EvalPart;
    hide ShownAt;
    hide Shown;
    if t.Last? {
      assert out + [] == out;
      n := k;
    } else {
      var j := i + PartSize(t.part);
      ShownInside(r, i);
      var first := Join(Prints(ShownAt(r.code, i, r.indent)), EvalPart(r.lib, t.part, stack, r.indent, depth));
      var rest := Front(r, t.rest, stack, depth);
      var l := 0;
      if first.Prints? {
        if rest.Prints? { assert out + first.text + rest.text == out + (first.text + rest.text); }
        l := FrontRuns(r, t.rest, j, stack, out + first.text, depth, k);
      }
      if first.Prints? && rest.Unknown? {
        n := 0;
      } else {
        n := PartRuns(r, t.part, i, stack, out, depth, l);
      }
    }
  }

  /** One part: a turn or more, and the calls they make. */
  lemma {:induction false} PartRuns(r: Range, part: Part, i: nat, stack: seq<Json>, out: Text, depth: nat, k: nat) returns (n: nat)
    requires Fits(r) && LaysPart(r.code.actions, r.code.texts, part, i) && i + PartSize(part) <= r.end && stack != []
    requires Enough(r, stack, out, Join(Prints(ShownAt(r.code, i, r.indent)), EvalPart(r.lib, part, stack, r.indent, depth)), i + PartSize(part), k)
    ensures Leads(r, i, stack, out, n, Join(Prints(ShownAt(r.code, i, r.indent)), EvalPart(r.lib, part, stack, r.indent, depth)), i + PartSize(part), k)
    decreases depth, part, 2
  {
    hide Runs;
    hide ShownAt;
    hide Lays;
    hide Enough;
    hide Leads;
    match part
    case Section(name, body) => n := SectionRuns(r, part, i, stack, out, depth, k);
    case Inverted(name, body) => n := InvertedRuns(r, part, i, stack, out, depth, k);
    case Include(name, width) => n := IncludeRuns(r, part, i, stack, out, depth, k);
    case _ => n := TagRuns(r, part, i, stack, out, depth, k);
  }

  lemma TagRuns(r: Range, part: Part, i: nat, stack: seq<Json>, out: Text, depth: nat, k: nat) returns (n: nat)
    requires Fits(r) && LaysPart(r.code.actions, r.code.texts, part, i) && i + PartSize(part) <= r.end && stack != []
    requires part.Comment? || part.Value?
    requires Enough(r, stack, out, Join(Prints(ShownAt(r.code, i, r.indent)), EvalPart(r.lib, part, stack, r.indent, depth)), i + PartSize(part), k)
    ensures Leads(r, i, stack, out, n, Join(Prints(ShownAt(r.code, i, r.indent)), EvalPart(r.lib, part, stack, r.indent, depth)), i + PartSize(part), k)
  {
    hide ShownAt;
    hide Find;
    hide Printed;
    var text := ShownAt(r.code, i, r.indent);
    assert out + text + [] == out + text;
    n := PrintTurn(r, i, stack, out, 0, EvalPart(r.lib, part, stack, r.indent, depth), i + 1, k);
  }

  /** The closing action of a block that was entered. */
  lemma CloseRuns(r: Range, j: nat, stack: seq<Json>, ctx: Json, out: Text, k: nat) returns (n: nat)
    requires Fits(r) && j < r.end && r.code.actions[j].kind == CloseBlock
    requires From(r, j + 1, stack, out + ShownAt(r.code, j, r.indent), k) != Running
    ensures From(r, j, stack + [ctx], out, n) == From(r, j + 1, stack, out + ShownAt(r.code, j, r.indent), k)
  {
    hide Runs;
    hide ShownAt;
    assert (stack + [ctx])[..|stack|] == stack;
    n := TurnThen(r.lib, r.code, j, r.end, stack + [ctx], out, r.indent, 0, Goes(j + 1, stack, out + ShownAt(r.code, j, r.indent)), k);
  }

  /** A block's body up to its closing action, and on behind it. */
  lemma {:induction false} BodyRuns(r: Range, body: Template, i: nat, stack: seq<Json>, ctx: Json, out: Text, depth: nat, k: nat) returns (n: nat)
    requires Fits(r) && Lays(r.code.actions, r.code.texts, body, i) && i + Size(body) < r.end
    requires r.code.actions[i + Size(body)].kind == CloseBlock
    requires var m := Eval(r.lib, body, stack + [ctx], r.indent, false, depth);
             m.Prints? ==> From(r, i + Size(body) + 1, stack, out + m.text, k) != Running
    ensures var m := Eval(r.lib, body, stack + [ctx], r.indent, false, depth);
            && (m.Prints? ==> From(r, i, stack + [ctx], out, n) == From(r, i + Size(body) + 1, stack, out + m.text, k))
            && (m.Fails? ==> From(r, i, stack + [ctx], out, n) == Threw)
    decreases depth, body, 3
  {
    hide Runs;
    hide ShownAt;
    hide Shown;
    hide Lays;
    hide Eval;
    hide Front;
    var j, inner := i + Size(body), stack + [ctx];
    var f := Front(r, body, inner, depth);
    EvalIsFront(r, body, inner, false, depth);
    EndText(r.code, body, i);
    ShownInside(r, j);
    var l := 0;
    if f.Prints? {
      assert out + f.text + ShownAt(r.code, j, r.indent) == out + (f.text + ShownAt(r.code, j, r.indent));
      l := CloseRuns(r, j, stack, ctx, out + f.text, k);
    }
    n := FrontRuns(r, body, i, inner, out, depth, l);
  }

  /** A block entered without a call. */
  lemma {:induction false} EnterRuns(
    r: Range, body: Template, i: nat, stack: seq<Json>, ctx: Json, out: Text, depth: nat, k: nat) returns (n: nat)
    requires Fits(r) && Lays(r.code.actions, r.code.texts, body, i + 1) && i + Size(body) + 2 <= r.end
    requires r.code.actions[i + 1 + Size(body)].kind == CloseBlock
    requires TurnAt(r, i, stack, out, 0) == Goes(i + 1, stack + [ctx], out + ShownAt(r.code, i, r.indent))
    requires var m := Join(Prints(ShownAt(r.code, i, r.indent)), Eval(r.lib, body, stack + [ctx], r.indent, false, depth));
             Enough(r, stack, out, m, i + Size(body) + 2, k)
    ensures var m := Join(Prints(ShownAt(r.code, i, r.indent)), Eval(r.lib, body, stack + [ctx], r.indent, false, depth));
            Leads(r, i, stack, out, n, m, i + Size(body) + 2, k)
    decreases depth, body, 4
  {
    hide Runs;
    hide Turn;
    hide ShownAt;
    hide Lays;
    hide Eval;
    var out1 := out + ShownAt(r.code, i, r.indent);
    var m := Eval(r.lib, body, stack + [ctx], r.indent, false, depth);
    n := 0;
    if m.Prints? { assert out1 + m.text == out + (ShownAt(r.code, i, r.indent) + m.text); }
    if !m.Unknown? {
      n := BodyRuns(r, body, i + 1, stack, ctx, out1, depth, k);
      n := TurnThen(r.lib, r.code, i, r.end, stack, out, r.indent, 0, Goes(i + 1, stack + [ctx], out1), n);
    }
  }

  lemma {:induction false} SectionRuns(r: Range, part: Part, i: nat, stack: seq<Json>, out: Text, depth: nat, k: nat) returns (n: nat)
    requires Fits(r) && LaysPart(r.code.actions, r.code.texts, part, i) && i + PartSize(part) <= r.end && stack != [] && part.Section?
    requires Enough(r, stack, out, Join(Prints(ShownAt(r.code, i, r.indent)), EvalPart(r.lib, part, stack, r.indent, depth)), i + PartSize(part), k)
    ensures Leads(r, i, stack, out, n, Join(Prints(ShownAt(r.code, i, r.indent)), EvalPart(r.lib, part, stack, r.indent, depth)), i + PartSize(part), k)
    decreases depth, part, 1
  {
    hide Runs;
    hide Each;
    hide EvalEach;
    hide ShownAt;
    hide Lays;
    hide Find;
    hide Enough;
    hide Leads;
    hide Eval;
    var found := Find(part.name, stack);
    var text := ShownAt(r.code, i, r.indent);
    if Falsy(found) {
      assert out + text + [] == out + text;
      n := PrintTurn(r, i, stack, out, 0, Prints([]), i + PartSize(part), k);
    } else if found.value.JList? {
      var inner := Range(r.lib, r.code, i + 1 + Size(part.body), r.indent);
      var q := EachRuns(inner, part.body, i + 1, found.value.items, stack, out + text, depth);
      n := PrintTurn(r, i, stack, out, q, EvalEach(r.lib, part.body, stack, found.value.items, r.indent, depth), i + PartSize(part), k);
    } else {
      n := EnterRuns(r, part.body, i, stack, found.value, out, depth, k);
    }
  }

  lemma {:induction false} InvertedRuns(r: Range, part: Part, i: nat, stack: seq<Json>, out: Text, depth: nat, k: nat) returns (n: nat)
    requires Fits(r) && LaysPart(r.code.actions, r.code.texts, part, i) && i + PartSize(part) <= r.end && stack != [] && part.Inverted?
    requires Enough(r, stack, out, Join(Prints(ShownAt(r.code, i, r.indent)), EvalPart(r.lib, part, stack, r.indent, depth)), i + PartSize(part), k)
    ensures Leads(r, i, stack, out, n, Join(Prints(ShownAt(r.code, i, r.indent)), EvalPart(r.lib, part, stack, r.indent, depth)), i + PartSize(part), k)
    decreases depth, part, 1
  {
    hide Runs;
    hide ShownAt;
    hide Lays;
    hide Find;
    hide Falsy;
    hide Enough;
    hide Leads;
    hide Eval;
    var text := ShownAt(r.code, i, r.indent);
    if Falsy(Find(part.name, stack)) {
      n := EnterRuns(r, part.body, i, stack, JNull, out, depth, k);
    } else {
      assert out + text + [] == out + text;
      n := PrintTurn(r, i, stack, out, 0, Prints([]), i + PartSize(part), k);
    }
  }

  /** A template that fills its range is rendered as what it means. */
  lemma {:induction false} WholeRuns(r: Range, t: Template, i: nat, stack: seq<Json>, out: Text, depth: nat) returns (n: nat)
    requires Fits(r) && Lays(r.code.actions, r.code.texts, t, i) && i + Size(t) == r.end && stack != []
    ensures var m := Eval(r.lib, t, stack, r.indent, r.end == |r.code.texts| - 1, depth);
            && (m.Prints? ==> From(r, i, stack, out, n) == Ended(stack, out + m.text))
            && (m.Fails? ==> From(r, i, stack, out, n) == Threw)
    decreases depth, t, 3
  {
    hide Turn;
    hide Shown;
    hide Lays;
    hide Eval;
    hide Front;
    var f := Front(r, t, stack, depth);
    EvalIsFront(r, t, stack, r.end == |r.code.texts| - 1, depth);
    EndText(r.code, t, i);
    if f.Prints? { assert out + f.text + ShownAt(r.code, r.end, r.indent) == out + (f.text + ShownAt(r.code, r.end, r.indent)); }
    n := FrontRuns(r, t, i, stack, out, depth, 1);
  }

  /** What a run or a call for each item comes to: the output, or an exception. */
  ghost predicate Yields(o: Outcome, m: Meaning, stack: seq<Json>, out: Text) {
    (m.Prints? ==> o == Ended(stack, out + m.text)) && (m.Fails? ==> o == Threw)
  }

  lemma {:induction false} EachRuns(r: Range, body: Template, i: nat, items: seq<Json>, stack: seq<Json>, out: Text, depth: nat) returns (n: nat)
    requires Fits(r) && Lays(r.code.actions, r.code.texts, body, i) && i + Size(body) == r.end < |r.code.texts| - 1 && stack != []
    ensures Yields(Each(r.lib, r.code, i, r.end, items, stack, out, r.indent, n), EvalEach(r.lib, body, stack, items, r.indent, depth), stack, out)
    decreases depth, body, 4, |items|
  {
    hide Runs;
    hide Lays;
    hide Eval;
    hide Blanks;
    n := 0;
    if items == [] {
      assert out + [] == out;
    } else {
      var inner, out1 := stack + [items[0]], out + Blanks(r.indent);
      var first := Eval(r.lib, body, inner, r.indent, false, depth);
      n := WholeRuns(r, body, i, inner, out1, depth);
      assert inner[..|inner| - 1] == stack;
      if first.Prints? {
        assert out1 + first.text == out + (Blanks(r.indent) + first.text);
        var rest := EvalEach(r.lib, body, stack, items[1..], r.indent, depth);
        var l := EachRuns(r, body, i, items[1..], stack, out1 + first.text, depth);
        if rest.Prints? { assert out1 + first.text + rest.text == out + (Blanks(r.indent) + first.text + rest.text); }
        if !rest.Unknown? { n := EachFirst(r, i, items, stack, out, n, out1 + first.text, l); }
      }
    }
  }

  lemma EachFirst(r: Range, i: nat, items: seq<Json>, stack: seq<Json>, out: Text, k: nat, out1: Text, l: nat) returns (n: nat)
    requires Fits(r) && items != []
    requires From(r, i, stack + [items[0]], out + Blanks(r.indent), k) == Ended(stack + [items[0]], out1)
    requires Each(r.lib, r.code, i, r.end, items[1..], stack, out1, r.indent, l) != Running
    ensures Each(r.lib, r.code, i, r.end, items, stack, out, r.indent, n) == Each(r.lib, r.code, i, r.end, items[1..], stack, out1, r.indent, l)
  {
    hide Runs;
    hide Blanks;
    n := if k < l then l else k;
    RunsMore(r.lib, r.code, i, r.end, stack + [items[0]], out + Blanks(r.indent), r.indent, k, n);
    EachMore(r.lib, r.code, i, r.end, items[1..], stack, out1, r.indent, l, n);
    assert (stack + [items[0]])[..|stack|] == stack;
  }

  // ----- partials -----

  lemma FlatLaysAll(c: Code, t: Template)
    requires c.actions == Flat(t, 0) + [Action(Ignore, [], 0)] && c.texts == TextsOf(Pieces(t), End(t))
    ensures Lays(c.actions, c.texts, t, 0) && Size(t) == |c.texts| - 1
  {
    hide Lays;
    hide Flat;
    hide Pieces;
    hide TextsOf;
    PiecesCount(t);
    assert c.actions[0..Size(t)] == Flat(t, 0);
    assert c.texts[0..|c.texts|] == c.texts;
    FlatLays(c.actions, c.texts, t, 0);
  }

  /** A body whose blocks are all closed compiles to code that lies as they do. */
  lemma CompiledLays(body: Text)
    ensures StructureOf(body).NoTemplate? ==> Compile(body).None?
    ensures StructureOf(body).Nested? ==>
              var t := StructureOf(body).t;
              Compile(body).Some? && Lays(Compile(body).value.actions, Compile(body).value.texts, t, 0) && Size(t) == |Compile(body).value.texts| - 1
  {
    hide Run;
    hide Nest;
    hide CutUp;
    hide Lays;
    hide TextsOf;
    if StructureOf(body).Nested? {
      var cuts := CutUp(body).value;
      ParseIsNest(cuts.pieces, cuts.last);
      FlatLaysAll(Flattened(cuts), StructureOf(body).t);
    }
  }

  /** What a partial prints behind the indentation of its first line. */
  lemma {:induction false} IncludedRuns(r: Range, part: Part, i: nat, stack: seq<Json>, out: Text, depth: nat) returns (q: nat)
    requires Fits(r) && LaysPart(r.code.actions, r.code.texts, part, i) && i < r.end && stack != [] && part.Include?
    ensures var m := EvalPart(r.lib, part, stack, r.indent, depth);
            && (m.Prints? ==> TurnAt(r, i, stack, out, q) == Goes(i + 1, stack, out + ShownAt(r.code, i, r.indent) + m.text))
            && (m.Fails? ==> TurnAt(r, i, stack, out, q) == Stops(Threw))
    decreases depth, part, 0
  {
    hide Runs;
    hide ShownAt;
    hide Blanks;
    hide Eval;
    hide Lays;
    hide Compile;
    hide StructureOf;
    q := 0;
    var body := r.lib(part.name);
    CompiledLays(body);
    if depth > 0 && StructureOf(body).Nested? {
      var t, c, deeper := StructureOf(body).t, Compile(body).value, Deeper(r.indent, part.width);
      var out1 := out + ShownAt(r.code, i, r.indent);
      q := WholeRuns(Range(r.lib, c, |c.texts| - 1, deeper), t, 0, stack, out1 + Blanks(deeper), depth - 1);
      var m := Eval(r.lib, t, stack, deeper, true, depth - 1);
      if m.Prints? { assert out1 + Blanks(deeper) + m.text == out1 + (Blanks(deeper) + m.text); }
    }
  }

  lemma {:induction false} IncludeRuns(r: Range, part: Part, i: nat, stack: seq<Json>, out: Text, depth: nat, k: nat) returns (n: nat)
    requires Fits(r) && LaysPart(r.code.actions, r.code.texts, part, i) && i + PartSize(part) <= r.end && stack != [] && part.Include?
    requires Enough(r, stack, out, Join(Prints(ShownAt(r.code, i, r.indent)), EvalPart(r.lib, part, stack, r.indent, depth)), i + PartSize(part), k)
    ensures Leads(r, i, stack, out, n, Join(Prints(ShownAt(r.code, i, r.indent)), EvalPart(r.lib, part, stack, r.indent, depth)), i + PartSize(part), k)
    decreases depth, part, 1
  {
    hide Turn;
    hide ShownAt;
    hide EvalPart;
    hide Enough;
    hide Leads;
    hide LaysPart;
    var q := IncludedRuns(r, part, i, stack, out, depth);
    n := PrintTurn(r, i, stack, out, q, EvalPart(r.lib, part, stack, r.indent, depth), i + 1, k);
  }
}
