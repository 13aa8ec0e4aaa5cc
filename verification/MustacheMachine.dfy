/**
 * The renderer's loop over flat actions, on any actions that the parser lets through, also those of blocks that are
 * never closed: what a run has done after so many turns.
 */
module MustacheMachine {
  import opened Common
  import opened JsonSpec
  import opened MustacheModel
  import opened MustacheFlat
  import opened MustacheParse
  import opened MustacheScan
  import opened MustacheTrim
  import opened MustacheMeaning

  /** The actions of a template and the texts before them; the last action is none. */
  datatype Code = Code(actions: seq<Action>, texts: seq<Text>)

  predicate Sound(c: Code) {
    |c.texts| == |c.actions| > 0 && forall i :: 0 <= i < |c.actions| ==> c.actions[i].pos < |c.actions|
  }

  predicate PositionsWithin(actions: seq<Action>) { forall i :: 0 <= i < |actions| ==> actions[i].pos < |actions| }

  lemma PushWithin(s: State, p: Piece)
    requires Valid(s) && PositionsWithin(s.actions) && Push(s, p).Some?
    ensures PositionsWithin(Push(s, p).value.actions) && |Push(s, p).value.actions| == |s.actions| + 1
  {}

  lemma {:induction false} RunWithin(s: State, pieces: seq<Piece>)
    requires Valid(s) && PositionsWithin(s.actions) && Run(s, pieces).Some?
    ensures PositionsWithin(Run(s, pieces).value.actions) && |Run(s, pieces).value.actions| == |s.actions| + |pieces|
    decreases |pieces|
  {
    hide Push;
    hide PositionsWithin;
    if pieces != [] {
      PushWithin(s, pieces[0]);
      RunWithin(Push(s, pieces[0]).value, pieces[1..]);
    }
  }

  function Flattened(cuts: Cuts): (c: Code)
    requires Run(START, cuts.pieces).Some?
    ensures Sound(c)
  {
    RunWithin(START, cuts.pieces);
    Code(Run(START, cuts.pieces).value.actions + [Action(Ignore, [], 0)], TextsOf(cuts.pieces, cuts.last))
  }

  /** `template_t(body)`: None where it throws. */
  function Compile(body: Text): (r: Option<Code>)
    ensures r.Some? ==> Sound(r.value)
  {
    match CutUp(body) case None => None case Some(cuts) => Some(Flattened(cuts))
  }

  // ----- runs -----

  /** How a run of `render_internal` goes: it returns, throws, uses a stack without a context, or goes on. */
  datatype Outcome = Ended(stack: seq<Json>, out: Text) | Threw | Undefined | Running

  /** One turn of its loop: on to another action, or out of it. */
  datatype Next = Goes(current: nat, stack: seq<Json>, out: Text) | Stops(how: Outcome)

  function ShownAt(c: Code, i: nat, indent: nat): Text
    requires i < |c.texts|
  {
    Shown(c.texts[i], indent, i == |c.texts| - 1)
  }

  function Then(o: Outcome, current: nat): Next { if o.Ended? then Goes(current, o.stack, o.out) else Stops(o) }

  /** A turn at an action, with calls for lists and partials that take up to `limit` turns in a row. */
  function Turn(lib: Library, c: Code, current: nat, stack: seq<Json>, out: Text, indent: nat, limit: nat): Next
    requires Sound(c) && current < |c.actions|
    decreases limit, 2
  {
    var a := c.actions[current];
    var out := out + ShownAt(c, current, indent);
    if a.kind == Ignore then Goes(current + 1, stack, out)
    else if a.kind == CloseBlock then
      if stack == [] then Stops(Undefined) else Goes(current + 1, stack[..|stack| - 1], out)
    else if a.kind.Partial? then
      var inner := Compile(lib(a.name));
      if inner.None? then Stops(Threw)
      else
        var deeper := Deeper(indent, a.kind.width);
        Then(Runs(lib, inner.value, 0, |inner.value.texts| - 1, stack, out + Blanks(deeper), deeper, limit), current + 1)
    else if stack == [] && a.name == ['.'] then Stops(Undefined)
    else
      var found := Find(a.name, stack);
      if a.kind == OpenBlock then
        if Falsy(found) then Goes(a.pos + 1, stack, out)
        else if found.value.JList? then Then(Each(lib, c, current + 1, a.pos, found.value.items, stack, out, indent, limit), a.pos + 1)
        else Goes(current + 1, stack + [found.value], out)
      else if a.kind == ElseBlock then
        if Falsy(found) then Goes(current + 1, stack + [JNull], out) else Goes(a.pos + 1, stack, out)
      else
        var printed := Printed(found, a.kind == Tag);
        if printed.None? then Stops(Threw) else Goes(current + 1, stack, out + printed.value)
  }

  /** The loop between two actions, watched for `limit` turns. */
  function Runs(lib: Library, c: Code, current: nat, end: nat, stack: seq<Json>, out: Text, indent: nat, limit: nat): Outcome
    requires Sound(c) && end < |c.texts|
    decreases limit, 0
  {
    if limit == 0 then Running
    else if current >= end then Ended(stack, out + ShownAt(c, end, indent))
    else
      match Turn(lib, c, current, stack, out, indent, limit - 1)
      case Goes(next, stack', out') => Runs(lib, c, next, end, stack', out', indent, limit - 1)
      case Stops(how) => how
  }

  /** A call for each item. */
  function Each(lib: Library, c: Code, begin: nat, end: nat, items: seq<Json>, stack: seq<Json>, out: Text, indent: nat, limit: nat): Outcome
    requires Sound(c) && end < |c.texts|
    decreases limit, 1, |items|
  {
    if items == [] then Ended(stack, out)
    else
      match Runs(lib, c, begin, end, stack + [items[0]], out + Blanks(indent), indent, limit)
      case Ended(stack', out') =>
        if stack' == [] then Undefined else Each(lib, c, begin, end, items[1..], stack'[..|stack'| - 1], out', indent, limit)
      case other => other
  }

  /** `render`: the whole template in one context, watched for `limit` turns. */
  function Rendered(lib: Library, c: Code, ctx: Json, limit: nat): Outcome
    requires Sound(c)
  {
    Runs(lib, c, 0, |c.texts| - 1, [ctx], [], 0, limit)
  }

  // ----- watching longer changes nothing that was decided -----

  lemma {:induction false} TurnMore(lib: Library, c: Code, current: nat, stack: seq<Json>, out: Text, indent: nat, n: nat, m: nat)
    requires Sound(c) && current < |c.actions| && n <= m
    requires Turn(lib, c, current, stack, out, indent, n) != Stops(Running)
    ensures Turn(lib, c, current, stack, out, indent, m) == Turn(lib, c, current, stack, out, indent, n)
    decreases n, 2
  {
    hide Runs;
    hide Each;
    hide Compile;
    hide Find;
    hide Printed;
    hide ShownAt;
    hide Blanks;
    var a := c.actions[current];
    var out := out + ShownAt(c, current, indent);
    if a.kind.Partial? {
      var inner := Compile(lib(a.name));
      if inner.Some? {
        var deeper := Deeper(indent, a.kind.width);
        RunsMore(lib, inner.value, 0, |inner.value.texts| - 1, stack, out + Blanks(deeper), deeper, n, m);
      }
    } else if a.kind == OpenBlock && (stack != [] || a.name != ['.']) {
      var found := Find(a.name, stack);
      if !Falsy(found) && found.value.JList? {
        EachMore(lib, c, current + 1, a.pos, found.value.items, stack, out, indent, n, m);
      }
    }
  }

  lemma {:induction false} RunsMore(lib: Library, c: Code, current: nat, end: nat, stack: seq<Json>, out: Text, indent: nat, n: nat, m: nat)
    requires Sound(c) && end < |c.texts| && n <= m
    requires Runs(lib, c, current, end, stack, out, indent, n) != Running
    ensures Runs(lib, c, current, end, stack, out, indent, m) == Runs(lib, c, current, end, stack, out, indent, n)
    decreases n, 0
  {
    hide Turn;
    hide ShownAt;
    if current < end {
      TurnMore(lib, c, current, stack, out, indent, n - 1, m - 1);
      match Turn(lib, c, current, stack, out, indent, n - 1)
      case Goes(next, stack', out') => RunsMore(lib, c, next, end, stack', out', indent, n - 1, m - 1);
      case Stops(_) =>
    }
  }

  lemma {:induction false} EachMore(
    lib: Library, c: Code, begin: nat, end: nat, items: seq<Json>, stack: seq<Json>, out: Text, indent: nat, n: nat, m: nat)
    requires Sound(c) && end < |c.texts| && n <= m
    requires Each(lib, c, begin, end, items, stack, out, indent, n) != Running
    ensures Each(lib, c, begin, end, items, stack, out, indent, m) == Each(lib, c, begin, end, items, stack, out, indent, n)
    decreases n, 1, |items|
  {
    hide Runs;
    hide Blanks;
    if items != [] {
      RunsMore(lib, c, begin, end, stack + [items[0]], out + Blanks(indent), indent, n, m);
      match Runs(lib, c, begin, end, stack + [items[0]], out + Blanks(indent), indent, n)
      case Ended(stack', out') =>
        if stack' != [] { EachMore(lib, c, begin, end, items[1..], stack'[..|stack'| - 1], out', indent, n, m); }
      case _ =>
    }
  }

  /** A turn and the run behind it. */
  lemma TurnThen(
    lib: Library, c: Code, current: nat, end: nat, stack: seq<Json>, out: Text, indent: nat, k: nat, next: Next, m: nat) returns (n: nat)
    requires Sound(c) && current < end < |c.texts| && Turn(lib, c, current, stack, out, indent, k) == next && next.Goes?
    requires Runs(lib, c, next.current, end, next.stack, next.out, indent, m) != Running
    ensures Runs(lib, c, current, end, stack, out, indent, n) == Runs(lib, c, next.current, end, next.stack, next.out, indent, m)
  {
    hide Turn;
    hide ShownAt;
    n := (if k < m then m else k) + 1;
    TurnMore(lib, c, current, stack, out, indent, k, n - 1);
    RunsMore(lib, c, next.current, end, next.stack, next.out, indent, m, n - 1);
  }

  lemma TurnStops(lib: Library, c: Code, current: nat, end: nat, stack: seq<Json>, out: Text, indent: nat, k: nat)
    requires Sound(c) && current < end < |c.texts| && Turn(lib, c, current, stack, out, indent, k) == Stops(Threw)
    ensures Runs(lib, c, current, end, stack, out, indent, k + 1) == Threw
  {
    hide Turn;
    hide ShownAt;
  }
}
