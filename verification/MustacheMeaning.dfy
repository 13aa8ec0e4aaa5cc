/** What a template prints: the meaning of its nested blocks. */
module MustacheMeaning {
  import opened Common
  import opened JsonSpec
  import opened MustacheModel
  import opened MustacheFlat
  import opened MustacheParse
  import opened MustacheScan
  import opened MustacheTrim

  /** The templates that partials name, as `load` reads them. */
  type Library = Text -> Text

  /** A body as the parser cuts and trims it; None where it throws. */
  function CutUp(body: Text): (r: Option<Cuts>)
    ensures r.Some? ==> Run(START, r.value.pieces).Some?
  {
    match Scan(body, STANDARD, 0)
    case Refused => None
    case Scanned(pieces, last) =>
      var cuts := Trim(Cuts(pieces, last));
      if Run(START, cuts.pieces).None? then None else Some(cuts)
  }

  const START := State([], [])

  /** What the parser knows of its blocks does not depend on texts and indentations. */
  ghost predicate SameBlocks(s: State, s': State) {
    && s.blocks == s'.blocks && |s.actions| == |s'.actions|
    && forall i :: 0 <= i < |s.actions| ==> s.actions[i].name == s'.actions[i].name
  }

  lemma PushSame(s: State, s': State, p: Piece, p': Piece)
    requires Valid(s) && Valid(s') && SameBlocks(s, s') && p.name == p'.name && Indenting(p.kind, 0) == Indenting(p'.kind, 0)
    ensures Push(s, p).Some? == Push(s', p').Some? && (Push(s, p).Some? ==> SameBlocks(Push(s, p).value, Push(s', p').value))
  {}

  /** So it makes no difference that the source matches the blocks before it trims the lines. */
  lemma {:induction false} RunSame(s: State, s': State, p: seq<Piece>, p': seq<Piece>)
    requires Valid(s) && Valid(s') && SameBlocks(s, s') && SameTags(p, p')
    ensures Run(s, p).Some? == Run(s', p').Some? && (Run(s, p).Some? ==> SameBlocks(Run(s, p).value, Run(s', p').value))
    decreases |p|
  {
    hide Push;
    hide SameBlocks;
    if p != [] {
      PushSame(s, s', p[0], p'[0]);
      if Push(s, p[0]).Some? { RunSame(Push(s, p[0]).value, Push(s', p'[0]).value, p[1..], p'[1..]); }
    }
  }

  lemma BlocksBeforeLines(pieces: seq<Piece>, last: Text)
    ensures Run(START, pieces).Some? == Run(START, Trim(Cuts(pieces, last)).pieces).Some?
  {
    hide Run;
    hide TrimTags;
    TrimKeepsTags(Cuts(pieces, last), |pieces|);
    RunSame(START, START, pieces, Trim(Cuts(pieces, last)).pieces);
  }

  /** The blocks of a body, if all of them are closed. */
  datatype Structure = NoTemplate | Loose | Nested(t: Template)

  function StructureOf(body: Text): Structure {
    match CutUp(body)
    case None => NoTemplate
    case Some(cuts) =>
      var nest := Nest(cuts.pieces, cuts.last);
      if nest.Some? && nest.value.1 == [] then Nested(nest.value.0) else Loose
  }

  /** Output, an exception, or neither known: partials too deep in each other, or one with a block left open. */
  datatype Meaning = Prints(text: Text) | Fails | Unknown

  /** One meaning behind the other. */
  function Join(a: Meaning, b: Meaning): Meaning {
    if a.Prints? && b.Prints? then Prints(a.text + b.text) else if a.Prints? then b else a
  }

  lemma JoinAssociates(a: Meaning, b: Meaning, c: Meaning)
    ensures Join(Join(a, b), c) == Join(a, Join(b, c))
  {
    if a.Prints? && b.Prints? && c.Prints? {
      assert a.text + b.text + c.text == a.text + (b.text + c.text);
    }
  }

  /** The indentation of a partial's lines: none if it is not alone on its line. */
  function Deeper(indent: nat, width: nat): nat { if width == 0 then 0 else indent + width }

  /**
   * The meaning of a template in a stack of contexts, its lines indented; `final` if it reaches to the end of its body,
   * and with partials in partials up to `depth`.
   */
  function Eval(lib: Library, t: Template, stack: seq<Json>, indent: nat, final: bool, depth: nat): Meaning
    requires stack != []
    decreases depth, t, 0
  {
    match t
    case Last(text) => Prints(Shown(text, indent, final))
    case More(text, part, rest) =>
      Join(Join(Prints(Shown(text, indent, false)), EvalPart(lib, part, stack, indent, depth)), Eval(lib, rest, stack, indent, final, depth))
  }

  function EvalPart(lib: Library, part: Part, stack: seq<Json>, indent: nat, depth: nat): Meaning
    requires stack != []
    decreases depth, part, 0
  {
    match part
    case Comment(_) => Prints([])
    case Value(name, escaped) =>
      (match Printed(Find(name, stack), escaped)
       case None => Fails
       case Some(text) => Prints(text))
    case Section(name, body) =>
      var found := Find(name, stack);
      if Falsy(found) then Prints([])
      else if found.value.JList? then EvalEach(lib, body, stack, found.value.items, indent, depth)
      else Eval(lib, body, stack + [found.value], indent, false, depth)
    case Inverted(name, body) =>
      if Falsy(Find(name, stack)) then Eval(lib, body, stack + [JNull], indent, false, depth) else Prints([])
    case Include(name, width) =>
      if depth == 0 then Unknown
      else
        var inner := Deeper(indent, width);
        match StructureOf(lib(name))
        case NoTemplate => Fails
        case Loose => Unknown
        case Nested(t) => Join(Prints(Blanks(inner)), Eval(lib, t, stack, inner, true, depth - 1))
  }

  /** The body once for every item, each time behind the indentation. */
  function EvalEach(lib: Library, body: Template, stack: seq<Json>, items: seq<Json>, indent: nat, depth: nat): Meaning
    requires stack != []
    decreases depth, body, 1, |items|
  {
    if items == [] then Prints([])
    else
      Join(Join(Prints(Blanks(indent)), Eval(lib, body, stack + [items[0]], indent, false, depth)),
           EvalEach(lib, body, stack, items[1..], indent, depth))
  }
}
