/** From the tags of a template to its flat actions, and from there to its blocks. */
module MustacheParse {
  import opened Common
  import opened MustacheModel
  import opened MustacheFlat

  // ----- a template's tags, in order -----

  function End(t: Template): Text { if t.Last? then t.text else End(t.rest) }

  function Pieces(t: Template): seq<Piece>
    decreases t, 0
  {
    match t
    case Last(_) => []
    case More(text, part, rest) => PartPieces(text, part) + Pieces(rest)
  }

  function PartPieces(text: Text, part: Part): seq<Piece>
    decreases part, 0
  {
    match part
    case Comment(note) => [Piece(text, Ignore, note)]
    case Value(name, escaped) => [Piece(text, if escaped then Tag else UnescapeTag, name)]
    case Include(name, width) => [Piece(text, Partial(width), name)]
    case Section(name, body) => [Piece(text, OpenBlock, name)] + Pieces(body) + [Piece(End(body), CloseBlock, name)]
    case Inverted(name, body) => [Piece(text, ElseBlock, name)] + Pieces(body) + [Piece(End(body), CloseBlock, name)]
  }

  // ----- the flat actions of a template -----

  function Flat(t: Template, i: nat): (r: seq<Action>)
    ensures |r| == Size(t)
    decreases t, 0
  {
    match t
    case Last(_) => []
    case More(_, part, rest) => FlatPart(part, i) + Flat(rest, i + PartSize(part))
  }

  function FlatPart(part: Part, i: nat): (r: seq<Action>)
    ensures |r| == PartSize(part)
    decreases part, 0
  {
    match part
    case Comment(note) => [Action(Ignore, note, 0)]
    case Value(name, escaped) => [Action(if escaped then Tag else UnescapeTag, name, 0)]
    case Include(name, width) => [Action(Partial(width), name, 0)]
    case Section(name, body) => FlatBlock(OpenBlock, name, body, i)
    case Inverted(name, body) => FlatBlock(ElseBlock, name, body, i)
  }

  function FlatBlock(kind: Kind, name: Text, body: Template, i: nat): (r: seq<Action>)
    ensures |r| == Size(body) + 2
    decreases body, 1
  {
    [Action(kind, name, i + 1 + Size(body))] + Flat(body, i + 1) + [Action(CloseBlock, name, i)]
  }

  // ----- the parser's loop -----

  datatype State = State(actions: seq<Action>, blocks: seq<nat>)

  predicate Valid(s: State) { forall b :: 0 <= b < |s.blocks| ==> s.blocks[b] < |s.actions| }

  /** One tag: blocks are remembered when they open and told their end when they close. */
  function Push(s: State, p: Piece): (r: Option<State>)
    requires Valid(s)
    ensures r.Some? ==> Valid(r.value)
  {
    var n := |s.actions|;
    match p.kind
    case OpenBlock => Some(State(s.actions + [Action(p.kind, p.name, 0)], s.blocks + [n]))
    case ElseBlock => Some(State(s.actions + [Action(p.kind, p.name, 0)], s.blocks + [n]))
    case CloseBlock =>
      if s.blocks == [] then None
      else
        var open := s.blocks[|s.blocks| - 1];
        if s.actions[open].name != p.name then None
        else Some(State(Closed(s.actions, open) + [Action(CloseBlock, p.name, open)], s.blocks[..|s.blocks| - 1]))
    case _ => Some(State(s.actions + [Action(p.kind, p.name, 0)], s.blocks))
  }

  /** The opener at `open` learns that its block ends here. */
  function Closed(actions: seq<Action>, open: nat): (r: seq<Action>)
    requires open < |actions|
    ensures |r| == |actions|
  {
    actions[open := Action(actions[open].kind, actions[open].name, |actions|)]
  }

  function Run(s: State, pieces: seq<Piece>): (r: Option<State>)
    requires Valid(s)
    ensures r.Some? ==> Valid(r.value)
    decreases |pieces|
  {
    if pieces == [] then Some(s)
    else
      match Push(s, pieces[0])
      case None => None
      case Some(s') => Run(s', pieces[1..])
  }

  lemma {:induction false} RunJoin(s: State, p: seq<Piece>, q: seq<Piece>)
    requires Valid(s)
    ensures Run(s, p + q) == match Run(s, p) case None => None case Some(s') => Run(s', q)
    decreases |p|
  {
    hide Push;
    if p == [] {
      assert p + q == q;
    } else {
      assert (p + q)[1..] == p[1..] + q;
      var next := Push(s, p[0]);
      if next.Some? { RunJoin(next.value, p[1..], q); }
    }
  }

  lemma RunOne(s: State, p: Piece)
    requires Valid(s)
    ensures Run(s, [p]) == Push(s, p)
  {
    hide Push;
    hide Valid;
    var next := Push(s, p);
    if next.Some? { assert Run(next.value, [p][1..]) == next; }
  }

  /** Running the tags of a template appends its flat actions and leaves the open blocks as they were. */
  lemma {:induction false} RunPieces(s: State, t: Template)
    requires Valid(s)
    ensures Run(s, Pieces(t)) == Some(State(s.actions + Flat(t, |s.actions|), s.blocks))
    decreases t, 0
  {
    hide Run;
    match t
    case Last(_) =>
      RunNothing(s);
      assert s.actions + [] == s.actions;
    case More(text, part, rest) =>
      var n := |s.actions|;
      RunJoin(s, PartPieces(text, part), Pieces(rest));
      RunPart(s, text, part);
      var s' := State(s.actions + FlatPart(part, n), s.blocks);
      RunPieces(s', rest);
      assert s'.actions + Flat(rest, n + PartSize(part)) == s.actions + Flat(t, n);
  }

  lemma RunNothing(s: State)
    requires Valid(s)
    ensures Run(s, []) == Some(s)
  {}

  lemma {:induction false} RunPart(s: State, text: Text, part: Part)
    requires Valid(s)
    ensures Run(s, PartPieces(text, part)) == Some(State(s.actions + FlatPart(part, |s.actions|), s.blocks))
    decreases part, 0
  {
    hide Run;
    match part
    case Comment(note) => RunOne(s, Piece(text, Ignore, note));
    case Value(name, escaped) => RunOne(s, Piece(text, if escaped then Tag else UnescapeTag, name));
    case Include(name, width) => RunOne(s, Piece(text, Partial(width), name));
    case Section(name, body) => RunBlock(s, text, OpenBlock, name, body);
    case Inverted(name, body) => RunBlock(s, text, ElseBlock, name, body);
  }

  lemma {:induction false} RunBlock(s: State, text: Text, kind: Kind, name: Text, body: Template)
    requires Valid(s) && (kind == OpenBlock || kind == ElseBlock)
    ensures Run(s, [Piece(text, kind, name)] + Pieces(body) + [Piece(End(body), CloseBlock, name)]) ==
            Some(State(s.actions + FlatBlock(kind, name, body, |s.actions|), s.blocks))
    decreases body, 1
  {
    hide Run;
    hide Pieces;
    var n := |s.actions|;
    var open, close := Piece(text, kind, name), Piece(End(body), CloseBlock, name);
    RunJoin(s, [open] + Pieces(body), [close]);
    RunJoin(s, [open], Pieces(body));
    RunOne(s, open);
    var s1 := State(s.actions + [Action(kind, name, 0)], s.blocks + [n]);
    RunPieces(s1, body);
    var s2 := State(s1.actions + Flat(body, n + 1), s1.blocks);
    RunOne(s2, close);
    CloseOf(s, kind, name, body);
  }

  lemma CloseOf(s: State, kind: Kind, name: Text, body: Template)
    requires Valid(s)
    ensures var n := |s.actions|;
            var s2 := State(s.actions + [Action(kind, name, 0)] + Flat(body, n + 1), s.blocks + [n]);
            Push(s2, Piece(End(body), CloseBlock, name)) == Some(State(s.actions + FlatBlock(kind, name, body, n), s.blocks))
  {
    hide Flat;
    hide End;
    var n := |s.actions|;
    var a := s.actions + [Action(kind, name, 0)] + Flat(body, n + 1);
    assert a[n] == Action(kind, name, 0);
    assert Closed(a, n) + [Action(CloseBlock, name, n)] == s.actions + FlatBlock(kind, name, body, n);
    assert (s.blocks + [n])[..|s.blocks|] == s.blocks;
  }

  // ----- the block structure, by recursive descent -----

  function TagPart(p: Piece): Part {
    match p.kind case Ignore => Comment(p.name) case Partial(width) => Include(p.name, width) case _ => Value(p.name, p.kind == Tag)
  }

  /** The template at the start of the tags, up to a closing tag that is not its own. */
  function Nest(pieces: seq<Piece>, last: Text): (r: Option<(Template, seq<Piece>)>)
    ensures r.Some? ==> |r.value.1| <= |pieces| && (r.value.1 != [] ==> r.value.1[0].kind == CloseBlock)
    decreases |pieces|
  {
    if pieces == [] then Some((Last(last), []))
    else
      var p := pieces[0];
      match p.kind
      case CloseBlock => Some((Last(p.text), pieces))
      case OpenBlock => NestBlock(pieces, last)
      case ElseBlock => NestBlock(pieces, last)
      case _ =>
        match Nest(pieces[1..], last)
        case None => None
        case Some((rest, more)) =>
          Some((More(p.text, TagPart(p), rest), more))
  }

  function NestBlock(pieces: seq<Piece>, last: Text): (r: Option<(Template, seq<Piece>)>)
    requires pieces != []
    ensures r.Some? ==> |r.value.1| <= |pieces| && (r.value.1 != [] ==> r.value.1[0].kind == CloseBlock)
    decreases |pieces|, 0
  {
    var p := pieces[0];
    match Nest(pieces[1..], last)
    case None => None
    case Some((body, more)) =>
      if more == [] || more[0].name != p.name then None
      else
        match Nest(more[1..], last)
        case None => None
        case Some((rest, end)) =>
          var part := if p.kind == OpenBlock then Section(p.name, body) else Inverted(p.name, body);
          Some((More(p.text, part, rest), end))
  }

  predicate IsBlockTag(p: Piece) { p.kind == OpenBlock || p.kind == ElseBlock || p.kind == CloseBlock }

  /** A tag on its own. */
  lemma NestTag(pieces: seq<Piece>, last: Text)
    requires pieces != [] && !IsBlockTag(pieces[0])
    ensures Nest(pieces, last) ==
            match Nest(pieces[1..], last)
            case None => None
            case Some((rest, more)) => Some((More(pieces[0].text, TagPart(pieces[0]), rest), more))
  {
    hide NestBlock;
  }

  lemma TagPieces(p: Piece, rest: Template)
    requires !IsBlockTag(p)
    ensures Pieces(More(p.text, TagPart(p), rest)) == [p] + Pieces(rest)
  {}

  lemma NestEdges(pieces: seq<Piece>, last: Text)
    ensures pieces == [] ==> Nest(pieces, last) == Some((Last(last), []))
    ensures pieces != [] && pieces[0].kind == CloseBlock ==> Nest(pieces, last) == Some((Last(pieces[0].text), pieces))
  {
    hide NestBlock;
  }

  /** What was nested is the tags themselves, and what is left starts with a closing tag. */
  lemma {:induction false} NestIsPieces(pieces: seq<Piece>, last: Text)
    requires Nest(pieces, last).Some?
    ensures var (t, more) := Nest(pieces, last).value;
            pieces == Pieces(t) + more && End(t) == if more == [] then last else more[0].text
    decreases |pieces|
  {
    hide Nest;
    hide NestBlock;
    NestEdges(pieces, last);
    if pieces != [] && pieces[0].kind != CloseBlock {
      var p := pieces[0];
      if IsBlockTag(p) {
        NestOpener(pieces, last);
        NestBlockIsPieces(pieces, last);
      } else {
        NestTag(pieces, last);
        NestIsPieces(pieces[1..], last);
        var (rest, more) := Nest(pieces[1..], last).value;
        TagPieces(p, rest);
        assert pieces == [p] + pieces[1..];
      }
    }
  }

  lemma {:induction false} NestBlockIsPieces(pieces: seq<Piece>, last: Text)
    requires pieces != [] && (pieces[0].kind == OpenBlock || pieces[0].kind == ElseBlock)
    requires NestBlock(pieces, last).Some?
    ensures var (t, more) := NestBlock(pieces, last).value;
            pieces == Pieces(t) + more && End(t) == if more == [] then last else more[0].text
    decreases |pieces|, 0
  {
    hide Nest;
    hide Pieces;
    var p := pieces[0];
    var (body, more) := Nest(pieces[1..], last).value;
    NestIsPieces(pieces[1..], last);
    var (rest, end) := Nest(more[1..], last).value;
    NestIsPieces(more[1..], last);
    var t := NestBlock(pieces, last).value.0;
    BlockPieces(t, p.kind, p.name, body);
    RejoinedBlock(p, Pieces(body), Piece(End(body), CloseBlock, p.name), Pieces(rest), end, pieces, more);
  }

  lemma RejoinedBlock(
    p: Piece, body: seq<Piece>, close: Piece, rest: seq<Piece>, end: seq<Piece>, pieces: seq<Piece>, more: seq<Piece>)
    requires pieces != [] && pieces[0] == p && pieces[1..] == body + more && more != [] && more[0] == close && more[1..] == rest + end
    ensures pieces == [p] + (body + [close] + rest) + end
  {
    assert pieces == [p] + pieces[1..] && more == [close] + more[1..];
  }

  /** Tags that do not nest are refused, or leave a block open. */
  lemma {:induction false} NotNested(s: State, pieces: seq<Piece>, last: Text)
    requires Valid(s) && Nest(pieces, last).None?
    ensures Run(s, pieces).Some? ==> |Run(s, pieces).value.blocks| > |s.blocks|
    decreases |pieces|
  {
    hide Run;
    var p := pieces[0];
    RunFirst(s, pieces);
    match p.kind
    case OpenBlock => NotNestedBlock(s, pieces, last);
    case ElseBlock => NotNestedBlock(s, pieces, last);
    case _ => NotNested(Push(s, p).value, pieces[1..], last);
  }

  lemma RunFirst(s: State, pieces: seq<Piece>)
    requires Valid(s) && pieces != []
    ensures Run(s, pieces) == match Push(s, pieces[0]) case None => None case Some(s') => Run(s', pieces[1..])
  {
    hide Push;
  }

  lemma {:induction false} NotNestedBlock(s: State, pieces: seq<Piece>, last: Text)
    requires Valid(s) && pieces != [] && (pieces[0].kind == OpenBlock || pieces[0].kind == ElseBlock)
    requires NestBlock(pieces, last).None?
    ensures Run(s, pieces).Some? ==> |Run(s, pieces).value.blocks| > |s.blocks|
    decreases |pieces|, 0
  {
    hide Run;
    hide Nest;
    hide Flat;
    var p := pieces[0];
    var n := |s.actions|;
    RunFirst(s, pieces);
    var s1 := Push(s, p).value;
    if Nest(pieces[1..], last).None? {
      NotNested(s1, pieces[1..], last);
    } else {
      var (body, more) := Nest(pieces[1..], last).value;
      NestIsPieces(pieces[1..], last);
      RunPieces(s1, body);
      var s2 := State(s1.actions + Flat(body, n + 1), s1.blocks);
      RunJoin(s1, Pieces(body), more);
      if more == [] {
        RunNothing(s2);
      } else {
        RunFirst(s2, more);
        assert s2.actions[n].name == p.name;
        if more[0].name == p.name {
          NotNested(Push(s2, more[0]).value, more[1..], last);
        }
      }
    }
  }

  /** The parser accepts the tags and closes every block exactly when they nest, and then it has the blocks' flat actions. */
  lemma ParseIsNest(pieces: seq<Piece>, last: Text)
    ensures var nest := Nest(pieces, last);
            var run := Run(State([], []), pieces);
            && ((run.Some? && run.value.blocks == []) <==> (nest.Some? && nest.value.1 == []))
            && (nest.Some? && nest.value.1 == [] ==>
                  run.value.actions == Flat(nest.value.0, 0) && Pieces(nest.value.0) == pieces && End(nest.value.0) == last)
  {
    hide Run;
    hide Nest;
    var s := State([], []);
    if Nest(pieces, last).None? {
      NotNested(s, pieces, last);
    } else {
      var (t, more) := Nest(pieces, last).value;
      NestIsPieces(pieces, last);
      RunPieces(s, t);
      assert [] + Flat(t, 0) == Flat(t, 0);
      RunJoin(s, Pieces(t), more);
      assert Pieces(t) + [] == Pieces(t);
      if more == [] {
        RunNothing(State(Flat(t, 0), []));
      } else {
        RunFirst(State(Flat(t, 0), []), more);
      }
    }
  }

  // ----- blocks that are never closed -----

  predicate IsOpener(a: Action) { a.kind == OpenBlock || a.kind == ElseBlock }

  /** Exactly the openers of open blocks have not learned where their block ends. */
  ghost predicate Told(s: State) {
    && Valid(s) && (forall a, b :: 0 <= a < b < |s.blocks| ==> s.blocks[a] < s.blocks[b])
    && (forall b :: 0 <= b < |s.blocks| ==> IsOpener(s.actions[s.blocks[b]]))
    && (forall i :: 0 <= i < |s.actions| && IsOpener(s.actions[i]) ==>
          if i in s.blocks then s.actions[i].pos == 0 else i < s.actions[i].pos)
  }

  lemma OpenTold(s: State, a: Action)
    requires Told(s) && IsOpener(a) && a.pos == 0
    ensures Told(State(s.actions + [a], s.blocks + [|s.actions|]))
  {
    var s' := State(s.actions + [a], s.blocks + [|s.actions|]);
    forall i | 0 <= i < |s'.actions| && IsOpener(s'.actions[i])
      ensures if i in s'.blocks then s'.actions[i].pos == 0 else i < s'.actions[i].pos
    {
      assert i < |s.actions| ==> s'.actions[i] == s.actions[i];
      assert s'.blocks[|s.blocks|] == |s.actions|;
    }
  }

  lemma PlainTold(s: State, a: Action)
    requires Told(s) && !IsOpener(a)
    ensures Told(State(s.actions + [a], s.blocks))
  {
    var s' := State(s.actions + [a], s.blocks);
    forall i | 0 <= i < |s'.actions| && IsOpener(s'.actions[i])
      ensures if i in s'.blocks then s'.actions[i].pos == 0 else i < s'.actions[i].pos
    {
      assert s'.actions[i] == s.actions[i];
    }
  }

  lemma CloseTold(s: State)
    requires Told(s) && s.blocks != []
    ensures Told(State(Closed(s.actions, s.blocks[|s.blocks| - 1]), s.blocks[..|s.blocks| - 1]))
  {
    var open := s.blocks[|s.blocks| - 1];
    var s' := State(Closed(s.actions, open), s.blocks[..|s.blocks| - 1]);
    forall i | 0 <= i < |s'.actions| && IsOpener(s'.actions[i])
      ensures if i in s'.blocks then s'.actions[i].pos == 0 else i < s'.actions[i].pos
    {
      if i != open {
        assert s'.actions[i] == s.actions[i];
        assert i in s.blocks <==> i in s'.blocks by { assert s.blocks == s'.blocks + [open]; }
      }
    }
  }

  lemma PushTold(s: State, p: Piece)
    requires Told(s) && Push(s, p).Some?
    ensures Told(Push(s, p).value)
  {
    hide Told;
    var a := Action(p.kind, p.name, 0);
    ToldIsValid(s);
    match p.kind
    case OpenBlock => OpenTold(s, a);
    case ElseBlock => OpenTold(s, a);
    case CloseBlock =>
      var open := s.blocks[|s.blocks| - 1];
      CloseTold(s);
      PlainTold(State(Closed(s.actions, open), s.blocks[..|s.blocks| - 1]), Action(CloseBlock, p.name, open));
    case _ => PlainTold(s, a);
  }

  lemma ToldIsValid(s: State)
    requires Told(s)
    ensures Valid(s)
  {}

  lemma {:induction false} RunTold(s: State, pieces: seq<Piece>)
    requires Told(s) && Run(s, pieces).Some?
    ensures Told(Run(s, pieces).value)
    decreases |pieces|
  {
    hide Told;
    hide Push;
    ToldIsValid(s);
    if pieces != [] {
      PushTold(s, pieces[0]);
      RunTold(Push(s, pieces[0]).value, pieces[1..]);
    }
  }

  /** Every jump goes forward: each opener's closing action stands behind it. */
  ghost predicate JumpsForward(actions: seq<Action>) {
    forall i :: 0 <= i < |actions| && IsOpener(actions[i]) ==> i < actions[i].pos
  }

  /** The parser accepts tags with blocks that are never closed; the jumps all go forward if and only if the tags nest. */
  lemma ForwardIffNested(pieces: seq<Piece>, last: Text)
    requires Run(State([], []), pieces).Some?
    ensures var nest := Nest(pieces, last);
            JumpsForward(Run(State([], []), pieces).value.actions) <==> nest.Some? && nest.value.1 == []
  {
    hide Run;
    hide Nest;
    ParseIsNest(pieces, last);
    RunTold(State([], []), pieces);
    var s := Run(State([], []), pieces).value;
    if s.blocks != [] { assert IsOpener(s.actions[s.blocks[0]]) && s.blocks[0] in s.blocks; }
  }

  /** Printing a template's tags and nesting them gives the template back. */
  lemma {:induction false} NestPieces(t: Template, more: seq<Piece>, last: Text)
    requires if more == [] then last == End(t) else more[0].kind == CloseBlock && more[0].text == End(t)
    ensures Nest(Pieces(t) + more, last) == Some((t, more))
    decreases t, 0
  {
    hide Nest;
    match t
    case Last(_) =>
      assert Pieces(t) + more == more;
      NestEdges(more, last);
    case More(text, part, rest) =>
      NestPieces(rest, more, last);
      match part
      case Section(name, body) => NestBlockPieces(text, OpenBlock, name, body, rest, more, last);
      case Inverted(name, body) => NestBlockPieces(text, ElseBlock, name, body, rest, more, last);
      case _ => NestTagPieces(text, part, rest, more, last);
  }

  lemma NestTagPieces(text: Text, part: Part, rest: Template, more: seq<Piece>, last: Text)
    requires !part.Section? && !part.Inverted? && Nest(Pieces(rest) + more, last) == Some((rest, more))
    ensures Nest(Pieces(More(text, part, rest)) + more, last) == Some((More(text, part, rest), more))
  {
    hide Nest;
    var p := PartPieces(text, part)[0];
    assert TagPart(p) == part && p.text == text;
    TagPieces(p, rest);
    var all := [p] + Pieces(rest) + more;
    assert all[1..] == Pieces(rest) + more;
    NestTag(all, last);
  }

  lemma NestOpener(pieces: seq<Piece>, last: Text)
    requires pieces != [] && (pieces[0].kind == OpenBlock || pieces[0].kind == ElseBlock)
    ensures Nest(pieces, last) == NestBlock(pieces, last)
  {
    hide NestBlock;
  }

  lemma {:induction false} NestBlockPieces(
    text: Text, kind: Kind, name: Text, body: Template, rest: Template, more: seq<Piece>, last: Text)
    requires Nest(Pieces(rest) + more, last) == Some((rest, more)) && (kind == OpenBlock || kind == ElseBlock)
    ensures var part := if kind == OpenBlock then Section(name, body) else Inverted(name, body);
            Nest(PartPieces(text, part) + Pieces(rest) + more, last) == Some((More(text, part, rest), more))
    decreases body, 1
  {
    hide Nest;
    hide Pieces;
    hide End;
    var part := if kind == OpenBlock then Section(name, body) else Inverted(name, body);
    var open, close := Piece(text, kind, name), Piece(End(body), CloseBlock, name);
    var tail := [close] + (Pieces(rest) + more);
    NestPieces(body, tail, last);
    var all := PartPieces(text, part) + Pieces(rest) + more;
    assert all == [open] + (Pieces(body) + tail);
    assert all[1..] == Pieces(body) + tail;
    assert tail[1..] == Pieces(rest) + more;
    NestOpener(all, last);
  }

  // ----- the flat actions lie as the renderer expects them -----

  /** The texts before the tags and behind the last one. */
  function TextsOf(pieces: seq<Piece>, last: Text): (r: seq<Text>)
    ensures |r| == |pieces| + 1
  {
    if pieces == [] then [last] else [pieces[0].text] + TextsOf(pieces[1..], last)
  }

  lemma {:induction false} TextsJoin(p: seq<Piece>, close: Piece, q: seq<Piece>, last: Text)
    ensures TextsOf(p + [close] + q, last) == TextsOf(p, close.text) + TextsOf(q, last)
  {
    var all := p + [close] + q;
    if p == [] {
      assert all == [close] + q && all[1..] == q;
    } else {
      TextsJoin(p[1..], close, q, last);
      assert all[1..] == p[1..] + [close] + q;
    }
  }

  /** `ys` stands in `xs` at `i`. */
  predicate StandsAt<T(==)>(xs: seq<T>, i: nat, ys: seq<T>) { i + |ys| <= |xs| && xs[i..i + |ys|] == ys }

  lemma StandsSplit<T>(xs: seq<T>, i: nat, a: seq<T>, b: seq<T>)
    requires StandsAt(xs, i, a + b)
    ensures StandsAt(xs, i, a) && StandsAt(xs, i + |a|, b)
  {
    var w := xs[i..i + |a| + |b|];
    assert w[..|a|] == a && w[|a|..] == b;
    assert xs[i..i + |a|] == w[..|a|] && xs[i + |a|..i + |a| + |b|] == w[|a|..];
  }

  lemma StandsOne<T>(xs: seq<T>, i: nat, x: T)
    requires StandsAt(xs, i, [x])
    ensures i < |xs| && xs[i] == x
  {
    assert xs[i..i + 1][0] == xs[i];
  }

  /** Where a template's flat actions and texts stand, they lie as the renderer expects them. */
  lemma {:induction false} FlatLays(actions: seq<Action>, texts: seq<Text>, t: Template, i: nat)
    requires StandsAt(actions, i, Flat(t, i)) && StandsAt(texts, i, TextsOf(Pieces(t), End(t)))
    ensures Lays(actions, texts, t, i)
    decreases t, 0
  {
    hide StandsAt;
    hide TextsOf;
    hide Pieces;
    hide End;
    match t
    case Last(text) => OneText(texts, t, i);
    case More(text, part, rest) =>
      StandsSplit(actions, i, FlatPart(part, i), Flat(rest, i + PartSize(part)));
      match part
      case Section(name, body) => BlockLays(actions, texts, OpenBlock, name, body, t, i);
      case Inverted(name, body) => BlockLays(actions, texts, ElseBlock, name, body, t, i);
      case _ =>
        TagTexts(texts, t, i);
        FlatLays(actions, texts, rest, i + 1);
        TagLays(actions, texts, part, i);
  }

  lemma TagLays(actions: seq<Action>, texts: seq<Text>, part: Part, i: nat)
    requires !part.Section? && !part.Inverted? && StandsAt(actions, i, FlatPart(part, i))
    ensures LaysPart(actions, texts, part, i) && PartSize(part) == 1
  {
    hide StandsAt;
    StandsOne(actions, i, FlatPart(part, i)[0]);
  }

  lemma OneText(texts: seq<Text>, t: Template, i: nat)
    requires t.Last? && StandsAt(texts, i, TextsOf(Pieces(t), End(t)))
    ensures i < |texts| && texts[i] == t.text
  {
    StandsOne(texts, i, t.text);
  }

  lemma TagTexts(texts: seq<Text>, t: Template, i: nat)
    requires t.More? && !t.part.Section? && !t.part.Inverted? && StandsAt(texts, i, TextsOf(Pieces(t), End(t)))
    ensures i < |texts| && texts[i] == t.text && StandsAt(texts, i + 1, TextsOf(Pieces(t.rest), End(t.rest)))
  {
    hide StandsAt;
    assert Pieces(t)[1..] == Pieces(t.rest);
    StandsSplit(texts, i, [t.text], TextsOf(Pieces(t.rest), End(t.rest)));
    StandsOne(texts, i, t.text);
  }

  lemma {:induction false} BlockLays(
    actions: seq<Action>, texts: seq<Text>, kind: Kind, name: Text, body: Template, t: Template, i: nat)
    requires t.More? && (kind == OpenBlock || kind == ElseBlock)
    requires t.part == if kind == OpenBlock then Section(name, body) else Inverted(name, body)
    requires StandsAt(actions, i, FlatBlock(kind, name, body, i))
    requires StandsAt(actions, i + Size(body) + 2, Flat(t.rest, i + Size(body) + 2))
    requires StandsAt(texts, i, TextsOf(Pieces(t), End(t)))
    ensures Opens(actions, kind, name, i, i + 1 + Size(body)) && Lays(actions, texts, body, i + 1)
    ensures i < |texts| && texts[i] == t.text && Lays(actions, texts, t.rest, i + Size(body) + 2)
    decreases t, 0, 0
  {
    hide StandsAt;
    hide Lays;
    hide Flat;
    hide FlatBlock;
    hide TextsOf;
    hide Pieces;
    hide End;
    hide Opens;
    hide Size;
    BlockActions(actions, kind, name, body, i);
    BlockTextsStand(texts, t, kind, name, body, i);
    FlatLays(actions, texts, body, i + 1);
    FlatLays(actions, texts, t.rest, i + Size(body) + 2);
  }

  lemma BlockActions(actions: seq<Action>, kind: Kind, name: Text, body: Template, i: nat)
    requires StandsAt(actions, i, FlatBlock(kind, name, body, i))
    ensures Opens(actions, kind, name, i, i + 1 + Size(body)) && StandsAt(actions, i + 1, Flat(body, i + 1))
  {
    hide StandsAt;
    hide Flat;
    var open, close := Action(kind, name, i + 1 + Size(body)), Action(CloseBlock, name, i);
    StandsSplit(actions, i, [open] + Flat(body, i + 1), [close]);
    StandsSplit(actions, i, [open], Flat(body, i + 1));
    StandsOne(actions, i, open);
    StandsOne(actions, i + 1 + Size(body), close);
  }

  lemma BlockTextsStand(texts: seq<Text>, t: Template, kind: Kind, name: Text, body: Template, i: nat)
    requires t.More? && (kind == OpenBlock || kind == ElseBlock)
    requires t.part == if kind == OpenBlock then Section(name, body) else Inverted(name, body)
    requires StandsAt(texts, i, TextsOf(Pieces(t), End(t)))
    ensures i < |texts| && texts[i] == t.text && StandsAt(texts, i + 1, TextsOf(Pieces(body), End(body)))
    ensures StandsAt(texts, i + Size(body) + 2, TextsOf(Pieces(t.rest), End(t.rest)))
  {
    hide StandsAt;
    hide TextsOf;
    hide Pieces;
    hide End;
    BlockTexts(t, kind, name, body);
    PiecesCount(body);
    var inner, outer := TextsOf(Pieces(body), End(body)), TextsOf(Pieces(t.rest), End(t.rest));
    StandsSplit(texts, i, [t.text] + inner, outer);
    StandsSplit(texts, i, [t.text], inner);
    StandsOne(texts, i, t.text);
  }

  lemma FirstText(p: Piece, rest: seq<Piece>, last: Text)
    ensures TextsOf([p] + rest, last) == [p.text] + TextsOf(rest, last)
  {
    assert ([p] + rest)[1..] == rest;
  }

  lemma BlockPieces(t: Template, kind: Kind, name: Text, body: Template)
    requires t.More? && (kind == OpenBlock || kind == ElseBlock)
    requires t.part == if kind == OpenBlock then Section(name, body) else Inverted(name, body)
    ensures Pieces(t) == [Piece(t.text, kind, name)] + (Pieces(body) + [Piece(End(body), CloseBlock, name)] + Pieces(t.rest))
  {
    var open, close := Piece(t.text, kind, name), Piece(End(body), CloseBlock, name);
    assert PartPieces(t.text, t.part) == [open] + Pieces(body) + [close];
  }

  lemma BlockTexts(t: Template, kind: Kind, name: Text, body: Template)
    requires t.More? && (kind == OpenBlock || kind == ElseBlock)
    requires t.part == if kind == OpenBlock then Section(name, body) else Inverted(name, body)
    ensures TextsOf(Pieces(t), End(t)) == [t.text] + TextsOf(Pieces(body), End(body)) + TextsOf(Pieces(t.rest), End(t.rest))
  {
    hide TextsOf;
    hide Pieces;
    var open, close := Piece(t.text, kind, name), Piece(End(body), CloseBlock, name);
    BlockPieces(t, kind, name, body);
    FirstText(open, Pieces(body) + [close] + Pieces(t.rest), End(t));
    TextsJoin(Pieces(body), close, Pieces(t.rest), End(t.rest));
  }

  lemma {:induction false} PiecesCount(t: Template)
    ensures |Pieces(t)| == Size(t)
    decreases t, 0
  {
    if t.More? {
      PiecesCount(t.rest);
      match t.part
      case Section(_, body) => PiecesCount(body);
      case Inverted(_, body) => PiecesCount(body);
      case _ =>
    }
  }
}
