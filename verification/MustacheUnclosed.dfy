/** Blocks that are never closed: the parser lets them through, and rendering them need not end. */
module MustacheUnclosed {
  import opened Common
  import opened JsonSpec
  import opened MustacheModel
  import opened MustacheFlat
  import opened MustacheParse
  import opened MustacheTrim
  import opened MustacheMeaning
  import opened MustacheMachine

  predicate IsPlain(p: Piece) { p.kind == Tag || p.kind == UnescapeTag || p.kind == Ignore }

  predicate ArePlain(ps: seq<Piece>) { forall i :: 0 <= i < |ps| ==> IsPlain(ps[i]) }

  function PlainActions(ps: seq<Piece>): (r: seq<Action>)
    ensures |r| == |ps| && forall i :: 0 <= i < |ps| ==> r[i] == Action(ps[i].kind, ps[i].name, 0)
  {
    seq(|ps|, i requires 0 <= i < |ps| => Action(ps[i].kind, ps[i].name, 0))
  }

  lemma {:induction false} RunPlain(s: State, ps: seq<Piece>)
    requires Valid(s) && ArePlain(ps)
    ensures Run(s, ps) == Some(State(s.actions + PlainActions(ps), s.blocks))
    decreases |ps|
  {
    hide Push;
    hide Run;
    if ps == [] {
      RunNothing(s);
      assert s.actions + [] == s.actions;
    } else {
      var a := Action(ps[0].kind, ps[0].name, 0);
      PushPlain(s, ps[0]);
      RunFirst(s, ps);
      var s' := State(s.actions + [a], s.blocks);
      RunPlain(s', ps[1..]);
      assert s'.actions + PlainActions(ps[1..]) == s.actions + PlainActions(ps);
    }
  }

  lemma PushPlain(s: State, p: Piece)
    requires Valid(s) && IsPlain(p)
    ensures Push(s, p) == Some(State(s.actions + [Action(p.kind, p.name, 0)], s.blocks))
  {}

  /** Plain tags and one block opened behind them: accepted, and the block still points at the first action. */
  lemma UnclosedIsAccepted(ps: seq<Piece>, open: Piece, last: Text)
    requires ArePlain(ps) && open.kind == OpenBlock
    ensures Run(START, ps + [open]) == Some(State(PlainActions(ps) + [Action(OpenBlock, open.name, 0)], [|ps|]))
    ensures Nest(ps + [open], last).None?
  {
    hide Run;
    RunJoin(START, ps, [open]);
    RunPlain(START, ps);
    assert [] + PlainActions(ps) == PlainActions(ps);
    var s := State(PlainActions(ps), []);
    RunOne(s, open);
    assert [] + [|ps|] == [|ps|];
    NotNestedPlain(ps, open, last);
  }

  lemma {:induction false} NotNestedPlain(ps: seq<Piece>, open: Piece, last: Text)
    requires ArePlain(ps) && open.kind == OpenBlock
    ensures Nest(ps + [open], last).None?
    decreases |ps|
  {
    hide Nest;
    hide NestBlock;
    var all := ps + [open];
    if ps == [] {
      assert all == [open] && [open][1..] == [];
      NestOpener([open], last);
      NestEdges([], last);
      NothingBehind(open, last);
    } else {
      assert all[1..] == ps[1..] + [open] && all[0] == ps[0];
      NotNestedPlain(ps[1..], open, last);
      NestTag(all, last);
    }
  }

  lemma NothingBehind(open: Piece, last: Text)
    ensures NestBlock([open], last).None?
  {
    assert [open][1..] == [];
  }

  function CutsOf(ps: seq<Piece>, open: Piece, last: Text): Cuts { Cuts(ps + [open], last) }

  /** Every plain tag finds something it can print in the context. */
  predicate AllPrint(ps: seq<Piece>, ctx: Json) {
    forall i :: 0 <= i < |ps| ==> ps[i].kind == Ignore || Printed(Find(ps[i].name, [ctx]), ps[i].kind == Tag).Some?
  }

  lemma CodeOfUnclosed(ps: seq<Piece>, open: Piece, last: Text)
    requires ArePlain(ps) && open.kind == OpenBlock
    ensures Run(START, ps + [open]).Some?
    ensures var c := Flattened(CutsOf(ps, open, last));
            && |c.actions| == |ps| + 2
            && (forall i :: 0 <= i < |ps| ==> c.actions[i] == Action(ps[i].kind, ps[i].name, 0))
            && c.actions[|ps|] == Action(OpenBlock, open.name, 0)
            && c.texts == TextsOf(ps + [open], last)
  {
    hide Run;
    hide TextsOf;
    UnclosedIsAccepted(ps, open, last);
  }

  /** A turn of such a template that does not throw: on to the next action, or from the block back to the second one. */
  lemma PlainTurn(lib: Library, ps: seq<Piece>, open: Piece, last: Text, ctx: Json, i: nat, out: Text, limit: nat)
    requires ArePlain(ps) && open.kind == OpenBlock && AllPrint(ps, ctx) && Falsy(Find(open.name, [ctx])) && i <= |ps|
    ensures Run(START, ps + [open]).Some?
    ensures var next := Turn(lib, Flattened(CutsOf(ps, open, last)), i, [ctx], out, 0, limit);
            next.Goes? && next.stack == [ctx] && next.current == if i < |ps| then i + 1 else 1
  {
    hide Run;
    hide Find;
    hide Printed;
    hide Falsy;
    CodeOfUnclosed(ps, open, last);
    hide Flattened;
  }

  lemma {:induction false} NeverEnds(lib: Library, ps: seq<Piece>, open: Piece, last: Text, ctx: Json, i: nat, out: Text, limit: nat)
    requires ArePlain(ps) && open.kind == OpenBlock && AllPrint(ps, ctx) && Falsy(Find(open.name, [ctx])) && i <= |ps| && ps != []
    ensures Run(START, ps + [open]).Some?
    ensures Runs(lib, Flattened(CutsOf(ps, open, last)), i, |ps| + 1, [ctx], out, 0, limit) == Running
    decreases limit
  {
    hide Run;
    hide Find;
    hide Turn;
    hide AllPrint;
    hide ShownAt;
    CodeOfUnclosed(ps, open, last);
    hide Flattened;
    if limit > 0 {
      PlainTurn(lib, ps, open, last, ctx, i, out, limit - 1);
      var next := Turn(lib, Flattened(CutsOf(ps, open, last)), i, [ctx], out, 0, limit - 1);
      NeverEnds(lib, ps, open, last, ctx, next.current, next.out, limit - 1);
    }
  }

  /** With nothing before it, a block that is jumped over is followed by the text behind it. */
  lemma AloneEnds(lib: Library, open: Piece, last: Text, ctx: Json)
    requires open.kind == OpenBlock && Falsy(Find(open.name, [ctx]))
    ensures Run(START, [] + [open]).Some?
    ensures Rendered(lib, Flattened(CutsOf([], open, last)), ctx, 2) == Ended([ctx], open.text + last)
  {
    hide Run;
    hide Find;
    hide Falsy;
    CodeOfUnclosed([], open, last);
    var c := Flattened(CutsOf([], open, last));
    hide Flattened;
    assert [] + [open] == [open] && [open][1..] == [];
    assert c.texts == [open.text, last];
    assert [] + open.text == open.text;
    assert Turn(lib, c, 0, [ctx], [], 0, 1) == Goes(1, [ctx], open.text);
  }

  /**
   * A template of plain tags, all of which print, and a block that is opened behind them, never closed and jumped over:
   * the parser accepts it, and its rendering ends if and only if no tag stands before the block.
   */
  lemma UnclosedNeverEnds(lib: Library, ps: seq<Piece>, open: Piece, last: Text, ctx: Json)
    requires ArePlain(ps) && open.kind == OpenBlock && AllPrint(ps, ctx) && Falsy(Find(open.name, [ctx]))
    ensures Run(START, ps + [open]).Some? && Nest(ps + [open], last).None?
    ensures (exists limit :: Rendered(lib, Flattened(CutsOf(ps, open, last)), ctx, limit) != Running) <==> ps == []
  {
    hide Run;
    hide Nest;
    hide Runs;
    hide Flattened;
    UnclosedIsAccepted(ps, open, last);
    CodeOfUnclosed(ps, open, last);
    if ps == [] {
      AloneEnds(lib, open, last, ctx);
    } else {
      forall limit: nat ensures Rendered(lib, Flattened(CutsOf(ps, open, last)), ctx, limit) == Running {
        NeverEnds(lib, ps, open, last, ctx, 0, [], limit);
      }
    }
  }
}
