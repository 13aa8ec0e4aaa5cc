/** Rules as token sequences, what it means for a rule to match, and the unmerged trie as a table of rules. */
module TrieRules {
  import opened Common
  import opened RoutingTypes
  import opened TrieModel

  /** Matches a rule against the rest of `url` from `pos`; the whole rest must be consumed. */
  function Run(lib: Libc, rule: seq<Token>, url: string, pos: nat, ps: RoutingParams): Option<RoutingParams>
    requires pos <= |url|
    decreases |rule|
  {
    if rule == [] then if pos == |url| then Some(ps) else None
    else if pos == |url| then None
    else match rule[0]
      case Lit(c) => if url[pos] == c then Run(lib, rule[1..], url, pos + 1, ps) else None
      case Param(t) =>
        match Consume(lib, t, url, pos)
        case None => None
        case Some(piece) => Run(lib, rule[1..], url, piece.end, ps.Push(piece.cap))
  }

  ghost predicate Matches(lib: Libc, rule: seq<Token>, url: string) { Run(lib, rule, url, 0, NO_PARAMS).Some? }

  type RuleTable = map<seq<Token>, nat>

  /** The answer a router with these rules owes for `url`: the smallest index of a matching rule, with its captures. */
  ghost predicate Answers(lib: Libc, rules: RuleTable, url: string, f: Found) {
    if f.rule == 0 then
      f == NOTHING && forall r :: r in rules ==> !Matches(lib, r, url)
    else
      && (exists r :: r in rules && rules[r] == f.rule && Run(lib, r, url, 0, NO_PARAMS) == Some(f.params))
      && (forall r :: r in rules && Matches(lib, r, url) ==> f.rule <= rules[r])
  }

  /** Every literal edge carries one character, as `add` leaves them. */
  ghost predicate Unmerged(nodes: seq<Node>) {
    forall i, k :: 0 <= i < |nodes| && k in nodes[i].children ==> |k| == 1
  }

  function Step(n: Node, tok: Token): Option<nat> {
    match tok
    case Lit(c) => if [c] in n.children then Some(n.children[[c]]) else None
    case Param(t) => if t in n.params then Some(n.params[t]) else None
  }

  /** The node reached from `i` along the tokens `ts`. */
  function Walk(nodes: seq<Node>, i: nat, ts: seq<Token>): (r: Option<nat>)
    requires Shape(nodes) && i < |nodes|
    ensures r.Some? ==> r.value < |nodes|
    decreases |ts|
  {
    if ts == [] then Some(i) else
      match Step(nodes[i], ts[0])
      case None => None
      case Some(j) => Walk(nodes, j, ts[1..])
  }

  /** Every walk that ends in a node with a rule and matches the URL bounds the lookup's answer from above. */
  lemma {:induction false} FindComplete(lib: Libc, nodes: seq<Node>, url: string, i: nat, pos: nat, ps: RoutingParams, ts: seq<Token>)
    requires Shape(nodes) && Unmerged(nodes) && i < |nodes| && pos <= |url|
    requires Walk(nodes, i, ts).Some? && nodes[Walk(nodes, i, ts).value].rule > 0
    requires Run(lib, ts, url, pos, ps).Some?
    ensures 0 < Find(lib, nodes, url, i, pos, ps).rule <= nodes[Walk(nodes, i, ts).value].rule
    decreases |ts|
  {
    hide Find;
    if ts == [] {
      FindAtEnd(lib, nodes, url, i, ps);
    } else {
      match ts[0] {
      case Lit(c) =>
        FindComplete(lib, nodes, url, nodes[i].children[[c]], pos + 1, ps, ts[1..]);
        ViaChildIs(lib, nodes, url, i, pos, ps, [c]);
        BranchesBound(lib, nodes, url, i, pos, ps, INT);
      case Param(t) =>
        var piece := Consume(lib, t, url, pos).value;
        FindComplete(lib, nodes, url, nodes[i].params[t], piece.end, ps.Push(piece.cap), ts[1..]);
        BranchesBound(lib, nodes, url, i, pos, ps, t);
      }
    }
  }

  lemma FindAtEnd(lib: Libc, nodes: seq<Node>, url: string, i: nat, ps: RoutingParams)
    requires Shape(nodes) && i < |nodes|
    ensures Find(lib, nodes, url, i, |url|, ps) == Found(nodes[i].rule, ps)
  {}

  /** A lookup is at most each of its branches that found something. */
  lemma BranchesBound(lib: Libc, nodes: seq<Node>, url: string, i: nat, pos: nat, ps: RoutingParams, t: ParamType)
    requires Shape(nodes) && i < |nodes| && pos < |url|
    ensures var f := Find(lib, nodes, url, i, pos, ps);
            && (var g := ViaParam(lib, nodes, url, i, pos, ps, t); g.rule > 0 ==> 0 < f.rule <= g.rule)
            && (var g := ViaChild(lib, nodes, url, i, pos, ps); g.rule > 0 ==> 0 < f.rule <= g.rule)
  {
    hide ViaParam;
    hide ViaChild;
    match t case INT => case UINT => case DOUBLE => case STRING => case PATH =>
  }

  /** A lookup is one of its branches, or nothing. */
  lemma BranchTaken(lib: Libc, nodes: seq<Node>, url: string, i: nat, pos: nat, ps: RoutingParams) returns (t: Option<ParamType>)
    requires Shape(nodes) && i < |nodes| && pos < |url|
    ensures var f := Find(lib, nodes, url, i, pos, ps);
            match t
            case Some(p) => f == ViaParam(lib, nodes, url, i, pos, ps, p)
            case None => f == NOTHING || f == ViaChild(lib, nodes, url, i, pos, ps)
  {
    hide ViaParam;
    hide ViaChild;
    var f := Find(lib, nodes, url, i, pos, ps);
    if f == ViaParam(lib, nodes, url, i, pos, ps, INT) { t := Some(INT); }
    else if f == ViaParam(lib, nodes, url, i, pos, ps, UINT) { t := Some(UINT); }
    else if f == ViaParam(lib, nodes, url, i, pos, ps, DOUBLE) { t := Some(DOUBLE); }
    else if f == ViaParam(lib, nodes, url, i, pos, ps, STRING) { t := Some(STRING); }
    else if f == ViaParam(lib, nodes, url, i, pos, ps, PATH) { t := Some(PATH); }
    else { t := None; }
  }

  /** A found rule is the rule of a node reached by a walk that matches, and the captures are that walk's. */
  lemma {:induction false} FindSound(lib: Libc, nodes: seq<Node>, url: string, i: nat, pos: nat, ps: RoutingParams)
    returns (ts: seq<Token>)
    requires Shape(nodes) && Unmerged(nodes) && i < |nodes| && pos <= |url|
    requires Find(lib, nodes, url, i, pos, ps).rule > 0
    ensures Walk(nodes, i, ts).Some?
    ensures nodes[Walk(nodes, i, ts).value].rule == Find(lib, nodes, url, i, pos, ps).rule
    ensures Run(lib, ts, url, pos, ps) == Some(Find(lib, nodes, url, i, pos, ps).params)
    decreases |url| - pos
  {
    hide Find;
    if pos == |url| {
      FindAtEnd(lib, nodes, url, i, ps);
      ts := [];
    } else {
      var branch := BranchTaken(lib, nodes, url, i, pos, ps);
      if branch.Some? {
        var t := branch.value;
        var piece := Consume(lib, t, url, pos).value;
        var rest := FindSound(lib, nodes, url, nodes[i].params[t], piece.end, ps.Push(piece.cap));
        ts := [Param(t)] + rest;
      } else {
        var k :| k in nodes[i].children && StartsAt(url, pos, k);
        ViaChildIs(lib, nodes, url, i, pos, ps, k);
        assert k == [url[pos]];
        var rest := FindSound(lib, nodes, url, nodes[i].children[k], pos + 1, ps);
        ts := [Lit(url[pos])] + rest;
      }
    }
  }

  // ----- the table of rules a trie holds -----

  function RuleAt(nodes: seq<Node>, rule: seq<Token>): nat
    requires Shape(nodes)
  {
    match Walk(nodes, 0, rule)
    case None => 0
    case Some(j) => nodes[j].rule
  }

  /** The walks from the root find exactly the rules of the table. */
  ghost predicate Holds(nodes: seq<Node>, rules: RuleTable)
    requires Shape(nodes)
  {
    && (forall r :: RuleAt(nodes, r) == if r in rules then rules[r] else 0)
    && (forall r :: r in rules ==> rules[r] > 0)
  }

  lemma HoldsAt(nodes: seq<Node>, rules: RuleTable, rule: seq<Token>, i: nat)
    requires Shape(nodes) && Holds(nodes, rules) && Walk(nodes, 0, rule) == Some(i)
    ensures rule in rules <==> nodes[i].rule != 0
  {
    assert RuleAt(nodes, rule) == nodes[i].rule;
  }

  /** A lookup in an unmerged trie gives the answer its rules owe, for every URL. */
  lemma TrieAnswers(lib: Libc, nodes: seq<Node>, rules: RuleTable, url: string)
    requires Shape(nodes) && Unmerged(nodes) && Holds(nodes, rules)
    ensures Answers(lib, rules, url, Find(lib, nodes, url, 0, 0, NO_PARAMS))
  {
    var f := Find(lib, nodes, url, 0, 0, NO_PARAMS);
    forall r | r in rules && Matches(lib, r, url) ensures 0 < f.rule <= rules[r] {
      assert RuleAt(nodes, r) > 0;
      FindComplete(lib, nodes, url, 0, 0, NO_PARAMS, r);
    }
    if f.rule > 0 {
      var r := FindSound(lib, nodes, url, 0, 0, NO_PARAMS);
      assert RuleAt(nodes, r) == f.rule;
    }
  }

  /** Each node's own token path: an edge extends its parent's path by its token. */
  ghost predicate Paths(nodes: seq<Node>, paths: seq<seq<Token>>) {
    && |paths| == |nodes| > 0 && paths[0] == []
    && forall i, t :: 0 <= i < |nodes| && Step(nodes[i], t).Some? ==>
         Step(nodes[i], t).value < |nodes| && paths[Step(nodes[i], t).value] == paths[i] + [t]
  }

  lemma {:induction false} WalkFollowsPath(nodes: seq<Node>, paths: seq<seq<Token>>, i: nat, ts: seq<Token>)
    requires Shape(nodes) && Paths(nodes, paths) && i < |nodes| && Walk(nodes, i, ts).Some?
    ensures paths[Walk(nodes, i, ts).value] == paths[i] + ts
    decreases |ts|
  {
    if ts != [] {
      WalkFollowsPath(nodes, paths, Step(nodes[i], ts[0]).value, ts[1..]);
      assert paths[i] + ts == paths[i] + [ts[0]] + ts[1..];
    } else {
      assert paths[i] + ts == paths[i];
    }
  }

  lemma {:induction false} WalkOneMore(nodes: seq<Node>, i: nat, ts: seq<Token>, t: Token)
    requires Shape(nodes) && i < |nodes| && Walk(nodes, i, ts).Some?
    ensures Walk(nodes, i, ts + [t]) == Step(nodes[Walk(nodes, i, ts).value], t)
    decreases |ts|
  {
    if ts == [] {
      assert ts + [t] == [t];
    } else {
      assert (ts + [t])[1..] == ts[1..] + [t];
      WalkOneMore(nodes, Step(nodes[i], ts[0]).value, ts[1..], t);
    }
  }

  function WithEdge(n: Node, t: Token, to: nat): Node {
    match t
    case Lit(c) => n.(children := n.children[[c] := to])
    case Param(p) => n.(params := n.params[p := to])
  }

  /** The table with a new blank node behind a new edge `t` of node `i`. */
  function AddEdge(nodes: seq<Node>, i: nat, t: Token): seq<Node>
    requires i < |nodes|
  {
    nodes[i := WithEdge(nodes[i], t, |nodes|)] + [BLANK]
  }

  lemma AddEdgeShape(nodes: seq<Node>, i: nat, t: Token)
    requires Shape(nodes) && Unmerged(nodes) && i < |nodes| && Step(nodes[i], t).None?
    ensures Shape(AddEdge(nodes, i, t)) && Unmerged(AddEdge(nodes, i, t))
  {
    var after := AddEdge(nodes, i, t);
    forall j | 0 <= j < |after| ensures NodeOk(after[j], j, |after|) {
      if j < |nodes| {
        assert NodeOk(nodes[j], j, |nodes|);
        forall a, b | a in after[j].children && b in after[j].children && a <= b ensures a == b {
          assert |a| == 1 && |b| == 1;
        }
      }
    }
  }

  lemma AddEdgeSteps(nodes: seq<Node>, i: nat, t: Token, j: nat, u: Token)
    requires i < |nodes| && Step(nodes[i], t).None? && j <= |nodes|
    ensures Step(AddEdge(nodes, i, t)[j], u)
            == if j == |nodes| then None else if j == i && u == t then Some(|nodes|) else Step(nodes[j], u)
  {}

  lemma AddEdgePaths(nodes: seq<Node>, paths: seq<seq<Token>>, i: nat, t: Token)
    requires Shape(nodes) && Paths(nodes, paths) && i < |nodes| && Step(nodes[i], t).None?
    ensures Paths(AddEdge(nodes, i, t), paths + [paths[i] + [t]])
  {
    forall j, u | 0 <= j <= |nodes| ensures Step(AddEdge(nodes, i, t)[j], u)
            == if j == |nodes| then None else if j == i && u == t then Some(|nodes|) else Step(nodes[j], u)
    {
      AddEdgeSteps(nodes, i, t, j, u);
    }
  }

  /** Old walks are unchanged by a new edge, and new ones end at the blank node. */
  lemma {:induction false} AddEdgeWalk(nodes: seq<Node>, i: nat, t: Token, j: nat, ts: seq<Token>)
    requires Shape(nodes) && i < |nodes| && Step(nodes[i], t).None? && j < |nodes|
    requires Shape(AddEdge(nodes, i, t))
    ensures var w := Walk(AddEdge(nodes, i, t), j, ts);
            w == Walk(nodes, j, ts) || (Walk(nodes, j, ts).None? && w == Some(|nodes|))
    decreases |ts|
  {
    if ts != [] {
      AddEdgeSteps(nodes, i, t, j, ts[0]);
      var after := AddEdge(nodes, i, t);
      if j == i && ts[0] == t {
        if |ts| > 1 { AddEdgeSteps(nodes, i, t, |nodes|, ts[1]); }
      } else if Step(nodes[j], ts[0]).Some? {
        AddEdgeWalk(nodes, i, t, Step(nodes[j], ts[0]).value, ts[1..]);
      }
    }
  }

  /** A new edge to a blank node leaves the table of rules as it was. */
  lemma AddEdgeHolds(nodes: seq<Node>, i: nat, t: Token, rules: RuleTable)
    requires Shape(nodes) && i < |nodes| && Step(nodes[i], t).None? && Shape(AddEdge(nodes, i, t))
    requires Holds(nodes, rules)
    ensures Holds(AddEdge(nodes, i, t), rules)
  {
    forall r ensures RuleAt(AddEdge(nodes, i, t), r) == RuleAt(nodes, r) {
      AddEdgeWalk(nodes, i, t, 0, r);
    }
  }

  function SetRule(nodes: seq<Node>, i: nat, index: nat): seq<Node>
    requires i < |nodes|
  {
    nodes[i := nodes[i].(rule := index)]
  }

  lemma {:induction false} SetRuleWalk(nodes: seq<Node>, i: nat, index: nat, j: nat, ts: seq<Token>)
    requires Shape(nodes) && i < |nodes| && j < |nodes| && Shape(SetRule(nodes, i, index))
    ensures Walk(SetRule(nodes, i, index), j, ts) == Walk(nodes, j, ts)
    decreases |ts|
  {
    if ts != [] && Step(nodes[j], ts[0]).Some? {
      SetRuleWalk(nodes, i, index, Step(nodes[j], ts[0]).value, ts[1..]);
    }
  }

  /** Numbering the node at the end of a rule's walk adds exactly that rule. */
  lemma SetRuleHolds(nodes: seq<Node>, paths: seq<seq<Token>>, rules: RuleTable, rule: seq<Token>, i: nat, index: nat)
    requires Shape(nodes) && Paths(nodes, paths) && Holds(nodes, rules)
    requires i < |nodes| && Walk(nodes, 0, rule) == Some(i) && index > 0
    ensures Shape(SetRule(nodes, i, index)) && Paths(SetRule(nodes, i, index), paths)
    ensures Unmerged(nodes) ==> Unmerged(SetRule(nodes, i, index))
    ensures Holds(SetRule(nodes, i, index), rules[rule := index])
  {
    var after := SetRule(nodes, i, index);
    forall j | 0 <= j < |after| ensures NodeOk(after[j], j, |after|) {
      assert NodeOk(nodes[j], j, |nodes|);
    }
    forall j, t | 0 <= j < |nodes| ensures Step(after[j], t) == Step(nodes[j], t) {}
    WalkFollowsPath(nodes, paths, 0, rule);
    forall r ensures RuleAt(after, r) == if r in rules[rule := index] then rules[rule := index][r] else 0 {
      SetRuleWalk(nodes, i, index, 0, r);
      if Walk(nodes, 0, r) == Some(i) {
        WalkFollowsPath(nodes, paths, 0, r);
        assert [] + r == r && [] + rule == rule;
      }
      assert RuleAt(nodes, r) == if r in rules then rules[r] else 0;
    }
  }

  // ----- rule strings -----

  datatype ParamTrait = ParamTrait(t: ParamType, name: string)

  const PARAM_TRAITS: seq<ParamTrait> := [
    ParamTrait(INT, "<int>"), ParamTrait(UINT, "<uint>"), ParamTrait(DOUBLE, "<float>"), ParamTrait(DOUBLE, "<double>"),
    ParamTrait(STRING, "<str>"), ParamTrait(STRING, "<string>"), ParamTrait(PATH, "<path>")]

  /** A tag name is closed by its only `>`. */
  predicate IsTagName(name: string) {
    |name| > 1 && name[|name| - 1] == '>' && forall j :: 0 <= j < |name| - 1 ==> name[j] != '>'
  }

  lemma TagNames(n: nat)
    requires n < |PARAM_TRAITS|
    ensures IsTagName(PARAM_TRAITS[n].name)
  {}

  /** The first entry of the table from `n` on whose name stands at `i`. */
  function TraitFrom(url: string, i: nat, n: nat): (r: Option<ParamTrait>)
    requires n <= |PARAM_TRAITS|
    ensures r.Some? ==> IsTagName(r.value.name) && StartsAt(url, i, r.value.name)
    decreases |PARAM_TRAITS| - n
  {
    if n == |PARAM_TRAITS| then None
    else if StartsAt(url, i, PARAM_TRAITS[n].name) then TagNames(n); Some(PARAM_TRAITS[n])
    else TraitFrom(url, i, n + 1)
  }

  /** The known parameter tag starting at `i`. */
  function TagAt(url: string, i: nat): Option<ParamTrait> {
    TraitFrom(url, i, 0)
  }

  /** The length of that tag. */
  function TagLength(url: string, i: nat): (n: nat)
    requires TagAt(url, i).Some?
    ensures 1 < n && i + n <= |url|
  {
    |TagAt(url, i).value.name|
  }

  /** Every `<` of the rule that is read as a tag starts a known one. */
  predicate WellFormed(url: string, i: nat)
    requires i <= |url|
    decreases |url| - i
  {
    if i == |url| then true
    else if url[i] == '<' then TagAt(url, i).Some? && WellFormed(url, i + TagLength(url, i))
    else WellFormed(url, i + 1)
  }

  function Tokens(url: string, i: nat): seq<Token>
    requires i <= |url| && WellFormed(url, i)
    decreases |url| - i
  {
    if i == |url| then []
    else if url[i] == '<' then [Param(TagAt(url, i).value.t)] + Tokens(url, i + TagLength(url, i))
    else [Lit(url[i])] + Tokens(url, i + 1)
  }

  /** The token at `i` and how many characters it takes. */
  function NextToken(url: string, i: nat): (r: (Token, nat))
    requires i < |url| && WellFormed(url, i)
    ensures r.1 > 0 && i + r.1 <= |url|
  {
    if url[i] == '<' then (Param(TagAt(url, i).value.t), TagLength(url, i)) else (Lit(url[i]), 1)
  }

  lemma TokensStep(url: string, i: nat, done: seq<Token>)
    requires i < |url| && WellFormed(url, i)
    ensures var (t, len) := NextToken(url, i);
            WellFormed(url, i + len) && (done + [t]) + Tokens(url, i + len) == done + Tokens(url, i)
  {}
}
