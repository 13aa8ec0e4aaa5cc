module Trie {
  import opened Common
  import opened RoutingTypes
  import opened TrieModel
  import opened TrieMerge
  import opened TrieRules
  import opened TrieSettling
  import opened RuleMeaning

  const PARAM_TYPES := [INT, UINT, DOUBLE, STRING, PATH]

  lemma StartOfWalk(nodes: seq<Node>, url: string)
    requires Shape(nodes)
    ensures Walk(nodes, 0, []) == Some(0) && WellFormed(url, |url|) && Tokens(url, |url|) == []
  {}

  class Trie {
    var nodes: seq<Node>
    const lib: Libc

    ghost var rules: RuleTable
    ghost var paths: seq<seq<Token>>

    /** Before `validate`: the table of rules can still grow. */
    ghost predicate Building()
      reads this
    {
      Shape(nodes) && Unmerged(nodes) && Holds(nodes, rules) && Paths(nodes, paths)
    }

    /** Every lookup gives the answer the rules owe. */
    ghost predicate Serving()
      reads this
    {
      Shape(nodes) && forall url :: Answers(lib, rules, url, Find(lib, nodes, url, 0, 0, NO_PARAMS))
    }

    constructor (lib: Libc)
      ensures Building() && rules == map[] && this.lib == lib
    {
      this.lib := lib;
      nodes := [BLANK];
      rules := map[];
      paths := [[]];
      new;
      forall r ensures RuleAt(nodes, r) == 0 {}
    }

    /** Follows or creates the edge `t` of the node `i` at the end of the walk `done`. */
    method NextNode(i: nat, t: Token, ghost done: seq<Token>) returns (j: nat)
      requires Building() && i < |nodes| && Walk(nodes, 0, done) == Some(i)
      modifies this`nodes, this`paths
      ensures Building()
      ensures j < |nodes| && Walk(nodes, 0, done + [t]) == Some(j)
      ensures nodes == old(nodes) || nodes[j] == BLANK
      ensures old(nodes)[i] == BLANK ==> nodes[j] == BLANK
    {
      if Step(nodes[i], t).None? {
        AddEdgeShape(nodes, i, t);
        AddEdgePaths(nodes, paths, i, t);
        AddEdgeHolds(nodes, i, t, rules);
        AddEdgeWalk(nodes, i, t, 0, done);
        AddEdgeSteps(nodes, i, t, i, t);
        paths := paths + [paths[i] + [t]];
        nodes := AddEdge(nodes, i, t);
      }
      j := Step(nodes[i], t).value;
      WalkOneMore(nodes, 0, done, t);
    }

    /** The loop of `add`: the node of the rule string, created with its missing ancestors if need be. */
    method NodeFor(url: string) returns (idx: nat)
      requires Building() && WellFormed(url, 0)
      modifies this`nodes, this`paths
      ensures Building()
      ensures idx < |nodes| && Walk(nodes, 0, Tokens(url, 0)) == Some(idx)
      ensures nodes == old(nodes) || nodes[idx] == BLANK
    {
      hide Holds;
      hide Paths;
      hide Unmerged;
      hide NextToken;
      hide Tokens;
      hide WellFormed;
      hide Walk;
      hide Shape;
      StartOfWalk(nodes, url);
      idx := 0;
      var i: nat := 0;
      ghost var done: seq<Token> := [];
      while i < |url|
        invariant i <= |url| && WellFormed(url, i) && idx < |nodes|
        invariant Building()
        invariant done + Tokens(url, i) == Tokens(url, 0)
        invariant Walk(nodes, 0, done) == Some(idx)
        invariant nodes == old(nodes) || nodes[idx] == BLANK
      {
        var (t, len) := NextToken(url, i);
        TokensStep(url, i, done);
        idx := NextNode(idx, t, done);
        done := done + [t];
        i := i + len;
      }
      assert done + Tokens(url, i) == done;
    }

    /** `add`: registers a rule string under an index; refused when the rule is already there. */
    method Add(url: string, index: nat) returns (ok: bool)
      requires Building() && WellFormed(url, 0) && index > 0
      modifies this
      ensures Building()
      ensures ok == (Tokens(url, 0) !in old(rules))
      ensures ok ==> rules == old(rules)[Tokens(url, 0) := index]
      ensures !ok ==> rules == old(rules) && nodes == old(nodes)
    {
      hide Holds;
      hide Paths;
      hide Unmerged;
      hide TraitFrom;
      hide Shape;
      ghost var rule := Tokens(url, 0);
      var idx := NodeFor(url);
      HoldsAt(nodes, rules, rule, idx);
      if nodes[idx].rule != 0 {
        return false;
      }
      SetRuleHolds(nodes, paths, rules, rule, idx, index);
      nodes := SetRule(nodes, idx, index);
      rules := rules[rule := index];
      return true;
    }

    /** One pass over the literal edges of a node: are all children simple? */
    method AllChildrenSimple(i: nat) returns (simple: bool)
      requires Shape(nodes) && i < |nodes| && nodes[i].children != map[]
      ensures simple == !Settled(nodes, i)
    {
      var todo := nodes[i].children.Keys;
      while todo != {}
        invariant todo <= nodes[i].children.Keys
        invariant forall k :: k in nodes[i].children.Keys - todo ==> nodes[nodes[i].children[k]].IsSimpleNode()
      {
        var k :| k in todo;
        if !nodes[nodes[i].children[k]].IsSimpleNode() {
          return false;
        }
        todo := todo - {k};
      }
      return true;
    }

    /** The merge loops: every child edge behind the fragment that leads to the child. */
    method MergedChildren(i: nat) returns (merged: map<string, nat>)
      requires Shape(nodes) && i < |nodes|
      ensures IsMerged(nodes, i, merged)
    {
      merged := map[];
      ghost var seen: set<(string, string)> := {};
      var kids := nodes[i].children;
      var todo := kids.Keys;
      while todo != {}
        invariant todo <= kids.Keys && JoinsOf(nodes, i, seen, merged)
        invariant forall k, c :: TwoStep(nodes, i, k, c) && k !in todo ==> (k, c) in seen
      {
        var k :| k in todo;
        var inner := nodes[kids[k]].children.Keys;
        while inner != {}
          invariant inner <= nodes[kids[k]].children.Keys && JoinsOf(nodes, i, seen, merged)
          invariant forall k', c :: TwoStep(nodes, i, k', c) && (k' !in todo || (k' == k && c !in inner)) ==> (k', c) in seen
        {
          var c :| c in inner;
          JoinOneMore(nodes, i, seen, merged, k, c);
          merged := merged[k + c := nodes[kids[k]].children[c]];
          seen := seen + {(k, c)};
          inner := inner - {c};
        }
        todo := todo - {k};
      }
      forall k, c | TwoStep(nodes, i, k, c)
        ensures k + c in merged && merged[k + c] == nodes[kids[k]].children[c]
      {
        assert (k, c) in seen;
      }
      forall f | f in merged ensures exists k, c :: TwoStep(nodes, i, k, c) && f == k + c {
        ghost var p :| p in seen && f == p.0 + p.1;
        assert TwoStep(nodes, i, p.0, p.1);
      }
    }

    /** `optimizeNode`: settles every node below `i` without changing any lookup. */
    method OptimizeNode(i: nat, ghost lo: nat, ghost size: nat)
      requires Shape(nodes) && |nodes| == size && i <= lo <= size && i < size
      requires forall k :: k in nodes[i].children ==> lo < nodes[i].children[k]
      modifies this`nodes
      ensures Optimised(lib, old(nodes), nodes) && AllSettled(nodes, i)
      ensures forall j :: 0 <= j < i ==> nodes[j] == old(nodes)[j]
      ensures AllSettled(old(nodes), i) ==> nodes == old(nodes)
      decreases size - i, size - lo, 1
    {
      hide SameMeaning;
      hide Find;
      hide AllSettled;
      if AllSettled(nodes, i) { SettledBelow(nodes, i); }
      OptimizeParams(i, size);
      if nodes[i].children == map[] {
        SettledHere(nodes, i);
        return;
      }
      var mergeWithChild := AllChildrenSimple(i);
      ghost var mid := nodes;
      if mergeWithChild {
        var merged := MergedChildren(i);
        MergeOptimises(lib, nodes, i, merged, lo);
        nodes := WithChildren(nodes, i, merged);
        OptimisedChain(lib, old(nodes), mid, nodes);
        mid := nodes;
        OptimizeNode(i, lo + 1, size);
      } else {
        OptimizeChildren(i, size);
        SettledStays(lib, mid, nodes, i);
        forall t | t in nodes[i].params ensures AllSettled(nodes, nodes[i].params[t]) {
          AllSettledStays(lib, mid, nodes, nodes[i].params[t]);
        }
        SettledHere(nodes, i);
      }
      OptimisedChain(lib, old(nodes), mid, nodes);
    }

    method OptimizeParams(i: nat, ghost size: nat)
      requires Shape(nodes) && |nodes| == size && i < size
      modifies this`nodes
      ensures Optimised(lib, old(nodes), nodes)
      ensures forall j :: 0 <= j <= i ==> nodes[j] == old(nodes)[j]
      ensures forall t :: t in nodes[i].params ==> nodes[i].params[t] < size && AllSettled(nodes, nodes[i].params[t])
      ensures AllSettled(old(nodes), i) ==> nodes == old(nodes)
      decreases size - i, 0, 0
    {
      hide SameMeaning;
      hide Find;
      hide AllSettled;
      hide Settled;
      if AllSettled(nodes, i) { SettledBelow(nodes, i); }
      OptimisedSelf(lib, nodes);
      for n := 0 to 5
        invariant Optimised(lib, old(nodes), nodes)
        invariant forall j :: 0 <= j <= i ==> nodes[j] == old(nodes)[j]
        invariant forall m :: 0 <= m < n && PARAM_TYPES[m] in nodes[i].params ==>
                    nodes[i].params[PARAM_TYPES[m]] < size && AllSettled(nodes, nodes[i].params[PARAM_TYPES[m]])
        invariant AllSettled(old(nodes), i) ==> nodes == old(nodes)
      {
        if PARAM_TYPES[n] in nodes[i].params {
          var child := nodes[i].params[PARAM_TYPES[n]];
          ghost var mid := nodes;
          assert NodeOk(nodes[i], i, |nodes|) && NodeOk(nodes[child], child, |nodes|);
          OptimizeNode(child, child, size);
          OptimisedChain(lib, old(nodes), mid, nodes);
          forall m | 0 <= m < n && PARAM_TYPES[m] in nodes[i].params
            ensures nodes[i].params[PARAM_TYPES[m]] < size && AllSettled(nodes, nodes[i].params[PARAM_TYPES[m]])
          {
            AllSettledStays(lib, mid, nodes, nodes[i].params[PARAM_TYPES[m]]);
          }
        }
      }
      forall t | t in nodes[i].params
        ensures nodes[i].params[t] < size && AllSettled(nodes, nodes[i].params[t])
      {
        assert exists m :: 0 <= m < 5 && PARAM_TYPES[m] == t by {
          match t
          case INT => assert PARAM_TYPES[0] == t;
          case UINT => assert PARAM_TYPES[1] == t;
          case DOUBLE => assert PARAM_TYPES[2] == t;
          case STRING => assert PARAM_TYPES[3] == t;
          case PATH => assert PARAM_TYPES[4] == t;
        }
      }
    }

    method OptimizeChildren(i: nat, ghost size: nat)
      requires Shape(nodes) && |nodes| == size && i < size
      modifies this`nodes
      ensures Optimised(lib, old(nodes), nodes)
      ensures forall j :: 0 <= j <= i ==> nodes[j] == old(nodes)[j]
      ensures forall k :: k in nodes[i].children ==> nodes[i].children[k] < size && AllSettled(nodes, nodes[i].children[k])
      ensures AllSettled(old(nodes), i) ==> nodes == old(nodes)
      decreases size - i, 0, 0
    {
      hide SameMeaning;
      hide Find;
      hide AllSettled;
      hide Settled;
      if AllSettled(nodes, i) { SettledBelow(nodes, i); }
      OptimisedSelf(lib, nodes);
      var kids := nodes[i].children;
      var todo := kids.Keys;
      while todo != {}
        invariant todo <= kids.Keys && Optimised(lib, old(nodes), nodes)
        invariant forall j :: 0 <= j <= i ==> nodes[j] == old(nodes)[j]
        invariant forall k :: k in kids.Keys - todo ==> kids[k] < size && AllSettled(nodes, kids[k])
        invariant AllSettled(old(nodes), i) ==> nodes == old(nodes)
      {
        var k :| k in todo;
        ghost var mid := nodes;
        assert NodeOk(nodes[i], i, |nodes|) && NodeOk(nodes[kids[k]], kids[k], |nodes|);
        OptimizeNode(kids[k], kids[k], size);
        OptimisedChain(lib, old(nodes), mid, nodes);
        forall k' | k' in kids.Keys - todo ensures kids[k'] < size && AllSettled(nodes, kids[k']) {
          AllSettledStays(lib, mid, nodes, kids[k']);
        }
        todo := todo - {k};
      }
    }
  
    /** `optimize`: afterwards every lookup is still answered by the rules, and a second pass changes nothing. */
    method Optimize()
      requires Building() || Serving()
      modifies this`nodes
      ensures Serving() && AllSettled(nodes, 0)
      ensures Optimised(lib, old(nodes), nodes)
      ensures AllSettled(old(nodes), 0) ==> nodes == old(nodes)
    {
      if Building() {
        forall url ensures Answers(lib, rules, url, Find(lib, nodes, url, 0, 0, NO_PARAMS)) {
          TrieAnswers(lib, nodes, rules, url);
        }
      }
      assert NodeOk(nodes[0], 0, |nodes|);
      OptimizeNode(0, 0, |nodes|);
    }

    /** `validate`: refuses a rule on the empty URL or a parameter at the very start, otherwise optimises. */
    method Validate() returns (ok: bool)
      requires Building()
      modifies this`nodes
      ensures ok == old(nodes)[0].IsSimpleNode()
      ensures ok ==> [] !in rules && forall r: seq<Token> :: r in rules ==> r[0].Lit?
      ensures ok ==> Serving() && AllSettled(nodes, 0)
      ensures !ok ==> nodes == old(nodes)
    {
      if !nodes[0].IsSimpleNode() {
        return false;
      }
      RulesStartLiterally();
      Optimize();
      return true;
    }

    lemma RulesStartLiterally()
      requires Building() && nodes[0].IsSimpleNode()
      ensures [] !in rules && forall r: seq<Token> :: r in rules ==> r[0].Lit?
    {
      assert RuleAt(nodes, []) == 0;
      forall r: seq<Token> | r in rules ensures r[0].Lit? {
        assert RuleAt(nodes, r) > 0;
      }
    }

    method TryParam(url: string, i: nat, pos: nat, ps: RoutingParams, t: ParamType, found: Found) returns (best: Found)
      requires Shape(nodes) && i < |nodes| && pos < |url|
      ensures best == Better(found, ViaParam(lib, nodes, url, i, pos, ps, t))
      decreases |url| - pos, 0
    {
      best := found;
      if t in nodes[i].params {
        var piece := Consume(lib, t, url, pos);
        if piece.Some? {
          var ret := FindRule(url, nodes[i].params[t], piece.value.end, ps.Push(piece.value.cap));
          best := Better(found, ret);
        }
      }
    }

    /** `find`: the children are tried in whatever order the hash map gives. */
    method FindRule(url: string, i: nat, pos: nat, ps: RoutingParams) returns (found: Found)
      requires Shape(nodes) && i < |nodes| && pos <= |url|
      ensures found == Find(lib, nodes, url, i, pos, ps)
      decreases |url| - pos, 1
    {
      if pos == |url| {
        return Found(nodes[i].rule, ps);
      }
      found := TryParam(url, i, pos, ps, INT, NOTHING);
      found := TryParam(url, i, pos, ps, UINT, found);
      found := TryParam(url, i, pos, ps, DOUBLE, found);
      found := TryParam(url, i, pos, ps, STRING, found);
      found := TryParam(url, i, pos, ps, PATH, found);
      found := TryChildren(url, i, pos, ps, found);
    }

    method TryChildren(url: string, i: nat, pos: nat, ps: RoutingParams, found: Found) returns (best: Found)
      requires Shape(nodes) && i < |nodes| && pos < |url|
      ensures best == Better(found, ViaChild(lib, nodes, url, i, pos, ps))
      decreases |url| - pos, 0
    {
      hide Find;
      best := found;
      var kids := nodes[i].children;
      assert NodeOk(nodes[i], i, |nodes|);
      var todo := kids.Keys;
      while todo != {}
        invariant todo <= kids.Keys
        invariant best == if exists k :: k in kids.Keys - todo && StartsAt(url, pos, k)
                          then Better(found, ViaChild(lib, nodes, url, i, pos, ps)) else found
      {
        var fragment :| fragment in todo;
        if StartsAt(url, pos, fragment) {
          forall k | k in kids && StartsAt(url, pos, k) ensures k == fragment {
            OneFragmentMatches(kids, url, pos, k, fragment);
          }
          ViaChildIs(lib, nodes, url, i, pos, ps, fragment);
          var ret := FindRule(url, kids[fragment], pos + |fragment|, ps);
          best := Better(best, ret);
          assert fragment in kids.Keys - (todo - {fragment});
        }
        todo := todo - {fragment};
      }
    }

    method Lookup(url: string) returns (found: Found)
      requires Serving()
      ensures Answers(lib, rules, url, found) && AnswersByFilling(lib, rules, url, found)
    {
      hide Answers;
      hide AnswersByFilling;
      found := FindRule(url, 0, 0, NO_PARAMS);
      AnswersAgree(lib, rules, url, found);
    }
  }
}
