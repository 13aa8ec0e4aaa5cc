/** Merging a node with its simple children keeps the meaning of every lookup. */
module TrieMerge {
  import opened RoutingTypes
  import opened TrieModel

  /** A node needs no merge: it has no literal edge, or some child carries a rule or a parameter edge. */
  ghost predicate Settled(nodes: seq<Node>, i: nat)
    requires Shape(nodes) && i < |nodes|
  {
    var kids := nodes[i].children;
    kids == map[] || exists k :: k in kids && !nodes[kids[k]].IsSimpleNode()
  }

  /** `k` leads from node `i` to a child that has an edge `c`. */
  ghost predicate TwoStep(nodes: seq<Node>, i: nat, k: string, c: string)
    requires Shape(nodes) && i < |nodes|
  {
    k in nodes[i].children && c in nodes[nodes[i].children[k]].children
  }

  /** Every two-step edge of node `i` is in `merged` under the joined fragment. */
  ghost predicate HasJoins(nodes: seq<Node>, i: nat, merged: map<string, nat>)
    requires Shape(nodes) && i < |nodes|
  {
    forall k, c :: TwoStep(nodes, i, k, c) ==>
      k + c in merged && merged[k + c] == nodes[nodes[i].children[k]].children[c]
  }

  /** Nothing else is in `merged`. */
  ghost predicate OnlyJoins(nodes: seq<Node>, i: nat, merged: map<string, nat>)
    requires Shape(nodes) && i < |nodes|
  {
    forall f :: f in merged ==> exists k, c :: TwoStep(nodes, i, k, c) && f == k + c
  }

  /** `merged` holds exactly the two-step edges of node `i`. */
  ghost predicate IsMerged(nodes: seq<Node>, i: nat, merged: map<string, nat>)
    requires Shape(nodes) && i < |nodes|
  {
    HasJoins(nodes, i, merged) && OnlyJoins(nodes, i, merged)
  }

  function WithChildren(nodes: seq<Node>, i: nat, merged: map<string, nat>): seq<Node>
    requires i < |nodes|
  {
    nodes[i := nodes[i].(children := merged)]
  }

  lemma PrefixesOfOneText(f: string, a: string, b: string)
    requires a <= f && b <= f && |a| <= |b|
    ensures a <= b
  {}

  /** Two joined fragments are equal only when they come from the same pair of edges. */
  lemma JoinsDoNotCollide(nodes: seq<Node>, i: nat, k1: string, c1: string, k2: string, c2: string)
    requires Shape(nodes) && i < |nodes| && TwoStep(nodes, i, k1, c1) && TwoStep(nodes, i, k2, c2)
    requires k1 + c1 <= k2 + c2
    ensures k1 == k2 && c1 == c2
  {
    var f := k2 + c2;
    assert k1 <= k1 + c1 <= f && k2 <= f;
    if |k1| <= |k2| {
      PrefixesOfOneText(f, k1, k2);
    } else {
      PrefixesOfOneText(f, k2, k1);
    }
    assert k1 == k2;
    var child := nodes[i].children[k1];
    assert c1 == (k1 + c1)[|k1|..] && c2 == f[|k2|..];
    assert c1 <= c2;
    assert NodeOk(nodes[child], child, |nodes|);
  }

  /** `merged` holds exactly the joins of the edge pairs in `seen`. */
  ghost predicate JoinsOf(nodes: seq<Node>, i: nat, seen: set<(string, string)>, merged: map<string, nat>)
    requires Shape(nodes) && i < |nodes|
  {
    && (forall p :: p in seen ==> TwoStep(nodes, i, p.0, p.1) && p.0 + p.1 in merged
                                  && merged[p.0 + p.1] == nodes[nodes[i].children[p.0]].children[p.1])
    && (forall f :: f in merged ==> exists p :: p in seen && f == p.0 + p.1)
  }

  /** One assignment of the merge loop: it never overwrites the join of another pair. */
  lemma JoinOneMore(nodes: seq<Node>, i: nat, seen: set<(string, string)>, merged: map<string, nat>, k: string, c: string)
    requires Shape(nodes) && i < |nodes| && JoinsOf(nodes, i, seen, merged) && TwoStep(nodes, i, k, c)
    ensures JoinsOf(nodes, i, seen + {(k, c)}, merged[k + c := nodes[nodes[i].children[k]].children[c]])
  {
    var p0 := (k, c);
    var after := merged[k + c := nodes[nodes[i].children[k]].children[c]];
    forall p | p in seen + {p0}
      ensures TwoStep(nodes, i, p.0, p.1) && p.0 + p.1 in after
              && after[p.0 + p.1] == nodes[nodes[i].children[p.0]].children[p.1]
    {
      if p != p0 && p.0 + p.1 == k + c { JoinsDoNotCollide(nodes, i, p.0, p.1, k, c); }
    }
    forall f | f in after ensures exists p :: p in seen + {p0} && f == p.0 + p.1 {
      if f == k + c {
        assert p0 in seen + {p0};
      } else {
        var p :| p in seen && f == p.0 + p.1;
        assert p in seen + {p0};
      }
    }
  }

  lemma Unjoin(nodes: seq<Node>, i: nat, merged: map<string, nat>, f: string) returns (k: string, c: string)
    requires Shape(nodes) && i < |nodes| && IsMerged(nodes, i, merged) && f in merged
    ensures TwoStep(nodes, i, k, c) && f == k + c && k != "" && c != ""
    ensures nodes[i].children[k] < merged[f] < |nodes|
  {
    k, c :| TwoStep(nodes, i, k, c) && f == k + c;
    var child := nodes[i].children[k];
    assert NodeOk(nodes[i], i, |nodes|) && NodeOk(nodes[child], child, |nodes|);
  }

  lemma MergedShape(nodes: seq<Node>, i: nat, merged: map<string, nat>, lo: nat)
    requires Shape(nodes) && i < |nodes| && IsMerged(nodes, i, merged)
    requires i <= lo && forall k :: k in nodes[i].children ==> lo < nodes[i].children[k]
    ensures Shape(WithChildren(nodes, i, merged))
    ensures forall k :: k in merged ==> lo + 1 < merged[k]
  {
    forall f | f in merged ensures f != "" && lo + 1 < merged[f] < |nodes| {
      var k, c := Unjoin(nodes, i, merged, f);
    }
    forall a, b | a in merged && b in merged && a <= b ensures a == b {
      var k1, c1 := Unjoin(nodes, i, merged, a);
      var k2, c2 := Unjoin(nodes, i, merged, b);
      JoinsDoNotCollide(nodes, i, k1, c1, k2, c2);
    }
    assert PrefixFree(merged);
  }

  /** Two lookups agree: the same answer, or both found nothing. */
  ghost predicate Agree(f: Found, g: Found) { f == g || (f.rule == 0 && g.rule == 0) }

  lemma JoinedMatch(url: string, pos: nat, k: string, c: string)
    ensures StartsAt(url, pos, k + c) <==> StartsAt(url, pos, k) && StartsAt(url, pos + |k|, c)
  {
    if pos + |k + c| <= |url| {
      var w := url[pos..pos + |k + c|];
      assert w == url[pos..pos + |k|] + url[pos + |k|..pos + |k| + |c|];
      assert w == k + c ==> w[..|k|] == k && w[|k|..] == c;
    }
  }

  /** A matching joined fragment splits at the matching edge of the node. */
  lemma MatchedJoin(nodes: seq<Node>, i: nat, merged: map<string, nat>, url: string, pos: nat, f: string)
    returns (k: string, c: string)
    requires Shape(nodes) && i < |nodes| && IsMerged(nodes, i, merged) && f in merged && StartsAt(url, pos, f)
    ensures TwoStep(nodes, i, k, c) && StartsAt(url, pos, k) && StartsAt(url, pos + |k|, c) && c != ""
  {
    k, c := Unjoin(nodes, i, merged, f);
    JoinedMatch(url, pos, k, c);
  }

  /** Below a simple node only its literal edges matter. */
  lemma SimpleNodeFind(lib: Libc, nodes: seq<Node>, url: string, i: nat, pos: nat, ps: RoutingParams)
    requires Shape(nodes) && i < |nodes| && nodes[i].IsSimpleNode() && pos <= |url|
    ensures pos == |url| ==> Find(lib, nodes, url, i, pos, ps).rule == 0
    ensures pos < |url| ==> Agree(Find(lib, nodes, url, i, pos, ps), ViaChild(lib, nodes, url, i, pos, ps))
  {}

  /** A node whose branches give the same answers gives the same answer. */
  lemma FindFromBranches(lib: Libc, before: seq<Node>, after: seq<Node>, url: string, i: nat, pos: nat, ps: RoutingParams)
    requires Shape(before) && Shape(after) && i < |before| && i < |after| && pos < |url|
    requires forall t :: ViaParam(lib, after, url, i, pos, ps, t) == ViaParam(lib, before, url, i, pos, ps, t)
    requires Agree(ViaChild(lib, after, url, i, pos, ps), ViaChild(lib, before, url, i, pos, ps))
    ensures Find(lib, after, url, i, pos, ps) == Find(lib, before, url, i, pos, ps)
  {}

  /** No joined fragment matches where the matching child has no matching edge of its own. */
  lemma NoJoinedMatch(lib: Libc, nodes: seq<Node>, merged: map<string, nat>, i: nat, url: string, pos: nat, ps: RoutingParams)
    requires Shape(nodes) && i < |nodes| && IsMerged(nodes, i, merged)
    requires Shape(WithChildren(nodes, i, merged)) && pos < |url|
    requires forall k, c :: TwoStep(nodes, i, k, c) && c != "" ==> !(StartsAt(url, pos, k) && StartsAt(url, pos + |k|, c))
    ensures ViaChild(lib, WithChildren(nodes, i, merged), url, i, pos, ps) == NOTHING
  {
    if f :| f in merged && StartsAt(url, pos, f) {
      var k, c := MatchedJoin(nodes, i, merged, url, pos, f);
    }
  }

  /** Where edge `k` and then edge `c` match, the old lookup walks both and the new one takes their join. */
  lemma JoinedBranch(lib: Libc, nodes: seq<Node>, merged: map<string, nat>, i: nat, url: string, pos: nat, ps: RoutingParams, k: string, c: string)
    requires Shape(nodes) && i < |nodes| && !Settled(nodes, i) && IsMerged(nodes, i, merged)
    requires Shape(WithChildren(nodes, i, merged)) && pos < |url|
    requires TwoStep(nodes, i, k, c) && c != "" && StartsAt(url, pos, k) && StartsAt(url, pos + |k|, c)
    ensures k + c in merged && merged[k + c] == nodes[nodes[i].children[k]].children[c]
    ensures ViaChild(lib, WithChildren(nodes, i, merged), url, i, pos, ps)
            == Find(lib, WithChildren(nodes, i, merged), url, merged[k + c], pos + |k + c|, ps)
    ensures Agree(ViaChild(lib, nodes, url, i, pos, ps), Find(lib, nodes, url, merged[k + c], pos + |k + c|, ps))
  {
    hide Find;
    hide ViaChild;
    hide OnlyJoins;
    hide PrefixFree;
    var child := nodes[i].children[k];
    ViaChildIs(lib, nodes, url, i, pos, ps, k);
    SimpleNodeFind(lib, nodes, url, child, pos + |k|, ps);
    ViaChildIs(lib, nodes, url, child, pos + |k|, ps, c);
    JoinedMatch(url, pos, k, c);
    ViaChildIs(lib, WithChildren(nodes, i, merged), url, i, pos, ps, k + c);
  }

  /** Taking the joined edge gives what walking through the simple child gives. */
  lemma {:induction false} MergedChildBranch(lib: Libc, nodes: seq<Node>, merged: map<string, nat>, i: nat, url: string, pos: nat, ps: RoutingParams)
    requires Shape(nodes) && i < |nodes| && !Settled(nodes, i) && IsMerged(nodes, i, merged)
    requires Shape(WithChildren(nodes, i, merged)) && pos < |url|
    ensures Agree(ViaChild(lib, WithChildren(nodes, i, merged), url, i, pos, ps), ViaChild(lib, nodes, url, i, pos, ps))
    decreases |url| - pos, 0
  {
    hide Find;
    hide ViaChild;
    hide OnlyJoins;
    hide HasJoins;
    hide Settled;
    hide PrefixFree;
    if k, c :| TwoStep(nodes, i, k, c) && c != "" && StartsAt(url, pos, k) && StartsAt(url, pos + |k|, c) {
      JoinedBranch(lib, nodes, merged, i, url, pos, ps, k, c);
      MergeKeepsFind(lib, nodes, merged, i, url, merged[k + c], pos + |k + c|, ps);
    } else {
      NoJoinedMatch(lib, nodes, merged, i, url, pos, ps);
      ChildrenFindNothing(lib, nodes, i, url, pos, ps);
    }
  }

  lemma ChildrenFindNothing(lib: Libc, nodes: seq<Node>, i: nat, url: string, pos: nat, ps: RoutingParams)
    requires Shape(nodes) && i < |nodes| && !Settled(nodes, i) && pos < |url|
    requires forall k, c :: TwoStep(nodes, i, k, c) && c != "" ==> !(StartsAt(url, pos, k) && StartsAt(url, pos + |k|, c))
    ensures ViaChild(lib, nodes, url, i, pos, ps).rule == 0
  {
    if k :| k in nodes[i].children && StartsAt(url, pos, k) {
      var child := nodes[i].children[k];
      ViaChildIs(lib, nodes, url, i, pos, ps, k);
      SimpleNodeFind(lib, nodes, url, child, pos + |k|, ps);
      assert NodeOk(nodes[child], child, |nodes|);
      assert forall c :: c in nodes[child].children ==> TwoStep(nodes, i, k, c) && c != "";
    }
  }

  /** A merge at node `m` leaves the answer of every lookup, from every node, unchanged. */
  lemma {:induction false} MergeKeepsFind(lib: Libc, nodes: seq<Node>, merged: map<string, nat>, m: nat, url: string, i: nat, pos: nat, ps: RoutingParams)
    requires Shape(nodes) && m < |nodes| && !Settled(nodes, m) && IsMerged(nodes, m, merged)
    requires Shape(WithChildren(nodes, m, merged)) && i < |nodes| && pos <= |url|
    ensures Find(lib, WithChildren(nodes, m, merged), url, i, pos, ps) == Find(lib, nodes, url, i, pos, ps)
    decreases |url| - pos, 1
  {
    if pos < |url| {
      var after := WithChildren(nodes, m, merged);
      forall t: ParamType
        ensures ViaParam(lib, after, url, i, pos, ps, t) == ViaParam(lib, nodes, url, i, pos, ps, t)
      {
        if t in nodes[i].params && Consume(lib, t, url, pos).Some? {
          var piece := Consume(lib, t, url, pos).value;
          MergeKeepsFind(lib, nodes, merged, m, url, nodes[i].params[t], piece.end, ps.Push(piece.cap));
        }
      }
      if i == m {
        MergedChildBranch(lib, nodes, merged, m, url, pos, ps);
      } else {
        OtherChildBranch(lib, nodes, merged, m, url, i, pos, ps);
      }
      FindFromBranches(lib, nodes, after, url, i, pos, ps);
    }
  }

  lemma {:induction false} OtherChildBranch(lib: Libc, nodes: seq<Node>, merged: map<string, nat>, m: nat, url: string, i: nat, pos: nat, ps: RoutingParams)
    requires Shape(nodes) && m < |nodes| && !Settled(nodes, m) && IsMerged(nodes, m, merged)
    requires Shape(WithChildren(nodes, m, merged)) && i < |nodes| && i != m && pos < |url|
    ensures ViaChild(lib, WithChildren(nodes, m, merged), url, i, pos, ps) == ViaChild(lib, nodes, url, i, pos, ps)
    decreases |url| - pos, 0
  {
    hide Find;
    if k :| k in nodes[i].children && StartsAt(url, pos, k) {
      assert NodeOk(nodes[i], i, |nodes|);
      ViaChildIs(lib, nodes, url, i, pos, ps, k);
      ViaChildIs(lib, WithChildren(nodes, m, merged), url, i, pos, ps, k);
      MergeKeepsFind(lib, nodes, merged, m, url, nodes[i].children[k], pos + |k|, ps);
    }
  }
}
