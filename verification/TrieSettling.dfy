/** The trie and the router as objects that update their node table in place. */
module TrieSettling {
  import opened RoutingTypes
  import opened TrieModel
  import opened TrieMerge

  /** Every node below `i` is settled. */
  ghost predicate AllSettled(nodes: seq<Node>, i: nat)
    requires Shape(nodes) && i < |nodes|
    decreases |nodes| - i
  {
    && Settled(nodes, i)
    && (forall t :: t in nodes[i].params ==> AllSettled(nodes, nodes[i].params[t]))
    && (forall k :: k in nodes[i].children ==> AllSettled(nodes, nodes[i].children[k]))
  }

  /** What optimising may do: rules and parameter edges stay, settled nodes stay, and every lookup stays. */
  ghost predicate Optimised(lib: Libc, a: seq<Node>, b: seq<Node>) {
    && Shape(a) && Shape(b) && |a| == |b|
    && (forall i :: 0 <= i < |a| ==> a[i].rule == b[i].rule && a[i].params == b[i].params)
    && (forall i :: 0 <= i < |a| && Settled(a, i) ==> b[i] == a[i])
    && SameMeaning(lib, a, b)
  }

  ghost predicate SameMeaning(lib: Libc, a: seq<Node>, b: seq<Node>)
    requires Shape(a) && Shape(b) && |a| == |b|
  {
    forall url, i, pos: nat, ps :: 0 <= i < |a| && pos <= |url| ==>
      Find(lib, b, url, i, pos, ps) == Find(lib, a, url, i, pos, ps)
  }

  lemma SettledStays(lib: Libc, a: seq<Node>, b: seq<Node>, i: nat)
    requires Optimised(lib, a, b) && i < |a| && Settled(a, i)
    ensures Settled(b, i)
  {
    hide SameMeaning;
    assert NodeOk(a[i], i, |a|);
    if a[i].children != map[] {
      var k :| k in a[i].children && !a[a[i].children[k]].IsSimpleNode();
      assert k in b[i].children && !b[b[i].children[k]].IsSimpleNode();
    }
  }

  lemma {:induction false} AllSettledStays(lib: Libc, a: seq<Node>, b: seq<Node>, i: nat)
    requires Optimised(lib, a, b) && i < |a| && AllSettled(a, i)
    ensures AllSettled(b, i)
    decreases |a| - i
  {
    hide SameMeaning;
    SettledStays(lib, a, b, i);
    assert NodeOk(a[i], i, |a|);
    forall t | t in b[i].params ensures AllSettled(b, b[i].params[t]) {
      AllSettledStays(lib, a, b, a[i].params[t]);
    }
    forall k | k in b[i].children ensures AllSettled(b, b[i].children[k]) {
      AllSettledStays(lib, a, b, a[i].children[k]);
    }
  }

  lemma SettledHere(nodes: seq<Node>, i: nat)
    requires Shape(nodes) && i < |nodes| && Settled(nodes, i)
    requires forall t :: t in nodes[i].params ==> AllSettled(nodes, nodes[i].params[t])
    requires forall k :: k in nodes[i].children ==> AllSettled(nodes, nodes[i].children[k])
    ensures AllSettled(nodes, i)
  {}

  lemma SettledBelow(nodes: seq<Node>, i: nat)
    requires Shape(nodes) && i < |nodes| && AllSettled(nodes, i)
    ensures Settled(nodes, i)
    ensures forall t :: t in nodes[i].params ==> AllSettled(nodes, nodes[i].params[t])
    ensures forall k :: k in nodes[i].children ==> AllSettled(nodes, nodes[i].children[k])
  {}

  lemma OptimisedChain(lib: Libc, a: seq<Node>, b: seq<Node>, c: seq<Node>)
    requires Optimised(lib, a, b) && Optimised(lib, b, c)
    ensures Optimised(lib, a, c)
  {
    forall i | 0 <= i < |a| && Settled(a, i) ensures c[i] == a[i] {
      SettledStays(lib, a, b, i);
    }
    forall url, i, pos: nat, ps | 0 <= i < |a| && pos <= |url|
      ensures Find(lib, c, url, i, pos, ps) == Find(lib, a, url, i, pos, ps)
    {
      hide Find;
      assert Find(lib, c, url, i, pos, ps) == Find(lib, b, url, i, pos, ps);
    }
  }

  lemma OptimisedSelf(lib: Libc, a: seq<Node>)
    requires Shape(a)
    ensures Optimised(lib, a, a)
  {}

  /** Merging an unsettled node is one optimising step. */
  lemma MergeOptimises(lib: Libc, nodes: seq<Node>, i: nat, merged: map<string, nat>, lo: nat)
    requires Shape(nodes) && i < |nodes| && !Settled(nodes, i) && IsMerged(nodes, i, merged)
    requires i <= lo && forall k :: k in nodes[i].children ==> lo < nodes[i].children[k]
    ensures Optimised(lib, nodes, WithChildren(nodes, i, merged))
    ensures forall k :: k in merged ==> lo + 1 < merged[k]
  {
    MergedShape(nodes, i, merged, lo);
    forall url, j, pos: nat, ps | 0 <= j < |nodes| && pos <= |url|
      ensures Find(lib, WithChildren(nodes, i, merged), url, j, pos, ps) == Find(lib, nodes, url, j, pos, ps)
    {
      MergeKeepsFind(lib, nodes, merged, i, url, j, pos, ps);
    }
  }
}
