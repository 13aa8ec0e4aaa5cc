/** The trie's node table and the meaning of a lookup in it. */
module TrieModel {
  import opened RoutingTypes

  /** `params` and `children` hold node numbers; the source writes 0 for an absent parameter edge. */
  datatype Node = Node(rule: nat, params: map<ParamType, nat>, children: map<string, nat>)
  {
    predicate IsSimpleNode() { rule == 0 && params == map[] }
  }

  const BLANK := Node(0, map[], map[])

  predicate StartsAt(url: string, pos: nat, fragment: string) {
    pos + |fragment| <= |url| && url[pos..pos + |fragment|] == fragment
  }

  /** No fragment is empty and none is a prefix of another, so at most one can match at a position. */
  ghost predicate PrefixFree(m: map<string, nat>) {
    "" !in m && forall a, b :: a in m && b in m && a <= b ==> a == b
  }

  ghost predicate NodeOk(n: Node, i: nat, size: nat) {
    && PrefixFree(n.children)
    && (forall t :: t in n.params ==> i < n.params[t] < size)
    && (forall k :: k in n.children ==> i < n.children[k] < size)
  }

  /** Edges lead to larger node numbers inside the table, and fragments are prefix-free. */
  ghost predicate Shape(nodes: seq<Node>) {
    |nodes| > 0 && forall i :: 0 <= i < |nodes| ==> NodeOk(nodes[i], i, |nodes|)
  }

  datatype Found = Found(rule: nat, params: RoutingParams)

  const NOTHING := Found(0, NO_PARAMS)

  /** Keeps the smaller non-zero rule index, the earlier one on a tie. */
  function Better(best: Found, ret: Found): Found {
    if ret.rule != 0 && (best.rule == 0 || best.rule > ret.rule) then ret else best
  }

  ghost function ViaParam(lib: Libc, nodes: seq<Node>, url: string, i: nat, pos: nat, ps: RoutingParams, t: ParamType)
    : Found
    requires Shape(nodes) && i < |nodes| && pos < |url|
    decreases |url| - pos, 0
  {
    if t !in nodes[i].params then NOTHING else
      match Consume(lib, t, url, pos)
      case None => NOTHING
      case Some(piece) => Find(lib, nodes, url, nodes[i].params[t], piece.end, ps.Push(piece.cap))
  }

  ghost function ViaChild(lib: Libc, nodes: seq<Node>, url: string, i: nat, pos: nat, ps: RoutingParams): Found
    requires Shape(nodes) && i < |nodes| && pos < |url|
    decreases |url| - pos, 0
  {
    if k :| k in nodes[i].children && StartsAt(url, pos, k)
    then Find(lib, nodes, url, nodes[i].children[k], pos + |k|, ps)
    else NOTHING
  }

  /** The best rule below node `i` for the rest of `url` from `pos`, with the captures made on the way. */
  ghost function Find(lib: Libc, nodes: seq<Node>, url: string, i: nat, pos: nat, ps: RoutingParams): Found
    requires Shape(nodes) && i < |nodes| && pos <= |url|
    decreases |url| - pos, 1
  {
    if pos == |url| then Found(nodes[i].rule, ps)
    else
      var f1 := Better(NOTHING, ViaParam(lib, nodes, url, i, pos, ps, INT));
      var f2 := Better(f1, ViaParam(lib, nodes, url, i, pos, ps, UINT));
      var f3 := Better(f2, ViaParam(lib, nodes, url, i, pos, ps, DOUBLE));
      var f4 := Better(f3, ViaParam(lib, nodes, url, i, pos, ps, STRING));
      var f5 := Better(f4, ViaParam(lib, nodes, url, i, pos, ps, PATH));
      Better(f5, ViaChild(lib, nodes, url, i, pos, ps))
  }

  lemma ShorterMatchIsPrefix(url: string, pos: nat, a: string, b: string)
    requires StartsAt(url, pos, a) && StartsAt(url, pos, b) && |a| <= |b|
    ensures a <= b
  {
    assert a == url[pos..pos + |b|][..|a|];
  }

  /** At most one fragment of a node matches at a position. */
  lemma OneFragmentMatches(m: map<string, nat>, url: string, pos: nat, a: string, b: string)
    requires PrefixFree(m) && a in m && b in m
    requires StartsAt(url, pos, a) && StartsAt(url, pos, b)
    ensures a == b
  {
    if |a| <= |b| {
      ShorterMatchIsPrefix(url, pos, a, b);
    } else {
      ShorterMatchIsPrefix(url, pos, b, a);
    }
  }

  /** The child branch is the lookup below the one fragment that matches. */
  lemma ViaChildIs(lib: Libc, nodes: seq<Node>, url: string, i: nat, pos: nat, ps: RoutingParams, k: string)
    requires Shape(nodes) && i < |nodes| && pos < |url|
    requires k in nodes[i].children && StartsAt(url, pos, k)
    ensures ViaChild(lib, nodes, url, i, pos, ps) == Find(lib, nodes, url, nodes[i].children[k], pos + |k|, ps)
  {
    hide Find;
    hide StartsAt;
    forall b | b in nodes[i].children && StartsAt(url, pos, b) ensures b == k {
      OneFragmentMatches(nodes[i].children, url, pos, k, b);
    }
  }
}
