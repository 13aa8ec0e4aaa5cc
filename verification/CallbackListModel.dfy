/** A list of callbacks that may change while iterators walk over it. */
module CallbackListModel {
  import opened Common

  /** A list node; its number stands for its address, and numbers grow in the order of insertion. */
  datatype Node = Node(id: nat, live: bool)

  predicate Ordered(nodes: seq<Node>) { forall i, j :: 0 <= i < j < |nodes| ==> nodes[i].id < nodes[j].id }

  /** Where the node stands, or the length of the list. */
  function IndexOf(nodes: seq<Node>, id: nat): (i: nat)
    ensures i <= |nodes| && (i < |nodes| ==> nodes[i].id == id)
    ensures forall j :: 0 <= j < i ==> nodes[j].id != id
  {
    if nodes == [] || nodes[0].id == id then 0 else 1 + IndexOf(nodes[1..], id)
  }

  predicate Holds(nodes: seq<Node>, id: nat) { IndexOf(nodes, id) < |nodes| }

  /** The first live node from `i` on, or the length of the list. */
  function FirstLive(nodes: seq<Node>, i: nat): (j: nat)
    requires i <= |nodes|
    ensures i <= j <= |nodes| && (j < |nodes| ==> nodes[j].live) && forall k :: i <= k < j ==> !nodes[k].live
    decreases |nodes| - i
  {
    if i == |nodes| || nodes[i].live then i else FirstLive(nodes, i + 1)
  }

  /** The node at an index, as a list iterator sees it: past the last one there is only the end. */
  function PointAt(nodes: seq<Node>, i: nat): Option<nat> { if i < |nodes| then Some(nodes[i].id) else None }

  function Compacted(nodes: seq<Node>): seq<Node> {
    if nodes == [] then []
    else Compacted(nodes[..|nodes| - 1]) + if nodes[|nodes| - 1].live then [nodes[|nodes| - 1]] else []
  }

  function Without(nodes: seq<Node>, i: nat): seq<Node>
    requires i < |nodes|
  {
    nodes[..i] + nodes[i + 1..]
  }

  // ----- the operations on values -----

  datatype List = List(nodes: seq<Node>, nextId: nat, active: nat)

  function Add(l: List): List { List(l.nodes + [Node(l.nextId, true)], l.nextId + 1, l.active) }

  /** The end of a subscription: the node is nulled while an iterator is active and erased otherwise. */
  function Unsubscribe(l: List, id: nat): List
    requires Holds(l.nodes, id)
  {
    var i := IndexOf(l.nodes, id);
    l.(nodes := if l.active > 0 then l.nodes[i := Node(id, false)] else Without(l.nodes, i))
  }

  function Open(l: List): List { l.(active := l.active + 1) }

  function Close(l: List): List
    requires l.active > 0
  {
    if l.active == 1 then List(Compacted(l.nodes), l.nextId, 0) else l.(active := l.active - 1)
  }

  /** The iterator's next callback, if any, and where the iterator stands then. */
  function Next(nodes: seq<Node>, at: Option<nat>): (r: (Option<nat>, Option<nat>))
    requires at.Some? ==> Holds(nodes, at.value)
  {
    if at.None? then (None, None)
    else
      var j := FirstLive(nodes, IndexOf(nodes, at.value));
      (PointAt(nodes, j), PointAt(nodes, j + 1))
  }
}
