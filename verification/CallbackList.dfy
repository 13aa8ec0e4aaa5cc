/** The list and its iterators, edited in place. */
module CallbackList {
  import opened Common
  import opened CallbackListModel

  class CallbackList {
    var nodes: seq<Node>
    var nextId: nat
    var active: nat
    var removals: nat

    constructor ()
      ensures Value() == List([], 0, 0) && removals == 0
    {
      nodes, nextId, active, removals := [], 0, 0, 0;
    }

    function Value(): List
      reads this
    {
      List(nodes, nextId, active)
    }

    method Add() returns (id: nat)
      modifies this
      ensures Value() == CallbackListModel.Add(old(Value())) && id == old(nextId) && removals == old(removals)
    {
      id := nextId;
      nodes := nodes + [Node(id, true)];
      nextId := nextId + 1;
    }

    /** A subscription's destructor; `removals` counts the runs of the removal callback. */
    method Unsubscribe(id: nat)
      requires Holds(nodes, id)
      modifies this
      ensures Value() == CallbackListModel.Unsubscribe(old(Value()), id)
      ensures removals == old(removals) + if old(active) > 0 then 0 else 1
    {
      var i := IndexOf(nodes, id);
      if active > 0 {
        nodes := nodes[i := Node(id, false)];
      } else {
        nodes := Without(nodes, i);
        removals := removals + 1;
      }
    }

    /** Erases the nulled nodes; the removal callback runs once if there was any. */
    method Compact()
      modifies this
      ensures nodes == Compacted(old(nodes)) && nextId == old(nextId) && active == old(active)
      ensures removals == old(removals) + if |Compacted(old(nodes))| < |old(nodes)| then 1 else 0
    {
      ghost var all := nodes;
      var it, updated := 0, false;
      ghost var seen := 0;
      assert all[..0] == [] && all[0..] == all;
      while it < |nodes|
        invariant 0 <= it <= |nodes| && nextId == old(nextId) && active == old(active) && removals == old(removals)
        invariant 0 <= seen <= |all| && nodes[it..] == all[seen..] && nodes[..it] == Compacted(all[..seen])
        invariant updated == (it < seen) && it <= seen
        decreases |nodes| - it
      {
        assert all[seen] == all[seen..][0] == nodes[it..][0] == nodes[it];
        assert all[..seen + 1][..seen] == all[..seen];
        assert all[seen + 1..] == all[seen..][1..] == nodes[it..][1..] == nodes[it + 1..];
        if !nodes[it].live {
          updated := true;
          ghost var front := nodes[..it];
          nodes := Without(nodes, it);
          assert nodes[..it] == front;
        } else {
          assert nodes[..it + 1] == nodes[..it] + [nodes[it]];
          it := it + 1;
        }
        seen := seen + 1;
      }
      assert all[seen..] == [] && all[..seen] == all && nodes[..it] == nodes;
      if updated {
        removals := removals + 1;
      }
    }
  }

  class Iterator {
    const list: CallbackList
    var at: Option<nat>

    constructor (list: CallbackList)
      modifies list
      ensures this.list == list && list.Value() == Open(old(list.Value())) && at == PointAt(list.nodes, 0)
    {
      this.list := list;
      at := PointAt(list.nodes, 0);
      list.active := list.active + 1;
    }

    constructor Copy(other: Iterator)
      modifies other.list
      ensures list == other.list && list.Value() == Open(old(other.list.Value())) && at == old(other.at)
    {
      list := other.list;
      at := other.at;
      other.list.active := other.list.active + 1;
    }

    /** The destructor: the last iterator to go compacts the list. */
    method Close()
      requires list.active > 0
      modifies list
      ensures list.Value() == CallbackListModel.Close(old(list.Value()))
      ensures list.removals == old(list.removals) + if |list.nodes| < |old(list.nodes)| then 1 else 0
    {
      list.active := list.active - 1;
      if list.active == 0 {
        list.Compact();
      }
    }

    method GetNext() returns (cb: Option<nat>)
      requires at.Some? ==> Holds(list.nodes, at.value)
      modifies this
      ensures (cb, at) == Next(list.nodes, old(at))
    {
      if at.None? {
        return None;
      }
      ghost var from := IndexOf(list.nodes, at.value);
      var i := IndexOf(list.nodes, at.value);
      while i < |list.nodes| && !list.nodes[i].live
        invariant from <= i <= |list.nodes| && FirstLive(list.nodes, i) == FirstLive(list.nodes, from)
      {
        i := i + 1;
      }
      cb := PointAt(list.nodes, i);
      at := PointAt(list.nodes, i + 1);
    }
  }
}
