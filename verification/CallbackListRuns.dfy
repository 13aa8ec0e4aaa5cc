/** Every interleaving of registrations, removals and iterators. */
module CallbackListRuns {
  import opened Common
  import opened CallbackListModel

  /**
   * An iterator with its history: everything it returned, the number of nodes there had been when it
   * started, and the bound below which it has walked.
   */
  datatype Cursor = Cursor(at: Option<nat>, born: nat, mark: nat, returned: seq<nat>)

  datatype System = System(list: List, subscribed: set<nat>, cursors: map<nat, Cursor>)

  datatype Op =
    | DoAdd
    | DoUnsubscribe(id: nat)
    | DoOpen(it: nat)
    | DoCopy(it: nat, from: nat)
    | DoNext(it: nat)
    | DoClose(it: nat)

  function Mark(at: Option<nat>, l: List): nat { if at.Some? then at.value else l.nextId }

  function Advanced(cur: Cursor, l: List): Cursor
    requires cur.at.Some? ==> Holds(l.nodes, cur.at.value)
  {
    var (cb, at) := Next(l.nodes, cur.at);
    if cur.at.None? then cur
    else Cursor(at, cur.born, Mark(at, l), if cb.Some? then cur.returned + [cb.value] else cur.returned)
  }

  /** Whether an operation can be called: subscriptions end once, iterators are used while they live. */
  predicate Enabled(s: System, op: Op) {
    match op
    case DoAdd => true
    case DoUnsubscribe(id) => id in s.subscribed && Holds(s.list.nodes, id)
    case DoOpen(it) => it !in s.cursors
    case DoCopy(it, from) => it !in s.cursors && from in s.cursors
    case DoNext(it) => it in s.cursors && (s.cursors[it].at.Some? ==> Holds(s.list.nodes, s.cursors[it].at.value))
    case DoClose(it) => it in s.cursors && s.list.active > 0
  }

  function Perform(s: System, op: Op): System
    requires Enabled(s, op)
  {
    var l := s.list;
    match op
    case DoAdd => s.(list := Add(l), subscribed := s.subscribed + {l.nextId})
    case DoUnsubscribe(id) => s.(list := Unsubscribe(l, id), subscribed := s.subscribed - {id})
    case DoOpen(it) =>
      var at := PointAt(l.nodes, 0);
      s.(list := Open(l), cursors := s.cursors[it := Cursor(at, l.nextId, Mark(at, l), [])])
    case DoCopy(it, from) => s.(list := Open(l), cursors := s.cursors[it := s.cursors[from]])
    case DoNext(it) => s.(cursors := s.cursors[it := Advanced(s.cursors[it], l)])
    case DoClose(it) => s.(list := Close(l), cursors := s.cursors - {it})
  }

  function After(ops: seq<Op>): System
    decreases |ops|
  {
    if ops == [] then System(List([], 0, 0), {}, map[])
    else
      var s := After(ops[..|ops| - 1]);
      var op := ops[|ops| - 1];
      if Enabled(s, op) then Perform(s, op) else s
  }

  // ----- the invariant -----

  /** The nodes are in order of insertion, and exactly the subscribed ones are live. */
  ghost predicate NodesOk(l: List, subscribed: set<nat>) {
    && Ordered(l.nodes)
    && (forall i :: 0 <= i < |l.nodes| ==> l.nodes[i].id < l.nextId && (l.nodes[i].live <==> l.nodes[i].id in subscribed))
    && (forall id :: id in subscribed ==> Holds(l.nodes, id))
    && (l.active == 0 ==> forall i :: 0 <= i < |l.nodes| ==> l.nodes[i].live)
  }

  predicate Increasing(s: seq<nat>) { forall i, j :: 0 <= i < j < |s| ==> s[i] < s[j] }

  /** The iterator stands on a node or at the end, and of all it walked over it returned the nodes that are live still. */
  ghost predicate CursorOk(cur: Cursor, l: List) {
    && (cur.at.Some? ==> Holds(l.nodes, cur.at.value) && cur.mark == cur.at.value)
    && (cur.at.None? ==> cur.born <= cur.mark) && cur.mark <= l.nextId && cur.born <= l.nextId
    && Increasing(cur.returned) && (forall i :: 0 <= i < |cur.returned| ==> cur.returned[i] < cur.mark)
    && (forall i :: 0 <= i < |l.nodes| && l.nodes[i].id < cur.mark && l.nodes[i].live ==> l.nodes[i].id in cur.returned)
  }

  ghost predicate Inv(s: System) {
    && NodesOk(s.list, s.subscribed)
    && s.list.active == |s.cursors|
    && forall it :: it in s.cursors ==> CursorOk(s.cursors[it], s.list)
  }

  // ----- nodes -----

  lemma HoldsAt(nodes: seq<Node>, i: nat)
    requires Ordered(nodes) && i < |nodes|
    ensures IndexOf(nodes, nodes[i].id) == i
  {
    var k := IndexOf(nodes, nodes[i].id);
    assert k <= i;
  }

  lemma AddOk(l: List, subscribed: set<nat>)
    requires NodesOk(l, subscribed)
    ensures NodesOk(Add(l), subscribed + {l.nextId})
  {
    var l' := Add(l);
    forall id | id in subscribed ensures Holds(l'.nodes, id) { StillHeld(l, id); }
    assert l'.nodes[|l.nodes|].id == l.nextId;
    HoldsAt(l'.nodes, |l.nodes|);
  }

  lemma StillHeld(l: List, id: nat)
    requires Holds(l.nodes, id)
    ensures Holds(Add(l).nodes, id)
  {
    var i := IndexOf(l.nodes, id);
    assert Add(l).nodes[i].id == id;
  }

  lemma UnsubscribeOk(l: List, subscribed: set<nat>, id: nat)
    requires NodesOk(l, subscribed) && id in subscribed
    ensures NodesOk(Unsubscribe(l, id), subscribed - {id})
  {
    hide NodesOk;
    hide Holds;
    if l.active > 0 { NulledOk(l, subscribed, id); } else { ErasedOk(l, subscribed, id); }
  }

  lemma HeldWhere(nodes: seq<Node>, id: nat, i: nat)
    requires i < |nodes| && nodes[i].id == id
    ensures Holds(nodes, id)
  {}

  lemma NulledOk(l: List, subscribed: set<nat>, id: nat)
    requires NodesOk(l, subscribed) && id in subscribed && l.active > 0
    ensures NodesOk(Unsubscribe(l, id), subscribed - {id})
  {
    var i := IndexOf(l.nodes, id);
    var nodes := l.nodes[i := Node(id, false)];
    forall x | x in subscribed - {id} ensures Holds(nodes, x) {
      HeldWhere(nodes, x, IndexOf(l.nodes, x));
    }
  }

  lemma ErasedOk(l: List, subscribed: set<nat>, id: nat)
    requires NodesOk(l, subscribed) && id in subscribed && l.active == 0
    ensures NodesOk(Unsubscribe(l, id), subscribed - {id})
  {
    hide Ordered;
    var i := IndexOf(l.nodes, id);
    var nodes := Without(l.nodes, i);
    WithoutOrdered(l.nodes, i);
    forall x | x in subscribed - {id} ensures Holds(nodes, x) {
      var k := IndexOf(l.nodes, x);
      HeldWhere(nodes, x, if k < i then k else k - 1);
    }
  }

  lemma WithoutOrdered(nodes: seq<Node>, i: nat)
    requires Ordered(nodes) && i < |nodes|
    ensures Ordered(Without(nodes, i))
    ensures forall k :: 0 <= k < |Without(nodes, i)| ==> Without(nodes, i)[k] in nodes && Without(nodes, i)[k].id != nodes[i].id
  {
    var w := Without(nodes, i);
    forall k | 0 <= k < |w| ensures w[k] in nodes && w[k].id != nodes[i].id {
      assert w[k] == nodes[if k < i then k else k + 1];
    }
  }

  /** Compacting keeps the live nodes, in order. */
  lemma {:induction false} CompactedMeans(nodes: seq<Node>)
    requires Ordered(nodes)
    ensures Ordered(Compacted(nodes)) && forall n :: n in Compacted(nodes) <==> n in nodes && n.live
  {
    if nodes != [] {
      var k := |nodes| - 1;
      CompactedMeans(nodes[..k]);
      assert nodes == nodes[..k] + [nodes[k]];
      var c := Compacted(nodes[..k]);
      forall i | 0 <= i < |c| ensures c[i].id < nodes[k].id {
        assert c[i] in nodes[..k];
      }
    }
  }

  lemma CloseOk(l: List, subscribed: set<nat>)
    requires NodesOk(l, subscribed) && l.active > 0
    ensures NodesOk(Close(l), subscribed)
  {
    hide Ordered;
    if l.active == 1 {
      CompactedMeans(l.nodes);
      var nodes := Compacted(l.nodes);
      forall i | 0 <= i < |nodes| ensures nodes[i].id < l.nextId && nodes[i].live && nodes[i].id in subscribed {
        assert nodes[i] in l.nodes;
      }
      forall id | id in subscribed ensures Holds(nodes, id) {
        var n := l.nodes[IndexOf(l.nodes, id)];
        assert n in nodes;
        var i :| 0 <= i < |nodes| && nodes[i] == n;
        HeldWhere(nodes, id, i);
      }
    }
  }

  // ----- iterators -----

  /** Registrations and nulled nodes do not disturb an iterator. */
  lemma CursorAdd(cur: Cursor, l: List)
    requires CursorOk(cur, l) && Ordered(l.nodes)
    ensures CursorOk(cur, Add(l))
  {
    if cur.at.Some? { StillHeld(l, cur.at.value); }
  }

  lemma CursorNulled(cur: Cursor, l: List, id: nat)
    requires CursorOk(cur, l) && Holds(l.nodes, id) && l.active > 0
    ensures CursorOk(cur, Unsubscribe(l, id))
  {
    var l' := Unsubscribe(l, id);
    if cur.at.Some? { HeldWhere(l'.nodes, cur.at.value, IndexOf(l.nodes, cur.at.value)); }
  }

  lemma CursorStart(l: List, subscribed: set<nat>)
    requires NodesOk(l, subscribed)
    ensures var at := PointAt(l.nodes, 0); CursorOk(Cursor(at, l.nextId, Mark(at, l), []), Open(l))
  {
    if l.nodes != [] { HeldWhere(l.nodes, l.nodes[0].id, 0); }
  }

  /** The nodes an iterator at index `i` has behind it. */
  lemma BelowMark(l: List, subscribed: set<nat>, i: nat, k: nat)
    requires NodesOk(l, subscribed) && k < |l.nodes|
    ensures l.nodes[k].id < Mark(PointAt(l.nodes, i), l) <==> k < i || i >= |l.nodes|
  {}

  lemma CursorNext(cur: Cursor, l: List, subscribed: set<nat>)
    requires NodesOk(l, subscribed) && CursorOk(cur, l)
    ensures CursorOk(Advanced(cur, l), l)
  {
    hide NodesOk;
    if cur.at.Some? {
      var i := IndexOf(l.nodes, cur.at.value);
      var j := FirstLive(l.nodes, i);
      var next := Advanced(cur, l);
      MarkBounds(l, subscribed, j + 1);
      if j < |l.nodes| {
        BelowMark(l, subscribed, j + 1, j);
        BelowMark(l, subscribed, j, i);
        assert l.nodes[i].id <= l.nodes[j].id by { NodesOrdered(l, subscribed); }
        Longer(cur.returned, l.nodes[j].id, cur.mark, next.mark);
      }
      forall k | 0 <= k < |l.nodes| && l.nodes[k].id < next.mark && l.nodes[k].live ensures l.nodes[k].id in next.returned {
        BelowMark(l, subscribed, j + 1, k);
        BelowMark(l, subscribed, i, k);
      }
    }
  }

  lemma MarkBounds(l: List, subscribed: set<nat>, i: nat)
    requires NodesOk(l, subscribed)
    ensures Mark(PointAt(l.nodes, i), l) <= l.nextId
    ensures i < |l.nodes| ==> Holds(l.nodes, l.nodes[i].id)
  {
    if i < |l.nodes| { HeldWhere(l.nodes, l.nodes[i].id, i); }
  }

  lemma Longer(returned: seq<nat>, id: nat, mark: nat, mark': nat)
    requires Increasing(returned) && (forall i :: 0 <= i < |returned| ==> returned[i] < mark) && mark <= id < mark'
    ensures Increasing(returned + [id]) && forall i :: 0 <= i < |returned + [id]| ==> (returned + [id])[i] < mark'
  {}

  lemma StepInv(s: System, op: Op)
    requires Inv(s) && Enabled(s, op)
    ensures Inv(Perform(s, op))
  {
    hide NodesOk;
    hide CursorOk;
    hide Holds;
    var l := s.list;
    match op
    case DoAdd =>
      AddOk(l, s.subscribed);
      forall it | it in s.cursors ensures CursorOk(s.cursors[it], Add(l)) { NodesOrdered(l, s.subscribed); CursorAdd(s.cursors[it], l); }
    case DoUnsubscribe(id) =>
      UnsubscribeOk(l, s.subscribed, id);
      forall it | it in s.cursors ensures CursorOk(s.cursors[it], Unsubscribe(l, id)) { CursorNulled(s.cursors[it], l, id); }
    case DoOpen(it) =>
      OpenOk(l, s.subscribed);
      CursorStart(l, s.subscribed);
      forall x | x in s.cursors ensures CursorOk(s.cursors[x], Open(l)) { CursorOpen(s.cursors[x], l); }
    case DoCopy(it, from) =>
      OpenOk(l, s.subscribed);
      forall x | x in s.cursors ensures CursorOk(s.cursors[x], Open(l)) { CursorOpen(s.cursors[x], l); }
    case DoNext(it) => CursorNext(s.cursors[it], l, s.subscribed);
    case DoClose(it) =>
      CloseOk(l, s.subscribed);
      var rest := s.cursors - {it};
      assert |rest| == |s.cursors| - 1 by { assert rest.Keys == s.cursors.Keys - {it}; }
      forall x | x in rest ensures CursorOk(rest[x], Close(l)) {
        assert l.active > 1;
        CursorClose(s.cursors[x], l);
      }
  }

  lemma NodesOrdered(l: List, subscribed: set<nat>)
    requires NodesOk(l, subscribed)
    ensures Ordered(l.nodes)
  {}

  lemma OpenOk(l: List, subscribed: set<nat>)
    requires NodesOk(l, subscribed)
    ensures NodesOk(Open(l), subscribed)
  {}

  lemma CursorOpen(cur: Cursor, l: List)
    requires CursorOk(cur, l)
    ensures CursorOk(cur, Open(l))
  {}

  lemma CursorClose(cur: Cursor, l: List)
    requires CursorOk(cur, l) && l.active > 1
    ensures CursorOk(cur, Close(l))
  {}

  lemma {:induction false} EveryRun(ops: seq<Op>)
    ensures Inv(After(ops))
    decreases |ops|
  {
    hide Inv;
    hide Perform;
    hide Enabled;
    if ops == [] {
      EmptyInv();
    } else {
      var s := After(ops[..|ops| - 1]);
      EveryRun(ops[..|ops| - 1]);
      if Enabled(s, ops[|ops| - 1]) { StepInv(s, ops[|ops| - 1]); }
    }
  }

  lemma EmptyInv()
    ensures Inv(System(List([], 0, 0), {}, map[]))
  {}

  // ----- what a client sees -----

  /** Every subscription and every iterator can be used in every state: no iterator hangs on an erased node. */
  lemma NothingDangles(ops: seq<Op>, op: Op)
    requires var s := After(ops);
             match op
             case DoAdd => true
             case DoUnsubscribe(id) => id in s.subscribed
             case DoOpen(it) => it !in s.cursors
             case DoCopy(it, from) => it !in s.cursors && from in s.cursors
             case DoNext(it) => it in s.cursors
             case DoClose(it) => it in s.cursors
    ensures Enabled(After(ops), op)
  {
    EveryRun(ops);
    var s := After(ops);
    if op.DoClose? { assert op.it in s.cursors.Keys && |s.cursors.Keys| == s.list.active; }
  }

  /** An iterator returns live subscriptions, in the order of registration and none twice. */
  lemma ReturnsInOrder(ops: seq<Op>, it: nat)
    requires it in After(ops).cursors
    ensures Increasing(After(ops).cursors[it].returned)
    ensures var s := After(ops);
            var cur := s.cursors[it];
            && Enabled(s, DoNext(it))
            && var cb := Next(s.list.nodes, cur.at).0;
               cb.Some? ==> cb.value in s.subscribed && forall i :: 0 <= i < |cur.returned| ==> cur.returned[i] < cb.value
  {
    EveryRun(ops);
  }

  /** An iterator with no callback left has returned everything registered before it began that is still subscribed. */
  lemma ReturnsAll(ops: seq<Op>, it: nat, id: nat)
    requires var s := After(ops); it in s.cursors && id in s.subscribed && id < s.cursors[it].born
    requires Enabled(After(ops), DoNext(it)) && Next(After(ops).list.nodes, After(ops).cursors[it].at).0 == None
    ensures id in After(ops).cursors[it].returned
  {
    EveryRun(ops);
    var s := After(ops);
    var cur := s.cursors[it];
    var k := IndexOf(s.list.nodes, id);
    assert s.list.nodes[k].live;
  }

  /** Without an iterator the list holds exactly the subscriptions, in the order of registration. */
  lemma AtRest(ops: seq<Op>)
    requires After(ops).cursors == map[]
    ensures var s := After(ops);
            && Ordered(s.list.nodes) && (forall i :: 0 <= i < |s.list.nodes| ==> s.list.nodes[i].live)
            && (forall id :: id in s.subscribed <==> Holds(s.list.nodes, id))
  {
    EveryRun(ops);
  }
}
