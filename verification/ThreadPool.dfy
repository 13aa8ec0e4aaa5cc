/** What every run of the pool keeps. */
module ThreadPool {
  import opened Common
  import opened ThreadPoolModel

  predicate HoldsTasks(pc: Pc) {
    match pc
    case AddFull(_) => true
    case AddRoom(_) => true
    case AddPush(_) => true
    case AddMany(_) => true
    case AddMay => true
    case AddSpawnLock => true
    case AddSpawn => true
    case AddSpawnUnlock => true
    case AddUnlock => true
    case TakeEmpty => true
    case TakeTop => true
    case TakeUnlock => true
    case _ => false
  }

  predicate HoldsThreads(pc: Pc) {
    match pc
    case AddSpawn => true
    case AddSpawnUnlock => true
    case EraseMany => true
    case EraseEmpty => true
    case EraseSelf => true
    case EraseUnlock(_) => true
    case _ => false
  }

  /** A worker that has not taken itself off the list. */
  predicate Listed(pc: Pc) {
    !pc.Outside? && !IsAdding(pc) && !pc.Gone? && pc != EraseUnlock(true)
  }

  function PlainCount(q: seq<Task>): nat {
    if q == [] then 0 else PlainCount(q[..|q| - 1]) + if q[|q| - 1].plain then 1 else 0
  }

  // ----- the invariant -----

  ghost predicate Locks(s: State) {
    && (forall t: Tid :: HoldsTasks(PcOf(s, t)) <==> s.taskLock == Some(t))
    && (forall t: Tid :: HoldsThreads(PcOf(s, t)) <==> s.threadLock == Some(t))
  }

  /** What the owner of the task mutex has established. */
  predicate TaskOwner(c: Config, s: State)
    requires ValidConfig(c)
  {
    s.taskLock.Some? ==>
      match PcOf(s, s.taskLock.value)
      case AddPush(task) => |s.queue| < c.limit && (task.plain ==> |s.queue| < c.limit - c.reserved)
      case AddSpawnLock => |s.workers| < c.most
      case AddSpawn => |s.workers| < c.most
      case TakeTop => s.queue != []
      case _ => true
  }

  /** What the owner of the thread mutex has established. */
  predicate ThreadOwner(c: Config, s: State) {
    s.threadLock.Some? ==>
      match PcOf(s, s.threadLock.value)
      case EraseEmpty => |s.workers| > c.least
      case EraseSelf => |s.workers| > c.least
      case _ => true
  }

  predicate Bounds(c: Config, s: State)
    requires ValidConfig(c)
  {
    && |s.queue| <= c.limit && PlainCount(s.queue) <= c.limit - c.reserved
    && c.least <= |s.workers| <= c.most
  }

  predicate Conserved(s: State) { multiset(s.added) == multiset(s.queue) + multiset(s.taken) }

  /** The list holds every live worker once and nothing else. */
  ghost predicate Roster(s: State) {
    && (forall i, j :: 0 <= i < j < |s.workers| ==> s.workers[i] != s.workers[j])
    && (forall t: Tid :: t in s.workers <==> Listed(PcOf(s, t)))
  }

  ghost predicate Inv(c: Config, s: State)
    requires ValidConfig(c)
  {
    Locks(s) && TaskOwner(c, s) && ThreadOwner(c, s) && Bounds(c, s) && Conserved(s) && Roster(s)
  }

  lemma InitialInv(c: Config, s: State)
    requires ValidConfig(c) && Initial(c, s)
    ensures Inv(c, s)
  {}

  // ----- one step -----

  /** How a step's effect goes with the places it joins. */
  ghost predicate Fits(s: State, t: Tid, m: Move)
    requires m.Move?
  {
    var pc, pc', e := PcOf(s, t), m.pc, m.effect;
    && (HoldsTasks(pc') <==> e == LockTasks || (HoldsTasks(pc) && e != UnlockTasks))
    && (e == LockTasks ==> s.taskLock == None) && (e == UnlockTasks ==> HoldsTasks(pc))
    && (HoldsThreads(pc') <==> e == LockThreads || (HoldsThreads(pc) && e != UnlockThreads))
    && (e == LockThreads ==> s.threadLock == None) && (e == UnlockThreads ==> HoldsThreads(pc))
    && (Listed(pc') <==> Listed(pc) && e != Erase)
    && (e.Enqueue? ==> pc == AddPush(e.task)) && (e.Dequeue? ==> pc == TakeTop && e.index < |s.queue| && IsTop(s.queue, e.index))
    && (e.Spawn? ==> pc == AddSpawn && e.tid !in s.pcs && e.tid != t) && (e.Erase? ==> pc == EraseSelf && t in s.workers)
  }

  lemma AddFits(c: Config, s: State, t: Tid, e: Choice)
    requires ValidConfig(c) && IsAdding(PcOf(s, t)) && NextAdd(c, s, t, PcOf(s, t), e).Move?
    ensures Fits(s, t, NextAdd(c, s, t, PcOf(s, t), e))
  {
    hide IsTop;
    hide IsFull;
    hide HasRoom;
    hide Many;
    hide PcOf;
  }

  lemma WorkFits(c: Config, s: State, t: Tid, e: Choice)
    requires var pc := PcOf(s, t); !pc.Outside? && !IsAdding(pc) && NextWork(c, s, t, pc, e).Move?
    ensures Fits(s, t, NextWork(c, s, t, PcOf(s, t), e))
  {
    hide IsTop;
    hide PcOf;
  }

  lemma NextFits(c: Config, s: State, t: Tid, e: Choice)
    requires ValidConfig(c) && Next(c, s, t, e).Move?
    ensures Fits(s, t, Next(c, s, t, e))
  {
    hide NextAdd;
    hide NextWork;
    hide Fits;
    var pc := PcOf(s, t);
    if pc.Outside? {
      CallFits(c, s, t, e);
    } else if IsAdding(pc) {
      AddFits(c, s, t, e);
    } else {
      WorkFits(c, s, t, e);
    }
  }

  lemma CallFits(c: Config, s: State, t: Tid, e: Choice)
    requires PcOf(s, t).Outside? && e.Call?
    ensures Fits(s, t, Move(AddLock(e.task), Nothing))
  {
    hide PcOf;
  }

  lemma FreePlaces()
    ensures !HoldsTasks(Loop) && !HoldsThreads(Loop) && !HoldsTasks(Outside) && !HoldsThreads(Outside)
    ensures Listed(Loop) && !Listed(Outside)
  {}

  lemma LocksKept(s: State, t: Tid, m: Move)
    requires m.Move? && Fits(s, t, m) && Locks(s)
    ensures Locks(Apply(s, t, m))
  {
    hide HoldsTasks;
    hide HoldsThreads;
    hide Listed;
    hide IsTop;
    hide IndexOf;
    FreePlaces();
  }

  // ----- what the owners know -----

  /** The owner of the task mutex learns what it needs in the step before. */
  lemma TaskOwnerKept(c: Config, s: State, t: Tid, e: Choice)
    requires ValidConfig(c) && Locks(s) && TaskOwner(c, s) && Next(c, s, t, e).Move?
    ensures TaskOwner(c, Apply(s, t, Next(c, s, t, e)))
  {
    var m := Next(c, s, t, e);
    NextFits(c, s, t, e);
    LocksKept(s, t, m);
    var s' := Apply(s, t, m);
    if s'.taskLock == Some(t) {
      OwnStep(c, s, t, e);
    } else if s'.taskLock.Some? {
      OtherStep(c, s, t, m);
    }
  }

  /** What the place a step leads to asks of the state it leaves behind. */
  predicate Learned(c: Config, s: State, s': State, pc: Pc)
    requires ValidConfig(c)
  {
    match pc
    case AddPush(task) =>
      s'.queue == s.queue && |s.queue| < c.limit && (task.plain ==> |s.queue| < c.limit - c.reserved)
    case AddSpawnLock => s'.workers == s.workers && |s.workers| < c.most
    case AddSpawn => s'.workers == s.workers && |s.workers| < c.most
    case TakeTop => s'.queue == s.queue && s.queue != []
    case _ => true
  }

  lemma AddLearns(c: Config, s: State, t: Tid, e: Choice)
    requires ValidConfig(c) && Locks(s) && TaskOwner(c, s) && IsAdding(PcOf(s, t))
    requires NextAdd(c, s, t, PcOf(s, t), e).Move?
    ensures var m := NextAdd(c, s, t, PcOf(s, t), e); Learned(c, s, Apply(s, t, m), m.pc)
  {
    hide Many;
    hide IndexOf;
    hide PcOf;
    assert HoldsTasks(PcOf(s, t)) ==> s.taskLock == Some(t);
  }

  lemma WorkLearns(c: Config, s: State, t: Tid, e: Choice)
    requires ValidConfig(c) && NextWork(c, s, t, PcOf(s, t), e).Move?
    ensures var m := NextWork(c, s, t, PcOf(s, t), e); Learned(c, s, Apply(s, t, m), m.pc)
  {
    hide IsTop;
    hide IndexOf;
    hide PcOf;
  }

  lemma OwnStep(c: Config, s: State, t: Tid, e: Choice)
    requires ValidConfig(c) && Locks(s) && TaskOwner(c, s) && Next(c, s, t, e).Move?
    requires Apply(s, t, Next(c, s, t, e)).taskLock == Some(t)
    ensures TaskOwner(c, Apply(s, t, Next(c, s, t, e)))
  {
    hide NextAdd;
    hide NextWork;
    hide IndexOf;
    hide Locks;
    hide IsTop;
    var pc := PcOf(s, t);
    NextFits(c, s, t, e);
    FreePlaces();
    if IsAdding(pc) {
      AddLearns(c, s, t, e);
    } else if !pc.Outside? {
      WorkLearns(c, s, t, e);
    }
  }

  lemma OtherStep(c: Config, s: State, t: Tid, m: Move)
    requires ValidConfig(c) && m.Move? && Fits(s, t, m) && Locks(s) && TaskOwner(c, s)
    requires Apply(s, t, m).taskLock.Some? && Apply(s, t, m).taskLock != Some(t)
    ensures TaskOwner(c, Apply(s, t, m))
  {
    hide IsTop;
    hide IndexOf;
    hide Listed;
  }

  lemma ThreadOwnerKept(c: Config, s: State, t: Tid, e: Choice)
    requires ValidConfig(c) && Locks(s) && ThreadOwner(c, s) && Next(c, s, t, e).Move?
    ensures ThreadOwner(c, Apply(s, t, Next(c, s, t, e)))
  {
    hide NextAdd;
    hide NextWork;
    hide IndexOf;
    hide Fits;
    hide Locks;
    var m := Next(c, s, t, e);
    NextFits(c, s, t, e);
    if Apply(s, t, m).threadLock != Some(t) {
      OtherThreadStep(c, s, t, m);
    } else if IsAdding(PcOf(s, t)) {
      AddLeavesErasing(c, s, t, e);
    } else if !PcOf(s, t).Outside? {
      EraserLearns(c, s, t, e);
    }
  }

  lemma OtherThreadStep(c: Config, s: State, t: Tid, m: Move)
    requires m.Move? && Fits(s, t, m) && Locks(s) && ThreadOwner(c, s) && Apply(s, t, m).threadLock != Some(t)
    ensures ThreadOwner(c, Apply(s, t, m))
  {
    hide IsTop;
    hide IndexOf;
    hide Listed;
    FreePlaces();
  }

  lemma AddLeavesErasing(c: Config, s: State, t: Tid, e: Choice)
    requires ValidConfig(c) && IsAdding(PcOf(s, t)) && NextAdd(c, s, t, PcOf(s, t), e).Move?
    ensures var pc := NextAdd(c, s, t, PcOf(s, t), e).pc; pc.Outside? || IsAdding(pc)
  {
    hide PcOf;
  }

  lemma EraserLearns(c: Config, s: State, t: Tid, e: Choice)
    requires ValidConfig(c) && Locks(s) && ThreadOwner(c, s) && NextWork(c, s, t, PcOf(s, t), e).Move?
    ensures var m := NextWork(c, s, t, PcOf(s, t), e);
            m.pc.EraseEmpty? || m.pc.EraseSelf? ==> |s.workers| > c.least && Apply(s, t, m).workers == s.workers
  {
    hide IsTop;
    hide IndexOf;
    hide PcOf;
    assert HoldsThreads(PcOf(s, t)) ==> s.threadLock == Some(t);
  }

  // ----- the queue and the workers -----

  lemma {:induction false} PlainJoin(a: seq<Task>, b: seq<Task>)
    ensures PlainCount(a + b) == PlainCount(a) + PlainCount(b)
    decreases |b|
  {
    if b == [] {
      assert a + b == a;
    } else {
      PlainJoin(a, b[..|b| - 1]);
      assert (a + b)[..|a + b| - 1] == a + b[..|b| - 1];
    }
  }

  lemma {:induction false} PlainAtMost(q: seq<Task>)
    ensures PlainCount(q) <= |q|
  {
    if q != [] { PlainAtMost(q[..|q| - 1]); }
  }

  lemma PlainWithout(q: seq<Task>, i: nat)
    requires i < |q|
    ensures PlainCount(Without(q, i)) <= PlainCount(q)
  {
    hide PlainCount;
    PlainJoin(q[..i], q[i + 1..]);
    PlainJoin(q[..i], [q[i]]);
    PlainJoin(q[..i] + [q[i]], q[i + 1..]);
    assert q == q[..i] + [q[i]] + q[i + 1..];
  }

  lemma BoundsKept(c: Config, s: State, t: Tid, m: Move)
    requires ValidConfig(c) && Locks(s) && TaskOwner(c, s) && ThreadOwner(c, s) && Bounds(c, s)
    requires m.Move? && Fits(s, t, m)
    ensures Bounds(c, Apply(s, t, m))
  {
    hide PlainCount;
    hide IsTop;
    hide IndexOf;
    match m.effect
    case Enqueue(task) =>
      assert HoldsTasks(PcOf(s, t));
      PlainAtMost(s.queue + [task]);
      PlainPush(s.queue, task);
    case Dequeue(i) => PlainWithout(s.queue, i);
    case Spawn(_) => assert HoldsTasks(PcOf(s, t));
    case Erase => assert HoldsThreads(PcOf(s, t));
    case _ =>
  }

  lemma PlainPush(q: seq<Task>, task: Task)
    ensures !task.plain ==> PlainCount(q + [task]) == PlainCount(q)
  {
    assert (q + [task])[..|q|] == q;
  }

  lemma WithoutKeeps<T>(q: seq<T>, i: nat)
    requires i < |q|
    ensures multiset(q) == multiset(Without(q, i)) + multiset{q[i]}
  {
    assert q == q[..i] + [q[i]] + q[i + 1..];
  }

  lemma ConservedKept(s: State, t: Tid, m: Move)
    requires m.Move? && Fits(s, t, m) && Conserved(s)
    ensures Conserved(Apply(s, t, m))
  {
    hide HoldsTasks;
    hide HoldsThreads;
    hide Listed;
    hide IsTop;
    hide IndexOf;
    match m.effect
    case Dequeue(i) => WithoutKeeps(s.queue, i);
    case _ =>
  }

  lemma RosterKept(s: State, t: Tid, m: Move)
    requires m.Move? && Fits(s, t, m) && Roster(s)
    ensures Roster(Apply(s, t, m))
  {
    hide HoldsTasks;
    hide HoldsThreads;
    hide Listed;
    hide IsTop;
    FreePlaces();
    var s' := Apply(s, t, m);
    match m.effect
    case Erase => Erased(s.workers, IndexOf(s.workers, t));
    case Spawn(u) =>
      assert PcOf(s, u) == Outside && u !in s.workers;
      assert forall v: Tid :: v in s'.workers <==> v in s.workers || v == u;
    case _ =>
  }

  lemma Erased(w: seq<Tid>, i: nat)
    requires i < |w| && forall a, b :: 0 <= a < b < |w| ==> w[a] != w[b]
    ensures var w' := Without(w, i);
            (forall a, b :: 0 <= a < b < |w'| ==> w'[a] != w'[b]) && (forall x :: x in w' <==> x in w && x != w[i])
  {
    var w' := Without(w, i);
    forall x | x in w && x != w[i] ensures x in w' {
      var k :| 0 <= k < |w| && w[k] == x;
      assert w'[if k < i then k else k - 1] == x;
    }
  }

  lemma StepInv(c: Config, s: State, t: Tid, e: Choice)
    requires ValidConfig(c) && Inv(c, s) && Next(c, s, t, e).Move?
    ensures Inv(c, Apply(s, t, Next(c, s, t, e)))
  {
    hide Next;
    hide Fits;
    hide Locks;
    hide TaskOwner;
    hide ThreadOwner;
    hide Bounds;
    hide Conserved;
    hide Roster;
    var m := Next(c, s, t, e);
    NextFits(c, s, t, e);
    LocksKept(s, t, m);
    TaskOwnerKept(c, s, t, e);
    ThreadOwnerKept(c, s, t, e);
    BoundsKept(c, s, t, m);
    ConservedKept(s, t, m);
    RosterKept(s, t, m);
  }

  // ----- whole runs -----

  datatype Turn = Turn(tid: Tid, choice: Choice)

  /** The states from `s` on under the schedule; a turn of a thread that cannot move changes nothing. */
  function After(c: Config, s: State, schedule: seq<Turn>): State
    requires ValidConfig(c)
    decreases |schedule|
  {
    if schedule == [] then s
    else
      var before := After(c, s, schedule[..|schedule| - 1]);
      var turn := schedule[|schedule| - 1];
      var m := Next(c, before, turn.tid, turn.choice);
      if m.Move? then Apply(before, turn.tid, m) else before
  }

  /**
   * On every schedule: the queue keeps to its limit, plain tasks leave the reserved slots alone, the number of
   * workers stays between its bounds, no task is lost or made up, the list names exactly the live workers,
   * and each mutex has one owner.
   */
  lemma {:induction false} EveryRunIsSafe(c: Config, s: State, schedule: seq<Turn>)
    requires ValidConfig(c) && Initial(c, s)
    ensures Inv(c, After(c, s, schedule))
    decreases |schedule|
  {
    hide Inv;
    hide Next;
    hide Apply;
    if schedule == [] {
      InitialInv(c, s);
    } else {
      var before := After(c, s, schedule[..|schedule| - 1]);
      var turn := schedule[|schedule| - 1];
      EveryRunIsSafe(c, s, schedule[..|schedule| - 1]);
      if Next(c, before, turn.tid, turn.choice).Move? {
        StepInv(c, before, turn.tid, turn.choice);
      }
    }
  }

  // ----- the order of the tasks -----

  predicate Ascending(q: seq<Task>) { forall i, j :: 0 <= i < j < |q| ==> q[i].priority <= q[j].priority }

  /** Every queued task has a priority number at least that of every task of `q`. */
  predicate AllBehind(q: seq<Task>, queue: seq<Task>) {
    forall i, j :: 0 <= i < |q| && 0 <= j < |queue| ==> q[i].priority <= queue[j].priority
  }

  /** The tasks taken since `s`. */
  function TakenSince(s: State, s': State): seq<Task>
    requires |s.taken| <= |s'.taken|
  {
    s'.taken[|s.taken|..]
  }

  /** While nothing is added, the workers take the tasks in the order of their priority numbers, all of them before those still queued. */
  lemma {:induction false} TakesInOrder(c: Config, s: State, schedule: seq<Turn>)
    requires ValidConfig(c)
    ensures var s' := After(c, s, schedule);
            && |s.added| <= |s'.added| && |s.taken| <= |s'.taken|
            && (|s'.added| == |s.added| ==> Ascending(TakenSince(s, s')) && AllBehind(TakenSince(s, s'), s'.queue))
    decreases |schedule|
  {
    hide Next;
    hide Ascending;
    hide AllBehind;
    if schedule == [] {
      NothingTaken(s);
    } else {
      var before := After(c, s, schedule[..|schedule| - 1]);
      var turn := schedule[|schedule| - 1];
      TakesInOrder(c, s, schedule[..|schedule| - 1]);
      var m := Next(c, before, turn.tid, turn.choice);
      if m.Move? {
        NextFits(c, before, turn.tid, turn.choice);
        if |s.added| == |before.added| && !m.effect.Enqueue? {
          OrderKept(s, before, turn.tid, m);
        }
        AppliedCounts(before, turn.tid, m);
      }
    }
  }

  lemma NothingTaken(s: State)
    ensures Ascending(TakenSince(s, s)) && AllBehind(TakenSince(s, s), s.queue)
  {}

  lemma AppliedCounts(s: State, t: Tid, m: Move)
    requires m.Move? && Fits(s, t, m)
    ensures var s' := Apply(s, t, m);
            |s.taken| <= |s'.taken| && |s'.added| == |s.added| + if m.effect.Enqueue? then 1 else 0
  {
    hide Listed;
    hide IsTop;
    hide HoldsTasks;
    hide HoldsThreads;
  }

  lemma OrderKept(s: State, before: State, t: Tid, m: Move)
    requires m.Move? && Fits(before, t, m) && !m.effect.Enqueue? && |s.taken| <= |before.taken|
    requires Ascending(TakenSince(s, before)) && AllBehind(TakenSince(s, before), before.queue)
    ensures var s' := Apply(before, t, m);
            |s.taken| <= |s'.taken| && Ascending(TakenSince(s, s')) && AllBehind(TakenSince(s, s'), s'.queue)
  {
    hide Listed;
    hide HoldsTasks;
    hide HoldsThreads;
    hide IndexOf;
    if m.effect.Dequeue? {
      var s' := Apply(before, t, m);
      var i := m.effect.index;
      assert TakenSince(s, s') == TakenSince(s, before) + [before.queue[i]];
      TakenOne(TakenSince(s, before), before.queue, i);
    }
  }

  lemma TakenOne(q: seq<Task>, queue: seq<Task>, i: nat)
    requires IsTop(queue, i) && Ascending(q) && AllBehind(q, queue)
    ensures Ascending(q + [queue[i]]) && AllBehind(q + [queue[i]], Without(queue, i))
  {
    var rest := Without(queue, i);
    forall j | 0 <= j < |rest| ensures rest[j] in queue && queue[i].priority <= rest[j].priority {
      assert rest[j] == queue[if j < i then j else j + 1];
      assert !Lower(queue[i], queue[if j < i then j else j + 1]);
    }
  }

  // ----- the two mutexes -----

  ghost predicate CanMove(c: Config, s: State, t: Tid)
    requires ValidConfig(c)
  {
    exists e :: Next(c, s, t, e).Move?
  }

  lemma {:induction false} SomeTop(q: seq<Task>) returns (i: nat)
    requires q != []
    ensures IsTop(q, i)
    decreases |q|
  {
    if |q| == 1 {
      i := 0;
    } else {
      var front := q[..|q| - 1];
      i := SomeTop(front);
      assert forall j :: 0 <= j < |front| ==> !Lower(front[i], q[j]);
      if Lower(q[i], q[|q| - 1]) {
        i := |q| - 1;
      }
    }
  }

  /** The owner of the thread mutex can always go on; the owner of the task mutex too, unless it waits for the thread mutex. */
  lemma OwnersGoOn(c: Config, s: State)
    requires ValidConfig(c) && Inv(c, s)
    ensures s.threadLock.Some? ==> CanMove(c, s, s.threadLock.value)
    ensures s.taskLock.Some? ==>
              CanMove(c, s, s.taskLock.value) || (PcOf(s, s.taskLock.value) == AddSpawnLock && s.threadLock.Some?)
  {
    hide NextAdd;
    hide NextWork;
    if s.threadLock.Some? { ThreadOwnerGoesOn(c, s, s.threadLock.value); }
    if s.taskLock.Some? { TaskOwnerGoesOn(c, s, s.taskLock.value); }
  }

  lemma ThreadOwnerGoesOn(c: Config, s: State, t: Tid)
    requires ValidConfig(c) && HoldsThreads(PcOf(s, t))
    ensures CanMove(c, s, t)
  {
    hide PcOf;
    assert Next(c, s, t, SpawnFails).Move?;
  }

  lemma TaskOwnerGoesOn(c: Config, s: State, t: Tid)
    requires ValidConfig(c) && HoldsTasks(PcOf(s, t)) && (PcOf(s, t) == TakeTop ==> s.queue != [])
    ensures CanMove(c, s, t) || (PcOf(s, t) == AddSpawnLock && s.threadLock.Some?)
  {
    hide PcOf;
    if PcOf(s, t) == TakeTop {
      var i := SomeTop(s.queue);
      assert Next(c, s, t, Pick(i)).Move?;
    } else {
      assert Next(c, s, t, SpawnFails).Move? || (PcOf(s, t) == AddSpawnLock && s.threadLock.Some?);
    }
  }
}
