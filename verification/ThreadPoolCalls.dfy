/** What one call does when nobody else moves: when a task is accepted, when a worker is added, and when one leaves. */
module ThreadPoolCalls {
  import opened Common
  import opened ThreadPoolModel
  import opened ThreadPool

  function Stepped(c: Config, s: State, t: Tid, e: Choice): State
    requires ValidConfig(c)
  {
    var m := Next(c, s, t, e);
    if m.Move? then Apply(s, t, m) else s
  }

  /** The state after `n` turns of thread `t` and nobody else. */
  function Alone(c: Config, s: State, t: Tid, e: Choice, n: nat): State
    requires ValidConfig(c)
    decreases n
  {
    if n == 0 then s else Alone(c, Stepped(c, s, t, e), t, e, n - 1)
  }

  lemma {:induction false} AloneJoin(c: Config, s: State, t: Tid, e: Choice, k: nat, n: nat)
    requires ValidConfig(c) && k <= n
    ensures Alone(c, s, t, e, n) == Alone(c, Alone(c, s, t, e, k), t, e, n - k)
    decreases k
  {
    hide Stepped;
    if k > 0 { AloneJoin(c, Stepped(c, s, t, e), t, e, k - 1, n - 1); }
  }

  /** A turn in front of others. */
  lemma TurnThen(c: Config, s: State, t: Tid, e: Choice, next: State, n: nat)
    requires ValidConfig(c) && Stepped(c, s, t, e) == next && n > 0
    ensures Alone(c, s, t, e, n) == Alone(c, next, t, e, n - 1)
  {
    hide Stepped;
  }

  function Repeated(t: Tid, e: Choice, n: nat): seq<Turn> { seq(n, _ => Turn(t, e)) }

  lemma {:induction false} AloneOneMore(c: Config, s: State, t: Tid, e: Choice, n: nat)
    requires ValidConfig(c)
    ensures Alone(c, s, t, e, n + 1) == Stepped(c, Alone(c, s, t, e, n), t, e)
    decreases n
  {
    hide Stepped;
    if n > 0 { AloneOneMore(c, Stepped(c, s, t, e), t, e, n - 1); }
  }

  /** These turns are a schedule like any other. */
  lemma {:induction false} AloneIsRun(c: Config, s: State, t: Tid, e: Choice, n: nat)
    requires ValidConfig(c)
    ensures After(c, s, Repeated(t, e, n)) == Alone(c, s, t, e, n)
    decreases n
  {
    hide Next;
    hide Apply;
    if n > 0 {
      AloneIsRun(c, s, t, e, n - 1);
      AloneOneMore(c, s, t, e, n - 1);
      assert Repeated(t, e, n)[..n - 1] == Repeated(t, e, n - 1);
    }
  }

  // ----- adding a task -----

  /** Fewer tasks than the limit, and for a plain task fewer than the limit without the reserved slots. */
  predicate Accepts(c: Config, s: State, task: Task) {
    |s.queue| < c.limit && (task.plain ==> |s.queue| + c.reserved < c.limit)
  }

  /** With the new task there are two for every worker, or half the limit; and a worker more is allowed. */
  predicate Grows(c: Config, s: State, task: Task) {
    |s.workers| < c.most && if task.plain then |s.queue| + 1 >= 2 * |s.workers| else |s.queue| + 1 >= c.limit / 2
  }

  predicate CanSpawn(s: State, t: Tid, e: Choice) { e.SpawnFails? || (e.Fresh? && e.tid !in s.pcs && e.tid != t) }

  function At(s: State, t: Tid, pc: Pc): State { s.(pcs := s.pcs[t := pc]) }

  /** The pool with the task in its queue. */
  function Queued(s: State, task: Task): State { s.(queue := s.queue + [task], added := s.added + [task]) }

  function Joined(s: State, u: Tid): State { s.(pcs := s.pcs[u := Loop], workers := s.workers + [u]) }

  lemma AtTwice(s: State, t: Tid, a: Pc, b: Pc)
    ensures At(At(s, t, a), t, b) == At(s, t, b) && PcOf(At(s, t, a), t) == a
  {
    assert s.pcs[t := a][t := b] == s.pcs[t := b];
  }

  lemma LockTurn(c: Config, s: State, t: Tid, task: Task, e: Choice)
    requires ValidConfig(c) && s.taskLock.None? && PcOf(s, t) == AddLock(task)
    ensures Stepped(c, s, t, e) == At(s.(taskLock := Some(t)), t, AddFull(task))
  {
    hide NextWork;
    hide IndexOf;
  }

  lemma FullTurn(c: Config, s: State, t: Tid, task: Task, e: Choice)
    requires ValidConfig(c) && Accepts(c, s, task)
    ensures Stepped(c, At(s, t, AddFull(task)), t, e) == At(s, t, if task.plain then AddRoom(task) else AddPush(task))
  {
    hide NextWork;
    hide IndexOf;
    AtTwice(s, t, AddFull(task), if task.plain then AddRoom(task) else AddPush(task));
  }

  lemma RoomTurn(c: Config, s: State, t: Tid, task: Task, e: Choice)
    requires ValidConfig(c) && Accepts(c, s, task) && task.plain
    ensures Stepped(c, At(s, t, AddRoom(task)), t, e) == At(s, t, AddPush(task))
  {
    hide NextWork;
    hide IndexOf;
    AtTwice(s, t, AddRoom(task), AddPush(task));
  }

  lemma PushTurn(c: Config, s: State, t: Tid, task: Task, e: Choice)
    requires ValidConfig(c)
    ensures Stepped(c, At(s, t, AddPush(task)), t, e) == At(Queued(s, task), t, AddMany(task.plain))
  {
    hide NextWork;
    hide IndexOf;
    AtTwice(Queued(s, task), t, AddPush(task), AddMany(task.plain));
  }

  /** From the mutex to the queue. */
  lemma Accepted(c: Config, s: State, t: Tid, task: Task, e: Choice) returns (k: nat)
    requires ValidConfig(c) && s.taskLock.None? && PcOf(s, t) == AddLock(task) && Accepts(c, s, task)
    ensures k <= 4 && Alone(c, s, t, e, k) == At(Queued(s, task), t, AddMany(task.plain)).(taskLock := Some(t))
  {
    hide Alone;
    hide Stepped;
    k := if task.plain then 4 else 3;
    var held := s.(taskLock := Some(t));
    var full, push, many := At(held, t, AddFull(task)), At(held, t, AddPush(task)), At(Queued(held, task), t, AddMany(task.plain));
    LockTurn(c, s, t, task, e);
    TurnThen(c, s, t, e, full, k);
    FullTurn(c, held, t, task, e);
    if task.plain {
      var room := At(held, t, AddRoom(task));
      TurnThen(c, full, t, e, room, 3);
      RoomTurn(c, held, t, task, e);
      TurnThen(c, room, t, e, push, 2);
    } else {
      TurnThen(c, full, t, e, push, 2);
    }
    PushTurn(c, held, t, task, e);
    TurnThen(c, push, t, e, many, 1);
    AloneNone(c, many, t, e);
  }

  lemma AloneNone(c: Config, s: State, t: Tid, e: Choice)
    requires ValidConfig(c)
    ensures Alone(c, s, t, e, 0) == s
  {}

  /** From the queue to the end of the call; `s` is the pool with the task in its queue and both mutexes free. */
  lemma Finished(c: Config, s: State, t: Tid, plain: bool, e: Choice) returns (k: nat)
    requires ValidConfig(c) && s.taskLock.None? && s.threadLock.None? && PcOf(s, t) == AddMany(plain) && CanSpawn(s, t, e)
    ensures var grows := |s.workers| < c.most && if plain then |s.queue| >= 2 * |s.workers| else |s.queue| >= c.limit / 2;
            k <= 6 && Alone(c, s.(taskLock := Some(t)), t, e, k) == if grows && e.Fresh? then Joined(At(s, t, Outside), e.tid) else At(s, t, Outside)
  {
    hide Alone;
    hide NextWork;
    hide IndexOf;
    var many := s.(taskLock := Some(t));
    var may, unlock, outside := At(many, t, AddMay), At(many, t, AddUnlock), At(s, t, Outside);
    AtTwice(many, t, AddMay, AddUnlock);
    AtTwice(many, t, AddUnlock, Outside);
    assert Stepped(c, unlock, t, e) == outside;
    if !Many(c, s, plain) {
      k := 2;
      TurnThen(c, many, t, e, unlock, 2);
      TurnThen(c, unlock, t, e, outside, 1);
      AloneNone(c, outside, t, e);
    } else if |s.workers| >= c.most {
      k := 3;
      TurnThen(c, many, t, e, may, 3);
      TurnThen(c, may, t, e, unlock, 2);
      TurnThen(c, unlock, t, e, outside, 1);
      AloneNone(c, outside, t, e);
    } else {
      k := 6;
      TurnThen(c, many, t, e, may, 6);
      Spawned(c, s, t, e);
    }
  }

  lemma JoinedAt(s: State, t: Tid, pc: Pc, u: Tid)
    requires u != t
    ensures At(Joined(s, u), t, pc) == Joined(At(s, t, pc), u)
  {
    assert s.pcs[u := Loop][t := pc] == s.pcs[t := pc][u := Loop];
  }

  /** The turns that add a worker, if a thread can be had. */
  lemma Spawned(c: Config, s: State, t: Tid, e: Choice)
    requires ValidConfig(c) && s.taskLock.None? && s.threadLock.None? && |s.workers| < c.most && t in s.pcs && CanSpawn(s, t, e)
    ensures Alone(c, At(s.(taskLock := Some(t)), t, AddMay), t, e, 5)
            == if e.Fresh? then Joined(At(s, t, Outside), e.tid) else At(s, t, Outside)
  {
    hide Alone;
    hide NextWork;
    hide IndexOf;
    hide Many;
    hide IsFull;
    hide HasRoom;
    var held := s.(taskLock := Some(t));
    var both := held.(threadLock := Some(t));
    var may, lock, spawn := At(held, t, AddMay), At(held, t, AddSpawnLock), At(both, t, AddSpawn);
    AtTwice(held, t, AddMay, AddSpawnLock);
    AtTwice(both, t, AddSpawnLock, AddSpawn);
    TurnThen(c, may, t, e, lock, 5);
    TurnThen(c, lock, t, e, spawn, 4);
    var grown := if e.Fresh? then Joined(both, e.tid) else both;
    SpawnTurn(c, both, t, e);
    TurnThen(c, spawn, t, e, At(grown, t, AddSpawnUnlock), 3);
    Unlocked(c, grown, t, e);
    if e.Fresh? { JoinedAt(s, t, Outside, e.tid); }
  }

  lemma SpawnTurn(c: Config, s: State, t: Tid, e: Choice)
    requires ValidConfig(c) && CanSpawn(s, t, e) && t in s.pcs
    ensures Stepped(c, At(s, t, AddSpawn), t, e) == At(if e.Fresh? then Joined(s, e.tid) else s, t, AddSpawnUnlock)
  {
    hide NextWork;
    hide IndexOf;
    AtTwice(s, t, AddSpawn, AddSpawnUnlock);
    if e.Fresh? {
      assert At(s, t, AddSpawnUnlock).pcs == At(s, t, AddSpawn).pcs[t := AddSpawnUnlock];
      JoinedAt(s, t, AddSpawnUnlock, e.tid);
    }
  }

  lemma Unlocked(c: Config, s: State, t: Tid, e: Choice)
    requires ValidConfig(c) && s.taskLock == Some(t) && s.threadLock == Some(t) && t in s.pcs
    ensures Alone(c, At(s, t, AddSpawnUnlock), t, e, 2) == At(s.(taskLock := None, threadLock := None), t, Outside)
  {
    hide Alone;
    hide NextWork;
    hide IndexOf;
    var half := s.(threadLock := None);
    AtTwice(half, t, AddSpawnUnlock, AddUnlock);
    AtTwice(half, t, AddUnlock, Outside);
    TurnThen(c, At(s, t, AddSpawnUnlock), t, e, At(half, t, AddUnlock), 2);
    var free := At(s.(taskLock := None, threadLock := None), t, Outside);
    TurnThen(c, At(half, t, AddUnlock), t, e, free, 1);
    AloneNone(c, free, t, e);
  }

  /** What a pool is when a call has been let through. */
  function Added(c: Config, s: State, t: Tid, task: Task, e: Choice): State {
    var done := At(Queued(s, task), t, Outside);
    if Grows(c, s, task) && e.Fresh? then Joined(done, e.tid) else done
  }

  lemma OutsideStays(c: Config, s: State, t: Tid, e: Choice, n: nat)
    requires ValidConfig(c) && PcOf(s, t) == Outside && !e.Call?
    ensures Alone(c, s, t, e, n) == s
    decreases n
  {
    if n > 0 { OutsideStays(c, s, t, e, n - 1); }
  }

  /**
   * A call that finds room and is not disturbed is over after at most ten turns: the task is queued, and one worker
   * more is there exactly when the pool was to grow and a thread could be had.
   */
  lemma CallIsAccepted(c: Config, s: State, t: Tid, task: Task, e: Choice, n: nat)
    requires ValidConfig(c) && s.taskLock.None? && s.threadLock.None? && PcOf(s, t) == AddLock(task)
    requires Accepts(c, s, task) && CanSpawn(s, t, e) && n >= 10
    ensures Alone(c, s, t, e, n) == Added(c, s, t, task, e)
  {
    hide Alone;
    hide Next;
    var k := Accepted(c, s, t, task, e);
    var q := At(Queued(s, task), t, AddMany(task.plain));
    var m := Finished(c, q, t, task.plain, e);
    AtTwice(Queued(s, task), t, AddMany(task.plain), Outside);
    AloneJoin(c, s, t, e, k, n);
    AloneJoin(c, q.(taskLock := Some(t)), t, e, m, n - k);
    OutsideStays(c, Added(c, s, t, task, e), t, e, n - k - m);
  }

  /** Where a call is while it waits for room. */
  predicate Waits(pc: Pc, task: Task) {
    pc == AddLock(task) || pc == AddFull(task) || pc == AddFullWait(task)
    || pc == AddRoom(task) || pc == AddRoomWait(task) || pc == AddRoomLock(task)
  }

  /** A call that finds no room and meets nobody waits for ever and changes nothing, whatever it chooses. */
  lemma {:induction false} CallWaits(c: Config, s: State, t: Tid, task: Task, schedule: seq<Turn>)
    requires ValidConfig(c) && Waits(PcOf(s, t), task) && !Accepts(c, s, task)
    requires forall i :: 0 <= i < |schedule| ==> schedule[i].tid == t
    ensures var s' := After(c, s, schedule);
            Waits(PcOf(s', t), task) && s'.queue == s.queue && s'.added == s.added && s'.taken == s.taken && s'.workers == s.workers
    decreases |schedule|
  {
    hide Accepts;
    hide Next;
    hide Apply;
    hide Waits;
    if schedule != [] {
      var front, last := schedule[..|schedule| - 1], schedule[|schedule| - 1];
      CallWaits(c, s, t, task, front);
      SameRoom(c, s, After(c, s, front), task);
      WaitingTurn(c, After(c, s, front), t, task, last.choice);
    }
  }

  lemma SameRoom(c: Config, s: State, s': State, task: Task)
    requires s.queue == s'.queue
    ensures Accepts(c, s, task) <==> Accepts(c, s', task)
  {}

  lemma WaitingTurn(c: Config, s: State, t: Tid, task: Task, e: Choice)
    requires ValidConfig(c) && Waits(PcOf(s, t), task) && !Accepts(c, s, task)
    ensures var m := Next(c, s, t, e);
            m.Move? ==>
              var s' := Apply(s, t, m);
              Waits(PcOf(s', t), task) && s'.queue == s.queue && s'.added == s.added && s'.taken == s.taken && s'.workers == s.workers
  {
    hide NextWork;
    hide IndexOf;
  }

  // ----- taking a task -----

  /** The pool without the task at `i`, which has been taken. */
  function Taken(s: State, i: nat): State
    requires i < |s.queue|
  {
    s.(queue := s.queue[..i] + s.queue[i + 1..], taken := s.taken + [s.queue[i]])
  }

  lemma FoundTurn(c: Config, s: State, w: Tid, e: Choice)
    requires ValidConfig(c) && s.taskLock.None? && s.queue != [] && (PcOf(s, w) == Loop || PcOf(s, w) == TakeWait)
    ensures Alone(c, s, w, e, 2) == At(s.(taskLock := Some(w)), w, TakeTop)
  {
    hide Alone;
    hide NextAdd;
    hide IndexOf;
    var held := s.(taskLock := Some(w));
    AtTwice(held, w, TakeEmpty, TakeTop);
    TurnThen(c, s, w, e, At(held, w, TakeEmpty), 2);
    TurnThen(c, At(held, w, TakeEmpty), w, e, At(held, w, TakeTop), 1);
    AloneNone(c, At(held, w, TakeTop), w, e);
  }

  lemma TopTurn(c: Config, s: State, w: Tid, i: nat)
    requires ValidConfig(c) && i < |s.queue| && forall j :: 0 <= j < |s.queue| ==> s.queue[i].priority <= s.queue[j].priority
    ensures Stepped(c, At(s, w, TakeTop), w, Pick(i)) == At(Taken(s, i), w, TakeUnlock)
  {
    hide NextAdd;
    hide IndexOf;
    AtTwice(Taken(s, i), w, TakeTop, TakeUnlock);
  }

  lemma UnlockTurn(c: Config, s: State, w: Tid, e: Choice)
    requires ValidConfig(c)
    ensures Stepped(c, At(s, w, TakeUnlock), w, e) == At(s.(taskLock := None), w, Process)
  {
    hide NextAdd;
    hide IndexOf;
    AtTwice(s, w, TakeUnlock, Process);
  }

  /** A worker that finds a task and is not disturbed takes one of those with the lowest priority number. */
  lemma WorkerTakes(c: Config, s: State, w: Tid, i: nat)
    requires ValidConfig(c) && s.taskLock.None? && (PcOf(s, w) == Loop || PcOf(s, w) == TakeWait)
    requires i < |s.queue| && forall j :: 0 <= j < |s.queue| ==> s.queue[i].priority <= s.queue[j].priority
    ensures Alone(c, s, w, Pick(i), 4) == At(Taken(s, i), w, Process)
  {
    hide Alone;
    hide Stepped;
    var e, held := Pick(i), s.(taskLock := Some(w));
    var top, unlock, done := At(held, w, TakeTop), At(Taken(held, i), w, TakeUnlock), At(Taken(s, i), w, Process);
    FoundTurn(c, s, w, e);
    AloneJoin(c, s, w, e, 2, 4);
    TopTurn(c, held, w, i);
    TurnThen(c, top, w, e, unlock, 2);
    UnlockTurn(c, Taken(held, i), w, e);
    TurnThen(c, unlock, w, e, done, 1);
    AloneNone(c, done, w, e);
  }

  predicate Starves(pc: Pc) { pc == Loop || pc == TakeEmpty || pc == TakeWait }

  /** A worker that finds no task and meets nobody waits and changes nothing. */
  lemma {:induction false} WorkerWaits(c: Config, s: State, w: Tid, schedule: seq<Turn>)
    requires ValidConfig(c) && Starves(PcOf(s, w)) && s.queue == [] && forall i :: 0 <= i < |schedule| ==> schedule[i].tid == w
    ensures var s' := After(c, s, schedule);
            Starves(PcOf(s', w)) && s'.queue == [] && s'.added == s.added && s'.taken == s.taken && s'.workers == s.workers
    decreases |schedule|
  {
    hide Next;
    hide Apply;
    if schedule != [] {
      var front, last := schedule[..|schedule| - 1], schedule[|schedule| - 1];
      WorkerWaits(c, s, w, front);
      StarvingTurn(c, After(c, s, front), w, last.choice);
    }
  }

  lemma StarvingTurn(c: Config, s: State, w: Tid, e: Choice)
    requires ValidConfig(c) && Starves(PcOf(s, w)) && s.queue == []
    ensures var m := Next(c, s, w, e);
            m.Move? ==>
              var s' := Apply(s, w, m);
              Starves(PcOf(s', w)) && s'.queue == [] && s'.added == s.added && s'.taken == s.taken && s'.workers == s.workers
  {
    hide NextAdd;
    hide IndexOf;
  }

  // ----- leaving the pool -----

  /** No task, a worker more than the pool must have, and a place in the list that is searched. */
  predicate Leaves(c: Config, s: State, w: Tid) {
    s.queue == [] && |s.workers| > c.least && exists i :: 0 <= i < |s.workers| && i < 128 && s.workers[i] == w
  }

  function Removed(ws: seq<Tid>, w: Tid): seq<Tid> {
    if ws == [] then [] else if ws[0] == w then ws[1..] else [ws[0]] + Removed(ws[1..], w)
  }

  /** The pool without the worker in its list. */
  function Left(s: State, w: Tid): State { s.(workers := Removed(s.workers, w)) }

  lemma FirstWithout(ws: seq<Tid>)
    requires ws != []
    ensures Without(ws, 0) == ws[1..]
  {}

  lemma RestWithout(ws: seq<Tid>, k: nat)
    requires k + 1 < |ws|
    ensures Without(ws, k + 1) == [ws[0]] + Without(ws[1..], k)
  {}

  lemma {:induction false} IndexIsFirst(ws: seq<Tid>, w: Tid, i: nat)
    requires i < |ws| && ws[i] == w
    ensures IndexOf(ws, w) <= i && Without(ws, IndexOf(ws, w)) == Removed(ws, w)
  {
    hide Without;
    if ws[0] == w {
      FirstWithout(ws);
    } else {
      IndexIsFirst(ws[1..], w, i - 1);
      RestWithout(ws, IndexOf(ws[1..], w));
    }
  }

  /** The last two turns of the search. */
  lemma SearchTurns(c: Config, s: State, w: Tid, e: Choice, found: bool)
    requires ValidConfig(c) && PcOf(s, w) == EraseUnlock(found) && s.threadLock == Some(w)
    ensures Alone(c, s, w, e, 1) == At(s.(threadLock := None), w, if found then Gone else Loop)
  {
    hide Alone;
    hide NextAdd;
    hide IndexOf;
    var next := At(s.(threadLock := None), w, if found then Gone else Loop);
    TurnThen(c, s, w, e, next, 1);
    AloneNone(c, next, w, e);
  }

  lemma EraseTurn(c: Config, s: State, w: Tid, e: Choice)
    requires ValidConfig(c) && w in s.workers && IndexOf(s.workers, w) < 128
    requires Without(s.workers, IndexOf(s.workers, w)) == Removed(s.workers, w)
    ensures Stepped(c, At(s, w, EraseSelf), w, e) == At(Left(s, w), w, EraseUnlock(true))
  {
    hide NextAdd;
    hide IndexOf;
    hide Removed;
    hide Without;
    AtTwice(s, w, EraseSelf, EraseUnlock(true));
  }

  /** The search, which finds the worker. */
  lemma Finds(c: Config, s: State, w: Tid, e: Choice)
    requires ValidConfig(c) && s.threadLock.None? && Leaves(c, s, w)
    ensures Alone(c, At(s, w, EraseSelf).(threadLock := Some(w)), w, e, 2) == At(Left(s, w), w, Gone)
  {
    hide Alone;
    hide IndexOf;
    hide Removed;
    hide Without;
    hide Stepped;
    var held := s.(threadLock := Some(w));
    var i :| 0 <= i < |s.workers| && i < 128 && s.workers[i] == w;
    IndexIsFirst(s.workers, w, i);
    EraseTurn(c, held, w, e);
    AtTwice(Left(held, w), w, EraseUnlock(true), Gone);
    TurnThen(c, At(held, w, EraseSelf), w, e, At(Left(held, w), w, EraseUnlock(true)), 2);
    SearchTurns(c, At(Left(held, w), w, EraseUnlock(true)), w, e, true);
  }

  /** The search, which does not look that far. */
  lemma FindsNot(c: Config, s: State, w: Tid, e: Choice)
    requires ValidConfig(c) && s.threadLock.None? && forall i :: 0 <= i < |s.workers| && i < 128 ==> s.workers[i] != w
    ensures Alone(c, At(s, w, EraseSelf).(threadLock := Some(w)), w, e, 2) == At(s, w, Loop)
  {
    hide Alone;
    hide NextAdd;
    hide IndexOf;
    var held := s.(threadLock := Some(w));
    assert w in s.workers ==> s.workers[IndexOf(s.workers, w)] == w;
    AtTwice(held, w, EraseSelf, EraseUnlock(false));
    AtTwice(held, w, EraseUnlock(false), Loop);
    TurnThen(c, At(held, w, EraseSelf), w, e, At(held, w, EraseUnlock(false)), 2);
    SearchTurns(c, At(held, w, EraseUnlock(false)), w, e, false);
  }

  /** A worker behind a task that is not disturbed takes itself off the list exactly when it may, or goes on with its loop. */
  lemma WorkerLeaves(c: Config, s: State, w: Tid, e: Choice) returns (k: nat)
    requires ValidConfig(c) && s.threadLock.None? && PcOf(s, w) == IdleEmpty
    ensures k <= 7 && Alone(c, s, w, e, k) == if Leaves(c, s, w) then At(Left(s, w), w, Gone) else At(s, w, Loop)
  {
    hide Alone;
    hide NextAdd;
    hide IndexOf;
    hide Left;
    var back, many := At(s, w, Loop), At(s, w, IdleMany);
    AtTwice(s, w, IdleMany, Loop);
    AtTwice(s, w, IdleMany, EraseLock);
    AloneNone(c, back, w, e);
    if s.queue != [] {
      k := 1;
      TurnThen(c, s, w, e, back, 1);
    } else if |s.workers| <= c.least {
      k := 2;
      TurnThen(c, s, w, e, many, 2);
      TurnThen(c, many, w, e, back, 1);
    } else {
      k := 7;
      TurnThen(c, s, w, e, many, 7);
      TurnThen(c, many, w, e, At(s, w, EraseLock), 6);
      Checks(c, s, w, e);
    }
  }

  /** The tests that come again behind the mutex. */
  lemma Checks(c: Config, s: State, w: Tid, e: Choice)
    requires ValidConfig(c) && s.threadLock.None? && s.queue == [] && |s.workers| > c.least
    ensures Alone(c, At(s, w, EraseLock), w, e, 5) == if Leaves(c, s, w) then At(Left(s, w), w, Gone) else At(s, w, Loop)
  {
    hide Alone;
    hide Stepped;
    hide Left;
    var held := s.(threadLock := Some(w));
    CheckTurns(c, s, w, e);
    TurnThen(c, At(s, w, EraseLock), w, e, At(held, w, EraseMany), 5);
    TurnThen(c, At(held, w, EraseMany), w, e, At(held, w, EraseEmpty), 4);
    TurnThen(c, At(held, w, EraseEmpty), w, e, At(held, w, EraseSelf), 3);
    if Leaves(c, s, w) { Finds(c, s, w, e); } else { FindsNot(c, s, w, e); }
  }

  lemma CheckTurns(c: Config, s: State, w: Tid, e: Choice)
    requires ValidConfig(c) && s.threadLock.None? && s.queue == [] && |s.workers| > c.least
    ensures var held := s.(threadLock := Some(w));
            && Stepped(c, At(s, w, EraseLock), w, e) == At(held, w, EraseMany)
            && Stepped(c, At(held, w, EraseMany), w, e) == At(held, w, EraseEmpty)
            && Stepped(c, At(held, w, EraseEmpty), w, e) == At(held, w, EraseSelf)
  {
    hide NextAdd;
    hide IndexOf;
    var held := s.(threadLock := Some(w));
    AtTwice(held, w, EraseLock, EraseMany);
    AtTwice(held, w, EraseMany, EraseEmpty);
    AtTwice(held, w, EraseEmpty, EraseSelf);
  }

  // ----- the priority of plain tasks -----

  function TaskOf(pc: Pc): Option<Task> {
    match pc
    case AddLock(task) => Some(task)
    case AddFull(task) => Some(task)
    case AddFullWait(task) => Some(task)
    case AddRoom(task) => Some(task)
    case AddRoomWait(task) => Some(task)
    case AddRoomLock(task) => Some(task)
    case AddPush(task) => Some(task)
    case _ => None
  }

  /** Every task that comes without a priority has the number 2, behind the levels 0 and 1. */
  ghost predicate Levelled(s: State) {
    && (forall i :: 0 <= i < |s.added| ==> s.added[i].plain ==> s.added[i].priority == 2)
    && (forall t: Tid :: TaskOf(PcOf(s, t)).Some? && TaskOf(PcOf(s, t)).value.plain ==> TaskOf(PcOf(s, t)).value.priority == 2)
  }

  lemma TaskCarried(c: Config, s: State, t: Tid, e: Choice)
    requires ValidConfig(c) && Next(c, s, t, e).Move?
    ensures var m, task := Next(c, s, t, e), TaskOf(PcOf(s, t));
            && (TaskOf(m.pc).Some? ==> TaskOf(m.pc) == task || (TaskOf(m.pc).value.plain ==> TaskOf(m.pc).value.priority == 2))
            && (m.effect.Enqueue? ==> task == Some(m.effect.task))
            && (m.effect.Spawn? ==> m.effect.tid !in s.pcs)
  {
    hide IsTop;
    hide IndexOf;
    hide Many;
    hide PcOf;
  }

  lemma LevelsKept(c: Config, s: State, t: Tid, e: Choice)
    requires ValidConfig(c) && Levelled(s) && Next(c, s, t, e).Move?
    ensures Levelled(Apply(s, t, Next(c, s, t, e)))
  {
    hide Next;
    hide IndexOf;
    TaskCarried(c, s, t, e);
    var m := Next(c, s, t, e);
    var s' := Apply(s, t, m);
    forall u: Tid | TaskOf(PcOf(s', u)).Some? && TaskOf(PcOf(s', u)).value.plain ensures TaskOf(PcOf(s', u)).value.priority == 2 {
      assert PcOf(s', u) == (if m.effect.Spawn? && u == m.effect.tid then Loop else if u == t then m.pc else PcOf(s, u));
    }
  }

  lemma {:induction false} EveryRunIsLevelled(c: Config, s: State, schedule: seq<Turn>)
    requires ValidConfig(c) && Initial(c, s)
    ensures Levelled(After(c, s, schedule))
    decreases |schedule|
  {
    hide Next;
    hide Apply;
    hide Levelled;
    if schedule == [] {
      NewIsLevelled(c, s);
    } else {
      var front, last := schedule[..|schedule| - 1], schedule[|schedule| - 1];
      EveryRunIsLevelled(c, s, front);
      if Next(c, After(c, s, front), last.tid, last.choice).Move? { LevelsKept(c, After(c, s, front), last.tid, last.choice); }
    }
  }

  lemma NewIsLevelled(c: Config, s: State)
    requires Initial(c, s)
    ensures Levelled(s)
  {}
}
