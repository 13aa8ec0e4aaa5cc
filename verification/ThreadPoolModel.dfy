/** The thread pool as interleaved steps: every thread has a program counter, the two mutexes an owner. */
module ThreadPoolModel {
  import opened Common

  type Tid = nat

  /** A queued task; `plain` tells the two overloads of `addTask` apart. */
  datatype Task = Task(priority: int, payload: nat, plain: bool)

  /** The sizes of a pool; `start` has lowered the minimum to the maximum where it was above. */
  datatype Config = Config(least: nat, most: nat, limit: nat, reserved: nat)

  const LEVEL2 := 2

  /** A worker looks for itself with an index of type char: places beyond 127 are not searched. */
  const LAST_SEARCHED := 127

  predicate ValidConfig(c: Config) { c.reserved <= c.limit && c.least <= c.most }

  /** Where a thread stands. The steps of `addTask` come first, those of a worker's loop behind them. */
  datatype Pc =
    | Outside                      // a client between calls
    | AddLock(task: Task)          // waits for the task mutex
    | AddFull(task: Task)          // at the first waiting loop
    | AddFullWait(task: Task)
    | AddRoom(task: Task)          // at the second waiting loop, plain tasks only
    | AddRoomWait(task: Task)
    | AddRoomLock(task: Task)
    | AddPush(task: Task)
    | AddMany(plain: bool)         // are there many tasks?
    | AddMay                       // may another worker be added?
    | AddSpawnLock                 // waits for the thread mutex, holding the task mutex
    | AddSpawn
    | AddSpawnUnlock
    | AddUnlock
    | Loop                         // a worker at the top of its loop
    | TakeEmpty                    // at the waiting loop of `take`
    | TakeWait
    | TakeTop
    | TakeUnlock
    | Process
    | IdleEmpty                    // is the queue empty?
    | IdleMany                     // are there more workers than the minimum?
    | EraseLock                    // waits for the thread mutex
    | EraseMany
    | EraseEmpty
    | EraseSelf
    | EraseUnlock(erased: bool)
    | Gone

  datatype State = State(
    pcs: map<Tid, Pc>,
    taskLock: Option<Tid>,
    threadLock: Option<Tid>,
    queue: seq<Task>,
    workers: seq<Tid>,
    added: seq<Task>,
    taken: seq<Task>)

  /** What the scheduler and the environment decide. */
  datatype Choice =
    | Go
    | Call(task: Task)       // a client calls `addTask`
    | Fresh(tid: Tid)        // a new thread
    | SpawnFails
    | Pick(index: nat)       // which of the tasks at the top of the heap

  function PcOf(s: State, t: Tid): Pc { if t in s.pcs then s.pcs[t] else Outside }

  /** `TaskPriorityCmp`: the first task stands lower in the heap than the second. */
  predicate Lower(a: Task, b: Task) { a.priority > b.priority }

  /** No queued task stands higher. */
  predicate IsTop(queue: seq<Task>, i: nat) {
    i < |queue| && forall j :: 0 <= j < |queue| ==> !Lower(queue[i], queue[j])
  }

  function Without<T>(s: seq<T>, i: nat): seq<T>
    requires i < |s|
  {
    s[..i] + s[i + 1..]
  }

  predicate IsFull(c: Config, s: State) { c.limit == 0 || |s.queue| >= c.limit }

  predicate HasRoom(c: Config, s: State)
    requires ValidConfig(c)
  {
    c.limit > 0 && |s.queue| < c.limit - c.reserved
  }

  predicate Many(c: Config, s: State, plain: bool) {
    if plain then |s.queue| >= |s.workers| * 2 else |s.queue| >= c.limit / 2
  }

  /** What a step does beyond moving its thread on. */
  datatype Effect =
    | Nothing
    | LockTasks | UnlockTasks | LockThreads | UnlockThreads
    | Enqueue(task: Task) | Dequeue(index: nat)
    | Spawn(tid: Tid) | Erase

  datatype Move = Blocked | Move(pc: Pc, effect: Effect)

  function Apply(s: State, t: Tid, m: Move): State
    requires m.Move? && (m.effect.Dequeue? ==> m.effect.index < |s.queue|) && (m.effect.Erase? ==> t in s.workers)
  {
    var s1 := s.(pcs := s.pcs[t := m.pc]);
    match m.effect
    case Nothing => s1
    case LockTasks => s1.(taskLock := Some(t))
    case UnlockTasks => s1.(taskLock := None)
    case LockThreads => s1.(threadLock := Some(t))
    case UnlockThreads => s1.(threadLock := None)
    case Enqueue(task) => s1.(queue := s.queue + [task], added := s.added + [task])
    case Dequeue(i) => s1.(queue := Without(s.queue, i), taken := s.taken + [s.queue[i]])
    case Spawn(u) => s1.(pcs := s1.pcs[u := Loop], workers := s.workers + [u])
    case Erase => s1.(workers := Without(s.workers, IndexOf(s.workers, t)))
  }

  /** One atomic step of a thread, or Blocked where it cannot move now. */
  function Next(c: Config, s: State, t: Tid, e: Choice): (m: Move)
    requires ValidConfig(c)
    ensures m.Move? && m.effect.Dequeue? ==> m.effect.index < |s.queue|
    ensures m.Move? && m.effect.Erase? ==> t in s.workers
  {
    var pc := PcOf(s, t);
    if pc.Outside? then
      if e.Call? && (e.task.plain ==> e.task.priority == LEVEL2) then Move(AddLock(e.task), Nothing) else Blocked
    else if IsAdding(pc) then NextAdd(c, s, t, pc, e)
    else NextWork(c, s, t, pc, e)
  }

  predicate IsAdding(pc: Pc) {
    match pc
    case AddLock(_) => true
    case AddFull(_) => true
    case AddFullWait(_) => true
    case AddRoom(_) => true
    case AddRoomWait(_) => true
    case AddRoomLock(_) => true
    case AddPush(_) => true
    case AddMany(_) => true
    case AddMay => true
    case AddSpawnLock => true
    case AddSpawn => true
    case AddSpawnUnlock => true
    case AddUnlock => true
    case _ => false
  }

  function NextAdd(c: Config, s: State, t: Tid, pc: Pc, e: Choice): (m: Move)
    requires ValidConfig(c) && IsAdding(pc)
    ensures m.Move? ==> !m.effect.Dequeue? && !m.effect.Erase?
  {
    match pc
    case AddLock(task) => if s.taskLock.None? then Move(AddFull(task), LockTasks) else Blocked
    case AddFull(task) =>
      if IsFull(c, s) then Move(AddFullWait(task), UnlockTasks)
      else Move(if task.plain then AddRoom(task) else AddPush(task), Nothing)
    case AddFullWait(task) => Move(AddLock(task), Nothing)
    case AddRoom(task) => if HasRoom(c, s) then Move(AddPush(task), Nothing) else Move(AddRoomWait(task), UnlockTasks)
    case AddRoomWait(task) => Move(AddRoomLock(task), Nothing)
    case AddRoomLock(task) => if s.taskLock.None? then Move(AddRoom(task), LockTasks) else Blocked
    case AddPush(task) => Move(AddMany(task.plain), Enqueue(task))
    case AddMany(plain) => Move(if Many(c, s, plain) then AddMay else AddUnlock, Nothing)
    case AddMay => Move(if |s.workers| < c.most then AddSpawnLock else AddUnlock, Nothing)
    case AddSpawnLock => if s.threadLock.None? then Move(AddSpawn, LockThreads) else Blocked
    case AddSpawn =>
      if e.SpawnFails? then Move(AddSpawnUnlock, Nothing)
      else if e.Fresh? && e.tid !in s.pcs && e.tid != t then Move(AddSpawnUnlock, Spawn(e.tid))
      else Blocked
    case AddSpawnUnlock => Move(AddUnlock, UnlockThreads)
    case AddUnlock => Move(Outside, UnlockTasks)
  }

  function NextWork(c: Config, s: State, t: Tid, pc: Pc, e: Choice): (m: Move)
    ensures m.Move? && m.effect.Dequeue? ==> m.effect.index < |s.queue|
    ensures m.Move? && m.effect.Erase? ==> t in s.workers
  {
    match pc
    case Loop => if s.taskLock.None? then Move(TakeEmpty, LockTasks) else Blocked
    case TakeEmpty => if s.queue == [] then Move(TakeWait, UnlockTasks) else Move(TakeTop, Nothing)
    case TakeWait => if s.taskLock.None? then Move(TakeEmpty, LockTasks) else Blocked
    case TakeTop => if e.Pick? && IsTop(s.queue, e.index) then Move(TakeUnlock, Dequeue(e.index)) else Blocked
    case TakeUnlock => Move(Process, UnlockTasks)
    case Process => Move(IdleEmpty, Nothing)
    case IdleEmpty => Move(if s.queue == [] then IdleMany else Loop, Nothing)
    case IdleMany => Move(if |s.workers| > c.least then EraseLock else Loop, Nothing)
    case EraseLock => if s.threadLock.None? then Move(EraseMany, LockThreads) else Blocked
    case EraseMany => Move(if |s.workers| > c.least then EraseEmpty else EraseUnlock(false), Nothing)
    case EraseEmpty => Move(if s.queue == [] then EraseSelf else EraseUnlock(false), Nothing)
    case EraseSelf =>
      if t in s.workers && IndexOf(s.workers, t) <= LAST_SEARCHED then Move(EraseUnlock(true), Erase)
      else Move(EraseUnlock(false), Nothing)
    case EraseUnlock(erased) => Move(if erased then Gone else Loop, UnlockThreads)
    case _ => Blocked
  }

  function IndexOf<T(==)>(s: seq<T>, x: T): (i: nat)
    requires x in s
    ensures i < |s| && s[i] == x
  {
    if s[0] == x then 0 else 1 + IndexOf(s[1..], x)
  }

  /** A pool as `start` leaves it: the least number of workers, and clients outside. */
  ghost predicate Initial(c: Config, s: State) {
    && s.taskLock.None? && s.threadLock.None? && s.queue == [] && s.added == [] && s.taken == []
    && |s.workers| == c.least && (forall i, j :: 0 <= i < j < |s.workers| ==> s.workers[i] != s.workers[j])
    && (forall t :: t in s.pcs <==> t in s.workers) && (forall t :: t in s.workers ==> PcOf(s, t) == Loop)
  }
}
