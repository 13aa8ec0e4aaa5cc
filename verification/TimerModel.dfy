/** Timers as a client sees them: numbered in the order they were added, each with its own fate. */
module TimerModel {
  const SECOND := 1_000_000_000
  const TICK := 5 * SECOND

  datatype Fate = Pending | Cancelled | Fired

  datatype Timer = Timer(time: int, fate: Fate)

  datatype Op = Add(now: int) | Cancel(key: nat) | Process(now: int)

  predicate Old(timer: Timer, now: int) { now - timer.time >= TICK }

  function Ring(timer: Timer, now: int): Timer {
    if timer.fate.Pending? && Old(timer, now) then timer.(fate := Fired) else timer
  }

  /** What an operation does to every timer, whatever queue they wait in. */
  function Effect(timers: seq<Timer>, op: Op): seq<Timer> {
    match op
    case Add(now) => timers + [Timer(now, Pending)]
    case Cancel(key) =>
      if key < |timers| && timers[key].fate.Pending? then timers[key := timers[key].(fate := Cancelled)] else timers
    case Process(now) => seq(|timers|, i requires 0 <= i < |timers| => Ring(timers[i], now))
  }

  function After(ops: seq<Op>): seq<Timer>
    decreases |ops|
  {
    if ops == [] then [] else Effect(After(ops[..|ops| - 1]), ops[|ops| - 1])
  }

  function Clock(op: Op, clock: int): int { if op.Cancel? then clock else op.now }

  /** The clock never runs backwards, and there are at most 2^31 - 1 timers. */
  predicate Legal(ops: seq<Op>, clock: int, added: nat) {
    if ops == [] then added < 0x8000_0000
    else
      && added < 0x8000_0000
      && (if ops[0].Cancel? then ops[0].key < 0x8000_0000 else clock <= ops[0].now)
      && Legal(ops[1..], Clock(ops[0], clock), if ops[0].Add? then added + 1 else added)
  }

  /** Numbers of the timers that fired, in increasing order. */
  predicate LogOf(log: seq<nat>, timers: seq<Timer>) {
    && (forall i, j :: 0 <= i < j < |log| ==> log[i] < log[j])
    && (forall i :: 0 <= i < |log| ==> log[i] < |timers| && timers[log[i]].fate.Fired?)
    && (forall n :: 0 <= n < |timers| && timers[n].fate.Fired? ==> n in log)
  }

  // ----- one timer by itself -----

  /** The fate of timer `n`, set at `time`, by what happens later: cancelled, or run five seconds (in nanoseconds) on. */
  function FateOf(n: nat, time: int, later: seq<Op>): Fate {
    if later == [] then Pending
    else
      match later[0]
      case Cancel(key) => if key == n then Cancelled else FateOf(n, time, later[1..])
      case Process(now) => if time + 5_000_000_000 <= now then Fired else FateOf(n, time, later[1..])
      case Add(_) => FateOf(n, time, later[1..])
  }

  /** What is decided stays so, whatever comes behind it. */
  lemma {:induction false} FateOneMore(n: nat, time: int, later: seq<Op>, op: Op)
    ensures var f := FateOf(n, time, later);
            FateOf(n, time, later + [op])
            == if !f.Pending? then f
               else match op
                 case Cancel(key) => if key == n then Cancelled else f
                 case Process(now) => if time + 5_000_000_000 <= now then Fired else f
                 case Add(_) => f
    decreases |later|
  {
    if later == [] {
      assert later + [op] == [op] && [op][1..] == [];
    } else {
      assert (later + [op])[1..] == later[1..] + [op];
      FateOneMore(n, time, later[1..], op);
    }
  }

  lemma AfterOneMore(ops: seq<Op>, op: Op)
    ensures After(ops + [op]) == Effect(After(ops), op)
  {
    assert (ops + [op])[..|ops|] == ops;
  }

  /** Every timer meets the fate that the operations behind its own give it. */
  lemma {:induction false} FatesAreDecided(before: seq<Op>, time: int, later: seq<Op>)
    ensures var n, timers := |After(before)|, After(before + [Add(time)] + later);
            n < |timers| && timers[n] == Timer(time, FateOf(n, time, later))
    decreases |later|
  {
    hide After;
    var ops := before + [Add(time)];
    if later == [] {
      AfterOneMore(before, Add(time));
      assert ops + later == ops;
    } else {
      var front, op := later[..|later| - 1], later[|later| - 1];
      FatesAreDecided(before, time, front);
      AfterOneMore(ops + front, op);
      FateOneMore(|After(before)|, time, front, op);
      assert ops + later == ops + front + [op] && later == front + [op];
    }
  }
}
