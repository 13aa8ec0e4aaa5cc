/** The queue: only the timers not yet popped, and a count of those that were. */
module TimerQueue {
  import opened TimerModel

  datatype Entry = Entry(time: int, armed: bool)

  predicate Sorted(timers: seq<Timer>) { forall i, j :: 0 <= i < j < |timers| ==> timers[i].time <= timers[j].time }

  /** The queue holds the timers from number `step` on, and all before it have met their fate. */
  ghost predicate Matches(dq: seq<Entry>, step: int, log: seq<nat>, timers: seq<Timer>) {
    && 0 <= step && step + |dq| == |timers| && Sorted(timers)
    && (forall n :: 0 <= n < step ==> !timers[n].fate.Pending?)
    && (forall n :: step <= n < |timers| ==>
          !timers[n].fate.Fired? && dq[n - step] == Entry(timers[n].time, timers[n].fate.Pending?))
    && LogOf(log, timers) && (forall i :: 0 <= i < |log| ==> log[i] < step)
  }

  lemma Pushed(dq: seq<Entry>, step: int, log: seq<nat>, timers: seq<Timer>, now: int)
    requires Matches(dq, step, log, timers) && forall n :: 0 <= n < |timers| ==> timers[n].time <= now
    ensures Matches(dq + [Entry(now, true)], step, log, timers + [Timer(now, Pending)])
  {
    var timers' := timers + [Timer(now, Pending)];
    assert forall n :: 0 <= n < |timers| ==> timers'[n] == timers[n];
  }

  lemma Disarmed(dq: seq<Entry>, step: int, log: seq<nat>, timers: seq<Timer>, key: nat)
    requires Matches(dq, step, log, timers) && step <= key < |timers|
    ensures Matches(dq[key - step := dq[key - step].(armed := false)], step, log, Effect(timers, Cancel(key)))
  {
    var timers' := Effect(timers, Cancel(key));
    assert forall n :: 0 <= n < |timers| && n != key ==> timers'[n] == timers[n];
    assert timers' == timers || timers' == timers[key := timers[key].(fate := Cancelled)];
  }

  /** The front timer is popped, firing if it is armed. */
  lemma Popped(dq: seq<Entry>, step: int, log: seq<nat>, timers: seq<Timer>)
    requires Matches(dq, step, log, timers) && dq != []
    ensures !dq[0].armed ==> Matches(dq[1..], step + 1, log, timers)
    ensures dq[0].armed ==> Matches(dq[1..], step + 1, log + [step], timers[step := timers[step].(fate := Fired)])
    ensures dq[0] == Entry(timers[step].time, timers[step].fate.Pending?)
  {
    if dq[0].armed {
      var timers' := timers[step := timers[step].(fate := Fired)];
      assert forall n :: 0 <= n < |timers| && n != step ==> timers'[n] == timers[n];
      LogGrows(log, step, timers, timers');
    }
  }

  lemma LogGrows(log: seq<nat>, step: nat, timers: seq<Timer>, timers': seq<Timer>)
    requires LogOf(log, timers) && (forall i :: 0 <= i < |log| ==> log[i] < step) && step < |timers|
    requires timers' == timers[step := timers[step].(fate := Fired)]
    ensures LogOf(log + [step], timers')
  {
    forall n | 0 <= n < |timers'| && timers'[n].fate.Fired? ensures n in log + [step] {
      assert n == step || timers'[n] == timers[n];
    }
  }

  /** Behind a young timer all are young. */
  lemma YoungBehind(timers: seq<Timer>, step: nat, n: nat, now: int)
    requires Sorted(timers) && step <= n < |timers| && now - timers[step].time < TICK
    ensures Ring(timers[n], now) == timers[n]
  {}

  class DumbTimerQueue {
    var dq: seq<Entry>
    var step: int
    var service: bool
    var log: seq<nat>
    ghost var timers: seq<Timer>
    ghost var clock: int

    ghost predicate Valid()
      reads this
    {
      Matches(dq, step, log, timers) && |timers| < 0x8000_0000 && forall n :: 0 <= n < |timers| ==> timers[n].time <= clock
    }

    constructor (now: int)
      ensures Valid() && timers == [] && log == [] && clock == now && !service && fresh(this)
    {
      dq, step, log, timers, clock, service := [], 0, [], [], now, false;
    }

    method SetIoService()
      requires Valid()
      modifies this`service
      ensures Valid() && service
    {
      service := true;
    }

    /** The key of a new timer is its number. */
    method Add(now: int) returns (key: int)
      requires Valid() && clock <= now && |timers| + 1 < 0x8000_0000
      modifies this`dq, this`timers, this`clock
      ensures Valid() && timers == Effect(old(timers), TimerModel.Add(now)) && clock == now
      ensures key == old(|timers|)
    {
      hide Matches;
      Pushed(dq, step, log, timers, now);
      dq := dq + [Entry(now, true)];
      key := step + |dq| - 1;
      timers := timers + [Timer(now, Pending)];
      clock := now;
      Counts(dq, step, log, timers);
    }

    /** Cancelling a timer that is still queued disarms it; the difference of the keys is taken modulo 2^32. */
    method Cancel(key: int)
      requires Valid() && 0 <= key < 0x8000_0000
      modifies this`dq, this`timers
      ensures Valid() && timers == Effect(old(timers), TimerModel.Cancel(key))
    {
      hide Matches;
      Counts(dq, step, log, timers);
      var index := (key - step) % 0x1_0000_0000;
      assert key < step ==> index == key - step + 0x1_0000_0000;
      if index < |dq| {
        Disarmed(dq, step, log, timers, key);
        dq := dq[index := dq[index].(armed := false)];
        timers := Effect(timers, TimerModel.Cancel(key));
      } else {
        NotPending(dq, step, log, timers, key);
      }
    }

    /** Pops the timers that are a tick old, and fires those still armed. */
    method Process(now: int)
      requires Valid() && clock <= now
      modifies this`dq, this`step, this`log, this`timers, this`clock
      ensures Valid() && clock == now && |old(log)| <= |log| && log[..|old(log)|] == old(log)
      ensures timers == if service then Effect(old(timers), TimerModel.Process(now)) else old(timers)
    {
      hide Matches;
      hide Ring;
      clock := now;
      if !service {
        return;
      }
      ghost var was := timers;
      NothingRung(dq, step, log, timers, now);
      while dq != []
        invariant Matches(dq, step, log, timers) && |timers| == |was| && Rung(was, timers, step, now)
        invariant |old(log)| <= |log| && log[..|old(log)|] == old(log)
        invariant clock == now && forall n :: 0 <= n < |was| ==> timers[n].time == was[n].time
        decreases |dq|
      {
        Counts(dq, step, log, timers);
        Popped(dq, step, log, timers);
        var x := dq[0];
        if now - x.time < TICK {
          break;
        }
        RingOne(was, timers, step, now);
        if x.armed {
          log := log + [step];
          timers := timers[step := timers[step].(fate := Fired)];
        }
        dq := dq[1..];
        step := step + 1;
      }
      Counts(dq, step, log, timers);
      RestIsYoung(dq, step, log, timers, was, now);
    }
  }

  lemma Counts(dq: seq<Entry>, step: int, log: seq<nat>, timers: seq<Timer>)
    requires Matches(dq, step, log, timers)
    ensures 0 <= step && step + |dq| == |timers| && Sorted(timers)
  {}

  lemma NotPending(dq: seq<Entry>, step: int, log: seq<nat>, timers: seq<Timer>, key: nat)
    requires Matches(dq, step, log, timers) && (key < step || |timers| <= key)
    ensures Effect(timers, Cancel(key)) == timers
  {}

  /** The timers before `step` have been processed. */
  ghost predicate Rung(was: seq<Timer>, timers: seq<Timer>, step: int, now: int) {
    && 0 <= step <= |was| == |timers|
    && (forall n :: 0 <= n < step ==> timers[n] == Ring(was[n], now))
    && (forall n :: step <= n < |was| ==> timers[n] == was[n])
  }

  lemma NothingRung(dq: seq<Entry>, step: int, log: seq<nat>, timers: seq<Timer>, now: int)
    requires Matches(dq, step, log, timers)
    ensures Rung(timers, timers, step, now)
  {}

  lemma RingOne(was: seq<Timer>, timers: seq<Timer>, step: int, now: int)
    requires Rung(was, timers, step, now) && step < |was| && Old(timers[step], now)
    ensures var timers' := if timers[step].fate.Pending? then timers[step := timers[step].(fate := Fired)] else timers;
            Rung(was, timers', step + 1, now)
  {}

  lemma RestIsYoung(dq: seq<Entry>, step: int, log: seq<nat>, timers: seq<Timer>, was: seq<Timer>, now: int)
    requires Matches(dq, step, log, timers) && Rung(was, timers, step, now)
    requires dq != [] ==> now - dq[0].time < TICK
    ensures timers == Effect(was, Process(now))
  {
    forall n | step <= n < |was| ensures Ring(was[n], now) == was[n] {
      YoungBehind(timers, step, n, now);
    }
  }

  /**
   * Any run: every timer meets the fate its own operations give it, and the handlers run once for each
   * timer that fires, in the order the timers were added.
   */
  method Replay(ops: seq<Op>, start: int) returns (queue: DumbTimerQueue)
    requires Legal(ops, start, 0)
    ensures queue.timers == After(ops) && LogOf(queue.log, After(ops))
  {
    hide Matches;
    queue := new DumbTimerQueue(start);
    queue.SetIoService();
    var i := 0;
    assert ops[0..] == ops && ops[..0] == [];
    while i < |ops|
      invariant 0 <= i <= |ops| && fresh(queue) && queue.Valid() && queue.service
      invariant Legal(ops[i..], queue.clock, |queue.timers|) && queue.timers == After(ops[..i])
    {
      assert ops[i..][1..] == ops[i + 1..] && ops[..i + 1][..i] == ops[..i];
      match ops[i] {
        case Add(now) =>
          LegalNext(ops[i + 1..], now, |queue.timers| + 1);
          var key := queue.Add(now);
        case Cancel(key) =>
          queue.Cancel(key);
        case Process(now) =>
          queue.Process(now);
      }
      i := i + 1;
    }
    assert ops[..i] == ops;
    Logged(queue.dq, queue.step, queue.log, queue.timers);
  }

  lemma LegalNext(ops: seq<Op>, clock: int, added: nat)
    requires Legal(ops, clock, added)
    ensures added < 0x8000_0000
  {}

  lemma Logged(dq: seq<Entry>, step: int, log: seq<nat>, timers: seq<Timer>)
    requires Matches(dq, step, log, timers)
    ensures LogOf(log, timers)
  {}
}
