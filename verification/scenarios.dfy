/**
 Bursts of `call`s on one key with no wake-up in between: how the debouncer
 coalesces them, and the timeline of a three-call example.

 Automatic induction is switched off on every lemma (`{:induction false}`):
 the hypothesis Dafny adds on its own is not restricted to well-typed
 values and can make the proof context inconsistent with these datatypes,
 so every new lemma must carry the attribute as well.
 */
module Bursts {
  import opened TimerTasks
  import opened Debouncers

  /** The arguments of one `call` on the burst's key. */
  datatype Submission = Submission(runnable: RunnableId, interval: nat, now: nat)

  /** The calls arrive in time order, none before `from`. */
  ghost predicate InTimeOrder(subs: seq<Submission>, from: nat)
  {
    && (forall i :: 0 <= i < |subs| ==> from <= subs[i].now)
    && (forall i, j :: 0 <= i < j < |subs| ==> subs[i].now <= subs[j].now)
  }

  /** The calls of `subs`, one after another, all on `key`. */
  function Burst<K>(d: Debouncer<K>, key: K, subs: seq<Submission>): (r: CallResult<K>)
    requires WellFormed(d)
    requires InTimeOrder(subs, d.clock)
    ensures r.Done? ==> WellFormed(r.state)
    ensures r.Done? && |subs| > 0 ==> r.state.clock == subs[|subs| - 1].now
    decreases |subs|
  {
    if |subs| == 0 then Done(d)
    else
      match Call(d, key, subs[0].runnable, subs[0].interval, subs[0].now)
      case Spins => Spins
      case Done(d1) => Burst(d1, key, subs[1..])
  }

  /** From a valid state a burst always returns and keeps the invariant. */
  lemma {:induction false} BurstPreservesValid<K>(d: Debouncer<K>, key: K, subs: seq<Submission>)
    requires Valid(d)
    requires InTimeOrder(subs, d.clock)
    ensures Burst(d, key, subs).Done?
    ensures Valid(Burst(d, key, subs).state)
    decreases |subs|
  {
    if |subs| > 0 {
      var s := subs[0];
      CallPreservesValid(d, key, s.runnable, s.interval, s.now);
      BurstUnfold(d, key, subs);
      BurstPreservesValid(Call(d, key, s.runnable, s.interval, s.now).state, key, subs[1..]);
    }
  }

  /** Calls on a key that already holds a live task only push that task's due
      time to the last call's time plus the task's own interval: the map, the
      queue, the log and every other task stay as they were. */
  lemma {:induction false} BurstExtends<K>(d: Debouncer<K>, key: K, subs: seq<Submission>)
    requires WellFormed(d)
    requires key in d.delayedMap && d.tasks[d.delayedMap[key]].Live()
    requires |subs| > 0
    requires InTimeOrder(subs, d.clock)
    ensures Burst(d, key, subs).Done?
    ensures Burst(d, key, subs).state.delayedMap == d.delayedMap
    ensures Burst(d, key, subs).state.pending == d.pending
    ensures Burst(d, key, subs).state.executed == d.executed
    ensures Burst(d, key, subs).state.tasks ==
              d.tasks[d.delayedMap[key] := Extend(d.tasks[d.delayedMap[key]], subs[|subs| - 1].now).task]
    decreases |subs|
  {
    var s := subs[0];
    var d1 := Call(d, key, s.runnable, s.interval, s.now).state;
    var id := d.delayedMap[key];
    BurstUnfold(d, key, subs);
    assert d1.tasks == d.tasks[id := Extend(d.tasks[id], s.now).task];
    if |subs| > 1 {
      BurstExtends(d1, key, subs[1..]);
      var last := subs[|subs| - 1].now;
      assert Extend(d1.tasks[id], last).task == Extend(d.tasks[id], last).task;
    }
  }

  /** Coalescing: a burst on a key with no task leaves exactly one task for the
      key, carrying the FIRST call's runnable and interval and due at the LAST
      call's time plus that interval, with exactly one queued wake-up, due at
      the first call's deadline; nothing runs during the burst. */
  lemma {:induction false} BurstCoalesces<K>(d: Debouncer<K>, key: K, subs: seq<Submission>)
    requires WellFormed(d)
    requires key !in d.delayedMap
    requires |subs| > 0
    requires InTimeOrder(subs, d.clock)
    ensures d.nextId !in d.tasks
    ensures Burst(d, key, subs).Done?
    ensures Burst(d, key, subs).state.delayedMap == d.delayedMap[key := d.nextId]
    ensures Burst(d, key, subs).state.tasks ==
              d.tasks[d.nextId := NewTask(key, subs[0].runnable, subs[0].interval, subs[|subs| - 1].now)]
    ensures Burst(d, key, subs).state.pending == d.pending + [Wakeup(d.nextId, subs[0].now + subs[0].interval)]
    ensures Burst(d, key, subs).state.executed == d.executed
  {
    var s := subs[0];
    var d1 := Call(d, key, s.runnable, s.interval, s.now).state;
    BurstUnfold(d, key, subs);
    if |subs| > 1 {
      BurstExtends(d1, key, subs[1..]);
      var last := subs[|subs| - 1].now;
      assert Extend(d1.tasks[d.nextId], last).task == NewTask(key, s.runnable, s.interval, last);
    }
  }

  /** A burst is its first call followed by the rest of the burst. */
  lemma {:induction false} BurstUnfold<K>(d: Debouncer<K>, key: K, subs: seq<Submission>)
    requires WellFormed(d)
    requires |subs| > 0
    requires InTimeOrder(subs, d.clock)
    ensures var r1 := Call(d, key, subs[0].runnable, subs[0].interval, subs[0].now);
            r1.Done? ==> InTimeOrder(subs[1..], r1.state.clock) && Burst(d, key, subs) == Burst(r1.state, key, subs[1..])
  {
  }

  /** The delay is a lower bound: after a burst `b` on a fresh key, the
      burst's wake-up, taken at any time before the last call's time plus the
      interval, runs nothing and re-queues the task for exactly that due time. */
  lemma {:induction false} BurstNotEarly<K>(d: Debouncer<K>, key: K, subs: seq<Submission>, b: Debouncer<K>, now: nat, c: Completion)
    requires WellFormed(d)
    requires key !in d.delayedMap
    requires |subs| > 0
    requires InTimeOrder(subs, d.clock)
    requires Burst(d, key, subs) == Done(b)
    requires subs[0].now + subs[0].interval <= now
    requires subs[|subs| - 1].now <= now < subs[|subs| - 1].now + subs[0].interval
    ensures |d.pending| < |b.pending| && b.pending[|d.pending|].fireAt <= now && b.clock <= now
    ensures Wake(b, |d.pending|, now, c).state.executed == d.executed
    ensures key in Wake(b, |d.pending|, now, c).state.delayedMap
    ensures Wake(b, |d.pending|, now, c).state.pending ==
              d.pending + [Wakeup(d.nextId, subs[|subs| - 1].now + subs[0].interval)]
  {
    BurstCoalesces(d, key, subs);
    var id := d.nextId;
    DequeueLast(d.pending, b.pending[|d.pending|]);
    assert b.tasks[id].dueTime > now;
  }

  /** After a burst `b` on a fresh key, the burst's wake-up taken at or after
      the last call's time plus the interval fires: it runs the FIRST call's
      runnable exactly once, marks the task fired and removes the key. */
  lemma {:induction false} BurstFiresFirst<K>(d: Debouncer<K>, key: K, subs: seq<Submission>, b: Debouncer<K>, now: nat, c: Completion)
    requires WellFormed(d)
    requires key !in d.delayedMap
    requires |subs| > 0
    requires InTimeOrder(subs, d.clock)
    requires Burst(d, key, subs) == Done(b)
    requires subs[|subs| - 1].now + subs[0].interval <= now
    ensures |d.pending| < |b.pending| && b.pending[|d.pending|].fireAt <= now && b.clock <= now
    ensures Wake(b, |d.pending|, now, c).state.executed == d.executed + [subs[0].runnable]
    ensures key !in Wake(b, |d.pending|, now, c).state.delayedMap
    ensures d.nextId in Wake(b, |d.pending|, now, c).state.tasks
    ensures Wake(b, |d.pending|, now, c).state.tasks[d.nextId].dueTime == FiredSentinel
    ensures Wake(b, |d.pending|, now, c).threw <==> c == Throws
  {
    BurstCoalesces(d, key, subs);
    assert b.tasks[d.nextId].dueTime <= now;
  }

  /** Three calls on "save" with a 500 ms interval at t = 0, 200 and 400 ms,
      carrying runnables A = 1, B = 2, C = 3. The wake-up at 500 ms re-arms
      for 400 ms; the one at 900 ms runs A (the runnable of the first call,
      since `extend` keeps it) once and empties the map. */
  lemma {:induction false} SaveExample()
    ensures var subs := [Submission(1, 500, 0), Submission(2, 500, 200), Submission(3, 500, 400)];
            var b := Burst(Empty<string>(), "save", subs);
            && b.Done?
            && b.state.pending == [Wakeup(0, 500)]
            && var w1 := Wake(b.state, 0, 500, Normal).state;
               && w1.executed == []
               && w1.pending == [Wakeup(0, 900)]
               && var w2 := Wake(w1, 0, 900, Normal).state;
                  && w2.executed == [1]
                  && w2.delayedMap == map[]
                  && w2.pending == []
  {
    var subs := [Submission(1, 500, 0), Submission(2, 500, 200), Submission(3, 500, 400)];
    var e := Empty<string>();
    BurstCoalesces(e, "save", subs);
    var b := Burst(e, "save", subs).state;
    assert b.tasks[0] == TimerTask("save", 1, 500, 900);
    var w1 := Wake(b, 0, 500, Normal).state;
    assert w1.tasks == b.tasks;
    assert w1.pending == [] + [Wakeup(0, 900)];
    var w2 := Wake(w1, 0, 900, Normal).state;
    assert w2.delayedMap.Keys == {};
  }
}
