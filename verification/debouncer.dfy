/**
 The keyed debounce table (the outer class `Debouncer<T>` of Debouncer.java)
 as a sequential state machine.

 Each Java method body is one atomic step. Java objects have identity and are
 shared between the map and the scheduler's queue, so the model keeps a heap
 `tasks` of every `TimerTask` allocated so far, indexed by `TaskId`; the map
 `delayedMap` and the queue `pending` hold ids. The clock is the parameter
 `now`; the state remembers the latest time seen in `clock`.

 Automatic induction is switched off on every lemma (`{:induction false}`):
 the hypothesis Dafny adds on its own is not restricted to well-typed
 values and can make the proof context inconsistent with these datatypes,
 so every new lemma must carry the attribute as well.
 */
module Debouncers {
  import opened TimerTasks

  type TaskId = nat

  /** One entry of the scheduler's queue: run task `task` at or after `fireAt`. */
  datatype Wakeup = Wakeup(task: TaskId, fireAt: int)

  /** How the stored runnable completed when it was invoked. */
  datatype Completion = Normal | Throws

  datatype Debouncer<K> = Debouncer(
    tasks: map<TaskId, TimerTask<K>>,  // every TimerTask object allocated so far
    delayedMap: map<K, TaskId>,        // the ConcurrentHashMap key -> task
    pending: seq<Wakeup>,              // wake-ups queued on the scheduler
    executed: seq<RunnableId>,         // runnables invoked so far, in order
    clock: nat,                        // the latest time observed
    nextId: TaskId)                    // the id the next allocated task receives

  /** The outcome of `call`: it returns, or (sequentially) its retry loop never exits. */
  datatype CallResult<K> = Done(state: Debouncer<K>) | Spins

  /** The state after `TimerTask.run`, and whether `run` ended by rethrowing
      the runnable's exception (after its `finally` block). */
  datatype RunResult<K> = RunResult(state: Debouncer<K>, threw: bool)

  /** A fresh debouncer: empty map, empty queue. */
  function Empty<K>(): (d: Debouncer<K>)
    ensures Valid(d)
    ensures d.delayedMap == map[] && d.pending == [] && d.executed == []
  {
    Debouncer(map[], map[], [], [], 0, 0)
  }

  /** Number of queued wake-ups for task `id`. */
  function Count(ws: seq<Wakeup>, id: TaskId): (n: nat)
    ensures n <= |ws|
    ensures n == 0 <==> forall i :: 0 <= i < |ws| ==> ws[i].task != id
  {
    if |ws| == 0 then 0
    else (if ws[0].task == id then 1 else 0) + Count(ws[1..], id)
  }

  /** The queue without its `i`-th entry: the scheduler dequeues it to run it. */
  function Dequeue(ws: seq<Wakeup>, i: nat): (r: seq<Wakeup>)
    requires i < |ws|
    ensures |r| == |ws| - 1
    ensures forall j :: 0 <= j < |r| ==> r[j] == (if j < i then ws[j] else ws[j + 1])
  {
    ws[..i] + ws[i + 1..]
  }

  /** Java references never dangle and fresh objects are really fresh. */
  ghost predicate WellFormed<K>(d: Debouncer<K>)
  {
    && (forall k :: k in d.delayedMap ==> d.delayedMap[k] in d.tasks)
    && (forall i :: 0 <= i < |d.pending| ==> d.pending[i].task in d.tasks)
    && (forall id :: id in d.tasks ==> id < d.nextId)
  }

  /** Every map entry is a live task filed under its own key. */
  ghost predicate EntriesLive<K>(d: Debouncer<K>)
    requires WellFormed(d)
  {
    forall k :: k in d.delayedMap ==>
      d.tasks[d.delayedMap[k]].key == k && d.tasks[d.delayedMap[k]].Live()
  }

  /** Every live task is the map entry of its key, so at most one live task per key. */
  ghost predicate LiveFiled<K>(d: Debouncer<K>)
  {
    forall id :: id in d.tasks && d.tasks[id].Live() ==>
      d.tasks[id].key in d.delayedMap && d.delayedMap[d.tasks[id].key] == id
  }

  /** A task that is not live holds exactly the sentinel. */
  ghost predicate DeadAreSentinel<K>(d: Debouncer<K>)
  {
    forall id :: id in d.tasks && !d.tasks[id].Live() ==> d.tasks[id].dueTime == FiredSentinel
  }

  /** A live task has exactly one queued wake-up and a fired task none. */
  ghost predicate OneWakeupPerLive<K>(d: Debouncer<K>)
  {
    forall id :: id in d.tasks ==> Count(d.pending, id) == if d.tasks[id].Live() then 1 else 0
  }

  /** No queued wake-up is later than its task's due time. */
  ghost predicate WakeupsNotLate<K>(d: Debouncer<K>)
    requires WellFormed(d)
  {
    forall i :: 0 <= i < |d.pending| ==> d.pending[i].fireAt <= d.tasks[d.pending[i].task].dueTime
  }

  /** A live task's due time was set at or before `clock`. */
  ghost predicate DueWithinClock<K>(d: Debouncer<K>)
  {
    forall id :: id in d.tasks && d.tasks[id].Live() ==>
      d.tasks[id].dueTime <= d.clock + d.tasks[id].interval
  }

  /** The invariant of every reachable state. */
  ghost predicate Valid<K>(d: Debouncer<K>)
  {
    && WellFormed(d)
    && EntriesLive(d)
    && LiveFiled(d)
    && DeadAreSentinel(d)
    && OneWakeupPerLive(d)
    && WakeupsNotLate(d)
    && DueWithinClock(d)
  }

  /** `Debouncer.call`: insert a new task for an absent key and schedule it
      `interval` ms ahead, or else extend the task already filed under the key.
      The existing task keeps its own runnable and interval; the task built for
      this call is discarded. If the entry found is already fired, the loop
      retries forever, because nothing else runs to remove that entry. Between
      steps the map never holds a fired task (`CallPreservesValid`); it does
      while a runnable executes, and a `call` on the runnable's own key from
      inside it spins (module `Reentrancy`). */
  function Call<K>(d: Debouncer<K>, key: K, runnable: RunnableId, interval: nat, now: nat): (r: CallResult<K>)
    requires WellFormed(d)
    requires d.clock <= now
    ensures r.Done? ==> r.state.clock == now && r.state.executed == d.executed
    // absent key: the new task is inserted and one wake-up is queued for it
    ensures key !in d.delayedMap ==>
      && r.Done?
      && r.state.nextId == d.nextId + 1
      && d.nextId !in d.tasks
      && r.state.tasks == d.tasks[d.nextId := NewTask(key, runnable, interval, now)]
      && r.state.delayedMap == d.delayedMap[key := d.nextId]
      && r.state.pending == d.pending + [Wakeup(d.nextId, now + interval)]
    // present key: only the existing task's due time moves, nothing is queued
    ensures key in d.delayedMap && d.tasks[d.delayedMap[key]].Live() ==>
      var id := d.delayedMap[key];
      && r.Done?
      && r.state.delayedMap == d.delayedMap
      && r.state.pending == d.pending
      && r.state.nextId == d.nextId
      && r.state.tasks == d.tasks[id := d.tasks[id].(dueTime := now + d.tasks[id].interval)]
    ensures r.Spins? <==> key in d.delayedMap && !d.tasks[d.delayedMap[key]].Live()
    ensures r.Done? ==> WellFormed(r.state)
  {
    var built := NewTask(key, runnable, interval, now);
    if key !in d.delayedMap then
      var id := d.nextId;
      Done(d.(tasks := d.tasks[id := built],
              delayedMap := d.delayedMap[key := id],
              pending := d.pending + [Wakeup(id, now + interval)],
              clock := now,
              nextId := id + 1))
    else
      var prev := d.delayedMap[key];
      var ext := Extend(d.tasks[prev], now);
      if ext.extended then
        Done(d.(tasks := d.tasks[prev := ext.task], clock := now))
      else
        Spins
  }

  /** The state while `run` of task `id` is inside `runnable.run()`: the
      sentinel is written and the runnable counts as invoked, but the `finally`
      block has not yet removed the key, so the map still holds the fired task. */
  function Invoking<K>(d: Debouncer<K>, id: TaskId, now: nat): (r: Debouncer<K>)
    requires WellFormed(d)
    requires id in d.tasks
    requires d.clock <= now
    ensures WellFormed(r)
    ensures r.tasks == d.tasks[id := d.tasks[id].(dueTime := FiredSentinel)]
    ensures !r.tasks[id].Live()
    ensures r.clock == now
    ensures r.delayedMap == d.delayedMap && r.pending == d.pending && r.nextId == d.nextId
    ensures r.executed == d.executed + [d.tasks[id].runnable]
  {
    var t := d.tasks[id];
    d.(tasks := d.tasks[id := t.(dueTime := FiredSentinel)],
       executed := d.executed + [t.runnable],
       clock := now)
  }

  /** `TimerTask.run` for task `id`: if its due time is still ahead, queue it
      again for the remaining time; otherwise write the sentinel, invoke the
      runnable, and remove the key from the map whether or not the runnable
      throws (the `finally` block). */
  function Run<K>(d: Debouncer<K>, id: TaskId, now: nat, completion: Completion): (r: RunResult<K>)
    requires WellFormed(d)
    requires id in d.tasks
    requires d.clock <= now
    ensures r.state.clock == now && r.state.nextId == d.nextId
    // re-arm: nothing fires, the task is unchanged, one wake-up at its due time
    ensures d.tasks[id].dueTime > now ==>
      && r.state.tasks == d.tasks
      && r.state.delayedMap == d.delayedMap
      && r.state.executed == d.executed
      && r.state.pending == d.pending + [Wakeup(id, d.tasks[id].dueTime)]
      && !r.threw
    // fire: sentinel, exactly one execution, key removed on both exit paths
    ensures d.tasks[id].dueTime <= now ==>
      && r.state.tasks == d.tasks[id := d.tasks[id].(dueTime := FiredSentinel)]
      && !r.state.tasks[id].Live()
      && r.state.executed == d.executed + [d.tasks[id].runnable]
      && r.state.delayedMap.Keys == d.delayedMap.Keys - {d.tasks[id].key}
      && (forall k :: k in r.state.delayedMap ==> r.state.delayedMap[k] == d.delayedMap[k])
      && r.state.pending == d.pending
      && (r.threw <==> completion == Throws)
    ensures WellFormed(r.state)
  {
    var t := d.tasks[id];
    var remaining := t.dueTime - now;
    if remaining > 0 then
      RunResult(d.(pending := d.pending + [Wakeup(id, now + remaining)], clock := now), false)
    else
      var fired := Invoking(d, id, now);
      // the finally block runs on both paths; only the exit differs
      match completion
      case Normal => RunResult(fired.(delayedMap := d.delayedMap - {t.key}), false)
      case Throws => RunResult(fired.(delayedMap := d.delayedMap - {t.key}), true)
  }

  /** The scheduler takes the `i`-th queued wake-up, whose delay has elapsed,
      off its queue and calls `run` on its task. */
  function Wake<K>(d: Debouncer<K>, i: nat, now: nat, completion: Completion): (r: RunResult<K>)
    requires WellFormed(d)
    requires i < |d.pending|
    requires d.pending[i].fireAt <= now
    requires d.clock <= now
    ensures WellFormed(r.state)
    ensures r.state.clock == now
    // the log grows by the task's runnable exactly when the task is due
    ensures d.pending[i].task in d.tasks
    ensures var t := d.tasks[d.pending[i].task];
            r.state.executed == if t.dueTime <= now then d.executed + [t.runnable] else d.executed
  {
    var w := d.pending[i];
    Run(d.(pending := Dequeue(d.pending, i)), w.task, now, completion)
  }

  // ---------------------------------------------------------------------
  // Counting queued wake-ups

  lemma {:induction false} CountAppend(a: seq<Wakeup>, b: seq<Wakeup>, id: TaskId)
    ensures Count(a + b, id) == Count(a, id) + Count(b, id)
    decreases |a|
  {
    if |a| == 0 {
      assert a + b == b;
    } else {
      assert (a + b)[1..] == a[1..] + b;
      CountAppend(a[1..], b, id);
    }
  }

  lemma {:induction false} CountDequeue(ws: seq<Wakeup>, i: nat, id: TaskId)
    requires i < |ws|
    ensures Count(Dequeue(ws, i), id) + (if ws[i].task == id then 1 else 0) == Count(ws, id)
  {
    assert ws == ws[..i] + ([ws[i]] + ws[i + 1..]);
    CountAppend(ws[..i], [ws[i]] + ws[i + 1..], id);
    CountAppend([ws[i]], ws[i + 1..], id);
    CountAppend(ws[..i], ws[i + 1..], id);
  }

  /** Taking the last entry off the queue leaves the rest. */
  lemma {:induction false} DequeueLast(ws: seq<Wakeup>, w: Wakeup)
    ensures Dequeue(ws + [w], |ws|) == ws
  {
    assert (ws + [w])[..|ws|] == ws;
  }

  lemma {:induction false} CountSingle(w: Wakeup, id: TaskId)
    ensures Count([w], id) == if w.task == id then 1 else 0
  {
  }

  // ---------------------------------------------------------------------
  // Invariant preservation

  lemma {:induction false} InsertCounts<K>(d: Debouncer<K>, key: K, runnable: RunnableId, interval: nat, now: nat)
    requires WellFormed(d) && OneWakeupPerLive(d)
    requires d.clock <= now
    requires key !in d.delayedMap
    ensures OneWakeupPerLive(Call(d, key, runnable, interval, now).state)
  {
    var d' := Call(d, key, runnable, interval, now).state;
    var w := Wakeup(d.nextId, now + interval);
    assert Count(d.pending, d.nextId) == 0;
    forall x | x in d'.tasks
      ensures Count(d'.pending, x) == if d'.tasks[x].Live() then 1 else 0
    {
      CountAppend(d.pending, [w], x);
      CountSingle(w, x);
    }
  }

  lemma {:induction false} InsertNotLate<K>(d: Debouncer<K>, key: K, runnable: RunnableId, interval: nat, now: nat)
    requires WellFormed(d) && WakeupsNotLate(d)
    requires d.clock <= now
    requires key !in d.delayedMap
    ensures WakeupsNotLate(Call(d, key, runnable, interval, now).state)
  {
    var d' := Call(d, key, runnable, interval, now).state;
    assert forall j :: 0 <= j < |d.pending| ==> d'.pending[j] == d.pending[j];
  }

  lemma {:induction false} InsertFiled<K>(d: Debouncer<K>, key: K, runnable: RunnableId, interval: nat, now: nat)
    requires WellFormed(d) && EntriesLive(d) && LiveFiled(d) && DeadAreSentinel(d) && DueWithinClock(d)
    requires d.clock <= now
    requires key !in d.delayedMap
    ensures var d' := Call(d, key, runnable, interval, now).state;
            EntriesLive(d') && LiveFiled(d') && DeadAreSentinel(d') && DueWithinClock(d')
  {
  }

  lemma {:induction false} CallInsertValid<K>(d: Debouncer<K>, key: K, runnable: RunnableId, interval: nat, now: nat)
    requires Valid(d)
    requires d.clock <= now
    requires key !in d.delayedMap
    ensures Valid(Call(d, key, runnable, interval, now).state)
  {
    InsertCounts(d, key, runnable, interval, now);
    InsertNotLate(d, key, runnable, interval, now);
    InsertFiled(d, key, runnable, interval, now);
  }

  lemma {:induction false} CallExtendValid<K>(d: Debouncer<K>, key: K, runnable: RunnableId, interval: nat, now: nat)
    requires Valid(d)
    requires d.clock <= now
    requires key in d.delayedMap
    ensures Call(d, key, runnable, interval, now).Done?
    ensures Valid(Call(d, key, runnable, interval, now).state)
  {
    var id := d.delayedMap[key];
    assert d.tasks[id].Live();
    var d' := Call(d, key, runnable, interval, now).state;
    assert d'.tasks[id].dueTime >= d.tasks[id].dueTime;
    assert WakeupsNotLate(d');
    assert OneWakeupPerLive(d');
  }

  /** From a valid state, that is between steps and not from inside a
      runnable, `call` always returns: the retry loop exits after one round,
      and the invariant is preserved. */
  lemma {:induction false} CallPreservesValid<K>(d: Debouncer<K>, key: K, runnable: RunnableId, interval: nat, now: nat)
    requires Valid(d)
    requires d.clock <= now
    ensures Call(d, key, runnable, interval, now).Done?
    ensures Valid(Call(d, key, runnable, interval, now).state)
  {
    if key !in d.delayedMap {
      CallInsertValid(d, key, runnable, interval, now);
    } else {
      CallExtendValid(d, key, runnable, interval, now);
    }
  }

  /** Every queued wake-up belongs to a live task, so the scheduler never runs
      a fired task: `run` cannot invoke a runnable twice, and the `remove(key)`
      of a firing task removes that very task. */
  lemma {:induction false} PendingTasksAreLive<K>(d: Debouncer<K>, i: nat)
    requires Valid(d)
    requires i < |d.pending|
    ensures d.pending[i].task in d.tasks
    ensures d.tasks[d.pending[i].task].Live()
    ensures d.delayedMap[d.tasks[d.pending[i].task].key] == d.pending[i].task
  {
    var id := d.pending[i].task;
    assert Count(d.pending, id) != 0;
  }

  /** Dequeuing the `i`-th wake-up lowers its task's count by one and no other. */
  lemma {:induction false} DequeueCounts<K>(d: Debouncer<K>, i: nat)
    requires Valid(d)
    requires i < |d.pending|
    ensures forall x :: x in d.tasks ==>
      Count(Dequeue(d.pending, i), x) == Count(d.pending, x) - (if x == d.pending[i].task then 1 else 0)
  {
    forall x | x in d.tasks
      ensures Count(Dequeue(d.pending, i), x) == Count(d.pending, x) - (if x == d.pending[i].task then 1 else 0)
    {
      CountDequeue(d.pending, i, x);
    }
  }

  /** `d'` is `d` after the `i`-th wake-up re-armed its task for its due time. */
  ghost predicate RearmStep<K>(d: Debouncer<K>, i: nat, d': Debouncer<K>)
    requires WellFormed(d)
  {
    && i < |d.pending|
    && d'.tasks == d.tasks
    && d'.delayedMap == d.delayedMap
    && d'.pending == Dequeue(d.pending, i) + [Wakeup(d.pending[i].task, d.tasks[d.pending[i].task].dueTime)]
    && d'.nextId == d.nextId
    && d.clock <= d'.clock
  }

  /** `d'` is `d` after the `i`-th wake-up fired its task. */
  ghost predicate FireStep<K>(d: Debouncer<K>, i: nat, d': Debouncer<K>)
    requires WellFormed(d)
  {
    && i < |d.pending|
    && var id := d.pending[i].task;
       && d'.tasks == d.tasks[id := d.tasks[id].(dueTime := FiredSentinel)]
       && d'.delayedMap == d.delayedMap - {d.tasks[id].key}
       && d'.pending == Dequeue(d.pending, i)
       && d'.nextId == d.nextId
       && d.clock <= d'.clock
  }

  lemma {:induction false} RearmCounts<K>(d: Debouncer<K>, i: nat, d': Debouncer<K>)
    requires Valid(d)
    requires RearmStep(d, i, d')
    ensures OneWakeupPerLive(d')
  {
    var id := d.pending[i].task;
    PendingTasksAreLive(d, i);
    DequeueCounts(d, i);
    var rest := Dequeue(d.pending, i);
    var w := Wakeup(id, d.tasks[id].dueTime);
    forall x | x in d'.tasks
      ensures Count(d'.pending, x) == if d'.tasks[x].Live() then 1 else 0
    {
      CountAppend(rest, [w], x);
      CountSingle(w, x);
    }
  }

  lemma {:induction false} RearmNotLate<K>(d: Debouncer<K>, i: nat, d': Debouncer<K>)
    requires WellFormed(d) && WakeupsNotLate(d)
    requires RearmStep(d, i, d')
    ensures WellFormed(d')
    ensures WakeupsNotLate(d')
  {
    var rest := Dequeue(d.pending, i);
    assert forall j :: 0 <= j < |rest| ==> d'.pending[j] == rest[j];
  }

  lemma {:induction false} RearmValid<K>(d: Debouncer<K>, i: nat, d': Debouncer<K>)
    requires Valid(d)
    requires RearmStep(d, i, d')
    ensures Valid(d')
  {
    RearmCounts(d, i, d');
    RearmNotLate(d, i, d');
  }

  lemma {:induction false} FireLiveFiled<K>(d: Debouncer<K>, i: nat, d': Debouncer<K>)
    requires Valid(d)
    requires FireStep(d, i, d')
    ensures LiveFiled(d')
  {
    var id := d.pending[i].task;
    PendingTasksAreLive(d, i);
    forall x | x in d'.tasks && d'.tasks[x].Live()
      ensures d'.tasks[x].key in d'.delayedMap && d'.delayedMap[d'.tasks[x].key] == x
    {
      assert x != id;
      assert d.tasks[x].key != d.tasks[id].key;
    }
  }

  lemma {:induction false} FireCounts<K>(d: Debouncer<K>, i: nat, d': Debouncer<K>)
    requires Valid(d)
    requires FireStep(d, i, d')
    ensures OneWakeupPerLive(d')
    ensures forall j :: 0 <= j < |d'.pending| ==> d'.pending[j].task != d.pending[i].task
  {
    var id := d.pending[i].task;
    PendingTasksAreLive(d, i);
    DequeueCounts(d, i);
    assert Count(d'.pending, id) == 0;
  }

  lemma {:induction false} FireNotLate<K>(d: Debouncer<K>, i: nat, d': Debouncer<K>)
    requires WellFormed(d) && WakeupsNotLate(d)
    requires FireStep(d, i, d')
    requires forall j :: 0 <= j < |d'.pending| ==> d'.pending[j].task != d.pending[i].task
    ensures WellFormed(d')
    ensures WakeupsNotLate(d')
  {
  }

  lemma {:induction false} FireEntriesLive<K>(d: Debouncer<K>, i: nat, d': Debouncer<K>)
    requires WellFormed(d) && EntriesLive(d) && DeadAreSentinel(d) && DueWithinClock(d)
    requires FireStep(d, i, d')
    ensures WellFormed(d')
    ensures EntriesLive(d')
    ensures DeadAreSentinel(d')
    ensures DueWithinClock(d')
  {
  }

  lemma {:induction false} FireValid<K>(d: Debouncer<K>, i: nat, d': Debouncer<K>)
    requires Valid(d)
    requires FireStep(d, i, d')
    ensures Valid(d')
  {
    FireLiveFiled(d, i, d');
    FireCounts(d, i, d');
    FireNotLate(d, i, d');
    FireEntriesLive(d, i, d');
  }

  lemma {:induction false} WakeRearmValid<K>(d: Debouncer<K>, i: nat, now: nat, completion: Completion)
    requires Valid(d)
    requires i < |d.pending|
    requires d.pending[i].fireAt <= now
    requires d.clock <= now
    requires d.tasks[d.pending[i].task].dueTime > now
    ensures Valid(Wake(d, i, now, completion).state)
  {
    PendingTasksAreLive(d, i);
    RearmValid(d, i, Wake(d, i, now, completion).state);
  }

  lemma {:induction false} WakeFireValid<K>(d: Debouncer<K>, i: nat, now: nat, completion: Completion)
    requires Valid(d)
    requires i < |d.pending|
    requires d.pending[i].fireAt <= now
    requires d.clock <= now
    requires d.tasks[d.pending[i].task].dueTime <= now
    ensures Valid(Wake(d, i, now, completion).state)
  {
    PendingTasksAreLive(d, i);
    var d' := Wake(d, i, now, completion).state;
    assert d'.delayedMap == d.delayedMap - {d.tasks[d.pending[i].task].key};
    FireValid(d, i, d');
  }

  /** A wake-up preserves the invariant, whether the task re-arms or fires and
      whether its runnable returns or throws. */
  lemma {:induction false} WakePreservesValid<K>(d: Debouncer<K>, i: nat, now: nat, completion: Completion)
    requires Valid(d)
    requires i < |d.pending|
    requires d.pending[i].fireAt <= now
    requires d.clock <= now
    ensures Valid(Wake(d, i, now, completion).state)
  {
    PendingTasksAreLive(d, i);
    if d.tasks[d.pending[i].task].dueTime > now {
      WakeRearmValid(d, i, now, completion);
    } else {
      WakeFireValid(d, i, now, completion);
    }
  }

  // ---------------------------------------------------------------------
  // Properties of the table

  /** At most one live task per key. */
  lemma {:induction false} OneLivePerKey<K>(d: Debouncer<K>, a: TaskId, b: TaskId)
    requires Valid(d)
    requires a in d.tasks && b in d.tasks
    requires d.tasks[a].Live() && d.tasks[b].Live()
    requires d.tasks[a].key == d.tasks[b].key
    ensures a == b
  {
  }

  /** A fired task stays fired and untouched through any later `call`. */
  lemma {:induction false} CallKeepsFiredTasks<K>(d: Debouncer<K>, key: K, runnable: RunnableId, interval: nat, now: nat, id: TaskId)
    requires Valid(d)
    requires d.clock <= now
    requires id in d.tasks && !d.tasks[id].Live()
    ensures Call(d, key, runnable, interval, now).Done?
    ensures Call(d, key, runnable, interval, now).state.tasks[id] == d.tasks[id]
    ensures Call(d, key, runnable, interval, now).state.tasks[id].dueTime == FiredSentinel
  {
    CallPreservesValid(d, key, runnable, interval, now);
  }

  /** A fired task stays fired and untouched through any later wake-up. */
  lemma {:induction false} WakeKeepsFiredTasks<K>(d: Debouncer<K>, i: nat, now: nat, completion: Completion, id: TaskId)
    requires Valid(d)
    requires i < |d.pending|
    requires d.pending[i].fireAt <= now
    requires d.clock <= now
    requires id in d.tasks && !d.tasks[id].Live()
    ensures Wake(d, i, now, completion).state.tasks[id] == d.tasks[id]
  {
    PendingTasksAreLive(d, i);
  }

  /** A wake-up fires its task only at or after the due time set by the last
      `extend`, and it fires a live task; keys other than the task's keep
      their entries. */
  lemma {:induction false} WakeFiresOnlyWhenDue<K>(d: Debouncer<K>, i: nat, now: nat, completion: Completion)
    requires Valid(d)
    requires i < |d.pending|
    requires d.pending[i].fireAt <= now
    requires d.clock <= now
    ensures var r := Wake(d, i, now, completion);
            var t := d.tasks[d.pending[i].task];
            && (|r.state.executed| > |d.executed| <==> t.dueTime <= now)
            && (t.dueTime > now ==> r.state.executed == d.executed && t.key in r.state.delayedMap)
            && (|r.state.executed| > |d.executed| ==>
                  t.Live() && r.state.executed == d.executed + [t.runnable]
                  && t.key !in r.state.delayedMap)
            && (forall k :: k in d.delayedMap && k != t.key ==>
                  k in r.state.delayedMap && r.state.delayedMap[k] == d.delayedMap[k]
                  && r.state.tasks[d.delayedMap[k]] == d.tasks[d.delayedMap[k]])
  {
    PendingTasksAreLive(d, i);
    var id := d.pending[i].task;
    forall k | k in d.delayedMap && k != d.tasks[id].key
      ensures d.delayedMap[k] != id
    {
    }
  }

  /** Once a key's task has fired, the next `call` on that key starts a new
      debounce cycle: a fresh task with the new runnable, not the fired one. */
  lemma {:induction false} CallAfterFireStartsFresh<K>(d: Debouncer<K>, i: nat, now: nat, completion: Completion,
                                    runnable: RunnableId, interval: nat, later: nat)
    requires Valid(d)
    requires i < |d.pending|
    requires d.pending[i].fireAt <= now
    requires d.clock <= now <= later
    requires d.tasks[d.pending[i].task].dueTime <= now
    ensures var old_id := d.pending[i].task;
            var key := d.tasks[old_id].key;
            var d1 := Wake(d, i, now, completion).state;
            var r := Call(d1, key, runnable, interval, later);
            && r.Done?
            && r.state.delayedMap[key] != old_id
            && r.state.tasks[r.state.delayedMap[key]] == NewTask(key, runnable, interval, later)
            && r.state.tasks[old_id].dueTime == FiredSentinel
  {
    PendingTasksAreLive(d, i);
    WakeFiresOnlyWhenDue(d, i, now, completion);
  }
}
