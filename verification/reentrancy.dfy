/**
 A runnable that calls back into the debouncer on its own key.

 `run` invokes the runnable while holding the task's lock and before its
 `finally` block removes the key, so during the runnable the map still holds
 the task, already fired. A `call` on that key from inside the runnable gets
 the fired task back from `putIfAbsent`, `extend` re-enters the lock (Java
 monitors are re-entrant) and fails, and the retry loop never exits: the
 single scheduler thread hangs.

 The corrected `call` takes a fired entry out of the map and retries, and
 the corrected `finally` removes the key only while it still maps to the
 fired task. Together they make a call from inside the runnable behave like
 the same call made just after the runnable returned.

 Automatic induction is switched off on every lemma (`{:induction false}`):
 the hypothesis Dafny adds on its own is not restricted to well-typed
 values and can make the proof context inconsistent with these datatypes,
 so every new lemma must carry the attribute as well.
 */
module Reentrancy {
  import opened TimerTasks
  import opened Debouncers

  /** The state while the runnable of the `i`-th queued wake-up runs: the
      wake-up has been dequeued and its task, due, has been marked fired. */
  function DuringRunnable<K>(d: Debouncer<K>, i: nat, now: nat): (r: Debouncer<K>)
    requires WellFormed(d)
    requires i < |d.pending|
    requires d.clock <= now
    ensures WellFormed(r)
    ensures var id := d.pending[i].task;
            && r.tasks == d.tasks[id := d.tasks[id].(dueTime := FiredSentinel)]
            && !r.tasks[id].Live()
            && r.executed == d.executed + [d.tasks[id].runnable]
    ensures r.pending == Dequeue(d.pending, i)
    ensures r.delayedMap == d.delayedMap
    ensures r.clock == now
  {
    Invoking(d.(pending := Dequeue(d.pending, i)), d.pending[i].task, now)
  }

  /** As written: a `call` from inside a firing runnable, on that runnable's
      own key, spins forever, whatever runnable and interval it passes and
      however late in the runnable it is made. */
  lemma {:induction false} ReentrantCallSpins<K>(d: Debouncer<K>, i: nat, now: nat, runnable: RunnableId, interval: nat, later: nat)
    requires Valid(d)
    requires i < |d.pending|
    requires d.pending[i].fireAt <= now
    requires d.clock <= now <= later
    requires d.tasks[d.pending[i].task].dueTime <= now
    ensures var key := d.tasks[d.pending[i].task].key;
            Call(DuringRunnable(d, i, now), key, runnable, interval, later).Spins?
  {
    PendingTasksAreLive(d, i);
  }

  /** A concrete run: `call("save")` at 0 ms with 500 ms, the wake-up at 500 ms
      fires, and its runnable calls `call("save")` again. */
  lemma {:induction false} ReentrantSaveHangs()
    ensures var d := Call(Empty<string>(), "save", 1, 500, 0).state;
            && d.pending == [Wakeup(0, 500)]
            && Call(DuringRunnable(d, 0, 500), "save", 2, 500, 500).Spins?
  {
    var d := Call(Empty<string>(), "save", 1, 500, 0).state;
    assert d.tasks[0].dueTime == 500;
  }

  /** `call` as evidently intended: an entry found fired is removed
      (`delayedMap.remove(key, prev)`) and the loop retries, so the next
      `putIfAbsent` files the new task. Wherever the code's `call` returns,
      this one returns the same state. */
  function CallRetiring<K>(d: Debouncer<K>, key: K, runnable: RunnableId, interval: nat, now: nat): (r: Debouncer<K>)
    requires WellFormed(d)
    requires d.clock <= now
    ensures WellFormed(r)
    ensures Call(d, key, runnable, interval, now).Done? ==> r == Call(d, key, runnable, interval, now).state
    ensures Call(d, key, runnable, interval, now).Spins? ==>
      && d.nextId !in d.tasks
      && r.delayedMap == d.delayedMap[key := d.nextId]
      && r.tasks == d.tasks[d.nextId := NewTask(key, runnable, interval, now)]
      && r.pending == d.pending + [Wakeup(d.nextId, now + interval)]
      && r.executed == d.executed
  {
    if key in d.delayedMap && !d.tasks[d.delayedMap[key]].Live() then
      Call(d.(delayedMap := d.delayedMap - {key}), key, runnable, interval, now).state
    else
      Call(d, key, runnable, interval, now).state
  }

  /** The `finally` block as evidently intended: `delayedMap.remove(key, this)`
      removes the key only while it still maps to the fired task `id`. */
  function FinishRetiring<K>(d: Debouncer<K>, key: K, id: TaskId): (r: Debouncer<K>)
    ensures key in r.delayedMap <==> key in d.delayedMap && d.delayedMap[key] != id
    ensures forall k :: k in r.delayedMap ==> k in d.delayedMap && r.delayedMap[k] == d.delayedMap[k]
    ensures r.tasks == d.tasks && r.pending == d.pending && r.executed == d.executed
  {
    if key in d.delayedMap && d.delayedMap[key] == id then d.(delayedMap := d.delayedMap - {key}) else d
  }

  /** Corrected: a `call` at `later` from inside a firing runnable on its own
      key, followed by the corrected `finally`, leaves exactly the state of the
      same `call` at `later` made after `run` returned, whether the runnable
      returned or threw; so it returns, and the invariant holds afterwards. */
  lemma {:induction false} ReentrantCallRetiring<K>(d: Debouncer<K>, i: nat, now: nat, c: Completion,
                                                    runnable: RunnableId, interval: nat, later: nat)
    requires Valid(d)
    requires i < |d.pending|
    requires d.pending[i].fireAt <= now
    requires d.clock <= now <= later
    requires d.tasks[d.pending[i].task].dueTime <= now
    ensures var id := d.pending[i].task;
            var key := d.tasks[id].key;
            var inside := FinishRetiring(CallRetiring(DuringRunnable(d, i, now), key, runnable, interval, later), key, id);
            var after := Call(Wake(d, i, now, c).state, key, runnable, interval, later);
            && after.Done?
            && inside == after.state
            && Valid(inside)
  {
    var id := d.pending[i].task;
    var key := d.tasks[id].key;
    PendingTasksAreLive(d, i);
    WakePreservesValid(d, i, now, c);
    var w := Wake(d, i, now, c).state;
    CallPreservesValid(w, key, runnable, interval, later);
    var m := DuringRunnable(d, i, now);
    assert w == m.(delayedMap := m.delayedMap - {key});
    assert d.nextId !in d.tasks;
  }

  /** Between steps the corrected `call` is the code's `call`: every theorem
      about `Call` from a valid state holds for it unchanged. */
  lemma {:induction false} RetiringAgreesWhenValid<K>(d: Debouncer<K>, key: K, runnable: RunnableId, interval: nat, now: nat)
    requires Valid(d)
    requires d.clock <= now
    ensures Call(d, key, runnable, interval, now) == Done(CallRetiring(d, key, runnable, interval, now))
  {
    CallPreservesValid(d, key, runnable, interval, now);
  }
}
