/**
 The per-key timer record of the debouncer (the inner class `TimerTask` of
 Debouncer.java): its immutable fields, its mutable due time, the `-1`
 sentinel that marks a fired task, and the `extend` operation.

 Time is an explicit parameter `now` in milliseconds; intervals are already
 converted to milliseconds.

 Automatic induction is switched off on every lemma (`{:induction false}`):
 the hypothesis Dafny adds on its own is not restricted to well-typed
 values and can make the proof context inconsistent with these datatypes,
 so every new lemma must carry the attribute as well.
 */
module TimerTasks {

  /** An opaque identifier of a `Runnable` supplied by a caller. */
  type RunnableId = nat

  /** The due time written when a task fires; `extend` refuses any negative due time. */
  const FiredSentinel: int := -1

  /** A timer task: `key`, `runnable` and `interval` are final; `dueTime` is the
      absolute time (ms) at or after which the task may fire, or negative once fired. */
  datatype TimerTask<K> = TimerTask(key: K, runnable: RunnableId, interval: nat, dueTime: int)
  {
    /** A task is live until it fires; `extend` tests exactly this. */
    predicate Live() {
      dueTime >= 0
    }
  }

  /** What `extend` returns (`extended`) together with the task after the call. */
  datatype ExtendResult<K> = ExtendResult(extended: bool, task: TimerTask<K>)

  /** `TimerTask.extend`: a fired task is left alone and reports failure; a live
      task moves its due time to `now + interval` and reports success. */
  function Extend<K>(t: TimerTask<K>, now: nat): (r: ExtendResult<K>)
    ensures r.extended <==> t.Live()
    ensures !r.extended ==> r.task == t
    ensures r.extended ==> r.task.Live() && r.task.dueTime == now + t.interval
    ensures r.task.key == t.key && r.task.runnable == t.runnable && r.task.interval == t.interval
  {
    if t.dueTime < 0 then ExtendResult(false, t)
    else ExtendResult(true, t.(dueTime := now + t.interval))
  }

  /** The `TimerTask` constructor: the fields are set, `dueTime` starts at the
      Java default 0, and the constructor's own call to `extend` arms it. */
  function NewTask<K>(key: K, runnable: RunnableId, interval: nat, now: nat): (t: TimerTask<K>)
    ensures t.Live()
    ensures t.dueTime == now + interval
    ensures t.key == key && t.runnable == runnable && t.interval == interval
  {
    Extend(TimerTask(key, runnable, interval, 0), now).task
  }

  /** The sentinel is irreversible: no sequence of `extend` calls, at any times,
      brings a fired task back to life or changes it in any way. */
  lemma {:induction false} ExtendNeverRevives<K>(t: TimerTask<K>, times: seq<nat>)
    requires !t.Live()
    ensures ExtendAll(t, times) == t
    decreases |times|
  {
    if |times| > 0 {
      ExtendNeverRevives(Extend(t, times[0]).task, times[1..]);
    }
  }

  /** A live task extended repeatedly stays live and ends with the due time
      of the last extension; nothing but the due time changes. */
  lemma {:induction false} ExtendAllLive<K>(t: TimerTask<K>, times: seq<nat>)
    requires t.Live()
    requires |times| > 0
    ensures ExtendAll(t, times).Live()
    ensures ExtendAll(t, times).dueTime == times[|times| - 1] + t.interval
    ensures ExtendAll(t, times).(dueTime := t.dueTime) == t
    decreases |times|
  {
    if |times| > 1 {
      ExtendAllLive(Extend(t, times[0]).task, times[1..]);
    }
  }

  /** Successive `extend` calls on one task at the given times. */
  function ExtendAll<K>(t: TimerTask<K>, times: seq<nat>): (r: TimerTask<K>)
    ensures r.key == t.key && r.runnable == t.runnable && r.interval == t.interval
    decreases |times|
  {
    if |times| == 0 then t else ExtendAll(Extend(t, times[0]).task, times[1..])
  }
}
