# Keyed debouncer, modelled in Dafny

This project models `Debouncer<T>` from
`android-exoplayer/src/main/java/com/brentvatne/utils/Debouncer.java`. It is a keyed
debounce table. `call(key, runnable, interval, unit)` files a `TimerTask` under the key
and schedules it, unless the key already has a live task; in that case it pushes that
task's due time forward. When the scheduler wakes a task, `run` does one of two things:

- if the due time is still ahead, it re-queues the task for the remaining time;
- otherwise it writes the sentinel `-1` into the due time, invokes the runnable and
  removes the key from the map, even if the runnable throws.

The model is a sequential state machine over immutable values. Each Java method body is
one atomic step.

- `timer_task.dfy`, module `TimerTasks`: the task record, the `-1` sentinel,
  `extend` and the constructor.
- `debouncer.dfy`, module `Debouncers`: the table.
  - Java object identity is modelled as a heap `tasks: map<TaskId, TimerTask>`.
  - The `ConcurrentHashMap` is `delayedMap: map<K, TaskId>`. The key type `K` is the
    class's type parameter `T` without `null`.
  - The scheduler's queue is `pending: seq<Wakeup>`.
  - Invoked runnables are logged in `executed`.
  - `Call`, `Run` and `Wake` model `call`, `run`, and the scheduler handing a due
    wake-up to `run`.
  - `Valid` is the invariant of every reachable state:
    - every map entry is a live task filed under its own key;
    - every live task is its key's entry, so there is at most one live task per key;
    - fired tasks hold exactly `-1`;
    - each live task has exactly one queued wake-up and a fired task has none;
    - no wake-up is queued later than its task's due time;
    - no live task is due later than the latest time seen plus its interval, so an
      `extend` never moves a due time earlier.
- `scenarios.dfy`, module `Bursts`: bursts of calls on one key. It proves that a burst
  coalesces into one task and one wake-up and that the delay is a lower bound. It also
  gives a three-call timeline.
- `reentrancy.dfy`, module `Reentrancy`: a runnable that calls `call` on its own key
  (see "## Findings").

The clock (`System.currentTimeMillis()`) is the parameter `now`, in milliseconds. The
state remembers the latest time seen (`clock`), and every step requires `clock <= now`.

The `call` loop (lines 20-24) is modelled as follows:

- With one thread, an `extend` that fails means the map holds a fired entry that
  nothing will remove, so the loop spins forever. `Call` returns `Spins` in exactly
  that case.
- `CallPreservesValid` proves this never happens between steps: from a valid state
  the loop exits after one round.
- It does happen inside a runnable. `run` invokes the runnable before its `finally`
  block removes the key, so during the runnable the map holds the fired task. A
  `call` on that key from inside the runnable spins (`Reentrancy.ReentrantCallSpins`).

## Which runnable fires

- `runnable` is a `final` field, set only by the constructor (lines 33, 41).
- `extend` changes only `dueTime` (line 51).
- The task built by a `call` that finds a live entry is discarded (lines 17, 21).

So in a burst of calls on one key, the runnable that fires is the first call's
(`Bursts.BurstCoalesces`, `Bursts.BurstFiresFirst`, `Bursts.SaveExample`). The
later calls only postpone it, and by the first call's `interval`: `extend` uses the
stored task's own `interval` (line 51), so a later call's `interval` is ignored as
well (`Bursts.BurstExtends`).

The code does not reject a negative `interval`. The model's `interval` is a `nat`
(see "## Left out").

## Model

| member | source | states |
|---|---|---|
| TimerTasks.NewTask | android-exoplayer/src/main/java/com/brentvatne/utils/Debouncer.java:39-45 | A freshly constructed task is live, is due at `now + interval`, and carries the given key, runnable and interval: the constructor's own `extend` arms it. |
| TimerTasks.Extend | android-exoplayer/src/main/java/com/brentvatne/utils/Debouncer.java:47-54 | `extend` succeeds exactly when the task is live. On a fired task it changes nothing. On a live task the new due time is `now + interval`, and the key, runnable and interval are never touched. |
| TimerTasks.ExtendNeverRevives | android-exoplayer/src/main/java/com/brentvatne/utils/Debouncer.java:49-50 | The sentinel is irreversible: any sequence of `extend` calls on a fired task leaves it identical. |
| TimerTasks.ExtendAllLive | android-exoplayer/src/main/java/com/brentvatne/utils/Debouncer.java:47-54 | Repeated `extend` on a live task keeps it live. Only the due time changes, and it ends at the last call's time plus the interval. |
| Debouncers.Empty | android-exoplayer/src/main/java/com/brentvatne/utils/Debouncer.java:10-14 | A new debouncer has an empty map and queue and satisfies the invariant. |
| Debouncers.Call | android-exoplayer/src/main/java/com/brentvatne/utils/Debouncer.java:16-25 | On an absent key: inserts a fresh task, queues exactly one wake-up at `now + interval`, and leaves other keys and tasks alone. On a live key: moves only that task's due time to `now + its own interval`, and queues nothing. The loop spins if and only if the entry found is fired. |
| Debouncers.Run | android-exoplayer/src/main/java/com/brentvatne/utils/Debouncer.java:56-70 | If the due time is ahead: nothing runs, the task is unchanged, and it is re-queued at exactly its due time (`now + remaining`). Otherwise: the sentinel is written, the runnable is logged once, only the task's key leaves the map, and the call throws if and only if the runnable threw. |
| Debouncers.Wake | android-exoplayer/src/main/java/com/brentvatne/utils/Debouncer.java:56-67 | The scheduler's dequeue and `run` of a due wake-up keep every reference valid and advance the clock. The log gains the task's runnable if its due time has passed and is unchanged otherwise. |
| Debouncers.CallPreservesValid | android-exoplayer/src/main/java/com/brentvatne/utils/Debouncer.java:16-25 | From a valid state `call` always returns, after one round of the loop, and the invariant still holds. |
| Debouncers.PendingTasksAreLive | android-exoplayer/src/main/java/com/brentvatne/utils/Debouncer.java:56-67 | In a valid state every queued wake-up belongs to a live task that is its key's map entry. So `run` never sees a fired task, and its `remove(key)` removes that very task. |
| Debouncers.WakePreservesValid | android-exoplayer/src/main/java/com/brentvatne/utils/Debouncer.java:56-70 | A wake-up keeps the invariant, whether the task re-arms or fires and whether its runnable returns or throws. |
| Debouncers.OneLivePerKey | android-exoplayer/src/main/java/com/brentvatne/utils/Debouncer.java:19-24 | In a valid state two live tasks with the same key are the same task. |
| Debouncers.CallKeepsFiredTasks | android-exoplayer/src/main/java/com/brentvatne/utils/Debouncer.java:20-24 | No `call` revives or alters a fired task. |
| Debouncers.WakeKeepsFiredTasks | android-exoplayer/src/main/java/com/brentvatne/utils/Debouncer.java:56-70 | No wake-up revives or alters a fired task. |
| Debouncers.WakeFiresOnlyWhenDue | android-exoplayer/src/main/java/com/brentvatne/utils/Debouncer.java:58-67 | A wake-up runs a runnable if and only if its task's due time has passed. What it runs is that live task's runnable, and it removes that key. When not due, the log is unchanged and the key keeps its entry. Every other key keeps its entry and task. |
| Debouncers.CallAfterFireStartsFresh | android-exoplayer/src/main/java/com/brentvatne/utils/Debouncer.java:20-24 | After a key's task fires, the next `call` on that key files a new task with the new runnable and interval. The fired task stays at `-1`. |
| Bursts.BurstPreservesValid | android-exoplayer/src/main/java/com/brentvatne/utils/Debouncer.java:16-25 | Any time-ordered run of calls on one key from a valid state returns and keeps the invariant. |
| Bursts.BurstExtends | android-exoplayer/src/main/java/com/brentvatne/utils/Debouncer.java:19-24 | Calls on a key with a live task change only that task's due time, to the last call's time plus the task's interval. Map, queue and log are unchanged. |
| Bursts.BurstCoalesces | android-exoplayer/src/main/java/com/brentvatne/utils/Debouncer.java:16-25 | A burst on an absent key leaves exactly one task and one queued wake-up, due at the first call's deadline. The task holds the first call's runnable and interval and is due at the last call's time plus that interval. Nothing runs. |
| Bursts.BurstNotEarly | android-exoplayer/src/main/java/com/brentvatne/utils/Debouncer.java:58-60 | The burst's wake-up, taken before the last call's time plus the interval, runs nothing and re-queues the task. |
| Bursts.BurstFiresFirst | android-exoplayer/src/main/java/com/brentvatne/utils/Debouncer.java:61-67 | The burst's wake-up, taken at or after the last call's time plus the interval, runs the first call's runnable once, leaves the task at `-1`, removes the key, and rethrows only if the runnable threw. |
| Debouncers.Invoking | android-exoplayer/src/main/java/com/brentvatne/utils/Debouncer.java:61-66 | While the runnable executes, only this task has changed, and only its due time, which holds the sentinel. The runnable counts as invoked and the clock is `now`. The map, queue and allocation counter are those from before the `finally` block, so the key still maps to the fired task. |
| Reentrancy.DuringRunnable | android-exoplayer/src/main/java/com/brentvatne/utils/Debouncer.java:56-66 | The state inside the runnable of a due wake-up: the wake-up is off the queue, only its task has changed (its due time is the sentinel), its runnable is logged once, the map is unchanged and the clock is `now`. |
| Reentrancy.ReentrantCallSpins | android-exoplayer/src/main/java/com/brentvatne/utils/Debouncer.java:20-24 | From any valid state, a `call` made from inside a firing runnable on that runnable's own key, at any time from the wake-up on, never exits its retry loop, whatever runnable and interval it passes. |
| Reentrancy.ReentrantSaveHangs | android-exoplayer/src/main/java/com/brentvatne/utils/Debouncer.java:16-66 | Concrete instance: `call("save")` at 0 ms with 500 ms; the wake-up at 500 ms fires, and a `call("save")` from its runnable spins. |
| Reentrancy.CallRetiring | android-exoplayer/src/main/java/com/brentvatne/utils/Debouncer.java:20-24 | Corrected `call`: wherever the code's loop exits, it yields the same state. Where the code spins on a fired entry, it files a fresh task for the new runnable under the key and queues one wake-up for it. |
| Reentrancy.FinishRetiring | android-exoplayer/src/main/java/com/brentvatne/utils/Debouncer.java:65-67 | Corrected `finally`: the key is removed exactly when it still maps to the fired task. Other entries, tasks, the queue and the log are untouched. |
| Reentrancy.ReentrantCallRetiring | android-exoplayer/src/main/java/com/brentvatne/utils/Debouncer.java:16-67 | With both corrections, a `call` at any later time from inside a firing runnable on its own key returns. The state is then exactly that of the same `call` at the same time made after `run` returned, whether the runnable returned or threw, and it is valid. |
| Reentrancy.RetiringAgreesWhenValid | android-exoplayer/src/main/java/com/brentvatne/utils/Debouncer.java:16-25 | From every valid state, the corrected `call` and the code's `call` give the same result, so every theorem about `Call` between steps also holds for the corrected one. |
| Bursts.SaveExample | android-exoplayer/src/main/java/com/brentvatne/utils/Debouncer.java:16-70 | Example: calls at 0, 200 and 400 ms with a 500 ms interval. The wake-up at 500 ms re-arms for 900 ms. The one at 900 ms runs the first runnable once and empties the map and queue. |

## Findings

| source | as written | input that shows it | evidently intended | confidence | as-written member | corrected member |
|---|---|---|---|---|---|---|
| android-exoplayer/src/main/java/com/brentvatne/utils/Debouncer.java:20-24, 62-66 | The runnable runs before `finally` removes the key, so a fired task stays in the map during it. A `call` on that key from the runnable gets the fired task from `putIfAbsent`. `extend` re-enters the lock and returns false, so the loop retries forever on the scheduler's only thread. | `call("save", r, 500, ms)` at 0 ms, where `r` itself calls `call("save", …)`; the wake-up at 500 ms fires `r`, which never returns. | A fired entry is retired and replaced: `delayedMap.remove(key, prev)` before retrying, with `delayedMap.remove(key, this)` in `finally` so the new entry survives. The re-entrant call then acts like a call made just after the runnable. | medium; not executed | Reentrancy.ReentrantCallSpins, Reentrancy.ReentrantSaveHangs | Reentrancy.CallRetiring, Reentrancy.FinishRetiring, Reentrancy.ReentrantCallRetiring |

Both corrections are needed. With only the corrected `call`, the original
`remove(key)` in `finally` would drop the new entry and leave its live task unfiled.
Outside a runnable the two versions of `call` agree (`Reentrancy.RetiringAgreesWhenValid`),
so the other modules state their theorems about the code's `Call`.

## Left out

- `terminate()` and the `ScheduledExecutorService` (lines 10, 27-29): the scheduler is
  the plain `pending` queue, and shutdown is not modelled. After `shutdownNow()`, a
  `call` on an absent key still inserts its task (line 21). `schedule` then throws
  `RejectedExecutionException` (line 23, the executor's default abort policy). The
  entry stays mapped with no wake-up, so every later `call` on that key extends a task
  that never runs.
- Concurrency: `synchronized (lock)` and `ConcurrentHashMap` atomicity are read as
  "each method body is one atomic step". Interleavings, and the loop's retries under a
  real race with `run`, are not modelled.
- `System.currentTimeMillis()` is the parameter `now`. The clock is assumed never to go
  backwards (`clock <= now`).
- `TimeUnit` conversion (lines 35, 43, 51): `interval` is already in milliseconds.
- Debouncers.Call: a `null` key is not modelled. `putIfAbsent` throws
  `NullPointerException` for it at line 21, so `call(null, …)` throws and changes
  nothing.
- Debouncers.Call: `interval` is a `nat`. A negative Java `int` interval and `long`
  overflow of `now + interval` are not modelled.
- The runnables' bodies: a runnable is an opaque id logged in `executed`. An
  exception is the `Completion` parameter. It only decides whether `run` rethrows after
  its `finally` block.
- Debouncers.Wake: the scheduler may hand any due wake-up to `run`. The order in which a
  single-thread executor would pick among several due wake-ups, and its lateness, are
  not modelled.
- Runnables that call back into the debouncer are modelled only for a `call` on the
  runnable's own key (module `Reentrancy`). Calls on other keys, and `terminate()`,
  from inside a runnable are not modelled.
- The `TimerTask` built by a `call` that finds a live entry (line 17) is never
  observable. The model does not allocate it.
