# Dispatcher and codec registry of a parallel inference server, in Dafny

This project models, and proves properties of, the request routing and the
codec lookup of the MLServer parallel runtime: the dispatcher that sends
inference requests to worker processes and matches their responses, and the
registry that finds the codec for a content type.

1. **The dispatcher** (`mlserver/parallel/dispatcher.py`). It routes inference
   requests round-robin to a fixed pool of worker processes. It registers one
   future per request id in a pending table. A background loop drains one shared
   response queue and resolves the matching future. The loop runs under a
   supervisor callback: the loop is restarted after a crash, and is not
   restarted after cancellation or after reading the end-of-queue sentinel.
   The dispatcher is a value (`Dispatch.State`) with six parts:
   - the worker map;
   - the `itertools.cycle` iterator over the map's keys (key order plus cursor);
   - the shared response queue, as a sequence of messages;
   - the pending table, mapping id to slot (`Unresolved`, `Resolved(response)` or `Failed(error)`);
   - the loop supervisor state (`Idle`, `Running`, `Finished(outcome)`, `Stopped`);
   - whether `stop` has closed the queue and shut the read executor down.

   Under cooperative scheduling, each code path between two `await`s runs
   atomically. Concurrent callers, workers and the response loop are therefore
   modelled as traces of atomic events (`Trace.Event`), applied by `Trace.Step`
   and `Trace.Run`.
2. **The codec registry** (`mlserver/codecs/base.py`). `_CodecRegistry` holds two
   independent finite maps from content type to codec. Registering overwrites
   silently. Lookup of an unknown content type fails with a missing-key error.
   The class decorators register one instance and return the class unchanged.

Files: `wrappers.dfy` (Option/Result), `messages.dfy` (request and response
envelopes and the sentinel), `round_robin.dfy` (the cycle iterator and its
fairness), `dispatcher.dfy` (state and atomic operations), `trace.dfy` (event
traces and the properties that hold along them), `codecs.dfy` (the registry).

Behaviour of the code that the model keeps, and that a reader might not expect:
- **Unknown response id.** A response whose id is not in the table is not
  dropped. The table lookup (`dispatcher.py:75`) raises `KeyError`. That
  exception ends the loop task, and the done-callback restarts the loop
  (`dispatcher.py:54-57`). `Dispatch.ReadResponse`, `Trace.CrashRecovery` and
  `Trace.CrashedAlwaysRestarts` model that path. The response is consumed, and
  the pending table is unchanged.
- **Second resolution of a future.** A response for an id whose future is
  already resolved leaves the slot unchanged. The second `set_result` or
  `set_exception` runs inside the callback scheduled by `call_soon_threadsafe`.
  There it raises `InvalidStateError`, which the caller's event loop only logs.
- **`stop()` during a crash restart.** A loop task can have just raised while
  its done-callback has not yet run. `stop()` then calls `cancel_task` on that
  finished task (`dispatcher.py:138-139`). The model takes `cancel_task` to do
  nothing there and not to raise (see "Left out"). The callback then calls
  `start()` (`dispatcher.py:54-57`), so the loop runs again after `stop()`.
  The queue is closed and the executor is shut down (`dispatcher.py:136-137`),
  so the restarted loop's read (`dispatcher.py:63`) raises. The callback
  restarts the loop again, without end. `Trace.StopDuringCrashRestarts` and
  `Trace.ClosedLoopCrashes` state this. `stop()` on a running loop does end it
  (`Trace.CleanShutdown`).
- **Second `stop()`.** The sentinel cannot be put on the closed queue, so a
  second `stop()` raises and changes nothing (`Trace.SecondStopRaises`).

## Model

| member | source | states |
|---|---|---|
| `RoundRobin.Next` | mlserver/parallel/dispatcher.py:35 | `next` on the cycle yields the key at the cursor and moves the cursor one place on, modulo N, over the same keys. It raises `StopIteration` (`None`) exactly when there are no keys. |
| `RoundRobin.KthSelection` | mlserver/parallel/dispatcher.py:103-109 | On a fresh cycle, the k-th call (0-based) yields the key at index k mod N of the key order. |
| `RoundRobin.TakeIndex` | mlserver/parallel/dispatcher.py:108 | From any cursor position p, the i-th key yielded is the key at index (p + i) mod N. |
| `RoundRobin.AdvancePos` | mlserver/parallel/dispatcher.py:108 | After m calls, the cursor has moved m places, modulo N. |
| `RoundRobin.Periodic` | mlserver/parallel/dispatcher.py:35 | The sequence of selected keys is periodic with period N. |
| `RoundRobin.Fairness` | mlserver/parallel/dispatcher.py:103-109 | Over M calls with N distinct keys, the key at index j is chosen M div N times, plus one when j < M mod N. |
| `RoundRobin.FairnessBounds` | mlserver/parallel/dispatcher.py:103-109 | Over M calls, each key is chosen either floor(M/N) or ceil(M/N) times. |
| `RoundRobin.NineSelections` | mlserver/parallel/dispatcher.py:103-109 | With three workers, nine calls select w0, w1, w2, w0, w1, w2, w0, w1, w2. |
| `Dispatch.Init` | mlserver/parallel/dispatcher.py:32-39 | The constructor builds the cycle over the workers' key order, with the cursor on the first key. The pending table is empty and no loop task exists. |
| `Dispatch.GetWorker` | mlserver/parallel/dispatcher.py:103-109 | Returns a pair (worker, pid) with pid at the cursor and `worker == workers[pid]`, and advances the cursor by one modulo N. The worker map, table, queue and loop are unchanged. Fails exactly when there are no workers. |
| `Dispatch.DispatchBegin` | mlserver/parallel/dispatcher.py:88-98 | Appends the request to the selected worker's queue only; other queues are unchanged. Registers a fresh `Unresolved` slot under the request id and leaves other table entries unchanged. Fails without change when there are no workers. |
| `Dispatch.ProcessResponse` | mlserver/parallel/dispatcher.py:72-86 | An unknown id fails with the missing-key error. For an unresolved slot, exactly one of two things happens: `Failed(exception)` when an exception is set, `Resolved(response)` otherwise. No other entry changes, and a resolved slot stays as it is. |
| `Dispatch.ReadResponse` | mlserver/parallel/dispatcher.py:59-70 | One loop pass consumes the head of the queue. The sentinel ends the task normally and leaves the table alone. An unknown id ends the task with `KeyError` and leaves the table unchanged. A known id keeps the loop running and settles an unresolved slot: `Failed(exception)` when the reply carries one, `Resolved(reply)` otherwise. A slot already settled is left alone. |
| `Dispatch.ReadFails` | mlserver/parallel/dispatcher.py:62-63 | A failing blocking read ends the loop task with that exception. The table and queue are unchanged. |
| `Dispatch.Start` | mlserver/parallel/dispatcher.py:41-45 | `start` leaves the loop running and changes nothing else. |
| `Dispatch.ProcessResponsesCb` | mlserver/parallel/dispatcher.py:47-57 | The loop restarts exactly when the finished task raised. Cancellation and a normal return after the sentinel both end in `Stopped`. The table is unchanged. |
| `Dispatch.WaitResponse` | mlserver/parallel/dispatcher.py:123-130 | The caller resumes exactly when its slot is resolved. It receives the response on `Resolved` and the worker's error on `Failed`. In both cases its id leaves the table, and only that id. |
| `Dispatch.AbandonWait` | mlserver/parallel/dispatcher.py:126-130 | A cancelled caller's `finally` still removes its id. Every other entry is unchanged. |
| `Dispatch.Stop` | mlserver/parallel/dispatcher.py:134-139 | The first `stop` appends the sentinel, marks the queue closed and the executor shut down, and ends a running task as cancelled. A finished or never-started task is left alone, and the table is unchanged. A second `stop` fails and changes nothing. |
| `Dispatch.ProcessResponseCorrelates` | mlserver/parallel/dispatcher.py:72-86 | Resolving a response never puts it under another request's id. |
| `Dispatch.WaitResponseCorrelates` | mlserver/parallel/dispatcher.py:123-130 | A caller resumed with a response receives the response that carries its own id. |
| `Trace.Step` | mlserver/parallel/dispatcher.py:41-139 | An event keeps the dispatcher well-formed and never changes the set of workers or the key order. An event that is not enabled is a no-op. |
| `Trace.StepKeepsInv` | mlserver/parallel/dispatcher.py:72-98 | Every atomic event keeps well-formedness and correlation: a resolved slot holds a response with the slot's own id. |
| `Trace.RunKeepsInv` | mlserver/parallel/dispatcher.py:72-98 | Correlation integrity holds along every interleaving of callers, workers and the loop. |
| `Trace.RunAdvances` | mlserver/parallel/dispatcher.py:35 | Along any trace, the iterator is exactly where as many `next` calls as there were dispatches take it. |
| `Trace.RunCursor` | mlserver/parallel/dispatcher.py:35 | Along any trace, the cursor moves once per dispatch, modulo N. Other events never move it. |
| `Trace.RunRoutes` | mlserver/parallel/dispatcher.py:91-93 | Along any trace, each worker's queue is its old queue followed by exactly the requests that a reference routing sends it, in dispatch order. The reference walks the key order cyclically from the cursor and takes one step per dispatch. |
| `Trace.QueuesAppendOnly` | mlserver/parallel/dispatcher.py:93 | Worker queues only grow at the end: each old queue is a prefix of the new one. |
| `Trace.PendingIsOutstanding` | mlserver/parallel/dispatcher.py:96-98 | Along any feasible trace with at least one worker, the table's keys are exactly the ids dispatched and not yet resumed or cancelled. Responses, crashes, restarts and shutdown never add or drop an entry. |
| `Trace.CrashRecovery` | mlserver/parallel/dispatcher.py:54-57 | A response with an unknown id crashes the loop with `KeyError` and leaves the table unchanged. The callback restarts the loop, which then resolves the next response. |
| `Trace.CrashedAlwaysRestarts` | mlserver/parallel/dispatcher.py:54-57 | A loop that ended with an exception is always restarted by its callback. |
| `Trace.CleanShutdown` | mlserver/parallel/dispatcher.py:134-139 | After the first `stop` on a running loop and the cancelled task's callback, the loop is `Stopped` and reads no further message. The table is unchanged. |
| `Trace.SecondStopRaises` | mlserver/parallel/dispatcher.py:134-136 | On a closed queue, `stop` raises before anything changes. |
| `Trace.ClosedLoopCrashes` | mlserver/parallel/dispatcher.py:54-63 | Once the executor is shut down, a running loop's read raises, and the callback restarts the loop in the same state. The loop never reads the queue again. |
| `Trace.StopDuringCrashRestarts` | mlserver/parallel/dispatcher.py:47-57 | `stop` between a loop crash and its callback cancels nothing. The callback restarts the loop on the closed queue, where it crashes and is restarted again. |
| `Trace.RoundTrip` | mlserver/parallel/dispatcher.py:88-101 | Dispatch, the worker's reply and one loop read let the caller resume with the reply, or with the worker's exception. The table returns to its state before the dispatch. |
| `Trace.ScenarioSuccess` | mlserver/parallel/dispatcher.py:123-128 | A reply `{ok: 42}` to request `r0` is what that caller receives. |
| `Trace.ScenarioWorkerError` | mlserver/parallel/dispatcher.py:81-84 | A reply carrying "divide by zero" makes the caller fail with that error, not return a result. |
| `Codecs.FindInputCodec` | mlserver/codecs/base.py:57-59 | Lookup succeeds exactly for registered content types and returns the registered codec. Otherwise it fails with a missing-key error for that content type, not a default. |
| `Codecs.FindRequestCodec` | mlserver/codecs/base.py:65-67 | Lookup succeeds exactly for registered content types and returns the registered codec. Otherwise it fails with a missing-key error for that content type, not a default. |
| `Codecs.Initial` | mlserver/codecs/base.py:70-73 | The module singleton starts empty: every lookup in either map fails with the missing-key error. |
| `Codecs.RegisterInputCodec` | mlserver/codecs/base.py:53-55 | Afterwards the content type finds the new codec, and every other content type finds what it found before. Request-codec lookups are unchanged. |
| `Codecs.RegisterRequestCodec` | mlserver/codecs/base.py:61-63 | Afterwards the content type finds the new codec, and every other content type finds what it found before. Input-codec lookups are unchanged. |
| `Codecs.RegisterInputCodecClass` | mlserver/codecs/base.py:84-89 | The decorator registers the instance built from the class under the content type and returns the class itself. It is framed like `RegisterInputCodec`. |
| `Codecs.RegisterRequestCodecClass` | mlserver/codecs/base.py:76-81 | The decorator registers the instance built from the class under the content type and returns the class itself. It is framed like `RegisterRequestCodec`. |
| `Codecs.InputOverwriteLastWins` | mlserver/codecs/base.py:53-55 | Registering a content type twice keeps only the later codec, and no error is raised. |
| `Codecs.RequestOverwriteLastWins` | mlserver/codecs/base.py:61-63 | Registering a content type twice keeps only the later codec, and no error is raised. |
| `Codecs.InputRegistrationsCommute` | mlserver/codecs/base.py:55 | Registrations under distinct content types commute. |
| `Codecs.RegisterAllInput` | mlserver/codecs/base.py:53-55 | Replaying any sequence of input registrations never changes request-codec lookups. |
| `Codecs.RegisterAllInputFindsLast` | mlserver/codecs/base.py:53-59 | After any sequence of registrations, a content type finds the codec of its last registration. If it was never registered, it finds what it found before. |

## Left out

- Metrics: the Prometheus histograms and the two monitors (`dispatcher.py:20-29`, `92`, `95`, `111-120`) only emit float observations. The model treats them as no-ops.
- Thread and process plumbing: the `ThreadPoolExecutor`, `run_in_executor` and the multiprocessing queue. The blocking read becomes the `LoopRead` event on the queue sequence. The queue's `close()` and the executor's `shutdown()` become the one `closed` flag; after it, a read raises with the executor's shutdown message. A failing read becomes `LoopReadFails`. A worker putting a reply on the queue becomes `WorkerReply`.
- Cross-loop resolution: `get_loop()` and `call_soon_threadsafe` (`dispatcher.py:80-86`) are modelled as a direct assignment to the slot.
- `Worker`, the message classes, `terminate_queue`, `cancel_task` and `schedule_with_callback` are not part of this model. A worker is its inbound request sequence, and `send_request` appends to it. A message keeps only the fields the dispatcher reads. `terminate_queue` appends the sentinel. `cancel_task` ends a running task as cancelled. On a task that has already finished, `cancel_task` is taken to cancel nothing and not to raise; `stop()` therefore succeeds in the crash window.
- Out-of-process execution: the model does not check that a worker's reply answers a request it was sent. Any reply may arrive. The unknown-id path is reachable in two ways. A stray reply can arrive. A well-behaved worker's reply can also arrive after its caller was cancelled and the `finally` clause removed the id.
- The `_active` flag is left out, because `stop` never clears it. The unreachable `return` at `dispatcher.py:132` is left out too.
- Dispatch.Start: a second `start()` while a loop task is running, or while its done-callback is pending, schedules a second loop task in the source. In the pending case, that callback still runs and may call `start()` once more. The model tracks only the latest task.
- Dispatch.DispatchBegin: a dispatch that reuses an id already pending overwrites the table entry. The earlier caller's future is then orphaned. The model identifies each caller with its table entry, so it does not represent that orphaned caller. The source relies on ids being unique among outstanding requests.
- Dispatch.Stop: the model runs `stop` as one atomic step, although it awaits twice. A read that the running task had already handed to the executor, and that completes between those awaits, is not modelled. `terminate_queue` is not part of this model. It is taken to put the sentinel on the queue, which raises once the queue is closed.
- Dispatch.GetWorker: with no workers, `next` raises `StopIteration`, and inside the `dispatch` coroutine this surfaces as `RuntimeError`. Both are modelled as the single error `NoWorkers`.
- The abstract `encode`/`decode` methods of `InputCodec` and `RequestCodec` (`base.py:15-35`) only raise `NotImplementedError`.
- The shared mutable default arguments of `_CodecRegistry.__init__` (`base.py:47-48`) are left out. The model has one registry value, which is threaded through calls.
