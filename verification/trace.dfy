/**
 Interleavings of the dispatcher's callers, its response loop and its workers,
 as traces of atomic events over `Dispatch.State`, with the properties that
 hold along every trace.
 */
module Trace {
  import opened Wrappers
  import opened Messages
  import opened Dispatch
  import RoundRobin

  datatype Event =
    | DispatchCall(req: Request)    // a caller runs `dispatch` up to its `await`
    | WorkerReply(resp: Response)   // a worker puts a response on the shared queue
    | LoopRead                      // the response loop reads the shared queue through the executor
    | LoopReadFails(message: string) // the response loop's blocking read raises
    | CallerResumes(id: RequestId)  // the caller waiting on `id` resumes after resolution
    | CallerCancelled(id: RequestId) // the caller waiting on `id` is cancelled
    | LoopCallback                  // the done-callback of the finished loop task runs
    | StartCall                     // `start()`
    | StopCall                      // `stop()`

  /** Whether the event can happen in this state under the event loop's scheduling. */
  predicate Enabled(s: State, e: Event)
  {
    match e
    case LoopRead => s.loop == Running && (s.closed || |s.responses| > 0)
    case LoopReadFails(_) => s.loop == Running
    case CallerResumes(id) => id in s.pending && !s.pending[id].Unresolved?
    case CallerCancelled(id) => id in s.pending
    case LoopCallback => s.loop.Finished?
    case _ => true
  }

  /**
   One atomic event; an event that is not enabled leaves the state as it is. A
   dispatch with no workers, and a second `stop`, raise to their caller and
   change nothing. Once the executor is shut down, a read raises instead of
   taking a message.
   */
  function Step(s: State, e: Event): (s': State)
    requires Valid(s)
    ensures Valid(s')
    ensures s'.workers.Keys == s.workers.Keys
    ensures s'.roundRobin.keys == s.roundRobin.keys
    ensures !Enabled(s, e) ==> s' == s
    ensures s.closed ==> s'.closed
    ensures !e.StopCall? ==> s'.closed == s.closed
  {
    if !Enabled(s, e) then s
    else match e
      case DispatchCall(req) =>
        (match DispatchBegin(s, req)
         case Success(s1) => s1
         case Failure(_) => s)
      case WorkerReply(resp) => s.(responses := s.responses + [Reply(resp)])
      case LoopRead => if s.closed then ReadFails(s, ExecutorShutdown) else ReadResponse(s)
      case LoopReadFails(message) => ReadFails(s, message)
      case CallerResumes(id) => WaitResponse(s, id).value.1
      case CallerCancelled(id) => AbandonWait(s, id)
      case LoopCallback => ProcessResponsesCb(s)
      case StartCall => Start(s)
      case StopCall =>
        (match Stop(s)
         case Success(s1) => s1
         case Failure(_) => s)
  }

  /** The state after the events of `t`, in order. */
  function Run(s: State, t: seq<Event>): (s': State)
    requires Valid(s)
    ensures Valid(s')
    ensures s'.workers.Keys == s.workers.Keys
    ensures s'.roundRobin.keys == s.roundRobin.keys
    decreases |t|
  {
    if |t| == 0 then s else Run(Step(s, t[0]), t[1..])
  }

  /** Every event of `t` is enabled when it happens. */
  predicate Feasible(s: State, t: seq<Event>)
    requires Valid(s)
    decreases |t|
  {
    |t| == 0 || (Enabled(s, t[0]) && Feasible(Step(s, t[0]), t[1..]))
  }

  /** The invariant of the dispatcher: well-formed routing, and correlated resolutions. */
  predicate Inv(s: State)
  {
    Valid(s) && Correlated(s.pending)
  }

  /** Every event keeps the invariant. */
  lemma StepKeepsInv(s: State, e: Event)
    requires Inv(s)
    ensures Inv(Step(s, e))
  {
    if Enabled(s, e) {
      match e
      case LoopRead =>
        if !s.closed && s.responses[0].Reply? {
          var rest := s.(responses := s.responses[1..]);
          ProcessResponseCorrelates(rest, s.responses[0].response);
        }
      case _ =>
    }
  }

  /** Correlation integrity along every trace: no future ever holds another request's response. */
  lemma {:induction false} RunKeepsInv(s: State, t: seq<Event>)
    requires Inv(s)
    ensures Inv(Run(s, t))
    decreases |t|
  {
    if |t| > 0 {
      StepKeepsInv(s, t[0]);
      RunKeepsInv(Step(s, t[0]), t[1..]);
    }
  }

  /** Number of dispatch calls in `t`. */
  function Dispatches(t: seq<Event>): nat
    decreases |t|
  {
    if |t| == 0 then 0 else (if t[0].DispatchCall? then 1 else 0) + Dispatches(t[1..])
  }

  /**
   The requests that reach worker `w`, in order, when dispatches walk the key
   order cyclically from index `p`: the reference routing, independent of the
   dispatcher's state.
   */
  function RoutedTo(keys: seq<WorkerId>, p: nat, t: seq<Event>, w: WorkerId): seq<Request>
    decreases |t|
  {
    if |t| == 0 then []
    else RouteOne(keys, p, t[0], w) + RoutedTo(keys, CursorAfter(p, |keys|, t[0]), t[1..], w)
  }

  /** What the reference routing sends worker `w` for the single event `e` with the cursor at `p`. */
  function RouteOne(keys: seq<WorkerId>, p: nat, e: Event, w: WorkerId): seq<Request>
  {
    if e.DispatchCall? && p < |keys| && keys[p] == w then [e.req] else []
  }

  /** Where the cursor stands after event `e`: only a dispatch moves it. */
  function CursorAfter(p: nat, n: nat, e: Event): nat
  {
    if e.DispatchCall? && p < n then RoundRobin.Wrap(p, n) else p
  }

  /** A dispatch appends to the worker at the cursor and moves the cursor on by one. */
  lemma StepDispatchRoutes(s: State, req: Request, w: WorkerId)
    requires Valid(s) && |s.roundRobin.keys| > 0 && w in s.workers
    ensures var s1 := Step(s, DispatchCall(req));
            && s1.workers[w].requests == s.workers[w].requests + (if Cursor(s) == w then [req] else [])
            && s1.roundRobin.pos == RoundRobin.Wrap(s.roundRobin.pos, |s.roundRobin.keys|)
  {
  }

  /** Every other event leaves the worker queues and the cursor alone. */
  lemma StepOtherKeepsRouting(s: State, e: Event)
    requires Valid(s) && !e.DispatchCall?
    ensures Step(s, e).workers == s.workers && Step(s, e).roundRobin == s.roundRobin
  {
  }

  /** After any trace the iterator is where that many `next` calls take it: one per dispatch. */
  lemma {:induction false} RunAdvances(s: State, t: seq<Event>)
    requires Valid(s) && |s.roundRobin.keys| > 0
    ensures Run(s, t).roundRobin == RoundRobin.Advance(s.roundRobin, Dispatches(t))
    decreases |t|
  {
    if |t| > 0 {
      var s1 := Step(s, t[0]);
      assert Run(s, t) == Run(s1, t[1..]);
      RunAdvances(s1, t[1..]);
      if t[0].DispatchCall? {
        assert s1.roundRobin == RoundRobin.Next(s.roundRobin).value.1;
      } else {
        StepOtherKeepsRouting(s, t[0]);
      }
    }
  }

  /** After any trace the cursor has moved once per dispatch, modulo the number of workers. */
  lemma RunCursor(s: State, t: seq<Event>)
    requires Valid(s) && |s.roundRobin.keys| > 0
    ensures Run(s, t).roundRobin.pos == (s.roundRobin.pos + Dispatches(t)) % |s.roundRobin.keys|
  {
    RunAdvances(s, t);
    RoundRobin.AdvancePos(s.roundRobin, Dispatches(t));
  }

  /** One event adds to worker `w` exactly what the reference routing of that event sends it. */
  lemma StepRoutes(s: State, e: Event, w: WorkerId)
    requires Valid(s) && |s.roundRobin.keys| > 0 && w in s.workers
    ensures var s1 := Step(s, e);
            && s1.workers[w].requests == s.workers[w].requests + RouteOne(s.roundRobin.keys, s.roundRobin.pos, e, w)
            && s1.roundRobin.pos == CursorAfter(s.roundRobin.pos, |s.roundRobin.keys|, e)
  {
    if e.DispatchCall? {
      StepDispatchRoutes(s, e.req, w);
    } else {
      StepOtherKeepsRouting(s, e);
      assert s.workers[w].requests + [] == s.workers[w].requests;
    }
  }

  /**
   Routing and per-worker order: along any trace, each worker's queue is its
   old queue followed by exactly the requests the reference routing sends it,
   in dispatch order.
   */
  lemma {:induction false} RunRoutes(s: State, t: seq<Event>, w: WorkerId)
    requires Valid(s) && |s.roundRobin.keys| > 0 && w in s.workers
    ensures Run(s, t).workers[w].requests
         == s.workers[w].requests + RoutedTo(s.roundRobin.keys, s.roundRobin.pos, t, w)
    decreases |t|
  {
    if |t| == 0 {
      assert s.workers[w].requests + [] == s.workers[w].requests;
    } else {
      var keys, p := s.roundRobin.keys, s.roundRobin.pos;
      var s1 := Step(s, t[0]);
      var before, head := s.workers[w].requests, RouteOne(keys, p, t[0], w);
      var later := RoutedTo(keys, CursorAfter(p, |keys|, t[0]), t[1..], w);
      assert s1.workers[w].requests == before + head && s1.roundRobin.pos == CursorAfter(p, |keys|, t[0]) by {
        StepRoutes(s, t[0], w);
      }
      RunRoutes(s1, t[1..], w);
      AppendAssoc(before, head, later);
    }
  }

  /** Concatenation is associative; stated once so the routing induction need not rediscover it. */
  lemma AppendAssoc<T>(a: seq<T>, b: seq<T>, c: seq<T>)
    ensures (a + b) + c == a + (b + c)
  {
  }

  /** Worker queues only grow at the end: every old queue is a prefix of the new one. */
  lemma QueuesAppendOnly(s: State, t: seq<Event>, w: WorkerId)
    requires Valid(s) && w in s.workers
    ensures s.workers[w].requests <= Run(s, t).workers[w].requests
  {
    assert w in s.roundRobin.keys;
    RunRoutes(s, t, w);
  }

  /**
   The reference pending set: the ids dispatched and not yet consumed, read off
   the event kinds alone (a resumed or cancelled caller removes its id).
   */
  function Outstanding(ids: set<RequestId>, t: seq<Event>): set<RequestId>
    decreases |t|
  {
    if |t| == 0 then ids
    else match t[0]
      case DispatchCall(req) => Outstanding(ids + {req.id}, t[1..])
      case CallerResumes(id) => Outstanding(ids - {id}, t[1..])
      case CallerCancelled(id) => Outstanding(ids - {id}, t[1..])
      case _ => Outstanding(ids, t[1..])
  }

  /**
   The keys of the pending table are exactly the requests sent and not yet
   consumed: responses, crashes, restarts and shutdown never add or drop an entry.
   */
  lemma {:induction false} PendingIsOutstanding(s: State, t: seq<Event>)
    requires Valid(s) && |s.roundRobin.keys| > 0
    requires Feasible(s, t)
    ensures Run(s, t).pending.Keys == Outstanding(s.pending.Keys, t)
    decreases |t|
  {
    if |t| > 0 {
      var s1 := Step(s, t[0]);
      PendingIsOutstanding(s1, t[1..]);
      match t[0]
      case DispatchCall(req) =>
        assert s1.pending.Keys == s.pending.Keys + {req.id};
      case CallerResumes(id) =>
        assert s1.pending.Keys == s.pending.Keys - {id};
      case CallerCancelled(id) =>
        assert s1.pending.Keys == s.pending.Keys - {id};
      case LoopRead =>
        assert s1.pending.Keys == s.pending.Keys;
      case _ =>
        assert s1.pending.Keys == s.pending.Keys;
    }
  }

  /**
   Crash recovery: a response with an unknown id crashes the loop with a
   `KeyError` and leaves the table alone; the callback restarts the loop, which
   then resolves the next response normally.
   */
  lemma CrashRecovery(s: State, stray: Response, good: Response, rest: seq<Message>)
    requires Inv(s) && s.loop == Running && !s.closed
    requires s.responses == [Reply(stray), Reply(good)] + rest
    requires stray.id !in s.pending
    requires good.id in s.pending && s.pending[good.id] == Unresolved && good.exception.None?
    ensures var s1 := Step(s, LoopRead);
            s1.loop == Finished(Raised(MissingId(stray.id))) && s1.pending == s.pending
    ensures var s2 := Step(Step(s, LoopRead), LoopCallback);
            s2.loop == Running && s2.pending == s.pending
    ensures var s3 := Run(s, [LoopRead, LoopCallback, LoopRead]);
            s3.loop == Running && s3.pending[good.id] == Resolved(good) && s3.responses == rest
  {
    var s1 := Step(s, LoopRead);
    var s2 := Step(s1, LoopCallback);
    assert s2.responses == [Reply(good)] + rest;
    var s3 := Step(s2, LoopRead);
    assert [LoopRead, LoopCallback, LoopRead][1..] == [LoopCallback, LoopRead];
    assert [LoopCallback, LoopRead][1..] == [LoopRead];
    assert Run(s, [LoopRead, LoopCallback, LoopRead]) == s3;
  }

  /**
   Clean shutdown of a running dispatcher: after the first `stop()` and the
   callback of the cancelled task the loop is stopped for good, reads no
   further message, and the pending table is as it was.
   */
  lemma CleanShutdown(s: State)
    requires Valid(s) && s.loop == Running && !s.closed
    ensures var s1 := Step(Step(s, StopCall), LoopCallback);
            && s1.loop == Stopped
            && s1.closed
            && s1.pending == s.pending
            && s1.responses == s.responses + [EndOfQueue]
            && !Enabled(s1, LoopRead)
            && Step(s1, LoopRead) == s1
  {
  }

  /** A second `stop()` raises on the closed queue and changes nothing. */
  lemma SecondStopRaises(s: State)
    requires Valid(s) && s.closed
    ensures Stop(s) == Failure(QueueClosed)
    ensures Step(s, StopCall) == s
  {
  }

  /**
   A loop running after `stop()` can only crash: its read raises because the
   executor is shut down, and the done-callback restarts it in exactly the
   state it started from, so the crash and the restart repeat without end and
   the queue is never read again.
   */
  lemma ClosedLoopCrashes(s: State)
    requires Valid(s) && s.closed && s.loop == Running
    ensures Step(s, LoopRead) == s.(loop := Finished(Raised(ChannelFault(ExecutorShutdown))))
    ensures Step(Step(s, LoopRead), LoopCallback) == s
  {
  }

  /**
   `stop()` during the window between a loop crash and its done-callback does
   not end the loop: the task is already done, so nothing is cancelled, and the
   callback then restarts the loop on the closed queue, where it can only crash
   and restart again (`ClosedLoopCrashes`).
   */
  lemma StopDuringCrashRestarts(s: State, error: LoopError)
    requires Valid(s) && !s.closed && s.loop == Finished(Raised(error))
    ensures Step(s, StopCall).loop == Finished(Raised(error))
    ensures var s1 := Step(Step(s, StopCall), LoopCallback);
            && s1.loop == Running
            && s1.closed
            && s1.pending == s.pending
            && s1.responses == s.responses + [EndOfQueue]
            && Step(Step(s1, LoopRead), LoopCallback) == s1
  {
    ClosedLoopCrashes(Step(Step(s, StopCall), LoopCallback));
  }

  /** The supervisor never takes a crashed loop to Stopped: its callback always restarts it. */
  lemma CrashedAlwaysRestarts(s: State, error: LoopError)
    requires Valid(s) && s.loop == Finished(Raised(error))
    ensures Step(s, LoopCallback).loop == Running
    ensures Step(s, LoopCallback).pending == s.pending
  {
  }

  /**
   One full round trip: a dispatch, the worker's reply on an otherwise empty
   queue, and one read of the running loop let the caller resume with the
   response (or with the worker's exception), and the table is back to what it
   was before the dispatch.
   */
  lemma RoundTrip(s: State, req: Request, resp: Response)
    requires Inv(s) && |s.roundRobin.keys| > 0
    requires s.loop == Running && !s.closed && s.responses == []
    requires req.id !in s.pending && resp.id == req.id
    ensures var s3 := Run(s, [DispatchCall(req), WorkerReply(resp), LoopRead]);
            var r := WaitResponse(s3, req.id);
            && r.Some?
            && r.value.0 == (match resp.exception case Some(e) => Failure(e) case None => Success(resp))
            && r.value.1.pending == s.pending
            && r.value.1.loop == Running
  {
    var t := [DispatchCall(req), WorkerReply(resp), LoopRead];
    RunThree(s, DispatchCall(req), WorkerReply(resp), LoopRead);
    ThreeSteps(s, req, resp);
    var s3 := Run(s, t);
    assert s3.loop == Running && s3.pending == s.pending[req.id := Settle(resp)];
    SettleThenRemove(s.pending, req.id, Settle(resp));
  }

  /** Dispatch, reply and one read, step by step: the id is settled and the loop keeps running. */
  lemma ThreeSteps(s: State, req: Request, resp: Response)
    requires Valid(s) && |s.roundRobin.keys| > 0
    requires s.loop == Running && !s.closed && s.responses == []
    requires resp.id == req.id
    ensures var s3 := Step(Step(Step(s, DispatchCall(req)), WorkerReply(resp)), LoopRead);
            s3.loop == Running && s3.pending == s.pending[req.id := Settle(resp)]
  {
    var s1 := Step(s, DispatchCall(req));
    var s2 := Step(s1, WorkerReply(resp));
    assert s1.pending == s.pending[req.id := Unresolved] && s1.loop == Running && s1.responses == [] by {
      DispatchStep(s, req);
    }
    assert s2.pending == s1.pending && s2.loop == Running && s2.responses == [Reply(resp)] by {
      ReplyStep(s1, resp);
    }
    ReadResolves(s2, resp);
    assert s.pending[req.id := Unresolved][req.id := Settle(resp)] == s.pending[req.id := Settle(resp)];
  }

  /** A dispatch on a running loop registers the id and leaves the shared queue alone. */
  lemma DispatchStep(s: State, req: Request)
    requires Valid(s) && |s.roundRobin.keys| > 0 && s.loop == Running && s.responses == []
    ensures var s1 := Step(s, DispatchCall(req));
            s1.pending == s.pending[req.id := Unresolved] && s1.loop == Running && s1.responses == []
  {
  }

  /** A worker reply only lands on the shared queue. */
  lemma ReplyStep(s: State, resp: Response)
    requires Valid(s)
    ensures var s1 := Step(s, WorkerReply(resp));
            s1.pending == s.pending && s1.loop == s.loop && s1.responses == s.responses + [Reply(resp)]
  {
  }

  /** Adding a fresh key and then removing it gives back the original table. */
  lemma SettleThenRemove(pending: map<RequestId, Slot>, id: RequestId, slot: Slot)
    requires id !in pending
    ensures pending[id := slot] - {id} == pending
  {
  }

  /** The running loop reads a reply for an unresolved id and resolves it, exception first. */
  lemma ReadResolves(s: State, resp: Response)
    requires Valid(s) && s.loop == Running && !s.closed && s.responses == [Reply(resp)]
    requires resp.id in s.pending && s.pending[resp.id] == Unresolved
    ensures var s1 := Step(s, LoopRead);
            && s1.loop == Running
            && s1.pending == s.pending[resp.id := Settle(resp)]
  {
  }

  /** A three-event trace is three steps in order. */
  lemma RunThree(s: State, e1: Event, e2: Event, e3: Event)
    requires Valid(s)
    ensures Run(s, [e1, e2, e3]) == Step(Step(Step(s, e1), e2), e3)
  {
    var t := [e1, e2, e3];
    var s1 := Step(s, e1);
    var s2 := Step(s1, e2);
    assert t[1..] == [e2, e3];
    assert [e2, e3][1..] == [e3];
    assert [e3][1..] == [];
    assert Run(s2, [e3]) == Run(Step(s2, e3), []);
    assert Run(s1, [e2, e3]) == Run(s2, [e3]);
    assert Run(s, t) == Run(s1, [e2, e3]);
  }

  /** A single worker `w0` with an empty queue, the loop running, nothing pending. */
  function OneWorker(): (s: State)
    ensures Inv(s) && |s.roundRobin.keys| == 1
    ensures s.loop == Running && s.responses == [] && s.pending == map[]
  {
    Start(Init(map[0 := Worker([])], [], [0]))
  }

  /** Dispatch `r0`; the worker answers `{ok: 42}`; the caller gets exactly that response. */
  lemma ScenarioSuccess()
    ensures var req := Request("r0", "predict");
            var resp := Response("r0", "{ok: 42}", None);
            var s3 := Run(OneWorker(), [DispatchCall(req), WorkerReply(resp), LoopRead]);
            WaitResponse(s3, "r0").Some? && WaitResponse(s3, "r0").value.0 == Success(resp)
  {
    RoundTrip(OneWorker(), Request("r0", "predict"), Response("r0", "{ok: 42}", None));
  }

  /** Dispatch `r1`; the worker reports "divide by zero"; the caller fails with that error. */
  lemma ScenarioWorkerError()
    ensures var req := Request("r1", "predict");
            var resp := Response("r1", "", Some(Error("divide by zero")));
            var s3 := Run(OneWorker(), [DispatchCall(req), WorkerReply(resp), LoopRead]);
            WaitResponse(s3, "r1").Some? && WaitResponse(s3, "r1").value.0 == Failure(Error("divide by zero"))
  {
    RoundTrip(OneWorker(), Request("r1", "predict"), Response("r1", "", Some(Error("divide by zero"))));
  }
}
