/**
 The dispatcher of the parallel inference runtime, as a value and a set of
 atomic transitions. Under cooperative scheduling each transition below runs
 without an intervening `await`, so the interleavings of concurrent callers and
 the response loop are sequences of these transitions (see module Trace).
 */
module Dispatch {
  import opened Wrappers
  import opened Messages
  import RoundRobin

  /** The key of a worker in the worker map (its process id). */
  type WorkerId = int

  /** A worker, reduced to its inbound request queue, which only grows by `send_request`. */
  datatype Worker = Worker(requests: seq<Request>)

  /**
   The future registered for one in-flight request: not yet resolved, resolved
   with a response (`set_result`), or resolved with the worker's exception
   (`set_exception`).
   */
  datatype Slot = Unresolved | Resolved(response: Response) | Failed(error: Error)

  /** What can make the response loop task end with an exception. */
  datatype LoopError =
    | MissingId(id: RequestId)      // the `KeyError` of the table lookup
    | ChannelFault(message: string) // a failure of the blocking read of the shared queue

  /** How the response loop task finished. */
  datatype TaskOutcome = Returned | Cancelled | Raised(error: LoopError)

  /**
   Supervisor state of the response loop: never started, running, finished
   and waiting for its done-callback, or ended for good.
   */
  datatype Loop = Idle | Running | Finished(outcome: TaskOutcome) | Stopped

  /** Raised by `dispatch` when there is no worker to cycle through. */
  datatype DispatchError = NoWorkers

  /** Raised by a second `stop`: the sentinel cannot be put on a closed queue. */
  datatype StopError = QueueClosed

  /**
   The dispatcher. `closed` records that `stop` has closed the shared queue and
   shut the read executor down; it is never cleared.
   */
  datatype State = State(
    workers: map<WorkerId, Worker>,
    roundRobin: RoundRobin.Cycle<WorkerId>,
    responses: seq<Message>,
    pending: map<RequestId, Slot>,
    loop: Loop,
    closed: bool)

  /** What `run_in_executor` raises once the executor has been shut down. */
  const ExecutorShutdown := "cannot schedule new futures after shutdown"

  /** The cycle runs over exactly the keys of the worker map, each once. */
  predicate Valid(s: State)
  {
    && RoundRobin.Valid(s.roundRobin)
    && RoundRobin.Distinct(s.roundRobin.keys)
    && (forall w :: w in s.workers ==> w in s.roundRobin.keys)
    && (forall i :: 0 <= i < |s.roundRobin.keys| ==> s.roundRobin.keys[i] in s.workers)
  }

  /** The worker the next dispatch goes to. */
  function Cursor(s: State): WorkerId
    requires Valid(s) && |s.roundRobin.keys| > 0
  {
    s.roundRobin.keys[s.roundRobin.pos]
  }

  /**
   `Dispatcher.__init__`: `order` is the key order of the worker map, over
   which the round-robin cycle is built; nothing is pending and the loop is
   not started.
   */
  function Init(workers: map<WorkerId, Worker>, responses: seq<Message>, order: seq<WorkerId>): (s: State)
    requires RoundRobin.Distinct(order)
    requires forall w :: w in workers ==> w in order
    requires forall i :: 0 <= i < |order| ==> order[i] in workers
    ensures Valid(s) && s.roundRobin.keys == order
    ensures s.workers == workers && s.responses == responses
    ensures s.pending == map[] && s.loop == Idle && !s.closed
    ensures |order| > 0 ==> Cursor(s) == order[0]
  {
    State(workers, RoundRobin.Fresh(order), responses, map[], Idle, false)
  }

  /**
   `_get_worker`: the worker at the cursor and its id, with the cursor moved on;
   `NoWorkers` when the map is empty. Nothing but the cursor changes.
   */
  function GetWorker(s: State): (r: Result<(Worker, WorkerId, State), DispatchError>)
    requires Valid(s)
    ensures r.Failure? <==> s.workers == map[]
    ensures r.Failure? <==> |s.roundRobin.keys| == 0
    ensures r.Success? ==>
      var (worker, pid, s') := r.value;
      && pid in s.workers && worker == s.workers[pid]
      && pid == Cursor(s)
      && Valid(s')
      && s'.roundRobin.keys == s.roundRobin.keys
      && s'.roundRobin.pos == RoundRobin.Wrap(s.roundRobin.pos, |s.roundRobin.keys|)
      && s'.workers == s.workers && s'.responses == s.responses
      && s'.pending == s.pending && s'.loop == s.loop && s'.closed == s.closed
  {
    if |s.roundRobin.keys| == 0 then
      assert forall w :: w !in s.workers;
      Failure(NoWorkers)
    else
      assert s.roundRobin.keys[0] in s.workers;
      var (pid, rr) := RoundRobin.Next(s.roundRobin).value;
      Success((s.workers[pid], pid, s.(roundRobin := rr)))
  }

  /**
   The atomic first half of `dispatch`: select a worker, append the request to
   its queue, and register a fresh unresolved future under the request id.
   No other queue and no other table entry changes.
   */
  function DispatchBegin(s: State, req: Request): (r: Result<State, DispatchError>)
    requires Valid(s)
    ensures r.Failure? <==> s.workers == map[]
    ensures r.Failure? <==> |s.roundRobin.keys| == 0
    ensures r.Success? ==>
      var s' := r.value;
      var pid := Cursor(s);
      && Valid(s')
      && s'.workers.Keys == s.workers.Keys
      && s'.workers[pid].requests == s.workers[pid].requests + [req]
      && (forall w :: w in s.workers && w != pid ==> s'.workers[w] == s.workers[w])
      && s'.roundRobin.pos == RoundRobin.Wrap(s.roundRobin.pos, |s.roundRobin.keys|)
      && s'.roundRobin.keys == s.roundRobin.keys
      && s'.pending.Keys == s.pending.Keys + {req.id}
      && s'.pending[req.id] == Unresolved
      && (forall id :: id in s.pending && id != req.id ==> s'.pending[id] == s.pending[id])
      && s'.responses == s.responses && s'.loop == s.loop && s'.closed == s.closed
  {
    match GetWorker(s)
    case Failure(e) => Failure(e)
    case Success((worker, pid, s1)) =>
      var sent := Worker(worker.requests + [req]);
      Success(s1.(workers := s1.workers[pid := sent], pending := s1.pending[req.id := Unresolved]))
  }

  /** The slot a reply settles into: failed when it carries an exception, resolved otherwise. */
  function Settle(resp: Response): (slot: Slot)
    ensures slot != Unresolved
    ensures slot.Failed? <==> resp.exception.Some?
  {
    match resp.exception
    case Some(e) => Failed(e)
    case None => Resolved(resp)
  }

  /**
   `_process_response`: look the id up (a `KeyError` when absent) and resolve
   its future with the exception if the response carries one, with the
   response otherwise. A future already resolved keeps its value: the second
   `set_result`/`set_exception` fails inside the scheduled callback, where the
   caller's event loop only logs it.
   */
  function ProcessResponse(s: State, resp: Response): (r: Result<State, LoopError>)
    ensures r.Failure? <==> resp.id !in s.pending
    ensures r.Failure? ==> r.error == MissingId(resp.id)
    ensures r.Success? ==>
      var s' := r.value;
      && s'.pending.Keys == s.pending.Keys
      && (forall id :: id in s.pending && id != resp.id ==> s'.pending[id] == s.pending[id])
      && (s.pending[resp.id].Unresolved? ==>
            && (s'.pending[resp.id].Failed? <==> resp.exception.Some?)
            && (s'.pending[resp.id].Resolved? <==> resp.exception.None?)
            && (resp.exception.Some? ==> s'.pending[resp.id].error == resp.exception.value)
            && (resp.exception.None? ==> s'.pending[resp.id].response == resp))
      && (!s.pending[resp.id].Unresolved? ==> s'.pending == s.pending)
      && s'.workers == s.workers && s'.roundRobin == s.roundRobin
      && s'.responses == s.responses && s'.loop == s.loop && s'.closed == s.closed
  {
    if resp.id !in s.pending then Failure(MissingId(resp.id))
    else if !s.pending[resp.id].Unresolved? then Success(s)
    else
      Success(s.(pending := s.pending[resp.id := Settle(resp)]))
  }

  /**
   One pass of the `_process_responses` loop body: take the head of the shared
   queue; the sentinel ends the task normally without touching the table, a
   response is processed, and a failed lookup ends the task with its error.
   */
  function ReadResponse(s: State): (s': State)
    requires s.loop == Running && |s.responses| > 0
    ensures s'.responses == s.responses[1..]
    ensures s'.workers == s.workers && s'.roundRobin == s.roundRobin && s'.closed == s.closed
    ensures s.responses[0] == EndOfQueue ==> s'.pending == s.pending && s'.loop == Finished(Returned)
    ensures s.responses[0].Reply? && s.responses[0].response.id !in s.pending ==>
              s'.pending == s.pending && s'.loop == Finished(Raised(MissingId(s.responses[0].response.id)))
    ensures s.responses[0].Reply? && s.responses[0].response.id in s.pending ==>
              var resp := s.responses[0].response;
              && s'.loop == Running
              && s'.pending == (if s.pending[resp.id].Unresolved? then s.pending[resp.id := Settle(resp)] else s.pending)
  {
    var rest := s.(responses := s.responses[1..]);
    match s.responses[0]
    case EndOfQueue => rest.(loop := Finished(Returned))
    case Reply(resp) =>
      match ProcessResponse(rest, resp)
      case Success(s') => s'
      case Failure(e) => rest.(loop := Finished(Raised(e)))
  }

  /** The blocking read of the shared queue fails: the loop task ends with that error. */
  function ReadFails(s: State, message: string): (s': State)
    requires s.loop == Running
    ensures s'.loop == Finished(Raised(ChannelFault(message)))
    ensures s'.pending == s.pending && s'.responses == s.responses
    ensures s'.workers == s.workers && s'.roundRobin == s.roundRobin && s'.closed == s.closed
  {
    s.(loop := Finished(Raised(ChannelFault(message))))
  }

  /** `start`: schedule a fresh response loop task. Nothing but the loop state changes. */
  function Start(s: State): (s': State)
    ensures s'.loop == Running
    ensures s'.pending == s.pending && s'.responses == s.responses
    ensures s'.workers == s.workers && s'.roundRobin == s.roundRobin && s'.closed == s.closed
  {
    s.(loop := Running)
  }

  /**
   `_process_responses_cb`, run once the loop task is done: a cancelled task is
   not restarted, a task that raised is restarted through `start`, and a task
   that returned after the sentinel is not restarted.
   */
  function ProcessResponsesCb(s: State): (s': State)
    requires s.loop.Finished?
    ensures s'.loop == Running <==> s.loop.outcome.Raised?
    ensures s'.loop == Stopped <==> !s.loop.outcome.Raised?
    ensures s'.pending == s.pending && s'.responses == s.responses
    ensures s'.workers == s.workers && s'.roundRobin == s.roundRobin && s'.closed == s.closed
  {
    match s.loop.outcome
    case Cancelled => s.(loop := Stopped)
    case Raised(_) => Start(s)
    case Returned => s.(loop := Stopped)
  }

  /**
   The resumption of `_wait_response`: once the future of `id` is resolved the
   caller gets the response (`Success`) or the worker's exception (`Failure`),
   and the `finally` clause removes the id from the table in both cases.
   `None` means the caller is still suspended.
   */
  function WaitResponse(s: State, id: RequestId): (r: Option<(Result<Response, Error>, State)>)
    ensures r.Some? <==> id in s.pending && !s.pending[id].Unresolved?
    ensures r.Some? ==>
      var (outcome, s') := r.value;
      && s'.pending == s.pending - {id}
      && (s.pending[id].Resolved? ==> outcome == Success(s.pending[id].response))
      && (s.pending[id].Failed? ==> outcome == Failure(s.pending[id].error))
      && s'.workers == s.workers && s'.roundRobin == s.roundRobin
      && s'.responses == s.responses && s'.loop == s.loop && s'.closed == s.closed
  {
    if id !in s.pending then None
    else
      match s.pending[id]
      case Unresolved => None
      case Resolved(resp) => Some((Success(resp), s.(pending := s.pending - {id})))
      case Failed(e) => Some((Failure(e), s.(pending := s.pending - {id})))
  }

  /**
   A caller cancelled while suspended in `_wait_response`: the `finally` clause
   still removes its entry, so an abandoned request leaves nothing behind.
   */
  function AbandonWait(s: State, id: RequestId): (s': State)
    ensures id !in s'.pending
    ensures forall other :: other != id ==> (other in s'.pending <==> other in s.pending)
    ensures forall other :: other in s'.pending ==> s'.pending[other] == s.pending[other]
    ensures s'.workers == s.workers && s'.roundRobin == s.roundRobin
    ensures s'.responses == s.responses && s'.loop == s.loop && s'.closed == s.closed
  {
    s.(pending := s.pending - {id})
  }

  /**
   `stop` as a state transition: push the sentinel onto the shared queue, close
   the queue and shut the executor down, then cancel the loop task if it is
   still running; a task already done is left alone, and a never-started
   dispatcher has no task to cancel. On a queue that an earlier `stop` closed,
   pushing the sentinel raises and nothing changes.
   */
  function Stop(s: State): (r: Result<State, StopError>)
    ensures r.Failure? <==> s.closed
    ensures r.Success? ==>
      var s' := r.value;
      && s'.closed
      && s'.responses == s.responses + [EndOfQueue]
      && s'.loop != Running
      && (s.loop == Running ==> s'.loop == Finished(Cancelled))
      && (s.loop != Running ==> s'.loop == s.loop)
      && s'.pending == s.pending
      && s'.workers == s.workers && s'.roundRobin == s.roundRobin
  {
    if s.closed then Failure(QueueClosed)
    else
      var terminated := s.(responses := s.responses + [EndOfQueue], closed := true);
      Success(if s.loop == Running then terminated.(loop := Finished(Cancelled)) else terminated)
  }

  /** Every resolved future holds the response that carries its own id. */
  predicate Correlated(pending: map<RequestId, Slot>)
  {
    forall id :: id in pending && pending[id].Resolved? ==> pending[id].response.id == id
  }

  /** Resolution never puts a response under a foreign id. */
  lemma ProcessResponseCorrelates(s: State, resp: Response)
    requires Correlated(s.pending)
    ensures ProcessResponse(s, resp).Success? ==> Correlated(ProcessResponse(s, resp).value.pending)
  {
  }

  /**
   Correlation integrity at the caller: a caller resumed with a response gets
   the one whose id is its own.
   */
  lemma WaitResponseCorrelates(s: State, id: RequestId)
    requires Correlated(s.pending)
    ensures var r := WaitResponse(s, id);
            r.Some? && r.value.0.Success? ==> r.value.0.value.id == id
  {
  }
}
