/** The promise chain that runs mutations one at a time.

    Call `i` makes `result` the continuation of the previous `tail` with task `i`, makes `tail` the
    continuation of `result` with a handler for either outcome, and returns the continuation of `result`
    that does the bookkeeping and keeps its outcome.  The reactions of a settled promise are queued in the
    order they were registered, and microtasks run in the order they were queued. */
module MutationQueue {

  datatype Promise = Pending | Fulfilled | Rejected

  /** The second argument of the `then` that makes the tail: the chain has one, which returns. */
  datatype Handler = Returns | Missing

  /** What becomes of `source.then(() => undefined, onRejected)`: a rejection runs its handler, and without
      one is passed on. */
  function Then(source: Promise, onRejected: Handler): Promise {
    if source == Rejected && onRejected == Missing then Rejected else Fulfilled
  }

  /** One call: whether its task was started, and its three promises. */
  datatype Job = Job(started: bool, result: Promise, tail: Promise, returned: Promise)

  const FRESH := Job(false, Pending, Pending, Pending)

  /** The reaction that settles the result, the tail or the returned promise of a call. */
  datatype Microtask = Start(job: nat) | Release(job: nat) | Finish(job: nat)

  datatype Queue = Queue(onRejected: Handler, pendingCount: int, listening: bool, jobs: seq<Job>,
                         microtasks: seq<Microtask>, notifications: seq<bool>, started: seq<nat>)

  function Idle(onRejected: Handler): Queue {
    Queue(onRejected, 0, true, [], [], [], [])
  }

  /** The tail that call `i` continues. */
  function TailBefore(jobs: seq<Job>, i: nat): Promise
    requires i <= |jobs|
  {
    if i == 0 then Fulfilled else jobs[i - 1].tail
  }

  function Notify(q: Queue, busy: bool): Queue {
    if q.listening then q.(notifications := q.notifications + [busy]) else q
  }

  /** A call of `run`: a reaction on a settled tail is queued at once. */
  function Call(q: Queue): Queue {
    var counted := q.(pendingCount := q.pendingCount + 1, jobs := q.jobs + [FRESH]);
    var notified := if counted.pendingCount == 1 then Notify(counted, true) else counted;
    if TailBefore(q.jobs, |q.jobs|).Pending? then notified
    else notified.(microtasks := q.microtasks + [Start(|q.jobs|)])
  }

  function Dispose(q: Queue): Queue {
    q.(listening := false)
  }

  /** The result of a call settles: both its reactions are queued. */
  function SettleResult(q: Queue, i: nat, outcome: Promise): Queue
    requires i < |q.jobs|
  {
    q.(jobs := q.jobs[i := q.jobs[i].(result := outcome)], microtasks := q.microtasks + [Release(i), Finish(i)])
  }

  predicate TaskInProgress(q: Queue, i: nat) {
    i < |q.jobs| && q.jobs[i].started && q.jobs[i].result.Pending?
  }

  /** The task in progress succeeds or fails. */
  function Settle(q: Queue, i: nat, ok: bool): Queue
    requires i < |q.jobs|
  {
    SettleResult(q, i, if ok then Fulfilled else Rejected)
  }

  /** The first queued microtask has a settled source and a pending promise to settle. */
  predicate CanTick(q: Queue) {
    && q.microtasks != []
    && var i := q.microtasks[0].job;
    && i < |q.jobs|
    && match q.microtasks[0]
       case Start(_) => !q.jobs[i].started && q.jobs[i].result.Pending? && !TailBefore(q.jobs, i).Pending?
       case Release(_) => !q.jobs[i].result.Pending? && q.jobs[i].tail.Pending?
       case Finish(_) => !q.jobs[i].result.Pending? && q.jobs[i].returned.Pending?
  }

  /** The first queued microtask runs.  A task runs behind a fulfilled tail only; a rejected one is passed
      on to the result. */
  function Tick(q: Queue): Queue
    requires CanTick(q)
  {
    var rest := q.(microtasks := q.microtasks[1..]);
    var i := q.microtasks[0].job;
    match q.microtasks[0]
    case Start(_) =>
      if TailBefore(q.jobs, i) == Fulfilled
      then rest.(jobs := q.jobs[i := q.jobs[i].(started := true)], started := q.started + [i])
      else SettleResult(rest, i, Rejected)
    case Release(_) =>
      var released := rest.(jobs := q.jobs[i := q.jobs[i].(tail := Then(q.jobs[i].result, q.onRejected))]);
      if i + 1 < |q.jobs| then released.(microtasks := rest.microtasks + [Start(i + 1)]) else released
    case Finish(_) =>
      var finished := q.jobs[i := q.jobs[i].(returned := q.jobs[i].result)];
      var counted := rest.(jobs := finished, pendingCount := q.pendingCount - 1);
      if counted.pendingCount == 0 then Notify(counted, false) else counted
  }
}
