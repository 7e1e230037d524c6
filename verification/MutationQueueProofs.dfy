/** What every interleaving of calls, outcomes and microtasks keeps. */
module MutationQueueProofs {
  import opened MutationQueue

  datatype Event = Called | Disposed | TaskSettled(job: nat, ok: bool) | Ticked

  predicate IsEnabled(q: Queue, e: Event) {
    match e
    case Called => true
    case Disposed => true
    case TaskSettled(i, _) => TaskInProgress(q, i)
    case Ticked => CanTick(q)
  }

  function Apply(q: Queue, e: Event): Queue
    requires IsEnabled(q, e)
  {
    match e
    case Called => Call(q)
    case Disposed => Dispose(q)
    case TaskSettled(i, ok) => Settle(q, i, ok)
    case Ticked => Tick(q)
  }

  /** The queue can go through these events, and ends in `q`. */
  ghost predicate Reaches(events: seq<Event>, q: Queue)
    decreases |events|
  {
    if events == [] then q == Idle(q.onRejected)
    else
      var n := |events| - 1;
      exists before :: Reaches(events[..n], before) && IsEnabled(before, events[n]) && q == Apply(before, events[n])
  }

  lemma LastStep(events: seq<Event>, q: Queue) returns (before: Queue)
    requires Reaches(events, q) && events != []
    ensures var n := |events| - 1;
            && Reaches(events[..n], before) && before.onRejected == q.onRejected
            && IsEnabled(before, events[n]) && q == Apply(before, events[n])
  {
    var n := |events| - 1;
    before :| Reaches(events[..n], before) && IsEnabled(before, events[n]) && q == Apply(before, events[n]);
    StepKeepsHandler(before, events[n]);
  }

  lemma NoStep(q: Queue)
    requires Reaches([], q)
    ensures q == Idle(q.onRejected)
  {
  }

  predicate IsReleased(j: Job) {
    j.started && !j.result.Pending? && j.tail == Fulfilled && (j.returned.Pending? || j.returned == j.result)
  }

  predicate IsDone(j: Job) {
    IsReleased(j) && j.returned == j.result
  }

  /** `head` is the first call whose tail is pending.  Everything before it is done, except that the
      bookkeeping of the call just before may still be queued; everything behind it is fresh. */
  predicate IsShaped(q: Queue, head: nat) {
    var n := |q.jobs|;
    && q.onRejected == Returns && head <= n
    && (forall i | 0 <= i < head - 1 :: IsDone(q.jobs[i]))
    && (head > 0 ==> IsReleased(q.jobs[head - 1]))
    && (forall i | head < i < n :: q.jobs[i] == FRESH)
    && var lagging := head > 0 && q.jobs[head - 1].returned.Pending?;
    && var lag := if lagging then [Finish(head - 1)] else [];
    && q.pendingCount == n - head + |lag|
    && if head == n then q.microtasks == lag && q.started == Upto(n)
       else
         var j := q.jobs[head];
         && j.tail.Pending? && j.returned.Pending?
         && if !j.started then j.result.Pending? && q.microtasks == lag + [Start(head)] && q.started == Upto(head)
            else
              && !lagging && q.started == Upto(head + 1)
              && q.microtasks == if j.result.Pending? then [] else [Release(head), Finish(head)]
  }

  /** The first `n` calls in order. */
  function Upto(n: nat): seq<nat> {
    seq(n, i => i)
  }

  ghost predicate Alternates(s: seq<bool>) {
    forall i | 0 <= i < |s| :: s[i] == (i % 2 == 0)
  }

  /** Notifications alternate from true; until the listener is dropped the last one is true exactly
      while calls are pending. */
  ghost predicate IsAnnounced(q: Queue) {
    && Alternates(q.notifications)
    && (q.listening ==> (|q.notifications| % 2 == 1 <==> q.pendingCount > 0))
  }

  ghost predicate IsInvariant(q: Queue) {
    IsAnnounced(q) && exists head: nat :: IsShaped(q, head)
  }

  lemma UptoNext(n: nat)
    ensures Upto(n) + [n] == Upto(n + 1)
  {
  }

  lemma CallKeepsShape(q: Queue, head: nat)
    requires IsShaped(q, head)
    ensures IsShaped(Call(q), head)
  {
  }

  lemma SettleKeepsShape(q: Queue, head: nat, i: nat, ok: bool)
    requires IsShaped(q, head) && TaskInProgress(q, i)
    ensures i == head && IsShaped(Settle(q, i, ok), head)
  {
  }

  lemma TickKeepsShape(q: Queue, head: nat) returns (next: nat)
    requires IsShaped(q, head) && CanTick(q)
    ensures IsShaped(Tick(q), next)
  {
    next := head;
    match q.microtasks[0]
    case Start(i) => UptoNext(head);
    case Release(i) =>
      assert i == head;
      next := head + 1;
    case Finish(i) =>
  }

  lemma DisposeKeepsShape(q: Queue, head: nat)
    requires IsShaped(q, head)
    ensures IsShaped(Dispose(q), head)
  {
  }

  lemma ShapeCountsPending(q: Queue, head: nat)
    requires IsShaped(q, head)
    ensures q.pendingCount >= 0
    ensures q.microtasks != [] && q.microtasks[0].Finish? ==> q.pendingCount > 0
  {
  }

  /** The count moves by at most one, and is announced when it leaves or reaches zero. */
  lemma AnnouncementKept(q: Queue, e: Event)
    requires IsAnnounced(q) && q.pendingCount >= 0 && IsEnabled(q, e)
    requires e.Ticked? && q.microtasks[0].Finish? ==> q.pendingCount > 0
    ensures IsAnnounced(Apply(q, e))
  {
  }

  lemma StepKeepsInvariant(q: Queue, e: Event)
    requires IsInvariant(q) && IsEnabled(q, e)
    ensures IsInvariant(Apply(q, e))
  {
    var head: nat :| IsShaped(q, head);
    ShapeCountsPending(q, head);
    AnnouncementKept(q, e);
    hide IsAnnounced;
    match e
    case Called => CallKeepsShape(q, head);
    case Disposed => DisposeKeepsShape(q, head);
    case TaskSettled(i, ok) => SettleKeepsShape(q, head, i, ok);
    case Ticked => var next := TickKeepsShape(q, head);
  }

  lemma IdleIsInvariant()
    ensures IsInvariant(Idle(Returns))
  {
    assert IsShaped(Idle(Returns), 0);
  }

  lemma {:induction false} AlwaysInvariant(events: seq<Event>, q: Queue)
    requires Reaches(events, q) && q.onRejected == Returns
    ensures IsInvariant(q)
    decreases |events|
  {
    hide Reaches, Apply, IsInvariant, IsEnabled;
    if events == [] {
      NoStep(q);
      IdleIsInvariant();
    } else {
      var n := |events| - 1;
      var before := LastStep(events, q);
      AlwaysInvariant(events[..n], before);
      StepKeepsInvariant(before, events[n]);
    }
  }

  /** When task `i` is in progress, its call is the last one started, and every earlier call was settled
      and accounted for before it began. */
  ghost predicate IsAlone(q: Queue, i: nat)
    requires i < |q.jobs|
  {
    && |q.started| == i + 1 && q.pendingCount == |q.jobs| - i
    && forall j | 0 <= j < i :: IsDone(q.jobs[j])
  }

  lemma ShapeIsSerial(q: Queue, head: nat, i: nat)
    requires IsShaped(q, head) && TaskInProgress(q, i)
    ensures i == head && IsAlone(q, i)
  {
  }

  lemma ShapeStartsInOrder(q: Queue, head: nat)
    requires IsShaped(q, head)
    ensures q.started == Upto(|q.started|)
  {
  }

  /** In every reachable state at most one task is in progress, and tasks have started in call order,
      each once. */
  lemma OneTaskAtATime(events: seq<Event>, q: Queue)
    requires Reaches(events, q) && q.onRejected == Returns
    ensures forall i: nat, j: nat | TaskInProgress(q, i) && TaskInProgress(q, j) :: i == j
    ensures forall i: nat | TaskInProgress(q, i) :: IsAlone(q, i)
    ensures q.started == Upto(|q.started|)
  {
    AlwaysInvariant(events, q);
    var head: nat :| IsShaped(q, head);
    ShapeStartsInOrder(q, head);
    hide IsShaped;
    forall i: nat | TaskInProgress(q, i)
      ensures i == head && IsAlone(q, i)
    {
      ShapeIsSerial(q, head, i);
    }
  }

  /** In every reachable state the notifications alternate from true, and while the listener is there the
      last one is true exactly while calls are pending. */
  lemma BusyMatchesPending(events: seq<Event>, q: Queue)
    requires Reaches(events, q) && q.onRejected == Returns
    ensures q.pendingCount >= 0 && Alternates(q.notifications)
    ensures q.listening ==>
              (q.pendingCount > 0 <==> q.notifications != [] && q.notifications[|q.notifications| - 1])
  {
    hide Reaches, IsShaped;
    AlwaysInvariant(events, q);
    var head: nat :| IsShaped(q, head);
    ShapeCountsPending(q, head);
  }

  lemma SilentStep(q: Queue, e: Event)
    requires !q.listening && IsEnabled(q, e)
    ensures !Apply(q, e).listening && Apply(q, e).notifications == q.notifications
  {
  }

  /** Events determine the state they lead to. */
  lemma {:induction false} ReachedIsUnique(events: seq<Event>, q: Queue, r: Queue)
    requires Reaches(events, q) && Reaches(events, r) && q.onRejected == r.onRejected
    ensures q == r
    decreases |events|
  {
    hide Reaches, Apply, IsEnabled;
    if events == [] {
      NoStep(q);
      NoStep(r);
    } else {
      var x := LastStep(events, q);
      var y := LastStep(events, r);
      ReachedIsUnique(events[..|events| - 1], x, y);
    }
  }

  /** From the first disposal of any run on, nothing is announced any more. */
  lemma {:induction false} DisposedIsSilent(events: seq<Event>, q: Queue, k: nat, before: Queue)
    requires Reaches(events, q) && k < |events| && events[k] == Disposed
    requires Reaches(events[..k], before) && before.onRejected == q.onRejected
    ensures !q.listening && q.notifications == before.notifications
    decreases |events|
  {
    hide Reaches, IsEnabled;
    var n := |events| - 1;
    var last := LastStep(events, q);
    if k == n {
      ReachedIsUnique(events[..k], before, last);
    } else {
      assert events[..n][..k] == events[..k];
      DisposedIsSilent(events[..n], last, k, before);
      hide Apply;
      SilentStep(last, events[n]);
    }
  }

  // ---- Progress

  function JobRank(j: Job): nat {
    (if j.started then 0 else 1) + (if j.result.Pending? then 1 else 0)
    + (if j.tail.Pending? then 1 else 0) + if j.returned.Pending? then 1 else 0
  }

  /** How many steps the calls made so far still have to go. */
  function Rank(jobs: seq<Job>): nat {
    if jobs == [] then 0 else JobRank(jobs[0]) + Rank(jobs[1..])
  }

  lemma {:induction false} RankOfUpdate(jobs: seq<Job>, i: nat, j: Job)
    requires i < |jobs|
    ensures Rank(jobs[i := j]) == Rank(jobs) - JobRank(jobs[i]) + JobRank(j)
  {
    if i > 0 {
      assert jobs[i := j][1..] == jobs[1..][i - 1 := j];
      RankOfUpdate(jobs[1..], i - 1, j);
    } else {
      assert jobs[i := j][1..] == jobs[1..];
    }
  }

  /** Every outcome and every microtask brings the calls made so far nearer to their end. */
  lemma EveryStepIsProgress(q: Queue, e: Event)
    requires IsEnabled(q, e) && (e.TaskSettled? || e.Ticked?)
    ensures Rank(Apply(q, e).jobs) < Rank(q.jobs) && |Apply(q, e).jobs| == |q.jobs|
  {
    var i := if e.TaskSettled? then e.job else q.microtasks[0].job;
    RankOfUpdate(q.jobs, i, Apply(q, e).jobs[i]);
  }

  /** Nothing can be stuck: with calls pending, a microtask can run or the one task in progress will
      settle; with neither, every call has settled and none is pending. */
  lemma NeverStuck(events: seq<Event>, q: Queue)
    requires Reaches(events, q) && q.onRejected == Returns
    ensures q.microtasks != [] ==> CanTick(q)
    ensures q.pendingCount >= 0
    ensures q.pendingCount > 0 <==> CanTick(q) || exists i: nat :: TaskInProgress(q, i)
    ensures q.pendingCount == 0 ==> q.started == Upto(|q.jobs|) && forall j | j in q.jobs :: IsDone(j)
  {
    hide Reaches, IsShaped, CanTick, TaskInProgress;
    AlwaysInvariant(events, q);
    var head: nat :| IsShaped(q, head);
    ShapeIsNotStuck(q, head);
  }

  lemma ShapeIsNotStuck(q: Queue, head: nat)
    requires IsShaped(q, head)
    ensures q.microtasks != [] ==> CanTick(q)
    ensures q.pendingCount >= 0
    ensures q.pendingCount > 0 <==> CanTick(q) || exists i: nat :: TaskInProgress(q, i)
    ensures q.pendingCount == 0 ==> q.started == Upto(|q.jobs|) && forall j | j in q.jobs :: IsDone(j)
  {
    if head < |q.jobs| && q.jobs[head].started && q.jobs[head].result.Pending? {
      assert TaskInProgress(q, head);
    }
  }

  /** A queued microtask can always run. */
  lemma QueuedCanTick(q: Queue)
    requires IsInvariant(q) && q.microtasks != []
    ensures CanTick(q)
  {
    var head: nat :| IsShaped(q, head);
  }

  // ---- Failure

  /** No tail is ever rejected, so no task is ever skipped. */
  lemma TailsNeverReject(events: seq<Event>, q: Queue)
    requires Reaches(events, q) && q.onRejected == Returns
    ensures forall j | j in q.jobs :: j.tail != Rejected && (!j.result.Pending? ==> j.started)
  {
    hide Reaches, IsShaped;
    AlwaysInvariant(events, q);
    var head: nat :| IsShaped(q, head);
    ShapeHasNoRejectedTail(q, head);
  }

  lemma ShapeHasNoRejectedTail(q: Queue, head: nat)
    requires IsShaped(q, head)
    ensures forall j | j in q.jobs :: j.tail != Rejected && (!j.result.Pending? ==> j.started)
  {
    forall i | 0 <= i < |q.jobs|
      ensures q.jobs[i].tail != Rejected && (!q.jobs[i].result.Pending? ==> q.jobs[i].started)
    {
    }
  }

  /** Every result is the outcome the events name for it, and every returned promise has its call's result. */
  ghost predicate OwnOutcomes(events: seq<Event>, jobs: seq<Job>) {
    && (forall i | 0 <= i < |jobs| ::
          && (jobs[i].result == Fulfilled <==> TaskSettled(i, true) in events)
          && (jobs[i].result == Rejected <==> TaskSettled(i, false) in events)
          && (jobs[i].returned.Pending? || jobs[i].returned == jobs[i].result))
    && forall i: nat, ok | TaskSettled(i, ok) in events :: i < |jobs|
  }

  /** A call's promises settle with the outcome of its own task, whatever became of the others. */
  lemma {:induction false} OutcomeIsOwn(events: seq<Event>, q: Queue)
    requires Reaches(events, q) && q.onRejected == Returns
    ensures OwnOutcomes(events, q.jobs)
    decreases |events|
  {
    hide Reaches, Apply, IsEnabled, OwnOutcomes;
    if events == [] {
      NoStep(q);
      NothingSettled();
    } else {
      var n := |events| - 1;
      var before := LastStep(events, q);
      OutcomeIsOwn(events[..n], before);
      TailsNeverReject(events[..n], before);
      StepKeepsOutcomes(before, events[n]);
      StepOutcomes(events[..n], events[n], before.jobs, q.jobs);
      assert events == events[..n] + [events[n]];
    }
  }

  lemma NothingSettled()
    ensures OwnOutcomes([], [])
  {
  }

  /** What one step does to the promises of each call: `now` from `was`. */
  ghost predicate IsOwnStep(e: Event, i: nat, was: Job, now: Job) {
    && (if e.TaskSettled? && e.job == i
        then was.result.Pending? && now.result == if e.ok then Fulfilled else Rejected
        else now.result == was.result)
    && (now.returned == was.returned || now.returned == now.result)
    && (was.result.Pending? && now.result != was.result ==> now.returned == was.returned)
  }

  ghost predicate AreOwnSteps(e: Event, before: seq<Job>, after: seq<Job>) {
    && |before| <= |after| && (e.TaskSettled? ==> e.job < |before|)
    && forall i | 0 <= i < |after| :: IsOwnStep(e, i, if i < |before| then before[i] else FRESH, after[i])
  }

  lemma StepOutcomes(events: seq<Event>, e: Event, before: seq<Job>, after: seq<Job>)
    requires OwnOutcomes(events, before) && AreOwnSteps(e, before, after)
    ensures OwnOutcomes(events + [e], after)
  {
    forall i | 0 <= i < |after|
      ensures after[i].result == Fulfilled <==> TaskSettled(i, true) in events + [e]
      ensures after[i].result == Rejected <==> TaskSettled(i, false) in events + [e]
      ensures after[i].returned.Pending? || after[i].returned == after[i].result
    {
      assert IsOwnStep(e, i, if i < |before| then before[i] else FRESH, after[i]);
    }
  }

  /** A step settles no result but that of the task it names, and returns nothing but results. */
  lemma StepKeepsOutcomes(q: Queue, e: Event)
    requires IsEnabled(q, e) && forall j | j in q.jobs :: j.tail != Rejected
    ensures AreOwnSteps(e, q.jobs, Apply(q, e).jobs)
  {
    match e
    case Called =>
    case Disposed =>
    case TaskSettled(_, _) =>
    case Ticked => assert Tick(q).jobs == q.jobs[q.microtasks[0].job := Tick(q).jobs[q.microtasks[0].job]];
  }

  /** The same queue had every task succeeded. */
  function AsFulfilled(p: Promise): Promise {
    if p == Rejected then Fulfilled else p
  }

  function WithoutOutcome(j: Job): Job {
    j.(result := AsFulfilled(j.result), returned := AsFulfilled(j.returned))
  }

  function WithoutOutcomes(q: Queue): Queue {
    q.(jobs := seq(|q.jobs|, i requires 0 <= i < |q.jobs| => WithoutOutcome(q.jobs[i])))
  }

  function EventWithoutOutcome(e: Event): Event {
    if e.TaskSettled? then e.(ok := true) else e
  }

  /** With a handler for rejections, and no tail rejected, an outcome makes no difference to the next step. */
  lemma OutcomeIsIgnored(q: Queue, e: Event)
    requires q.onRejected == Returns && forall j | j in q.jobs :: j.tail != Rejected
    ensures IsEnabled(q, e) <==> IsEnabled(WithoutOutcomes(q), EventWithoutOutcome(e))
    ensures IsEnabled(q, e) ==> WithoutOutcomes(Apply(q, e)) == Apply(WithoutOutcomes(q), EventWithoutOutcome(e))
  {
    var r := WithoutOutcomes(q);
    match e
    case Called => assert WithoutOutcomes(Call(q)).jobs == Call(r).jobs;
    case Disposed => assert WithoutOutcomes(Dispose(q)).jobs == Dispose(r).jobs;
    case TaskSettled(i, ok) =>
      if TaskInProgress(q, i) {
        assert WithoutOutcomes(Settle(q, i, ok)).jobs == Settle(r, i, true).jobs;
      }
    case Ticked => TickIgnoresOutcome(q);
  }

  lemma TickIgnoresOutcome(q: Queue)
    requires q.onRejected == Returns && forall j | j in q.jobs :: j.tail != Rejected
    ensures CanTick(q) <==> CanTick(WithoutOutcomes(q))
    ensures CanTick(q) ==> WithoutOutcomes(Tick(q)) == Tick(WithoutOutcomes(q))
  {
    if CanTick(q) {
      assert WithoutOutcomes(Tick(q)).jobs == Tick(WithoutOutcomes(q)).jobs;
    }
  }

  function WithoutFailures(events: seq<Event>): seq<Event> {
    seq(|events|, i requires 0 <= i < |events| => EventWithoutOutcome(events[i]))
  }

  /** A failure changes nothing but the promises of its own call: replacing every failure of a run by a
      success leaves the same tails, starts, notifications, counts and queued microtasks. */
  lemma {:induction false} FailureNeverBlocks(events: seq<Event>, q: Queue)
    requires Reaches(events, q) && q.onRejected == Returns
    ensures Reaches(WithoutFailures(events), WithoutOutcomes(q))
    decreases |events|
  {
    hide Reaches, Apply, IsEnabled;
    if events == [] {
      NoStep(q);
      assert WithoutOutcomes(Idle(Returns)) == Idle(Returns) && WithoutFailures(events) == [];
      IdleIsReached(Returns);
    } else {
      var n := |events| - 1;
      var before := LastStep(events, q);
      FailureNeverBlocks(events[..n], before);
      TailsNeverReject(events[..n], before);
      OutcomeIsIgnored(before, events[n]);
      hide WithoutOutcomes, EventWithoutOutcome;
      ReachesNext(WithoutFailures(events[..n]), WithoutOutcomes(before), EventWithoutOutcome(events[n]));
      assert WithoutFailures(events) == WithoutFailures(events[..n]) + [EventWithoutOutcome(events[n])];
    }
  }

  lemma IdleIsReached(onRejected: Handler)
    ensures Reaches([], Idle(onRejected))
  {
  }

  lemma ReachesNext(events: seq<Event>, q: Queue, e: Event)
    requires Reaches(events, q) && IsEnabled(q, e)
    ensures Reaches(events + [e], Apply(q, e))
  {
    assert (events + [e])[..|events|] == events;
  }

  /** Whatever the outcomes of the tasks, the calls made so far can be brought to their end, and then every
      task has been started and every promise has settled. */
  lemma {:induction false} EveryTaskStarts(events: seq<Event>, q: Queue, outcomes: nat -> bool)
      returns (more: seq<Event>, end: Queue)
    requires Reaches(events, q) && q.onRejected == Returns
    ensures Reaches(events + more, end) && |end.jobs| == |q.jobs|
    ensures forall e | e in more :: e.Ticked? || (e.TaskSettled? && e.ok == outcomes(e.job))
    ensures end.pendingCount == 0 && end.started == Upto(|q.jobs|) && forall j | j in end.jobs :: IsDone(j)
    decreases Rank(q.jobs)
  {
    hide Reaches, CanTick, TaskInProgress, Apply, Rank, IsDone, Upto;
    NeverStuck(events, q);
    if q.pendingCount == 0 {
      more, end := [], q;
      assert events + more == events;
    } else {
      var e := NextStep(q, outcomes);
      ReachesNext(events, q, e);
      EveryStepIsProgress(q, e);
      StepKeepsHandler(q, e);
      more, end := EveryTaskStarts(events + [e], Apply(q, e), outcomes);
      assert events + ([e] + more) == events + [e] + more;
      more := [e] + more;
    }
  }

  lemma StepKeepsHandler(q: Queue, e: Event)
    requires IsEnabled(q, e)
    ensures Apply(q, e).onRejected == q.onRejected
  {
  }

  lemma NextStep(q: Queue, outcomes: nat -> bool) returns (e: Event)
    requires CanTick(q) || exists i: nat :: TaskInProgress(q, i)
    ensures IsEnabled(q, e) && (e.Ticked? || (e.TaskSettled? && e.ok == outcomes(e.job)))
  {
    if CanTick(q) {
      e := Ticked;
    } else {
      var i: nat :| TaskInProgress(q, i);
      e := TaskSettled(i, outcomes(i));
    }
  }

  // ---- The handler is needed

  /** Without the handler a task starts behind successes only. */
  ghost predicate IsChained(jobs: seq<Job>) {
    && (forall i | 0 <= i < |jobs| && jobs[i].started :: TailBefore(jobs, i) == Fulfilled)
    && (forall j | j in jobs && j.tail == Fulfilled :: j.result == Fulfilled)
    && (forall j | j in jobs && j.result == Fulfilled :: j.started)
  }

  lemma StepKeepsChain(q: Queue, e: Event)
    requires q.onRejected == Missing && IsChained(q.jobs) && IsEnabled(q, e)
    ensures IsChained(Apply(q, e).jobs)
  {
    match e
    case Called =>
    case Disposed =>
    case TaskSettled(i, ok) =>
      UpdateKeepsChain(q.jobs, i, q.jobs[i].(result := if ok then Fulfilled else Rejected));
    case Ticked =>
      var i := q.microtasks[0].job;
      UpdateKeepsChain(q.jobs, i, Tick(q).jobs[i]);
  }

  lemma IdleIsChained()
    ensures IsChained([])
  {
  }

  lemma UpdateKeepsChain(jobs: seq<Job>, i: nat, j: Job)
    requires IsChained(jobs) && i < |jobs|
    requires j.started ==> TailBefore(jobs, i) == Fulfilled
    requires jobs[i].tail == Fulfilled ==> j.tail == Fulfilled
    requires (j.tail == Fulfilled ==> j.result == Fulfilled) && (j.result == Fulfilled ==> j.started)
    ensures IsChained(jobs[i := j])
  {
    var after := jobs[i := j];
    forall k | 0 <= k < |jobs| && after[k].started
      ensures TailBefore(after, k) == Fulfilled
    {
      assert k != i ==> TailBefore(jobs, k) == Fulfilled;
    }
    forall x | x in after
      ensures (x.tail == Fulfilled ==> x.result == Fulfilled) && (x.result == Fulfilled ==> x.started)
    {
      assert x == j || x in jobs;
    }
  }

  lemma {:induction false} AlwaysChained(events: seq<Event>, q: Queue)
    requires Reaches(events, q) && q.onRejected == Missing
    ensures IsChained(q.jobs)
    decreases |events|
  {
    hide Reaches, Apply, IsEnabled, IsChained;
    if events == [] {
      NoStep(q);
      IdleIsChained();
    } else {
      var n := |events| - 1;
      var before := LastStep(events, q);
      AlwaysChained(events[..n], before);
      StepKeepsChain(before, events[n]);
    }
  }

  lemma BehindSuccess(jobs: seq<Job>, j: nat)
    requires IsChained(jobs) && 0 < j < |jobs| && jobs[j].started
    ensures jobs[j - 1].result == Fulfilled && jobs[j - 1].started
  {
    assert TailBefore(jobs, j) == Fulfilled && jobs[j - 1] in jobs;
  }

  lemma {:induction false} StartedBehindSuccess(jobs: seq<Job>, i: nat, j: nat)
    requires IsChained(jobs) && i < j < |jobs| && jobs[j].started
    ensures jobs[i].result == Fulfilled
    decreases j
  {
    hide IsChained;
    BehindSuccess(jobs, j);
    if i < j - 1 {
      StartedBehindSuccess(jobs, i, j - 1);
    }
  }

  /** With a handler for success alone, one failure would keep every later task from ever starting. */
  lemma WithoutHandlerFailureBlocks(events: seq<Event>, q: Queue, i: nat, j: nat)
    requires Reaches(events, q) && q.onRejected == Missing
    requires i < j < |q.jobs| && q.jobs[i].result == Rejected
    ensures !q.jobs[j].started
  {
    AlwaysChained(events, q);
    if q.jobs[j].started {
      StartedBehindSuccess(q.jobs, i, j);
    }
  }

  ghost predicate NothingRejected(jobs: seq<Job>) {
    forall j | j in jobs :: j.result != Rejected && j.tail != Rejected
  }

  function WithHandler(q: Queue, onRejected: Handler): Queue {
    q.(onRejected := onRejected)
  }

  lemma HandlerUnused(q: Queue, e: Event, other: Handler)
    requires NothingRejected(q.jobs) && IsEnabled(q, e) && (e.TaskSettled? ==> e.ok)
    ensures IsEnabled(WithHandler(q, other), e)
    ensures Apply(WithHandler(q, other), e) == WithHandler(Apply(q, e), other)
    ensures NothingRejected(Apply(q, e).jobs)
  {
  }

  lemma NothingHappened(q: Queue, other: Handler)
    requires Reaches([], q)
    ensures Reaches([], WithHandler(q, other)) && NothingRejected(q.jobs)
  {
    NoStep(q);
    IdleIsReached(other);
  }

  lemma LastIsSuccess(events: seq<Event>, before: Queue, q: Queue, other: Handler)
    requires events != [] && NoFailures(events) && NothingRejected(before.jobs)
    requires var n := |events| - 1;
             && Reaches(events[..n], WithHandler(before, other))
             && IsEnabled(before, events[n]) && q == Apply(before, events[n])
    ensures Reaches(events, WithHandler(q, other)) && NothingRejected(q.jobs)
  {
    hide Reaches, Apply, IsEnabled, NothingRejected, NoFailures, WithHandler;
    var n := |events| - 1;
    NoFailuresBefore(events);
    HandlerUnused(before, events[n], other);
    ReachesNext(events[..n], WithHandler(before, other), events[n]);
    assert events == events[..n] + [events[n]];
  }

  /** Without failures the handler makes no difference. */
  lemma {:induction false} SuccessNeedsNoHandler(events: seq<Event>, q: Queue, other: Handler)
    requires Reaches(events, q) && NoFailures(events)
    ensures Reaches(events, WithHandler(q, other)) && NothingRejected(q.jobs)
    decreases |events|
  {
    hide *;
    if events == [] {
      NothingHappened(q, other);
    } else {
      var before := LastStep(events, q);
      NoFailuresBefore(events);
      SuccessNeedsNoHandler(events[..|events| - 1], before, other);
      LastIsSuccess(events, before, q, other);
    }
  }

  ghost predicate NoFailures(events: seq<Event>) {
    forall e | e in events && e.TaskSettled? :: e.ok
  }

  lemma NoFailuresBefore(events: seq<Event>)
    requires NoFailures(events) && events != []
    ensures var n := |events| - 1; NoFailures(events[..n]) && (events[n].TaskSettled? ==> events[n].ok)
  {
  }

  /** Two calls, the first of which has just failed. */
  function FirstFailed(onRejected: Handler): Queue {
    Queue(onRejected, 2, true, [Job(true, Rejected, Pending, Pending), FRESH], [Release(0), Finish(0)], [true], [0])
  }

  lemma Advance(events: seq<Event>, q: Queue, e: Event, all: seq<Event>, next: Queue)
    requires Reaches(events, q) && IsEnabled(q, e) && all == events + [e] && next == Apply(q, e)
    ensures Reaches(all, next)
  {
    ReachesNext(events, q, e);
  }

  lemma TwoCalled(onRejected: Handler)
    ensures Reaches([Called, Called], Queue(onRejected, 2, true, [FRESH, FRESH], [Start(0)], [true], []))
  {
    IdleIsReached(onRejected);
    hide Reaches;
    var one := Queue(onRejected, 1, true, [FRESH], [Start(0)], [true], []);
    Advance([], Idle(onRejected), Called, [Called], one);
    Advance([Called], one, Called, [Called, Called],
            Queue(onRejected, 2, true, [FRESH, FRESH], [Start(0)], [true], []));
  }

  lemma FirstStarts(onRejected: Handler)
    ensures Reaches([Called, Called, Ticked],
                    Queue(onRejected, 2, true, [Job(true, Pending, Pending, Pending), FRESH], [], [true], [0]))
  {
    TwoCalled(onRejected);
    hide Reaches;
    Advance([Called, Called], Queue(onRejected, 2, true, [FRESH, FRESH], [Start(0)], [true], []), Ticked,
            [Called, Called, Ticked],
            Queue(onRejected, 2, true, [Job(true, Pending, Pending, Pending), FRESH], [], [true], [0]));
  }

  lemma FirstFails(onRejected: Handler) returns (events: seq<Event>)
    ensures Reaches(events, FirstFailed(onRejected))
  {
    FirstStarts(onRejected);
    hide Reaches;
    events := [Called, Called, Ticked, TaskSettled(0, false)];
    Advance([Called, Called, Ticked],
            Queue(onRejected, 2, true, [Job(true, Pending, Pending, Pending), FRESH], [], [true], [0]),
            TaskSettled(0, false), events, FirstFailed(onRejected));
  }

  /** A run in which the first of two tasks fails starts the second one with the handler, and skips it
      without. */
  lemma HandlerMakesTheDifference(onRejected: Handler) returns (events: seq<Event>, q: Queue)
    ensures Reaches(events, q) && q.onRejected == onRejected && |q.jobs| == 2
    ensures q.jobs[0].returned == Rejected && q.jobs[1].started == (onRejected == Returns)
    ensures onRejected == Missing ==> q.jobs[1].result == Rejected
  {
    events := FirstFails(onRejected);
    hide Reaches;
    var failed := FirstFailed(onRejected);
    var jobs := [Job(true, Rejected, Then(Rejected, onRejected), Pending), FRESH];
    var released := failed.(jobs := jobs, microtasks := [Finish(0), Start(1)]);
    assert Tick(failed) == released;
    ReachesNext(events, failed, Ticked);
    var finished :=
      released.(jobs := [jobs[0].(returned := Rejected), FRESH], microtasks := [Start(1)], pendingCount := 1);
    assert Tick(released) == finished;
    ReachesNext(events + [Ticked], released, Ticked);
    ReachesNext(events + [Ticked] + [Ticked], finished, Ticked);
    events := events + [Ticked] + [Ticked] + [Ticked];
    q := Tick(finished);
  }
}
