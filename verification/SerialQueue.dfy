/** The closure `createSerialMutationQueue` returns, with the promises it hangs together. */
module SerialQueue {
  import opened MutationQueue
  import opened MutationQueueProofs

  class SerialMutationQueue {
    var pendingCount: int
    var listening: bool
    var jobs: seq<Job>
    var microtasks: seq<Microtask>
    var notifications: seq<bool>
    var started: seq<nat>

    ghost function State(): Queue
      reads this
    {
      Queue(Returns, pendingCount, listening, jobs, microtasks, notifications, started)
    }

    ghost predicate Valid()
      reads this
    {
      IsInvariant(State())
    }

    constructor ()
      ensures Valid() && State() == Idle(Returns)
    {
      pendingCount, listening, jobs, microtasks, notifications, started := 0, true, [], [], [], [];
      new;
      IdleIsInvariant();
    }

    method Run()
      requires Valid()
      modifies this
      ensures Valid() && State() == Call(old(State()))
    {
      StepKeepsInvariant(State(), Called);
      hide IsInvariant;
      var waits := TailBefore(jobs, |jobs|).Pending?;
      pendingCount := pendingCount + 1;
      if pendingCount == 1 && listening {
        notifications := notifications + [true];
      }
      if !waits {
        microtasks := microtasks + [Start(|jobs|)];
      }
      jobs := jobs + [FRESH];
    }

    method DisposeListener()
      requires Valid()
      modifies this
      ensures Valid() && State() == Dispose(old(State()))
    {
      StepKeepsInvariant(State(), Disposed);
      hide IsInvariant;
      listening := false;
    }

    method SettleTask(i: nat, ok: bool)
      requires Valid() && TaskInProgress(State(), i)
      modifies this
      ensures Valid() && State() == Settle(old(State()), i, ok)
    {
      StepKeepsInvariant(State(), TaskSettled(i, ok));
      hide IsInvariant;
      jobs := jobs[i := jobs[i].(result := if ok then Fulfilled else Rejected)];
      microtasks := microtasks + [Release(i), Finish(i)];
    }

    method RunMicrotask()
      requires Valid() && microtasks != []
      modifies this
      ensures CanTick(old(State()))
      ensures Valid() && State() == Tick(old(State()))
    {
      QueuedCanTick(State());
      StepKeepsInvariant(State(), Ticked);
      hide IsInvariant;
      var next := microtasks[0];
      var i := next.job;
      microtasks := microtasks[1..];
      match next
      case Start(_) =>
        if TailBefore(jobs, i) == Fulfilled {
          jobs := jobs[i := jobs[i].(started := true)];
          started := started + [i];
        } else {
          jobs := jobs[i := jobs[i].(result := Rejected)];
          microtasks := microtasks + [Release(i), Finish(i)];
        }
      case Release(_) =>
        jobs := jobs[i := jobs[i].(tail := Then(jobs[i].result, Returns))];
        if i + 1 < |jobs| {
          microtasks := microtasks + [Start(i + 1)];
        }
      case Finish(_) =>
        jobs := jobs[i := jobs[i].(returned := jobs[i].result)];
        pendingCount := pendingCount - 1;
        if pendingCount == 0 && listening {
          notifications := notifications + [false];
        }
    }
  }
}
