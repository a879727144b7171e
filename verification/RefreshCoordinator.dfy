// createCmuxRefreshBackbone (plugin.js) in its own form: the closure's variables are the
// fields, its inner functions the methods. Every method takes exactly the step of module
// RefreshBackbone it implements.
module RefreshCoordinator {
  import opened Options
  import opened RefreshTriggers
  import B = RefreshBackbone

  class Coordinator {
    var timer: Option<nat>
    var inFlight: Option<nat>
    var rerunRequested: bool
    var pendingTrigger: Option<Merged>
    var pendingAllowRetry: bool

    // The runtime the closure talks to: armed timers and cycle bodies that have not ended.
    var armed: set<nat>
    var running: set<nat>
    var nextTimer: nat
    var nextCycle: nat

    // What has happened so far.
    ghost var arrived: seq<B.Request>
    ghost var batches: seq<B.Batch>
    ghost var cut: nat

    ghost function View(): B.World
      reads this
    {
      B.World(timer, inFlight, rerunRequested, pendingTrigger, pendingAllowRetry,
              armed, running, nextTimer, nextCycle, arrived, batches, cut)
    }

    ghost predicate Valid()
      reads this
    {
      B.Inv(View())
    }

    constructor ()
      ensures View() == B.INITIAL && Valid()
    {
      timer, inFlight, rerunRequested, pendingTrigger, pendingAllowRetry := None, None, false, None, false;
      armed, running, nextTimer, nextCycle := {}, {}, 1, 1;
      arrived, batches, cut := [], [], 0;
    }

    method ClearScheduledTimer()
      modifies this`timer, this`armed
      ensures View() == B.ClearScheduledTimer(old(View()))
    {
      if timer.None? {
        return;
      }
      armed := armed - {timer.value};
      timer := None;
    }

    method RecordPendingTrigger(trigger: Trigger, allowRetry: bool)
      modifies this`pendingTrigger, this`pendingAllowRetry, this`arrived
      ensures View() == B.RecordPendingTrigger(old(View()), B.Request(trigger, allowRetry))
    {
      pendingTrigger := Some(MergeTriggerDetail(pendingTrigger, trigger));
      pendingAllowRetry := pendingAllowRetry || allowRetry;
      arrived := arrived + [B.Request(trigger, allowRetry)];
    }

    // Returns the cycle whose promise the caller gets.
    method RunCycle() returns (promise: nat)
      requires cut <= |arrived|
      modifies this
      ensures View() == B.RunCycle(old(View()))
      ensures inFlight == Some(promise)
    {
      hide MergeTriggerDetail, B.ClearScheduledTimer;
      ClearScheduledTimer();
      if inFlight.Some? {
        return inFlight.value;
      }
      var trigger := if pendingTrigger.Some? then pendingTrigger.value
                     else MergeTriggerDetail(None, B.UNKNOWN_TRIGGER);
      var allowRetry := pendingAllowRetry;
      pendingTrigger := None;
      pendingAllowRetry := false;
      promise := nextCycle;
      running := running + {nextCycle};
      inFlight := Some(nextCycle);
      nextCycle := nextCycle + 1;
      batches := batches + [B.Batch(cut, |arrived|, B.Cycle(promise, trigger, allowRetry))];
      cut := |arrived|;
    }

    method Schedule(trigger: Trigger, allowRetry: bool, immediate: bool) returns (promise: Option<nat>)
      requires Valid()
      modifies this
      ensures Valid()
      ensures View() == B.Next(old(View()), B.Schedule(B.Request(trigger, allowRetry), immediate))
      ensures promise == if old(inFlight).Some? || immediate then inFlight else None
    {
      hide B.Inv, B.RunCycle, B.ClearScheduledTimer, B.RecordPendingTrigger;
      CutFits(View());
      RecordFits(View(), B.Request(trigger, allowRetry));
      B.StepKeeps(View(), B.Schedule(B.Request(trigger, allowRetry), immediate));
      RecordPendingTrigger(trigger, allowRetry);
      if inFlight.Some? {
        rerunRequested := true;
        return inFlight;
      }
      if immediate {
        var cycle := RunCycle();
        return Some(cycle);
      }
      ClearScheduledTimer();
      timer := Some(nextTimer);
      armed := armed + {nextTimer};
      nextTimer := nextTimer + 1;
      return None;
    }

    // The options reach the scheduler as they are: with `immediate` among them this is an
    // immediate request.
    method Enqueue(trigger: Trigger, allowRetry: bool, immediate: bool) returns (promise: Option<nat>)
      requires Valid()
      modifies this
      ensures Valid()
      ensures View() == B.Next(old(View()), B.Schedule(B.Request(trigger, allowRetry), immediate))
      ensures promise == if old(inFlight).Some? || immediate then inFlight else None
      ensures old(inFlight).None? && !immediate ==>
        promise == None && timer == Some(old(nextTimer)) && batches == old(batches)
    {
      promise := Schedule(trigger, allowRetry, immediate);
      hide B.Inv, B.RunCycle;
    }

    // The promise is that of a new cycle holding the request, unless a cycle was already
    // in flight: then it is that older cycle's, and the request is still pending.
    method RefreshNow(trigger: Trigger, allowRetry: bool) returns (promise: Option<nat>)
      requires Valid()
      modifies this
      ensures Valid()
      ensures View() == B.Next(old(View()), B.Schedule(B.Request(trigger, allowRetry), true))
      ensures old(inFlight).Some? ==> promise == old(inFlight) && batches == old(batches) && cut < |arrived|
      ensures old(inFlight).None? ==>
        && promise == Some(old(nextCycle)) && cut == |arrived| == |old(arrived)| + 1
        && |batches| == |old(batches)| + 1
        && batches[|old(batches)|].fate.Cycle? && batches[|old(batches)|].fate.id == promise.value
        && B.Holds(View(), |old(batches)|, |old(arrived)|)
    {
      hide B.Inv, MergeTriggerDetail;
      CutFits(View());
      promise := Schedule(trigger, allowRetry, true);
    }

    // The timer's callback.
    method TimerFires(t: nat)
      requires Valid() && t in armed
      modifies this
      ensures Valid() && View() == B.Next(old(View()), B.TimerFires(t))
    {
      hide B.Inv, B.RunCycle;
      CutFits(View());
      B.StepKeeps(View(), B.TimerFires(t));
      armed := armed - {t};
      var _ := RunCycle();
    }

    // The `finally` of a cycle body, after success or failure alike.
    method CycleEnds(c: nat)
      requires Valid() && c in running
      modifies this
      ensures Valid() && View() == B.Next(old(View()), B.CycleEnds(c))
    {
      hide B.Inv, B.RunCycle;
      CutFits(View());
      B.StepKeeps(View(), B.CycleEnds(c));
      running := running - {c};
      inFlight := None;
      if rerunRequested {
        rerunRequested := false;
        var _ := RunCycle();
      }
    }

    method Dispose()
      requires Valid()
      modifies this
      ensures Valid() && View() == B.Next(old(View()), B.Dispose)
    {
      hide B.Inv, MergeTriggerDetail;
      CutFits(View());
      B.StepKeeps(View(), B.Dispose);
      ClearScheduledTimer();
      pendingTrigger := None;
      pendingAllowRetry := false;
      rerunRequested := false;
      batches := batches + [B.Batch(cut, |arrived|, B.Dropped)];
      cut := |arrived|;
    }
  }

  lemma {:induction false} RecordFits(w: B.World, request: B.Request)
    requires w.cut <= |w.arrived|
    ensures var w' := B.RecordPendingTrigger(w, request);
      w'.cut <= |w'.arrived| && w'.inFlight == w.inFlight
  {
  }

  lemma {:induction false} CutFits(w: B.World)
    requires B.Inv(w)
    ensures w.cut <= |w.arrived|
  {
  }
}
