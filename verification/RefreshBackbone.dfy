// The refresh coordinator (plugin.js, createCmuxRefreshBackbone): a debounced,
// single-flight, coalescing scheduler, as a step system over every interleaving of calls,
// timers and cycle ends, and as the class whose methods take those steps.
//
// A cycle body is assumed to suspend at its first `await`, as it does unless invalidateAll
// or getCurrentCmuxAdapter throws synchronously; timer handles are truthy.
module RefreshBackbone {
  import opened Options
  import opened RefreshTriggers

  datatype Request = Request(trigger: Trigger, allowRetry: bool)

  // What became of a stretch of requests: merged into one cycle, or dropped by dispose.
  datatype Fate = Cycle(id: nat, trigger: Merged, allowRetry: bool) | Dropped

  datatype Batch = Batch(from: nat, to: nat, fate: Fate)

  datatype World = World(
    // The coordinator's own variables.
    timer: Option<nat>,
    inFlight: Option<nat>,
    rerunRequested: bool,
    pendingTrigger: Option<Merged>,
    pendingAllowRetry: bool,
    // The runtime: timers that may still fire, cycle bodies that have not ended.
    armed: set<nat>,
    running: set<nat>,
    nextTimer: nat,
    nextCycle: nat,
    // History: every request in order of arrival, the first `cut` of them in batches.
    arrived: seq<Request>,
    batches: seq<Batch>,
    cut: nat)

  const INITIAL := World(None, None, false, None, false, {}, {}, 1, 1, [], [], 0)

  datatype Step =
    | Schedule(request: Request, immediate: bool)   // enqueue, or refreshNow with `immediate`
    | TimerFires(timer: nat)
    | CycleEnds(cycle: nat)                          // the `finally` of a cycle body
    | Dispose

  // ---------- The coordinator's functions ----------

  function ClearScheduledTimer(w: World): World {
    match w.timer
    case None => w
    case Some(t) => w.(timer := None, armed := w.armed - {t})
  }

  function RecordPendingTrigger(w: World, request: Request): World {
    w.(pendingTrigger := Some(MergeTriggerDetail(w.pendingTrigger, request.trigger)),
       pendingAllowRetry := w.pendingAllowRetry || request.allowRetry,
       arrived := w.arrived + [request])
  }

  const UNKNOWN_TRIGGER := Trigger("unknown", None, None, None, map[])

  function RunCycle(w0: World): World
    requires w0.cut <= |w0.arrived|
  {
    var w := ClearScheduledTimer(w0);
    if w.inFlight.Some? then w
    else
      var trigger := match w.pendingTrigger
        case Some(m) => m
        case None => MergeTriggerDetail(None, UNKNOWN_TRIGGER);
      w.(pendingTrigger := None,
         pendingAllowRetry := false,
         inFlight := Some(w.nextCycle),
         running := w.running + {w.nextCycle},
         nextCycle := w.nextCycle + 1,
         batches := w.batches + [Batch(w.cut, |w.arrived|, Cycle(w.nextCycle, trigger, w.pendingAllowRetry))],
         cut := |w.arrived|)
  }

  function ScheduleRequest(w0: World, request: Request, immediate: bool): World
    requires w0.cut <= |w0.arrived|
  {
    var w := RecordPendingTrigger(w0, request);
    if w.inFlight.Some? then w.(rerunRequested := true)
    else if immediate then RunCycle(w)
    else
      var w' := ClearScheduledTimer(w);
      w'.(timer := Some(w'.nextTimer), armed := w'.armed + {w'.nextTimer}, nextTimer := w'.nextTimer + 1)
  }

  function FireTimer(w: World, t: nat): World
    requires w.cut <= |w.arrived|
  {
    RunCycle(w.(armed := w.armed - {t}))
  }

  function EndCycle(w0: World, c: nat): World
    requires w0.cut <= |w0.arrived|
  {
    var w := w0.(inFlight := None, running := w0.running - {c});
    if w.rerunRequested then RunCycle(w.(rerunRequested := false)) else w
  }

  function DisposeAll(w0: World): World
    requires w0.cut <= |w0.arrived|
  {
    var w := ClearScheduledTimer(w0);
    w.(pendingTrigger := None, pendingAllowRetry := false, rerunRequested := false,
       batches := w.batches + [Batch(w.cut, |w.arrived|, Dropped)], cut := |w.arrived|)
  }

  predicate Enabled(w: World, step: Step) {
    w.cut <= |w.arrived| &&
    match step
    case Schedule(_, _) => true
    case TimerFires(t) => t in w.armed
    case CycleEnds(c) => c in w.running
    case Dispose => true
  }

  function Next(w: World, step: Step): World
    requires Enabled(w, step)
  {
    match step
    case Schedule(request, immediate) => ScheduleRequest(w, request, immediate)
    case TimerFires(t) => FireTimer(w, t)
    case CycleEnds(c) => EndCycle(w, c)
    case Dispose => DisposeAll(w)
  }

  // Any interleaving of enabled steps from the start.
  ghost predicate IsRun(worlds: seq<World>, steps: seq<Step>) {
    && |worlds| == |steps| + 1 && worlds[0] == INITIAL
    && forall i :: 0 <= i < |steps| ==>
         Enabled(worlds[i], steps[i]) && worlds[i + 1] == Next(worlds[i], steps[i])
  }

  // ---------- The invariant ----------

  function Triggers(requests: seq<Request>): (r: seq<Trigger>)
    ensures |r| == |requests|
  {
    seq(|requests|, i requires 0 <= i < |requests| => requests[i].trigger)
  }

  function WantsRetry(requests: seq<Request>): (r: bool)
    ensures r <==> exists i :: 0 <= i < |requests| && requests[i].allowRetry
  {
    exists i :: 0 <= i < |requests| && requests[i].allowRetry
  }

  function AsSet(x: Option<nat>): set<nat> {
    match x case None => {} case Some(v) => {v}
  }

  // At most one cycle body runs, and the variables say which; a timer is armed only
  // between cycles, and only the one the coordinator remembers.
  ghost predicate SingleFlight(w: World) {
    && w.running == AsSet(w.inFlight)
    && w.armed == AsSet(w.timer)
    && (w.inFlight.Some? ==> w.timer.None? && w.inFlight.value < w.nextCycle)
    && (w.timer.Some? ==> w.timer.value < w.nextTimer)
  }

  // What is pending is the merge of the requests since the last cut, and it always has an
  // armed timer or a requested rerun.
  ghost predicate PendingIsMerged(w: World) {
    && w.cut <= |w.arrived|
    && w.pendingTrigger == MergeAll(Triggers(w.arrived[w.cut..]))
    && w.pendingAllowRetry == WantsRetry(w.arrived[w.cut..])
    && (w.rerunRequested ==> w.inFlight.Some? && w.pendingTrigger.Some?)
    && (w.timer.Some? ==> w.pendingTrigger.Some?)
    && (w.pendingTrigger.Some? ==> w.timer.Some? || w.rerunRequested)
  }

  // A cycle gets exactly the merge of its stretch of requests, which is never empty.
  ghost predicate IsFair(w: World, b: Batch) {
    && b.from <= b.to <= |w.arrived|
    && (b.fate.Cycle? ==>
        && b.from < b.to && b.fate.id < w.nextCycle
        && MergeAll(Triggers(w.arrived[b.from..b.to])) == Some(b.fate.trigger)
        && b.fate.allowRetry == WantsRetry(w.arrived[b.from..b.to]))
  }

  // The batches tile the requests up to the cut.
  ghost predicate Tiled(w: World) {
    && (if w.batches == [] then w.cut == 0
        else w.batches[0].from == 0 && w.batches[|w.batches| - 1].to == w.cut)
    && (forall k :: 0 <= k < |w.batches| - 1 ==> w.batches[k].to == w.batches[k + 1].from)
    && (forall k :: 0 <= k < |w.batches| ==> IsFair(w, w.batches[k]))
  }

  // Cycles are numbered in the order they start; the one in flight started last.
  ghost predicate CyclesOrdered(w: World) {
    && (forall j, k :: 0 <= j < k < |w.batches| && w.batches[j].fate.Cycle? && w.batches[k].fate.Cycle? ==>
          w.batches[j].fate.id < w.batches[k].fate.id)
    && (w.inFlight.Some? ==>
          exists k :: 0 <= k < |w.batches| && w.batches[k].fate.Cycle? && w.batches[k].fate.id == w.inFlight.value)
  }

  ghost predicate Inv(w: World) {
    SingleFlight(w) && PendingIsMerged(w) && Tiled(w) && CyclesOrdered(w)
  }

  // ---------- Every step keeps it ----------

  lemma {:induction false} MergeAppend(requests: seq<Request>, r: Request)
    ensures MergeAll(Triggers(requests + [r])) == Some(MergeTriggerDetail(MergeAll(Triggers(requests)), r.trigger))
    ensures WantsRetry(requests + [r]) == (WantsRetry(requests) || r.allowRetry)
  {
    var longer := requests + [r];
    var all := Triggers(longer);
    assert all[..|all| - 1] == Triggers(requests) && all[|all| - 1] == r.trigger;
    if WantsRetry(requests) {
      var i :| 0 <= i < |requests| && requests[i].allowRetry;
      assert longer[i].allowRetry;
    }
    if r.allowRetry {
      assert longer[|requests|].allowRetry;
    }
  }

  lemma {:induction false} FairStays(w: World, w': World, b: Batch)
    requires IsFair(w, b) && w.arrived <= w'.arrived && w.nextCycle <= w'.nextCycle
    ensures IsFair(w', b)
  {
    assert w.arrived[b.from..b.to] == w'.arrived[b.from..b.to];
  }

  lemma {:induction false} TiledStays(w: World, w': World)
    requires Tiled(w) && w.arrived <= w'.arrived && w.nextCycle <= w'.nextCycle
    requires w'.batches == w.batches && w'.cut == w.cut
    ensures Tiled(w')
  {
    forall k | 0 <= k < |w.batches|
      ensures IsFair(w', w'.batches[k])
    {
      FairStays(w, w', w.batches[k]);
    }
  }

  lemma {:induction false} TiledGrows(w: World, w': World, b: Batch)
    requires Tiled(w) && w.arrived == w'.arrived && w.nextCycle <= w'.nextCycle
    requires w'.batches == w.batches + [b] && w'.cut == b.to && b.from == w.cut && IsFair(w', b)
    ensures Tiled(w')
  {
    forall k | 0 <= k < |w'.batches|
      ensures IsFair(w', w'.batches[k])
    {
      if k < |w.batches| {
        FairStays(w, w', w.batches[k]);
      }
    }
  }

  // Recording a request, before anything is scheduled for it.
  lemma {:induction false} RecordKeeps(w: World, request: Request)
    requires Inv(w)
    ensures var w' := RecordPendingTrigger(w, request);
      && SingleFlight(w') && Tiled(w') && CyclesOrdered(w')
      && w'.cut < |w'.arrived|
      && w'.pendingTrigger.Some?
      && w'.pendingTrigger == MergeAll(Triggers(w'.arrived[w'.cut..]))
      && w'.pendingAllowRetry == WantsRetry(w'.arrived[w'.cut..])
  {
    var w' := RecordPendingTrigger(w, request);
    hide MergeAll, MergeTriggerDetail, WantsRetry;
    assert w'.arrived[w'.cut..] == w.arrived[w.cut..] + [request];
    MergeAppend(w.arrived[w.cut..], request);
    TiledStays(w, w');
  }

  // Starting a cycle with something pending; the fallback trigger is never needed.
  lemma {:induction false} StartKeeps(w: World)
    requires SingleFlight(w) && Tiled(w) && CyclesOrdered(w) && w.inFlight.None? && !w.rerunRequested
    requires w.cut < |w.arrived|
    requires w.pendingTrigger == MergeAll(Triggers(w.arrived[w.cut..]))
    requires w.pendingAllowRetry == WantsRetry(w.arrived[w.cut..])
    ensures Inv(RunCycle(w))
    ensures w.pendingTrigger.Some?
  {
    hide MergeAll, WantsRetry, MergeTriggerDetail, IsFair, Tiled, CyclesOrdered;
    var w' := RunCycle(w);
    var requests := w.arrived[w.cut..];
    assert w'.arrived[w'.cut..] == [];
    MergeOfNone();
    MergeOfSome(requests);
    var b := w'.batches[|w.batches|];
    assert w.arrived[w.cut..|w.arrived|] == requests;
    StartIsFair(w', b);
    TiledGrows(w, w', b);
    OrderGrows(w, w', b);
  }

  lemma {:induction false} MergeOfNone()
    ensures MergeAll(Triggers([])) == None && !WantsRetry([])
  {
  }

  lemma {:induction false} MergeOfSome(requests: seq<Request>)
    ensures MergeAll(Triggers(requests)).Some? <==> requests != []
  {
    hide MergeTriggerDetail;
  }

  lemma {:induction false} StartIsFair(w: World, b: Batch)
    requires b.from < b.to <= |w.arrived| && b.fate.Cycle? && b.fate.id < w.nextCycle
    requires MergeAll(Triggers(w.arrived[b.from..b.to])) == Some(b.fate.trigger)
    requires b.fate.allowRetry == WantsRetry(w.arrived[b.from..b.to])
    ensures IsFair(w, b)
  {
  }

  lemma {:induction false} CycleIdBelow(w: World, k: nat)
    requires Tiled(w) && k < |w.batches| && w.batches[k].fate.Cycle?
    ensures w.batches[k].fate.id < w.nextCycle
  {
    assert IsFair(w, w.batches[k]);
  }

  // The cycle that starts has a number above every earlier one.
  lemma {:induction false} OrderGrows(w: World, w': World, b: Batch)
    requires Tiled(w) && CyclesOrdered(w) && w'.batches == w.batches + [b]
    requires b.fate.Cycle? ==> b.fate.id >= w.nextCycle
    requires w'.inFlight == w.inFlight || w'.inFlight.None? ||
      (b.fate.Cycle? && w'.inFlight == Some(b.fate.id))
    ensures CyclesOrdered(w')
  {
    hide Tiled;
    forall j, k | 0 <= j < k < |w'.batches| && w'.batches[j].fate.Cycle? && w'.batches[k].fate.Cycle?
      ensures w'.batches[j].fate.id < w'.batches[k].fate.id
    {
      CycleIdBelow(w, j);
    }
    if w'.inFlight.Some? {
      assert w'.batches[|w.batches|] == b;
      if w'.inFlight == w.inFlight {
        var k :| 0 <= k < |w.batches| && w.batches[k].fate.Cycle? && w.batches[k].fate.id == w.inFlight.value;
        assert w'.batches[k] == w.batches[k];
      }
    }
  }

  lemma {:induction false} StepKeeps(w: World, step: Step)
    requires Inv(w) && Enabled(w, step)
    ensures Inv(Next(w, step))
  {
    hide Tiled, CyclesOrdered, MergeAll, WantsRetry, MergeTriggerDetail;
    match step
    case Schedule(request, immediate) =>
      RecordKeeps(w, request);
      var recorded := RecordPendingTrigger(w, request);
      if recorded.inFlight.Some? {
        TiledStays(recorded, Next(w, step));
        OrderStays(recorded, Next(w, step));
      } else if immediate {
        StartKeeps(recorded);
      } else {
        TiledStays(recorded, Next(w, step));
        OrderStays(recorded, Next(w, step));
      }
    case TimerFires(t) =>
      var fired := w.(armed := w.armed - {t}, timer := None);
      assert RunCycle(fired) == Next(w, step);
      TiledStays(w, fired);
      OrderStays(w, fired);
      PendingIsNonEmpty(w);
      StartKeeps(fired);
    case CycleEnds(c) =>
      var ended := w.(inFlight := None, running := w.running - {c}, rerunRequested := false);
      TiledStays(w, ended);
      OrderStays(w, ended);
      if w.rerunRequested {
        PendingIsNonEmpty(w);
        StartKeeps(ended);
      }
    case Dispose =>
      DisposeKeeps(w);
  }

  lemma {:induction false} PendingIsNonEmpty(w: World)
    requires PendingIsMerged(w)
    ensures w.pendingTrigger.Some? <==> w.cut < |w.arrived|
  {
  }

  lemma {:induction false} OrderStays(w: World, w': World)
    requires CyclesOrdered(w) && w'.batches == w.batches && (w'.inFlight == w.inFlight || w'.inFlight.None?)
    ensures CyclesOrdered(w')
  {
  }

  lemma {:induction false} DisposeKeeps(w: World)
    requires Inv(w)
    ensures Inv(DisposeAll(w))
  {
    hide MergeAll, WantsRetry, MergeTriggerDetail, Tiled, CyclesOrdered;
    var w' := DisposeAll(w);
    assert w'.arrived[w'.cut..] == [];
    MergeOfNone();
    TiledGrows(w, w', w'.batches[|w.batches|]);
    OrderGrows(w, w', w'.batches[|w.batches|]);
  }

  // ---------- Safety over every run ----------

  // In every world of every run: one cycle at most, pending work always scheduled, no
  // timer during a cycle, and every request accounted for.
  lemma {:induction false} RunKeeps(worlds: seq<World>, steps: seq<Step>, i: nat)
    requires IsRun(worlds, steps) && i < |worlds|
    ensures Inv(worlds[i])
    decreases i
  {
    if i == 0 {
      assert Triggers(INITIAL.arrived[0..]) == [];
    } else {
      RunKeeps(worlds, steps, i - 1);
      StepKeeps(worlds[i - 1], steps[i - 1]);
    }
  }

  // In every world of every run: at most one cycle body is running; pending work has an
  // armed timer or a requested rerun; no timer is armed while a cycle runs.
  lemma {:induction false} SafetyOverEveryRun(worlds: seq<World>, steps: seq<Step>, i: nat)
    requires IsRun(worlds, steps) && i < |worlds|
    ensures var w := worlds[i];
      && |w.running| <= 1 && |w.armed| <= 1
      && (w.pendingTrigger.Some? ==> w.armed != {} || (w.running != {} && w.rerunRequested))
      && (w.running != {} ==> w.armed == {})
      && (w.pendingTrigger.Some? <==> w.cut < |w.arrived|)
  {
    RunKeeps(worlds, steps, i);
    hide MergeTriggerDetail, Tiled, CyclesOrdered;
    PendingIsNonEmpty(worlds[i]);
  }

  // A cycle is told to retry, and of a planning change, exactly when one of its requests
  // asked for it.
  lemma {:induction false} CycleKeepsFlags(worlds: seq<World>, steps: seq<Step>, i: nat, k: nat)
    requires IsRun(worlds, steps) && i < |worlds| && k < |worlds[i].batches|
    requires worlds[i].batches[k].fate.Cycle?
    ensures var w := worlds[i]; var b := w.batches[k];
      && b.to <= |w.arrived|
      && (b.fate.allowRetry <==> exists r :: b.from <= r < b.to && w.arrived[r].allowRetry)
      && (b.fate.trigger.planningChange <==>
            exists r :: b.from <= r < b.to && IsPlanningChange(w.arrived[r].trigger))
  {
    RunKeeps(worlds, steps, i);
    var w, b := worlds[i], worlds[i].batches[k];
    assert IsFair(w, b);
    FlagsOfSlice(w.arrived, b);
  }

  lemma {:induction false} PlanningOfSlice(arrived: seq<Request>, from: nat, to: nat)
    requires from < to <= |arrived|
    ensures (exists t :: t in Triggers(arrived[from..to]) && IsPlanningChange(t))
            <==> exists r :: from <= r < to && IsPlanningChange(arrived[r].trigger)
  {
    hide IsPlanningChange;
    var slice := arrived[from..to];
    assert forall r :: from <= r < to ==> arrived[r] == slice[r - from];
    if t :| t in Triggers(slice) && IsPlanningChange(t) {
      var k :| 0 <= k < |slice| && Triggers(slice)[k] == t;
      assert IsPlanningChange(arrived[from + k].trigger);
    }
    if r :| from <= r < to && IsPlanningChange(arrived[r].trigger) {
      assert Triggers(slice)[r - from] == arrived[r].trigger;
    }
  }

  lemma {:induction false} RetryOfSlice(arrived: seq<Request>, from: nat, to: nat)
    requires from < to <= |arrived|
    ensures WantsRetry(arrived[from..to]) <==> exists r :: from <= r < to && arrived[r].allowRetry
  {
    var slice := arrived[from..to];
    if k :| 0 <= k < |slice| && slice[k].allowRetry {
      assert arrived[from + k].allowRetry;
    }
    if r :| from <= r < to && arrived[r].allowRetry {
      assert slice[r - from].allowRetry;
    }
  }

  lemma {:induction false} FlagsOfSlice(arrived: seq<Request>, b: Batch)
    requires b.from < b.to <= |arrived| && b.fate.Cycle?
    requires MergeAll(Triggers(arrived[b.from..b.to])) == Some(b.fate.trigger)
    requires b.fate.allowRetry == WantsRetry(arrived[b.from..b.to])
    ensures b.fate.allowRetry <==> exists r :: b.from <= r < b.to && arrived[r].allowRetry
    ensures b.fate.trigger.planningChange <==>
              exists r :: b.from <= r < b.to && IsPlanningChange(arrived[r].trigger)
  {
    hide MergeAll, IsPlanningChange, WantsRetry, Triggers;
    TriggersSize(arrived[b.from..b.to]);
    MergeKeepsDetail(Triggers(arrived[b.from..b.to]));
    PlanningOfSlice(arrived, b.from, b.to);
    RetryOfSlice(arrived, b.from, b.to);
  }

  lemma {:induction false} TriggersSize(requests: seq<Request>)
    ensures |Triggers(requests)| == |requests|
  {
  }

  lemma {:induction false} StepGrows(w: World, step: Step)
    requires Enabled(w, step)
    ensures w.arrived <= Next(w, step).arrived && w.batches <= Next(w, step).batches
  {
    hide MergeTriggerDetail;
    match step
    case Schedule(request, immediate) =>
    case TimerFires(t) =>
    case CycleEnds(c) =>
    case Dispose =>
  }

  // The history only grows, so what has been folded into a cycle stays there.
  lemma {:induction false} HistoryGrows(worlds: seq<World>, steps: seq<Step>, i: nat, j: nat)
    requires IsRun(worlds, steps) && i <= j < |worlds|
    ensures worlds[i].arrived <= worlds[j].arrived && worlds[i].batches <= worlds[j].batches
    decreases j - i
  {
    hide Next;
    if i < j {
      HistoryGrows(worlds, steps, i, j - 1);
      assert worlds[j - 1 + 1] == Next(worlds[j - 1], steps[j - 1]);
      StepGrows(worlds[j - 1], steps[j - 1]);
    }
  }

  // Batch k holds request r.
  ghost predicate Holds(w: World, k: nat, r: nat) {
    k < |w.batches| && w.batches[k].from <= r < w.batches[k].to
  }

  lemma {:induction false} BatchesAscend(w: World, j: nat, k: nat)
    requires Tiled(w) && j < k < |w.batches|
    ensures w.batches[j].to <= w.batches[k].from
    decreases k
  {
    assert w.batches[k - 1].to == w.batches[k - 1 + 1].from;
    if j < k - 1 {
      BatchesAscend(w, j, k - 1);
      assert IsFair(w, w.batches[k - 1]);
    }
  }

  lemma {:induction false} SomeBatchHolds(w: World, r: nat, n: nat)
    requires Tiled(w) && 0 < n <= |w.batches| && r < w.batches[n - 1].to
    ensures exists k: nat :: Holds(w, k, r)
    decreases n
  {
    if r >= w.batches[n - 1].from {
      assert Holds(w, n - 1, r);
    } else if n > 1 {
      assert w.batches[n - 2].to == w.batches[n - 2 + 1].from;
      SomeBatchHolds(w, r, n - 1);
    }
  }

  // Conservation: every request that has arrived is either still pending or in exactly one
  // batch; a batch that became a cycle carries the merge of its requests and their retry flags.
  lemma {:induction false} EveryRequestOnce(worlds: seq<World>, steps: seq<Step>, i: nat, r: nat)
    requires IsRun(worlds, steps) && i < |worlds| && r < |worlds[i].arrived|
    ensures r < worlds[i].cut <==> exists k: nat :: Holds(worlds[i], k, r)
    ensures forall j: nat, k: nat :: Holds(worlds[i], j, r) && Holds(worlds[i], k, r) ==> j == k
    ensures forall k: nat :: Holds(worlds[i], k, r) ==> IsFair(worlds[i], worlds[i].batches[k])
  {
    RunKeeps(worlds, steps, i);
    var w := worlds[i];
    if r < w.cut {
      SomeBatchHolds(w, r, |w.batches|);
    }
    forall j: nat, k: nat | Holds(w, j, r) && Holds(w, k, r)
      ensures j == k
    {
      if j < k {
        BatchesAscend(w, j, k);
      } else if k < j {
        BatchesAscend(w, k, j);
      }
    }
    forall k: nat | Holds(w, k, r)
      ensures r < w.cut && IsFair(w, w.batches[k])
    {
      if k < |w.batches| - 1 {
        BatchesAscend(w, k, |w.batches| - 1);
        assert IsFair(w, w.batches[|w.batches| - 1]);
      }
    }
  }

  // Progress: pending requests leave the queue in the very next timer or cycle end, whole.
  lemma {:induction false} PendingIsNextCycle(w: World)
    requires Inv(w) && w.cut < |w.arrived|
    ensures w.inFlight.Some? ==> Enabled(w, CycleEnds(w.inFlight.value))
    ensures w.inFlight.None? ==> w.timer.Some? && Enabled(w, TimerFires(w.timer.value))
    ensures
      var step := if w.inFlight.Some? then CycleEnds(w.inFlight.value) else TimerFires(w.timer.value);
      var w' := Next(w, step);
      && |w'.batches| == |w.batches| + 1
      && w'.batches[|w.batches|] ==
           Batch(w.cut, |w.arrived|, Cycle(w.nextCycle, w.pendingTrigger.value, w.pendingAllowRetry))
      && w'.inFlight == Some(w.nextCycle)
  {
    hide MergeTriggerDetail;
    PendingIsNonEmpty(w);
  }
}
