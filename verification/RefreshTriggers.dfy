// Coalescing refresh triggers (plugin.js, isPlanningChange, mergeHooks and
// mergeTriggerDetail): what a batch of triggers is merged into.
module RefreshTriggers {
  import opened Options
  import opened SeqFacts
  import opened Strings

  datatype Event = Event(path: Option<string>, filePath: Option<string>)

  // "" stands for a missing hook; `input` is an opaque token, and `extra` holds any
  // other properties of the trigger object.
  datatype Trigger = Trigger(
    hook: string,
    input: Option<int>,
    event: Option<Event>,
    filePath: Option<string>,
    extra: map<string, int>)

  datatype Merged = Merged(
    hook: string,
    hooks: seq<string>,
    input: Option<int>,
    event: Option<Event>,
    filePath: Option<string>,
    extra: map<string, int>,
    planningChange: bool)

  const MAX_HOOKS: nat := 8

  predicate IsPlanningChange(t: Trigger) {
    var filePath :=
      if t.filePath.Some? then t.filePath
      else if t.event.Some? && t.event.value.path.Some? then t.event.value.path
      else if t.event.Some? then t.event.value.filePath
      else None;
    filePath.Some? && filePath.value != "" && Includes(filePath.value, ".planning/")
  }

  function FirstOf<T>(first: Option<T>, second: Option<T>): Option<T> {
    if first.Some? then first else second
  }

  // The file a trigger is about: its own or, failing that, the path or file path of its event.
  function FileOf(t: Trigger): Option<string> {
    FirstOf(t.filePath, if t.event.Some? then FirstOf(t.event.value.path, t.event.value.filePath) else None)
  }

  // A planning change is a change of a file whose path runs through .planning/.
  lemma {:induction false} PlanningChangeExactlyWhen(t: Trigger)
    ensures IsPlanningChange(t) <==>
      FileOf(t).Some? && exists before: string, after: string :: FileOf(t).value == before + ".planning/" + after
  {
    if FileOf(t).Some? {
      IncludesExactlyWhen(FileOf(t).value, ".planning/");
      if before: string, after: string :| FileOf(t).value == before + ".planning/" + after {
        assert |FileOf(t).value| >= 10;
      }
    }
    hide Includes;
  }

  lemma {:induction false} NewHookIsDistinct(hooks: seq<string>, next: string, from: nat)
    requires next !in hooks && from <= |hooks|
    ensures Distinct(hooks) ==> Distinct(hooks + [next]) && Distinct((hooks + [next])[from..])
  {
  }

  function MergeHooks(current: seq<string>, next: string): (hooks: seq<string>)
    ensures |hooks| <= MAX_HOOKS
    ensures Distinct(current) ==> Distinct(hooks)
    ensures next != "" ==> next in hooks
    ensures forall h :: h in hooks ==> h in current || h == next
  {
    var hooks := if |current| > MAX_HOOKS then current[..MAX_HOOKS] else current;
    if next == "" || next in hooks then hooks
    else
      var longer := hooks + [next];
      NewHookIsDistinct(hooks, next, if |longer| > MAX_HOOKS then |longer| - MAX_HOOKS else 0);
      if |longer| > MAX_HOOKS then
        assert longer[|longer| - MAX_HOOKS..][MAX_HOOKS - 1] == next;
        longer[|longer| - MAX_HOOKS..]
      else longer
  }

  function Latest<T>(previous: Option<T>, next: Option<T>): Option<T> {
    if next.Some? then next else previous
  }

  function MergeTriggerDetail(previous: Option<Merged>, next: Trigger): Merged {
    var p := match previous
      case Some(m) => m
      case None => Merged("", [], None, None, None, map[], false);
    Merged(
      if next.hook != "" then next.hook else if p.hook != "" then p.hook else "unknown",
      MergeHooks(p.hooks, next.hook),
      Latest(p.input, next.input),
      Latest(p.event, next.event),
      Latest(p.filePath, next.filePath),
      p.extra + next.extra,
      p.planningChange || IsPlanningChange(next))
  }

  // The triggers of a batch merged in order of arrival.
  function MergeAll(batch: seq<Trigger>): Option<Merged> {
    if batch == [] then None
    else Some(MergeTriggerDetail(MergeAll(batch[..|batch| - 1]), batch[|batch| - 1]))
  }

  // ---------- What the merge keeps ----------

  // The last defined value of a field over the batch.
  ghost predicate IsLatest<T(!new)>(fields: seq<Option<T>>, value: Option<T>) {
    match value
    case None => forall k :: 0 <= k < |fields| ==> fields[k].None?
    case Some(v) =>
      exists k :: 0 <= k < |fields| && fields[k] == value && forall l :: k < l < |fields| ==> fields[l].None?
  }

  lemma {:induction false} LatestExtends<T(!new)>(fields: seq<Option<T>>, value: Option<T>, next: Option<T>)
    requires IsLatest(fields, value)
    ensures IsLatest(fields + [next], Latest(value, next))
  {
    var longer := fields + [next];
    if next.None? && value.Some? {
      var k :| 0 <= k < |fields| && fields[k] == value && forall l :: k < l < |fields| ==> fields[l].None?;
      assert longer[k] == value;
    } else if next.Some? {
      assert longer[|fields|] == next;
    }
  }

  function FieldOf<T>(batch: seq<Trigger>, field: Trigger -> Option<T>): (r: seq<Option<T>>)
    ensures |r| == |batch| && forall i :: 0 <= i < |batch| ==> r[i] == field(batch[i])
  {
    seq(|batch|, i requires 0 <= i < |batch| => field(batch[i]))
  }

  lemma {:induction false} FieldExtends<T(!new)>(batch: seq<Trigger>, last: Trigger, field: Trigger -> Option<T>,
      value: Option<T>)
    requires IsLatest(FieldOf(batch, field), value)
    ensures IsLatest(FieldOf(batch + [last], field), Latest(value, field(last)))
  {
    LatestExtends(FieldOf(batch, field), value, field(last));
    assert FieldOf(batch + [last], field) == FieldOf(batch, field) + [field(last)];
  }

  function InputOf(t: Trigger): Option<int> { t.input }
  function EventOf(t: Trigger): Option<Event> { t.event }
  function FilePathOf(t: Trigger): Option<string> { t.filePath }

  function HookOf(t: Trigger): Option<string> {
    if t.hook == "" then None else Some(t.hook)
  }

  function Lookup(m: map<string, int>, key: string): Option<int> {
    if key in m then Some(m[key]) else None
  }

  function ExtraOf(key: string): Trigger -> Option<int> {
    (t: Trigger) => Lookup(t.extra, key)
  }

  // The hook of a merged batch is its last one, and "unknown" when there is none.
  lemma {:induction false} MergeKeepsLatestHook(batch: seq<Trigger>)
    requires batch != []
    ensures MergeAll(batch).Some?
    ensures (forall t :: t in batch ==> t.hook == "") ==> MergeAll(batch).value.hook == "unknown"
    ensures (exists t :: t in batch && t.hook != "") ==>
              IsLatest(FieldOf(batch, HookOf), Some(MergeAll(batch).value.hook))
  {
    hide IsPlanningChange, MergeHooks, IsLatest, FieldOf;
    var init, last := batch[..|batch| - 1], batch[|batch| - 1];
    assert batch == init + [last];
    if forall t :: t in init ==> t.hook == "" {
      NoneIsLatest(init);
      FieldExtends(init, last, HookOf, None);
      if init != [] {
        MergeKeepsLatestHook(init);
      }
    } else {
      MergeKeepsLatestHook(init);
      var hook := MergeAll(init).value.hook;
      FieldExtends(init, last, HookOf, Some(hook));
      LatestIsGiven(init, hook);
    }
  }

  // Any other property of a merged batch is that of the last trigger that has it.
  lemma {:induction false} MergeKeepsExtra(batch: seq<Trigger>, key: string)
    requires batch != []
    ensures MergeAll(batch).Some?
    ensures IsLatest(FieldOf(batch, ExtraOf(key)), Lookup(MergeAll(batch).value.extra, key))
  {
    hide IsPlanningChange, MergeHooks, IsLatest, FieldOf;
    var init, last := batch[..|batch| - 1], batch[|batch| - 1];
    assert batch == init + [last];
    if init == [] {
      NoExtraIsLatest(key);
      FieldExtends(init, last, ExtraOf(key), None);
    } else {
      MergeKeepsExtra(init, key);
      FieldExtends(init, last, ExtraOf(key), Lookup(MergeAll(init).value.extra, key));
    }
  }

  lemma {:induction false} NoExtraIsLatest(key: string)
    ensures IsLatest(FieldOf([], ExtraOf(key)), None)
  {
  }

  lemma {:induction false} NoneIsLatest(batch: seq<Trigger>)
    requires forall t :: t in batch ==> t.hook == ""
    ensures IsLatest(FieldOf(batch, HookOf), None)
  {
    forall k | 0 <= k < |batch|
      ensures FieldOf(batch, HookOf)[k] == None
    {
      assert batch[k] in batch && HookOf(batch[k]) == None;
    }
  }

  lemma {:induction false} LatestIsGiven(batch: seq<Trigger>, hook: string)
    requires IsLatest(FieldOf(batch, HookOf), Some(hook))
    ensures hook != ""
  {
    var k :| 0 <= k < |batch| && FieldOf(batch, HookOf)[k] == Some(hook);
    assert HookOf(batch[k]) == Some(hook);
  }

  // A merged batch carries the latest input, event and file path, and a planning change
  // if any of its triggers is one.
  lemma {:induction false} MergeKeepsDetail(batch: seq<Trigger>)
    requires batch != []
    ensures MergeAll(batch).Some?
    ensures MergeAll(batch).value.planningChange <==> exists t :: t in batch && IsPlanningChange(t)
    ensures IsLatest(FieldOf(batch, InputOf), MergeAll(batch).value.input)
    ensures IsLatest(FieldOf(batch, EventOf), MergeAll(batch).value.event)
    ensures IsLatest(FieldOf(batch, FilePathOf), MergeAll(batch).value.filePath)
  {
    hide IsPlanningChange, MergeHooks, IsLatest, FieldOf;
    var init, last := batch[..|batch| - 1], batch[|batch| - 1];
    assert batch == init + [last];
    NothingIsLatest();
    if init != [] {
      MergeKeepsDetail(init);
    }
    var m := MergeAll(init);
    FieldExtends(init, last, InputOf, if m.Some? then m.value.input else None);
    FieldExtends(init, last, EventOf, if m.Some? then m.value.event else None);
    FieldExtends(init, last, FilePathOf, if m.Some? then m.value.filePath else None);
  }

  lemma {:induction false} NothingIsLatest()
    ensures IsLatest(FieldOf([], InputOf), None)
    ensures IsLatest(FieldOf([], EventOf), None)
    ensures IsLatest(FieldOf([], FilePathOf), None)
  {
  }

  // The non-empty hooks of a batch, each once, in order of first arrival.
  function FirstHooks(batch: seq<Trigger>): seq<string> {
    if batch == [] then []
    else
      var before, hook := FirstHooks(batch[..|batch| - 1]), batch[|batch| - 1].hook;
      if hook == "" || hook in before then before else before + [hook]
  }

  lemma {:induction false} FirstHooksGrow(batch: seq<Trigger>, n: nat)
    requires n <= |batch|
    ensures |FirstHooks(batch[..n])| <= |FirstHooks(batch)|
  {
    if n < |batch| {
      FirstHooksGrow(batch[..|batch| - 1], n);
      assert batch[..|batch| - 1][..n] == batch[..n];
    } else {
      assert batch[..n] == batch;
    }
  }

  // Up to eight distinct hooks are all kept, in order of first arrival.
  lemma {:induction false} MergeKeepsHooks(batch: seq<Trigger>)
    requires batch != [] && |FirstHooks(batch)| <= 8
    ensures MergeAll(batch).Some? && MergeAll(batch).value.hooks == FirstHooks(batch)
  {
    var init := batch[..|batch| - 1];
    FirstHooksGrow(batch, |init|);
    if init != [] {
      MergeKeepsHooks(init);
    }
  }

  lemma {:induction false} HookArrives(current: seq<string>, next: string)
    requires |current| <= MAX_HOOKS && next != "" && next !in current
    ensures MergeHooks(current, next) == (if |current| < MAX_HOOKS then current else current[1..]) + [next]
  {
  }

  function HooksOf(batch: seq<Trigger>): (hooks: seq<string>)
    ensures |hooks| == |batch|
  {
    seq(|batch|, i requires 0 <= i < |batch| => batch[i].hook)
  }

  function LastEight(hooks: seq<string>): seq<string> {
    hooks[if |hooks| > 8 then |hooks| - 8 else 0..]
  }

  lemma {:induction false} LastEightStep(hooks: seq<string>, n: nat)
    requires n < |hooks| && Distinct(hooks) && "" !in hooks
    ensures MergeHooks(LastEight(hooks[..n]), hooks[n]) == LastEight(hooks[..n + 1])
  {
    var kept := LastEight(hooks[..n]);
    var from := if n > MAX_HOOKS then n - MAX_HOOKS else 0;
    assert kept == hooks[from..n];
    assert hooks[n] in hooks && hooks[n] !in kept;
    HookArrives(kept, hooks[n]);
    hide MergeHooks, Distinct;
    assert LastEight(hooks[..n + 1]) == (if n < MAX_HOOKS then kept else kept[1..]) + [hooks[n]];
  }

  // Of any number of different hooks the last eight are kept, in order of arrival.
  lemma {:induction false} LastHooksAreKept(batch: seq<Trigger>, n: nat)
    requires 0 < n <= |batch| && Distinct(HooksOf(batch)) && "" !in HooksOf(batch)
    ensures MergeAll(batch[..n]).Some?
    ensures MergeAll(batch[..n]).value.hooks == LastEight(HooksOf(batch)[..n])
  {
    hide MergeHooks, IsPlanningChange, Distinct, LastEight;
    LastEightStep(HooksOf(batch), n - 1);
    assert batch[..n][..n - 1] == batch[..n - 1];
    if n > 1 {
      LastHooksAreKept(batch, n - 1);
    } else {
      assert HooksOf(batch)[..0] == [] && LastEight([]) == [] by {
        NothingKept();
      }
    }
  }

  lemma {:induction false} NothingKept()
    ensures LastEight([]) == []
  {
  }

  // However many hooks arrive, at most eight distinct ones are listed, the latest among them.
  lemma {:induction false} HooksAreBounded(batch: seq<Trigger>)
    requires batch != []
    ensures MergeAll(batch).Some?
    ensures var m := MergeAll(batch).value;
      && Distinct(m.hooks) && |m.hooks| <= 8
      && (batch[|batch| - 1].hook != "" ==> batch[|batch| - 1].hook in m.hooks)
      && forall h :: h in m.hooks ==> exists t :: t in batch && t.hook == h
  {
    var init, last := batch[..|batch| - 1], batch[|batch| - 1];
    assert batch == init + [last];
    if init != [] {
      HooksAreBounded(init);
    }
  }
}
