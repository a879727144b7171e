// The attention cooldown of the multiplexer sidebar (plugin.js, cmux-attention-policy.js and
// cmux-attention-sync.js): which events of a workspace are logged or notified.
module Attention {
  import opened Options

  type Time = int

  datatype Workspace = Workspace(id: string)

  datatype Kind = Kind(text: string)

  // The identity of an event: its workspace, kind, phase, plan, task and more, joined.
  datatype Key = Key(text: string)

  // Under which the time of the last emission is kept.
  datatype Slot = Slot(text: string)

  datatype Event = Event(workspace: Workspace, kind: Kind, phase: Option<string>, plan: Option<string>,
                         task: Option<string>, identity: Option<string>)

  const COOLDOWN := 300000

  // NOTIFY_KINDS, the kinds that ask for intervention
  predicate Notifies(k: Kind) {
    k == Kind("waiting") || k == Kind("stale") || k == Kind("finalize-failed")
  }

  // LOG_ONLY_KINDS together with those: what an emission writes to the log
  predicate Logs(k: Kind) {
    || Notifies(k)
    || k == Kind("planner-start") || k == Kind("executor-start") || k == Kind("task-complete")
    || k == Kind("state-sync") || k == Kind("blocked") || k == Kind("running") || k == Kind("reconciling")
    || k == Kind("complete") || k == Kind("idle")
  }

  // No kind the plugin makes up is empty or contains a colon.
  predicate IsPlain(k: Kind) { k.text != "" && ':' !in k.text }

  function OrElse(s: Option<string>, fallback: string): string {
    if s.Some? && s.value != "" then s.value else fallback
  }

  // buildAttentionEventKey
  function KeyOf(e: Event): Key {
    Key(OrElse(Some(e.workspace.id), "unknown") + ":" + OrElse(Some(e.kind.text), "unknown") + ":" +
        OrElse(e.phase, "none") + ":" + OrElse(e.plan, "none") + ":" + OrElse(e.task, "none") + ":" +
        OrElse(e.identity, "default"))
  }

  function SlotOf(w: Workspace, k: Kind): Slot {
    Slot(w.id + ":" + k.text)
  }

  // ---------- One event ----------

  datatype Memory = Memory(lastEventKeys: map<Workspace, map<Kind, Key>>, lastEmittedAt: map<Slot, Time>)

  const NOTHING_EMITTED := Memory(map[], map[])

  datatype LastEvent = LastEvent(key: Key, at: Time)

  // getLastEvent
  function Recall(m: Memory, w: Workspace, k: Kind): Option<LastEvent> {
    if w in m.lastEventKeys && k in m.lastEventKeys[w] then
      var at := if SlotOf(w, k) in m.lastEmittedAt then m.lastEmittedAt[SlotOf(w, k)] else 0;
      Some(LastEvent(m.lastEventKeys[w][k], at))
    else None
  }

  datatype Decision = FirstOccurrence | RepeatOfLast | CooldownActive | CooldownExpired

  predicate Emits(d: Decision) { d == FirstOccurrence || d == CooldownExpired }

  // shouldEmitAttentionEvent
  function Decide(last: Option<LastEvent>, e: Event, now: Time): Decision {
    if last.None? || last.value.key != KeyOf(e) then FirstOccurrence
    else if !Notifies(e.kind) then RepeatOfLast
    else if now - last.value.at < COOLDOWN then CooldownActive
    else CooldownExpired
  }

  // rememberEvent
  function Remember(m: Memory, e: Event, now: Time): Memory {
    var kinds := if e.workspace in m.lastEventKeys then m.lastEventKeys[e.workspace] else map[];
    Memory(m.lastEventKeys[e.workspace := kinds[e.kind := KeyOf(e)]],
           m.lastEmittedAt[SlotOf(e.workspace, e.kind) := now])
  }

  function DecisionOf(m: Memory, e: Event, now: Time): Decision {
    Decide(Recall(m, e.workspace, e.kind), e, now)
  }

  // syncCmuxAttention, for a candidate event
  function Synced(m: Memory, e: Event, now: Time): Memory {
    if Emits(DecisionOf(m, e, now)) then Remember(m, e, now) else m
  }

  // ---------- Slots never collide ----------

  predicate LastColonAt(text: string, p: nat) {
    p < |text| && text[p] == ':' && forall q :: p < q < |text| ==> text[q] != ':'
  }

  lemma {:induction false} ColonSplits(a: string, b: string)
    requires ':' !in b
    ensures LastColonAt(a + ":" + b, |a|)
    ensures (a + ":" + b)[..|a|] == a && (a + ":" + b)[|a| + 1..] == b
  {
  }

  lemma {:induction false} SlotsAreDistinct(w: Workspace, k: Kind, w': Workspace, k': Kind)
    requires IsPlain(k) && IsPlain(k') && SlotOf(w, k) == SlotOf(w', k')
    ensures w == w' && k == k'
  {
    ColonSplits(w.id, k.text);
    ColonSplits(w'.id, k'.text);
  }

  // The kinds, as they are written.
  lemma {:induction false} KindsAre(k: Kind)
    ensures Notifies(k) <==> k.text in ["waiting", "stale", "finalize-failed"]
    ensures Logs(k) <==>
            k.text in ["waiting", "stale", "finalize-failed", "planner-start", "executor-start", "task-complete",
                       "state-sync", "blocked", "running", "reconciling", "complete", "idle"]
  {
  }

  // A part that is missing or empty stands for its fallback.
  predicate MeansSame(x: Option<string>, y: Option<string>, fallback: string) {
    x == y || (IsAbsent(x, fallback) && IsAbsent(y, fallback))
  }

  predicate IsAbsent(x: Option<string>, fallback: string) {
    x.None? || x.value == "" || x.value == fallback
  }

  predicate NoColon(x: Option<string>) {
    x.Some? ==> ':' !in x.value
  }

  lemma {:induction false} OrElseExactlyWhen(x: Option<string>, y: Option<string>, fallback: string)
    requires fallback != "" && ':' !in fallback
    ensures OrElse(x, fallback) == OrElse(y, fallback) <==> MeansSame(x, y, fallback)
    ensures NoColon(x) ==> ':' !in OrElse(x, fallback)
  {
  }

  lemma {:induction false} FirstColon(a: string, b: string, c: string, d: string)
    requires ':' !in a && ':' !in c
    ensures a + ":" + b == c + ":" + d <==> a == c && b == d
  {
    if a + ":" + b == c + ":" + d {
      var s, t := a + ":" + b, c + ":" + d;
      assert s[|a|] == ':' && t[|c|] == ':';
      assert forall i :: 0 <= i < |a| ==> s[i] == a[i];
      assert forall i :: 0 <= i < |c| ==> t[i] == c[i];
      assert |a| == |c|;
      assert s[..|a|] == a && t[..|c|] == c && s[|a| + 1..] == b && t[|c| + 1..] == d;
    }
  }

  ghost predicate HasNoColons(e: Event) {
    ':' !in e.workspace.id && ':' !in e.kind.text && NoColon(e.phase) && NoColon(e.plan) && NoColon(e.task)
  }

  function PlanKey(e: Event): string {
    OrElse(e.plan, "none") + ":" + (OrElse(e.task, "none") + ":" + OrElse(e.identity, "default"))
  }

  lemma {:induction false} KeyIsNested(e: Event)
    ensures KeyOf(e).text == OrElse(Some(e.workspace.id), "unknown") + ":" + (OrElse(Some(e.kind.text), "unknown")
                             + ":" + (OrElse(e.phase, "none") + ":" + PlanKey(e)))
  {
    hide OrElse;
  }

  lemma {:induction false} PlanKeysAgreeExactlyWhen(a: Event, b: Event)
    requires HasNoColons(a) && HasNoColons(b)
    ensures PlanKey(a) == PlanKey(b) <==>
            && MeansSame(a.plan, b.plan, "none") && MeansSame(a.task, b.task, "none")
            && MeansSame(a.identity, b.identity, "default")
  {
    OrElseExactlyWhen(a.plan, b.plan, "none");
    OrElseExactlyWhen(b.plan, a.plan, "none");
    OrElseExactlyWhen(a.task, b.task, "none");
    OrElseExactlyWhen(b.task, a.task, "none");
    OrElseExactlyWhen(a.identity, b.identity, "default");
    hide OrElse, MeansSame, NoColon;
    FirstColon(OrElse(a.plan, "none"), OrElse(a.task, "none") + ":" + OrElse(a.identity, "default"),
               OrElse(b.plan, "none"), OrElse(b.task, "none") + ":" + OrElse(b.identity, "default"));
    FirstColon(OrElse(a.task, "none"), OrElse(a.identity, "default"),
               OrElse(b.task, "none"), OrElse(b.identity, "default"));
  }

  // Two events without colons in their parts share a key exactly when all their parts agree.
  lemma {:induction false} KeysAgreeExactlyWhen(a: Event, b: Event)
    requires HasNoColons(a) && HasNoColons(b)
    ensures KeyOf(a) == KeyOf(b) <==>
            && MeansSame(Some(a.workspace.id), Some(b.workspace.id), "unknown")
            && MeansSame(Some(a.kind.text), Some(b.kind.text), "unknown") && MeansSame(a.phase, b.phase, "none")
            && MeansSame(a.plan, b.plan, "none") && MeansSame(a.task, b.task, "none")
            && MeansSame(a.identity, b.identity, "default")
  {
    PlanKeysAgreeExactlyWhen(a, b);
    OrElseExactlyWhen(Some(a.workspace.id), Some(b.workspace.id), "unknown");
    OrElseExactlyWhen(Some(b.workspace.id), Some(a.workspace.id), "unknown");
    OrElseExactlyWhen(Some(a.kind.text), Some(b.kind.text), "unknown");
    OrElseExactlyWhen(Some(b.kind.text), Some(a.kind.text), "unknown");
    OrElseExactlyWhen(a.phase, b.phase, "none");
    OrElseExactlyWhen(b.phase, a.phase, "none");
    KeyIsNested(a);
    KeyIsNested(b);
    hide OrElse, MeansSame, KeyOf, PlanKey;
    var wa, wb := OrElse(Some(a.workspace.id), "unknown"), OrElse(Some(b.workspace.id), "unknown");
    var ka, kb := OrElse(Some(a.kind.text), "unknown"), OrElse(Some(b.kind.text), "unknown");
    var pa, pb := OrElse(a.phase, "none"), OrElse(b.phase, "none");
    FirstColon(wa, ka + ":" + (pa + ":" + PlanKey(a)), wb, kb + ":" + (pb + ":" + PlanKey(b)));
    FirstColon(ka, pa + ":" + PlanKey(a), kb, pb + ":" + PlanKey(b));
    FirstColon(pa, PlanKey(a), pb, PlanKey(b));
  }

  // What is recalled after one event has been remembered.
  lemma {:induction false} RecallAfter(m: Memory, e: Event, now: Time, w: Workspace, k: Kind)
    requires IsPlain(e.kind) && IsPlain(k)
    ensures Recall(Remember(m, e, now), w, k)
            == if w == e.workspace && k == e.kind then Some(LastEvent(KeyOf(e), now)) else Recall(m, w, k)
  {
    if SlotOf(w, k) == SlotOf(e.workspace, e.kind) {
      SlotsAreDistinct(w, k, e.workspace, e.kind);
    }
    hide SlotOf, KeyOf, IsPlain;
  }

  // ---------- Runs ----------

  // A candidate event and the clock when it is looked at.
  datatype Candidate = Candidate(event: Event, now: Time)

  datatype Emission = Emission(workspace: Workspace, kind: Kind, key: Key, time: Time)

  function EmissionOf(c: Candidate): Emission {
    Emission(c.event.workspace, c.event.kind, KeyOf(c.event), c.now)
  }

  function MemoryOf(cs: seq<Candidate>): Memory {
    if cs == [] then NOTHING_EMITTED
    else Synced(MemoryOf(cs[..|cs| - 1]), cs[|cs| - 1].event, cs[|cs| - 1].now)
  }

  predicate IsEmitted(m: Memory, c: Candidate) {
    Emits(DecisionOf(m, c.event, c.now))
  }

  // Everything emitted in a run, in order.
  function Emissions(cs: seq<Candidate>): seq<Emission> {
    if cs == [] then []
    else
      Emissions(cs[..|cs| - 1]) +
      (if IsEmitted(MemoryOf(cs[..|cs| - 1]), cs[|cs| - 1]) then [EmissionOf(cs[|cs| - 1])] else [])
  }

  predicate Plain(cs: seq<Candidate>) {
    forall i :: 0 <= i < |cs| ==> IsPlain(cs[i].event.kind)
  }

  predicate Clocked(cs: seq<Candidate>) {
    forall i, j :: 0 <= i < j < |cs| ==> cs[i].now <= cs[j].now
  }

  // The last emission for a workspace and kind.
  function LastFor(es: seq<Emission>, w: Workspace, k: Kind): Option<LastEvent> {
    if es == [] then None
    else if es[|es| - 1].workspace == w && es[|es| - 1].kind == k then
      Some(LastEvent(es[|es| - 1].key, es[|es| - 1].time))
    else LastFor(es[..|es| - 1], w, k)
  }

  lemma {:induction false} LastForAppend(es: seq<Emission>, e: Emission, w: Workspace, k: Kind)
    ensures LastFor(es + [e], w, k)
            == if e.workspace == w && e.kind == k then Some(LastEvent(e.key, e.time)) else LastFor(es, w, k)
  {
    assert (es + [e])[..|es|] == es;
  }

  // The two maps hold, for every workspace and kind, exactly its last emission.
  lemma {:induction false} MemoryIsLastEmission(cs: seq<Candidate>, w: Workspace, k: Kind)
    requires Plain(cs) && IsPlain(k)
    ensures Recall(MemoryOf(cs), w, k) == LastFor(Emissions(cs), w, k)
  {
    hide Recall, Remember, KeyOf, Emits, DecisionOf, IsPlain;
    if cs != [] {
      var front, c := cs[..|cs| - 1], cs[|cs| - 1];
      assert IsPlain(c.event.kind);
      MemoryIsLastEmission(front, w, k);
      if IsEmitted(MemoryOf(front), c) {
        RecallAfter(MemoryOf(front), c.event, c.now, w, k);
        LastForAppend(Emissions(front), EmissionOf(c), w, k);
      } else {
        assert Emissions(front) + [] == Emissions(front);
      }
    } else {
      NothingRecalled(w, k);
    }
  }

  lemma {:induction false} NothingRecalled(w: Workspace, k: Kind)
    ensures Recall(NOTHING_EMITTED, w, k) == None
  {
  }

  // Whether a candidate is emitted depends only on the last emission for its workspace and
  // kind: there is none, or it had another key, or the kind asks for intervention and five
  // minutes have passed.
  lemma {:induction false} EmittedExactlyWhen(cs: seq<Candidate>, c: Candidate)
    requires Plain(cs + [c])
    ensures IsEmitted(MemoryOf(cs), c) <==>
            var last := LastFor(Emissions(cs), c.event.workspace, c.event.kind);
            || last.None?
            || last.value.key != KeyOf(c.event)
            || (c.event.kind.text in ["waiting", "stale", "finalize-failed"] && c.now - last.value.at >= 300000)
  {
    KindsAre(c.event.kind);
    assert IsPlain((cs + [c])[|cs|].event.kind);
    assert Plain(cs) by {
      assert forall i :: 0 <= i < |cs| ==> cs[i] == (cs + [c])[i];
    }
    MemoryIsLastEmission(cs, c.event.workspace, c.event.kind);
    hide Recall, KeyOf, Notifies, LastFor;
  }

  // No other key of that workspace and kind is emitted strictly between the two.
  predicate Uninterrupted(es: seq<Emission>, i: nat, j: nat)
    requires i < j < |es|
  {
    && es[j].workspace == es[i].workspace && es[j].kind == es[i].kind && es[j].key == es[i].key
    && forall k :: i < k < j && es[k].workspace == es[i].workspace && es[k].kind == es[i].kind ==>
        es[k].key == es[i].key
  }

  // The last emission for the slot of emission i, seen from the end, has its key and comes
  // no earlier.
  lemma {:induction false} LastHasKey(es: seq<Emission>, i: nat)
    requires i < |es|
    requires forall a, b :: 0 <= a < b < |es| ==> es[a].time <= es[b].time
    requires forall k :: i < k < |es| && es[k].workspace == es[i].workspace && es[k].kind == es[i].kind
                         ==> es[k].key == es[i].key
    ensures var last := LastFor(es, es[i].workspace, es[i].kind);
            last.Some? && last.value.key == es[i].key && last.value.at >= es[i].time
  {
    if i < |es| - 1 && !(es[|es| - 1].workspace == es[i].workspace && es[|es| - 1].kind == es[i].kind) {
      LastHasKey(es[..|es| - 1], i);
    }
  }

  lemma {:induction false} EmissionsAreOrdered(cs: seq<Candidate>)
    requires Clocked(cs)
    ensures forall a, b :: 0 <= a < b < |Emissions(cs)| ==> Emissions(cs)[a].time <= Emissions(cs)[b].time
    ensures forall a :: 0 <= a < |Emissions(cs)| ==> |cs| > 0 && Emissions(cs)[a].time <= cs[|cs| - 1].now
  {
    hide IsEmitted, KeyOf;
    if cs == [] {
      assert Emissions(cs) == [];
    } else {
      var front := cs[..|cs| - 1];
      EmissionsAreOrdered(front);
      if |front| > 0 {
        assert front[|front| - 1].now <= cs[|cs| - 1].now;
      }
    }
  }

  // Two emissions of one key with no other key of their workspace and kind in between: the
  // kind asks for intervention, and they are at least five minutes apart.
  lemma {:induction false} RepeatsCoolDown(cs: seq<Candidate>, i: nat, j: nat)
    requires Plain(cs) && Clocked(cs) && i < j < |Emissions(cs)| && Uninterrupted(Emissions(cs), i, j)
    ensures Notifies(Emissions(cs)[i].kind)
    ensures Emissions(cs)[j].time - Emissions(cs)[i].time >= 300000
  {
    hide IsEmitted, Notifies, KeyOf, MemoryOf;
    var front, c := cs[..|cs| - 1], cs[|cs| - 1];
    KindsAre(c.event.kind);
    var es := Emissions(front);
    assert Clocked(front) && Plain(front) && front + [c] == cs;
    if j < |es| {
      assert forall k :: 0 <= k < |es| ==> Emissions(cs)[k] == es[k];
      RepeatsCoolDown(front, i, j);
    } else {
      assert Emissions(cs)[j] == EmissionOf(c);
      assert forall k :: 0 <= k < |es| ==> Emissions(cs)[k] == es[k];
      EmissionsAreOrdered(front);
      LastHasKey(es, i);
      EmittedExactlyWhen(front, c);
    }
  }

  // Without that proviso it is false: a second key in between lets the first one through
  // again at once.
  lemma {:induction false} AnotherKeyResetsTheCooldown(e: Event, other: Event, now: Time)
    requires IsPlain(e.kind) && other.workspace == e.workspace && other.kind == e.kind && KeyOf(other) != KeyOf(e)
    ensures Emissions([Candidate(e, now), Candidate(other, now), Candidate(e, now)])
            == [EmissionOf(Candidate(e, now)), EmissionOf(Candidate(other, now)), EmissionOf(Candidate(e, now))]
  {
    hide KeyOf, IsPlain, Notifies, SlotOf;
    var a, b := Candidate(e, now), Candidate(other, now);
    assert [a, b, a][..2] == [a, b] && [a, b][..1] == [a] && [a][..0] == [];
    assert Emissions([]) == [] && MemoryOf([]) == NOTHING_EMITTED;
    assert Emissions([a]) == [EmissionOf(a)];
    assert Emissions([a, b]) == [EmissionOf(a), EmissionOf(b)];
  }
}
