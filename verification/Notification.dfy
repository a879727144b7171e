// The notifier of the plugin (plugin.js, src/plugin/notification.js): what one call does to
// the notifier's state, and what that means over whole runs.
module Notification {

  type Time = int

  datatype Severity = Critical | Warning | Info | Unranked(name: string)

  datatype Notice = Notice(kind: string, severity: Severity, message: string, action: string)

  datatype Entry = Entry(notice: Notice, timestamp: Time)

  // What waits for the next context injection.
  datatype Item =
    | Message(kind: string, severity: Severity, message: string, timestamp: Time)
    | Summary(count: nat, timestamp: Time)

  datatype Key = Key(text: string)

  datatype Outcome = Duplicate | RateDropped | Suppressed | Delivered

  datatype State = State(
    history: seq<Entry>,
    pending: seq<Item>,
    sending: seq<Item>,        // delivered, but still waiting for the operating system
    dnd: bool,
    suppressed: nat,
    passes: seq<Time>,
    limit: real,
    recent: map<Key, Time>)

  const MAX_HISTORY := 20
  const DEDUP_WINDOW := 5000
  const RATE_WINDOW := 60000

  const INITIAL := State([], [], [], false, 0, [], 5.0, map[])

  // One call, with the clock readings it makes. Notify ends where it starts to wait for the
  // operating system; Sent is the rest of the call that waits at that index.
  datatype Event =
    | Notify(notice: Notice, at: Time, dedupAt: Time, limitAt: Time)
    | Sent(index: nat)
    | Drain
    | SetDnd(enabled: bool, now: Time)
    | ResetCounters
    | SetRateLimit(limit: real)

  // ---------- One call ----------

  function KeyOf(n: Notice): Key { Key(n.kind + ":" + n.message) }

  // A stored time of zero counts as absent, as in the original.
  predicate IsDuplicate(recent: map<Key, Time>, key: Key, now: Time) {
    key in recent && recent[key] != 0 && now - recent[key] < DEDUP_WINDOW
  }

  function Remember(recent: map<Key, Time>, key: Key, now: Time): map<Key, Time> {
    var updated := recent[key := now];
    map k | k in updated && now - updated[k] <= DEDUP_WINDOW :: updated[k]
  }

  // The times after w, in order.
  function After(times: seq<Time>, w: Time): seq<Time> {
    if times == [] then []
    else After(times[..|times| - 1], w) + (if times[|times| - 1] > w then [times[|times| - 1]] else [])
  }

  function LastOf<T>(s: seq<T>, n: nat): seq<T> {
    if |s| <= n then s else s[|s| - n..]
  }

  function Record(history: seq<Entry>, e: Entry): seq<Entry> {
    if |history| + 1 > MAX_HISTORY then (history + [e])[1..] else history + [e]
  }

  predicate Urgent(s: Severity) { s == Critical || s == Warning }

  function ItemOf(n: Notice, at: Time): Item {
    Message(n.kind, n.severity, n.message, at)
  }

  function OutcomeOf(s: State, e: Event): Outcome
    requires e.Notify?
  {
    if IsDuplicate(s.recent, KeyOf(e.notice), e.dedupAt) then Duplicate
    else if |After(s.passes, e.limitAt - RATE_WINDOW)| as real >= s.limit then RateDropped
    else if s.dnd && e.notice.severity != Critical then Suppressed
    else Delivered
  }

  function Notified(s: State, e: Event): State
    requires e.Notify?
  {
    var seen := s.(history := Record(s.history, Entry(e.notice, e.at)));
    var outcome := OutcomeOf(s, e);
    if outcome == Duplicate then seen
    else
      var kept := After(s.passes, e.limitAt - RATE_WINDOW);
      var checked := seen.(recent := Remember(s.recent, KeyOf(e.notice), e.dedupAt),
                           passes := if outcome == RateDropped then kept else kept + [e.limitAt]);
      var item := ItemOf(e.notice, e.at);
      if outcome == RateDropped then checked
      else if outcome == Suppressed then checked.(suppressed := s.suppressed + 1)
      else if Urgent(e.notice.severity) then checked.(sending := s.sending + [item])
      else checked.(pending := s.pending + [item])
  }

  function Step(s: State, e: Event): State {
    match e
    case Notify(_, _, _, _) => Notified(s, e)
    case Sent(i) =>
      if i < |s.sending| then
        s.(sending := s.sending[..i] + s.sending[i + 1..], pending := s.pending + [s.sending[i]])
      else s
    case Drain => s.(pending := [])
    case SetDnd(enabled, now) =>
      if enabled then s.(dnd := true)
      else
        s.(dnd := false, suppressed := 0,
           pending := if s.suppressed > 0 then s.pending + [Summary(s.suppressed, now)] else s.pending)
    case ResetCounters => s.(passes := [])
    case SetRateLimit(limit) => if limit > 0.0 then s.(limit := limit) else s
  }

  // ---------- Runs ----------

  function Front<T>(s: seq<T>): seq<T>
    requires s != []
  {
    s[..|s| - 1]
  }

  function Last<T>(s: seq<T>): T
    requires s != []
  {
    s[|s| - 1]
  }

  function StateOf(es: seq<Event>): State {
    if es == [] then INITIAL else Step(StateOf(Front(es)), Last(es))
  }

  function Clock(es: seq<Event>): Time {
    if es == [] then 0
    else
      match Last(es)
      case Notify(_, _, _, limitAt) => limitAt
      case SetDnd(_, now) => now
      case _ => Clock(Front(es))
  }

  // The clock is positive and never runs backwards, also between the readings of one call.
  predicate Reads(clock: Time, e: Event) {
    match e
    case Notify(_, at, dedupAt, limitAt) => clock <= at <= dedupAt <= limitAt && at > 0
    case SetDnd(_, now) => clock <= now
    case _ => true
  }

  predicate Clocked(es: seq<Event>) {
    es == [] || (Clocked(Front(es)) && Reads(Clock(Front(es)), Last(es)))
  }

  // ---------- Duplicates ----------

  datatype Pass = Pass(key: Key, time: Time)

  predicate PassesDedup(s: State, e: Event) {
    e.Notify? && OutcomeOf(s, e) != Duplicate
  }

  // Every call that was not a duplicate, oldest first; nothing is ever forgotten here.
  function DedupPasses(es: seq<Event>): seq<Pass> {
    if es == [] then []
    else
      DedupPasses(Front(es)) +
      (if PassesDedup(StateOf(Front(es)), Last(es)) then [Pass(KeyOf(Last(es).notice), Last(es).dedupAt)] else [])
  }

  // A remembered time is that of some pass; a pass is remembered, or superseded by a later
  // one, until it is too old to matter.
  ghost predicate Remembers(passes: seq<Pass>, recent: map<Key, Time>, clock: Time) {
    && (forall i :: 0 <= i < |passes| ==> 0 < passes[i].time <= clock)
    && (forall k :: k in recent ==> Pass(k, recent[k]) in passes)
    && (forall i :: 0 <= i < |passes| ==> IsCovered(passes[i], recent, clock))
  }

  predicate IsCovered(p: Pass, recent: map<Key, Time>, clock: Time) {
    (p.key in recent && recent[p.key] >= p.time) || clock - p.time > DEDUP_WINDOW
  }

  lemma {:induction false} RememberCovers(p: Pass, recent: map<Key, Time>, key: Key, now: Time, clock: Time,
      later: Time)
    requires IsCovered(p, recent, clock) && p.time <= clock <= now <= later
    ensures IsCovered(p, Remember(recent, key, now), later)
  {
  }

  lemma {:induction false} PassIsRemembered(passes: seq<Pass>, recent: map<Key, Time>, key: Key,
                                            clock: Time, now: Time, later: Time)
    requires Remembers(passes, recent, clock) && clock <= now <= later && now > 0
    ensures Remembers(passes + [Pass(key, now)], Remember(recent, key, now), later)
  {
    var recent' := Remember(recent, key, now);
    var passes' := passes + [Pass(key, now)];
    forall i | 0 <= i < |passes'|
      ensures 0 < passes'[i].time <= later && IsCovered(passes'[i], recent', later)
    {
      if i < |passes| {
        RememberCovers(passes[i], recent, key, now, clock, later);
      }
    }
    forall k | k in recent'
      ensures Pass(k, recent'[k]) in passes'
    {
      if k == key {
        assert passes'[|passes|] == Pass(key, now);
      } else {
        assert Pass(k, recent[k]) in passes;
      }
    }
  }

  lemma {:induction false} StepRecent(s: State, e: Event)
    ensures Step(s, e).recent
            == if PassesDedup(s, e) then Remember(s.recent, KeyOf(e.notice), e.dedupAt) else s.recent
  {
    hide After, Record, Remember, IsDuplicate, KeyOf;
  }

  lemma {:induction false} MemoryStays(passes: seq<Pass>, recent: map<Key, Time>, clock: Time, later: Time)
    requires Remembers(passes, recent, clock) && clock <= later
    ensures Remembers(passes, recent, later)
  {
  }

  lemma {:induction false} ClockAdvances(es: seq<Event>)
    requires Clocked(es) && es != []
    ensures Clock(Front(es)) <= Clock(es)
  {
  }

  lemma {:induction false} NothingToRemember()
    ensures Remembers([], map[], 0)
  {
  }

  lemma {:induction false} MemoryIsSound(es: seq<Event>)
    requires Clocked(es)
    ensures Remembers(DedupPasses(es), StateOf(es).recent, Clock(es)) && 0 <= Clock(es)
  {
    hide Remembers, Step, OutcomeOf, Remember, KeyOf;
    if es == [] {
      NothingToRemember();
    } else {
      StepRecent(StateOf(Front(es)), Last(es));
      ClockAdvances(es);
      assert DedupPasses(Front(es)) + [] == DedupPasses(Front(es));
      if !PassesDedup(StateOf(Front(es)), Last(es)) {
        MemoryIsSound(Front(es));
        MemoryStays(DedupPasses(Front(es)), StateOf(Front(es)).recent, Clock(Front(es)), Clock(es));
        return;
      }
      MemoryIsSound(Front(es));
      var s, e := StateOf(Front(es)), Last(es);
      if PassesDedup(s, e) {
        PassIsRemembered(DedupPasses(Front(es)), s.recent, KeyOf(e.notice), Clock(Front(es)), e.dedupAt, e.limitAt);
      }
    }
  }

  // A call is a duplicate exactly when, over the whole run, some earlier call with its key
  // was not one and came less than five seconds before.
  lemma {:induction false} DuplicateExactlyWhen(es: seq<Event>, e: Event)
    requires Clocked(es + [e]) && e.Notify?
    ensures OutcomeOf(StateOf(es), e) == Duplicate
            <==> exists p :: p in DedupPasses(es) && p.key == KeyOf(e.notice) && e.dedupAt - p.time < 5000
  {
    assert Front(es + [e]) == es;
    MemoryIsSound(es);
    var passes, recent := DedupPasses(es), StateOf(es).recent;
    var key := KeyOf(e.notice);
    if OutcomeOf(StateOf(es), e) == Duplicate {
      assert Pass(key, recent[key]) in passes;
    }
    forall p | p in passes && p.key == key && e.dedupAt - p.time < 5000
      ensures OutcomeOf(StateOf(es), e) == Duplicate
    {
      assert IsCovered(p, recent, Clock(es));
    }
  }

  // So two calls with one key both get through only five seconds apart.
  lemma {:induction false} PassesAreSpaced(es: seq<Event>, i: nat, j: nat)
    requires Clocked(es) && i < j < |DedupPasses(es)| && DedupPasses(es)[i].key == DedupPasses(es)[j].key
    ensures DedupPasses(es)[j].time - DedupPasses(es)[i].time >= 5000
  {
    hide StateOf, Step, IsDuplicate, After;
    var front, e := Front(es), Last(es);
    if j < |DedupPasses(front)| {
      PassesAreSpaced(front, i, j);
    } else {
      assert es == front + [e];
      assert DedupPasses(es)[i] == DedupPasses(front)[i];
      DuplicateExactlyWhen(front, e);
      assert DedupPasses(front)[i] in DedupPasses(front);
    }
  }

  // ---------- The rate limit ----------

  predicate PassesLimiter(s: State, e: Event) {
    PassesDedup(s, e) && OutcomeOf(s, e) != RateDropped
  }

  // The time of every call past the limiter since the counters were last reset.
  function LimiterPasses(es: seq<Event>): seq<Time> {
    if es == [] || Last(es).ResetCounters? then []
    else LimiterPasses(Front(es)) + (if PassesLimiter(StateOf(Front(es)), Last(es)) then [Last(es).limitAt] else [])
  }

  lemma {:induction false} AfterAppend(a: seq<Time>, b: seq<Time>, w: Time)
    ensures After(a + b, w) == After(a, w) + After(b, w)
  {
    if b == [] {
      assert a + b == a;
    } else {
      AfterAppend(a, Front(b), w);
      assert Front(a + b) == a + Front(b);
    }
  }

  lemma {:induction false} AfterTwice(times: seq<Time>, v: Time, w: Time)
    requires v <= w
    ensures After(After(times, v), w) == After(times, w)
  {
    if times != [] {
      AfterTwice(Front(times), v, w);
      AfterAppend(After(Front(times), v), [Last(times)], w);
      assert After(Front(times), v) + [] == After(Front(times), v);
    }
  }

  // The times the limiter has forgotten are those before this one.
  function Forgotten(es: seq<Event>): Time {
    if es == [] then -RATE_WINDOW
    else if PassesDedup(StateOf(Front(es)), Last(es)) then Last(es).limitAt - RATE_WINDOW
    else Forgotten(Front(es))
  }

  lemma {:induction false} StepPasses(s: State, e: Event)
    ensures !e.ResetCounters? && !PassesDedup(s, e) ==> Step(s, e).passes == s.passes
    ensures e.ResetCounters? ==> Step(s, e).passes == []
    ensures PassesDedup(s, e) ==>
      Step(s, e).passes
      == After(s.passes, e.limitAt - RATE_WINDOW) + (if PassesLimiter(s, e) then [e.limitAt] else [])
  {
    hide Record, Remember, IsDuplicate, KeyOf, After;
  }

  lemma {:induction false} LimiterForgets(es: seq<Event>)
    requires Clocked(es)
    ensures StateOf(es).passes == After(LimiterPasses(es), Forgotten(es))
    ensures Forgotten(es) <= Clock(es) - RATE_WINDOW
  {
    hide Step, OutcomeOf;
    if es != [] {
      var front, e := Front(es), Last(es);
      LimiterForgets(front);
      ClockAdvances(es);
      var s := StateOf(front);
      StepPasses(s, e);
      assert LimiterPasses(front) + [] == LimiterPasses(front);
      if PassesDedup(s, e) {
        var w := e.limitAt - RATE_WINDOW;
        AfterTwice(LimiterPasses(front), Forgotten(front), w);
        AfterAppend(LimiterPasses(front), [e.limitAt], w);
        assert After([e.limitAt], w) == [e.limitAt] by {
          assert After([], w) == [];
        }
      }
    }
  }

  // Forgetting old times costs nothing: a call is dropped exactly when, of all the calls that
  // passed since the last reset, too many came within the last minute.
  lemma {:induction false} DroppedExactlyWhen(es: seq<Event>, e: Event)
    requires Clocked(es + [e]) && PassesDedup(StateOf(es), e)
    ensures OutcomeOf(StateOf(es), e) == RateDropped
            <==> |After(LimiterPasses(es), e.limitAt - 60000)| as real >= StateOf(es).limit
  {
    LastMinuteIsKept(es, e);
    DropsByPasses(StateOf(es), e);
    hide After, LimiterPasses, StateOf, Clocked, IsDuplicate, KeyOf;
  }

  lemma {:induction false} LastMinuteIsKept(es: seq<Event>, e: Event)
    requires Clocked(es + [e]) && PassesDedup(StateOf(es), e)
    ensures After(StateOf(es).passes, e.limitAt - 60000) == After(LimiterPasses(es), e.limitAt - 60000)
  {
    assert Front(es + [e]) == es;
    LimiterForgets(es);
    AfterTwice(LimiterPasses(es), Forgotten(es), e.limitAt - RATE_WINDOW);
    hide After, LimiterPasses, StateOf, Forgotten, PassesDedup;
  }

  lemma {:induction false} DropsByPasses(s: State, e: Event)
    requires PassesDedup(s, e)
    ensures OutcomeOf(s, e) == RateDropped <==> |After(s.passes, e.limitAt - 60000)| as real >= s.limit
  {
    hide After, IsDuplicate, KeyOf;
  }

  // From position lo on, neither the limit nor the counters are touched.
  predicate Steady(es: seq<Event>, lo: nat) {
    forall k :: lo <= k < |es| ==> !es[k].ResetCounters? && !es[k].SetRateLimit?
  }

  lemma {:induction false} SteadyFront(es: seq<Event>, lo: nat)
    requires lo < |es| && Steady(es, lo)
    ensures Steady(Front(es), lo) && es == Front(es) + [Last(es)]
    ensures !Last(es).SetRateLimit? && !Last(es).ResetCounters?
  {
    assert !es[|es| - 1].SetRateLimit? && !es[|es| - 1].ResetCounters?;
    assert forall k :: 0 <= k < |es| - 1 ==> Front(es)[k] == es[k];
  }

  function PassesFrom(es: seq<Event>, lo: nat): seq<Time> {
    if |es| <= lo then []
    else PassesFrom(Front(es), lo) + (if PassesLimiter(StateOf(Front(es)), Last(es)) then [Last(es).limitAt] else [])
  }

  lemma {:induction false} PassesSplit(es: seq<Event>, lo: nat)
    requires lo <= |es| && Steady(es, lo)
    ensures LimiterPasses(es) == LimiterPasses(es[..lo]) + PassesFrom(es, lo)
  {
    if lo == |es| {
      assert es[..lo] == es;
    } else {
      assert Front(es)[..lo] == es[..lo];
      SteadyFront(es, lo);
      PassesSplit(Front(es), lo);
    }
  }

  // The times in the minute that starts after w.
  function Within(times: seq<Time>, w: Time): seq<Time> {
    if times == [] then []
    else
      Within(Front(times), w) + (if w < Last(times) <= w + 60000 then [Last(times)] else [])
  }

  lemma {:induction false} WithinIsAfter(times: seq<Time>, w: Time, v: Time)
    requires v <= w
    ensures |Within(times, w)| <= |After(times, v)|
  {
    if times != [] {
      WithinIsAfter(Front(times), w, v);
    }
  }

  lemma {:induction false} WithinAppend(times: seq<Time>, t: Time, w: Time)
    ensures Within(times + [t], w) == Within(times, w) + (if w < t <= w + 60000 then [t] else [])
  {
    assert Front(times + [t]) == times;
  }

  lemma {:induction false} StepLimit(s: State, e: Event)
    ensures !e.SetRateLimit? ==> Step(s, e).limit == s.limit
    ensures s.limit > 0.0 ==> Step(s, e).limit > 0.0
  {
    hide Record, Remember, OutcomeOf, KeyOf, After;
  }

  lemma {:induction false} LimitIsPositive(es: seq<Event>)
    ensures StateOf(es).limit > 0.0
  {
    hide Step;
    if es != [] {
      StepLimit(StateOf(Front(es)), Last(es));
    }
    if es != [] {
      LimitIsPositive(Front(es));
    }
  }

  // When a call passes inside the minute, the earlier ones in it were below the limit.
  lemma {:induction false} NewPassHasRoom(es: seq<Event>, e: Event, lo: nat, w: Time)
    requires Clocked(es + [e]) && lo <= |es| && Steady(es, lo)
    requires PassesLimiter(StateOf(es), e) && e.limitAt <= w + RATE_WINDOW
    ensures |Within(PassesFrom(es, lo), w)| as real < StateOf(es).limit
  {
    hide Step, OutcomeOf, After, Within, StateOf, Clocked, Steady, LimiterPasses, PassesFrom;
    var v := e.limitAt - RATE_WINDOW;
    DroppedExactlyWhen(es, e);
    PassesSplit(es, lo);
    AfterAppend(LimiterPasses(es[..lo]), PassesFrom(es, lo), v);
    WithinIsAfter(PassesFrom(es, lo), w, v);
  }

  // While the limit stays put and nothing is reset, fewer than limit + 1 calls pass in any
  // minute; for a whole number that is at most the limit.
  lemma {:induction false} AtMostLimitPerMinute(es: seq<Event>, lo: nat, w: Time)
    requires Clocked(es) && lo <= |es| && Steady(es, lo)
    ensures |Within(PassesFrom(es, lo), w)| as real < StateOf(es).limit + 1.0
  {
    hide Step, OutcomeOf, After, Steady, StateOf, PassesFrom, Clocked, Within, PassesLimiter;
    LimitIsPositive(es);
    if lo < |es| {
      var front, e := Front(es), Last(es);
      SteadyFront(es, lo);
      LastStep(es, lo);
      AtMostLimitPerMinute(front, lo, w);
      if PassesLimiter(StateOf(front), e) {
        WithinAppend(PassesFrom(front, lo), e.limitAt, w);
        if w < e.limitAt <= w + RATE_WINDOW {
          NewPassHasRoom(front, e, lo, w);
        }
      }
    } else {
      NothingYet(es, lo, w);
    }
  }

  lemma {:induction false} NothingYet(es: seq<Event>, lo: nat, w: Time)
    requires lo == |es|
    ensures Within(PassesFrom(es, lo), w) == []
  {
  }

  // What the last event of a steady run changes.
  lemma {:induction false} LastStep(es: seq<Event>, lo: nat)
    requires Clocked(es) && lo < |es| && !Last(es).SetRateLimit?
    ensures Clocked(Front(es)) && StateOf(es).limit == StateOf(Front(es)).limit
    ensures PassesLimiter(StateOf(Front(es)), Last(es)) ==>
      Last(es).Notify? && PassesFrom(es, lo) == PassesFrom(Front(es), lo) + [Last(es).limitAt]
    ensures !PassesLimiter(StateOf(Front(es)), Last(es)) ==> PassesFrom(es, lo) == PassesFrom(Front(es), lo)
  {
    StepLimit(StateOf(Front(es)), Last(es));
    hide Step, OutcomeOf, Reads;
    assert PassesFrom(Front(es), lo) + [] == PassesFrom(Front(es), lo);
  }

  // ---------- History, suppression, delivery ----------

  function Entries(es: seq<Event>): seq<Entry> {
    if es == [] then []
    else Entries(Front(es)) + (if Last(es).Notify? then [Entry(Last(es).notice, Last(es).at)] else [])
  }

  lemma {:induction false} StepHistory(s: State, e: Event)
    ensures Step(s, e).history == if e.Notify? then Record(s.history, Entry(e.notice, e.at)) else s.history
  {
    hide Record, Remember, OutcomeOf, KeyOf, After;
  }

  // The history is the last twenty calls, whatever became of them.
  lemma {:induction false} HistoryIsLastTwenty(es: seq<Event>)
    ensures StateOf(es).history == LastOf(Entries(es), 20)
  {
    hide Step;
    if es != [] {
      HistoryIsLastTwenty(Front(es));
      StepHistory(StateOf(Front(es)), Last(es));
    }
  }

  predicate IsOutcome(s: State, e: Event, outcome: Outcome) {
    e.Notify? && OutcomeOf(s, e) == outcome
  }

  function CountOutcomes(es: seq<Event>, outcome: Outcome): nat {
    if es == [] then 0
    else CountOutcomes(Front(es), outcome) + (if IsOutcome(StateOf(Front(es)), Last(es), outcome) then 1 else 0)
  }

  function ProducedBy(s: State, e: Event): seq<Item> {
    if IsOutcome(s, e, Delivered) then [ItemOf(e.notice, e.at)]
    else if e.SetDnd? && !e.enabled && s.suppressed > 0 then [Summary(s.suppressed, e.now)]
    else []
  }

  function DrainedBy(s: State, e: Event): seq<Item> {
    if e.Drain? then s.pending else []
  }

  // Everything that was meant to reach the next context, in the order it was produced.
  function Produced(es: seq<Event>): seq<Item> {
    if es == [] then [] else Produced(Front(es)) + ProducedBy(StateOf(Front(es)), Last(es))
  }

  function Drained(es: seq<Event>): seq<Item> {
    if es == [] then [] else Drained(Front(es)) + DrainedBy(StateOf(Front(es)), Last(es))
  }

  lemma {:induction false} TakeOut<T>(s: seq<T>, i: nat)
    requires i < |s|
    ensures multiset(s) == multiset(s[..i] + s[i + 1..]) + multiset{s[i]}
  {
    assert s == s[..i] + [s[i]] + s[i + 1..];
  }

  // Pending for the next context, or waiting for the operating system.
  function Waiting(s: State): multiset<Item> {
    multiset(s.pending) + multiset(s.sending)
  }

  lemma {:induction false} NotifyMoves(s: State, e: Event)
    requires e.Notify?
    ensures ProducedBy(s, e) == [] ==> Step(s, e).pending == s.pending && Step(s, e).sending == s.sending
    ensures ProducedBy(s, e) != [] ==>
      || (Step(s, e).pending == s.pending + ProducedBy(s, e) && Step(s, e).sending == s.sending)
      || (Step(s, e).pending == s.pending && Step(s, e).sending == s.sending + ProducedBy(s, e))
  {
    hide Record, Remember, OutcomeOf, KeyOf, After;
  }

  lemma {:induction false} AppendedOnce<T>(a: seq<T>, b: seq<T>)
    ensures multiset(a + b) == multiset(a) + multiset(b)
  {
  }

  lemma {:induction false} StepDelivers(s: State, e: Event)
    ensures Waiting(s) + multiset(ProducedBy(s, e)) == Waiting(Step(s, e)) + multiset(DrainedBy(s, e))
  {
    if e.Notify? {
      NotifyMoves(s, e);
      hide Step, ProducedBy;
      AppendedOnce(s.pending, ProducedBy(s, e));
      AppendedOnce(s.sending, ProducedBy(s, e));
    } else if e.Sent? {
      SentDelivers(s, e);
    } else {
      hide Notified, IsOutcome;
      AppendedOnce(s.pending, ProducedBy(s, e));
    }
  }

  lemma {:induction false} MoveOne(from: seq<Item>, to: seq<Item>, i: nat)
    requires i < |from|
    ensures multiset(to + [from[i]]) + multiset(from[..i] + from[i + 1..]) == multiset(to) + multiset(from)
  {
    TakeOut(from, i);
    AppendedOnce(to, [from[i]]);
  }

  lemma {:induction false} SentDelivers(s: State, e: Event)
    requires e.Sent?
    ensures Waiting(s) + multiset(ProducedBy(s, e)) == Waiting(Step(s, e)) + multiset(DrainedBy(s, e))
  {
    hide Notified;
    if e.index < |s.sending| {
      MoveOne(s.sending, s.pending, e.index);
    }
    assert ProducedBy(s, e) == [] && DrainedBy(s, e) == [];
    hide ProducedBy, DrainedBy;
  }

  // n calls to the operating system return, in the order in which they were made.
  function Sends(n: nat): seq<Event> {
    if n == 0 then [] else Sends(n - 1) + [Sent(0)]
  }

  // Once every waiting call has returned, its item is pending.
  lemma {:induction false} SendsDeliver(es: seq<Event>, n: nat)
    requires n <= |StateOf(es).sending|
    ensures StateOf(es + Sends(n)).sending == StateOf(es).sending[n..]
    ensures StateOf(es + Sends(n)).pending == StateOf(es).pending + StateOf(es).sending[..n]
  {
    if n == 0 {
      assert es + Sends(0) == es;
    } else {
      SendsDeliver(es, n - 1);
      var more := es + Sends(n - 1);
      assert es + Sends(n) == more + [Sent(0)];
      OneSend(more);
      hide StateOf, Sends;
      Shift(StateOf(es).sending, StateOf(es).pending, n);
    }
  }

  lemma {:induction false} Shift<T>(from: seq<T>, to: seq<T>, n: nat)
    requires 0 < n <= |from|
    ensures from[n - 1..] != [] && from[n - 1..][1..] == from[n..]
    ensures to + from[..n - 1] + [from[n - 1..][0]] == to + from[..n]
  {
  }

  lemma {:induction false} OneSend(es: seq<Event>)
    requires StateOf(es).sending != []
    ensures var s := StateOf(es); StateOf(es + [Sent(0)]).sending == s.sending[1..]
    ensures var s := StateOf(es); StateOf(es + [Sent(0)]).pending == s.pending + [s.sending[0]]
  {
    assert Front(es + [Sent(0)]) == es && Last(es + [Sent(0)]) == Sent(0);
    var s := StateOf(es);
    assert StateOf(es + [Sent(0)]) == Step(s, Sent(0));
    hide StateOf, Notified;
    assert s.sending[..0] + s.sending[1..] == s.sending[1..];
  }

  lemma {:induction false} Balance(produced: multiset<Item>, drained: multiset<Item>, more: multiset<Item>,
                                   out: multiset<Item>, before: multiset<Item>, after: multiset<Item>)
    requires produced == drained + before && before + more == after + out
    ensures produced + more == (drained + out) + after
  {
    forall x: Item
      ensures (produced + more)[x] == ((drained + out) + after)[x]
    {
      assert (before + more)[x] == (after + out)[x];
    }
  }

  // Nothing is lost or sent twice, however the waiting calls interleave: what was produced
  // has been drained, is pending, or waits for the operating system.
  lemma {:induction false} DeliveryIsConserved(es: seq<Event>)
    ensures multiset(Produced(es))
            == multiset(Drained(es)) + Waiting(StateOf(es))
  {
    hide Step, ProducedBy, DrainedBy;
    if es != [] {
      var s, e := StateOf(Front(es)), Last(es);
      DeliveryIsConserved(Front(es));
      StepDelivers(s, e);
      Balance(multiset(Produced(Front(es))), multiset(Drained(Front(es))), multiset(ProducedBy(s, e)),
              multiset(DrainedBy(s, e)), Waiting(s), Waiting(Step(s, e)));
    }
  }

  function Summed(items: seq<Item>): nat {
    if items == [] then 0
    else Summed(Front(items)) + (if Last(items).Summary? then Last(items).count else 0)
  }

  lemma {:induction false} NothingSummed()
    ensures Summed([]) == 0
  {
  }

  lemma {:induction false} SummedAppend(items: seq<Item>, more: seq<Item>)
    requires |more| <= 1
    ensures Summed(items + more) == Summed(items) + Summed(more)
  {
    if more == [] {
      assert items + more == items;
    } else {
      assert Front(items + more) == items;
      assert Front(more) == [];
    }
  }

  lemma {:induction false} StepSuppresses(s: State, e: Event)
    ensures s.suppressed + (if IsOutcome(s, e, Suppressed) then 1 else 0)
            == Step(s, e).suppressed + Summed(ProducedBy(s, e))
  {
    hide Record, Remember, OutcomeOf, KeyOf, After;
    assert Summed([]) == 0;
    if ProducedBy(s, e) != [] {
      assert Front(ProducedBy(s, e)) == [];
    }
  }

  // Every suppressed call is counted in exactly one summary, or still to be summarised.
  lemma {:induction false} SuppressionIsReported(es: seq<Event>)
    ensures CountOutcomes(es, Suppressed) == Summed(Produced(es)) + StateOf(es).suppressed
  {
    hide Step, ProducedBy, Summed;
    if es == [] {
      NothingSummed();
    } else {
      SuppressionIsReported(Front(es));
      StepSuppresses(StateOf(Front(es)), Last(es));
      AtMostOneProduced(StateOf(Front(es)), Last(es));
      SummedAppend(Produced(Front(es)), ProducedBy(StateOf(Front(es)), Last(es)));
    }
  }

  lemma {:induction false} AtMostOneProduced(s: State, e: Event)
    ensures |ProducedBy(s, e)| <= 1
  {
  }

  // ---------- What a call comes to ----------

  // Do not disturb is on exactly when it was turned on last.
  function LastDnd(es: seq<Event>): bool {
    if es == [] then false else if Last(es).SetDnd? then Last(es).enabled else LastDnd(Front(es))
  }

  // The limit is the last positive one that was set, and 5 before.
  function LastLimit(es: seq<Event>): real {
    if es == [] then 5.0
    else if Last(es).SetRateLimit? && Last(es).limit > 0.0 then Last(es).limit
    else LastLimit(Front(es))
  }

  lemma {:induction false} SettingsAreLast(es: seq<Event>)
    ensures StateOf(es).dnd == LastDnd(es) && StateOf(es).limit == LastLimit(es)
  {
    hide Record, Remember, OutcomeOf, KeyOf, After;
    if es != [] {
      SettingsAreLast(Front(es));
    }
  }

  // A call that passes the checks is suppressed exactly when do not disturb was turned on last
  // and it is not critical; otherwise it is delivered.
  lemma {:induction false} SuppressedExactlyWhen(es: seq<Event>, e: Event)
    requires e.Notify? && OutcomeOf(StateOf(es), e) != Duplicate && OutcomeOf(StateOf(es), e) != RateDropped
    ensures OutcomeOf(StateOf(es), e) == Suppressed <==> LastDnd(es) && e.notice.severity != Critical
    ensures OutcomeOf(StateOf(es), e) == Delivered <==> !LastDnd(es) || e.notice.severity == Critical
  {
    SettingsAreLast(es);
    hide KeyOf, After, StateOf, IsDuplicate;
  }

  // What a call hands on: its own words and time, through the operating system if it is
  // critical or a warning and at once otherwise; nothing unless it is delivered.
  lemma {:induction false} CallHandsOn(s: State, e: Event)
    requires e.Notify?
    ensures var item := Message(e.notice.kind, e.notice.severity, e.notice.message, e.at);
      var delivered, slow := OutcomeOf(s, e) == Delivered, e.notice.severity in {Critical, Warning};
      && Step(s, e).sending == (if delivered && slow then s.sending + [item] else s.sending)
      && Step(s, e).pending == (if delivered && !slow then s.pending + [item] else s.pending)
      && Step(s, e).dnd == s.dnd && Step(s, e).limit == s.limit
  {
    hide Record, Remember, OutcomeOf, KeyOf, After;
  }

  // ---------- Keys ----------

  // Two notices share a key exactly when they have one kind and one message, as long as no
  // kind contains a colon.
  lemma {:induction false} KeysAgreeExactlyWhen(a: Notice, b: Notice)
    requires ':' !in a.kind && ':' !in b.kind
    ensures KeyOf(a) == KeyOf(b) <==> a.kind == b.kind && a.message == b.message
  {
    if KeyOf(a) == KeyOf(b) {
      var s, t := a.kind + ":" + a.message, b.kind + ":" + b.message;
      assert s[|a.kind|] == ':' && t[|b.kind|] == ':';
      assert forall i :: 0 <= i < |a.kind| ==> s[i] == a.kind[i];
      assert forall i :: 0 <= i < |b.kind| ==> t[i] == b.kind[i];
      assert |a.kind| == |b.kind|;
      assert s[..|a.kind|] == a.kind && t[..|b.kind|] == b.kind;
      assert s[|a.kind| + 1..] == a.message && t[|b.kind| + 1..] == b.message;
    }
  }

  // With a colon in a kind they may share one without that.
  lemma {:induction false} ColonConfusesKeys(kind: string, middle: string, message: string, severity: Severity,
      action: string)
    ensures KeyOf(Notice(kind + ":" + middle, severity, message, action))
            == KeyOf(Notice(kind, severity, middle + ":" + message, action))
  {
    assert kind + ":" + middle + ":" + message == kind + ":" + (middle + ":" + message);
  }
}
