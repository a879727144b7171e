// The cached roadmap over whole runs (plugin.js, parsers/roadmap.js and PlanningCache): the
// file is edited, the process restarts, caches are dropped, and every parse still answers
// like a fresh one.
module RoadmapCache {
  import opened Options
  import opened Strings
  import R = Roadmap

  // The text of ROADMAP.md, if there is one, and the time of its last change.
  datatype Disk = Disk(text: Option<string>, mtime: int)

  // The parser and what a phase section says are given; a parse has the guarantees of the
  // patterns it is made with.
  datatype Env = Env(parse: string -> R.Roadmap, reader: R.Reader)

  ghost predicate IsParser(env: Env) {
    forall text :: R.IsRoadmap(env.reader, env.parse(text))
  }

  datatype View = FreshView(roadmap: R.Roadmap) | RebuiltView(roadmap: R.Roadmap)

  // The tables with the time stamp of the file they were filled from, and the view the
  // process holds.
  datatype Cache = Cache(tables: R.Tables, stamp: Option<int>, memory: Option<View>)

  const NO_TABLES := R.Tables([], [], [])

  // How a store ends: with the time stamp, without it, or rolled back.
  datatype StoreEnd = Committed | WithoutStamp | RolledBack

  // checkFreshness
  predicate IsFresh(c: Cache, d: Disk) {
    d.text.Some? && c.stamp == Some(d.mtime)
  }

  predicate IsBlankText(text: Option<string>) {
    text.None? || Trim(text.value) == ""
  }

  function StoredIn(c: Cache, d: Disk, m: R.Roadmap, end: StoreEnd): Cache {
    match end
    case Committed => c.(tables := R.Stored(m), stamp := Some(d.mtime))
    case WithoutStamp => c.(tables := R.Stored(m))
    case RolledBack => c
  }

  // parseRoadmap
  function ParsedIn(env: Env, c: Cache, d: Disk, end: StoreEnd): (Cache, Option<View>) {
    if c.memory.Some? then (c, c.memory)
    else if IsFresh(c, d) && c.tables.phases != [] then
      var view := RebuiltView(R.Built(env.reader, c.tables));
      (c.(memory := Some(view)), Some(view))
    else if IsBlankText(d.text) then (c, None)
    else
      var m := env.parse(d.text.value);
      (StoredIn(c, d, m, end).(memory := Some(FreshView(m))), Some(FreshView(m)))
  }

  datatype Event =
    | Edit(text: Option<string>, mtime: int)
    | Parse(end: StoreEnd)
    | Invalidate
    | Restart
    | Clear

  // The cache, the disk, and the text the process last loaded its view from.
  datatype State = State(cache: Cache, disk: Disk, loaded: Option<string>)

  function Step(env: Env, s: State, e: Event): State {
    match e
    case Edit(text, mtime) => s.(disk := Disk(text, mtime))
    case Parse(end) =>
      var c := ParsedIn(env, s.cache, s.disk, end).0;
      State(c, s.disk, if s.cache.memory.None? && c.memory.Some? then s.disk.text else s.loaded)
    case Invalidate => s.(cache := s.cache.(stamp := None, memory := None))
    case Restart => s.(cache := s.cache.(memory := None))
    case Clear => s.(cache := Cache(NO_TABLES, None, None))
  }

  function Start(d: Disk): State {
    State(Cache(NO_TABLES, None, None), d, None)
  }

  function StateOf(env: Env, d: Disk, es: seq<Event>): State {
    if es == [] then Start(d) else Step(env, StateOf(env, d, es[..|es| - 1]), es[|es| - 1])
  }

  // Every edit gives the file a later time.
  predicate Advances(env: Env, d: Disk, es: seq<Event>) {
    es == [] ||
    (Advances(env, d, es[..|es| - 1]) &&
     (es[|es| - 1].Edit? ==> es[|es| - 1].mtime > StateOf(env, d, es[..|es| - 1]).disk.mtime))
  }

  lemma {:induction false} RunAppend(env: Env, d: Disk, es: seq<Event>, e: Event)
    requires Advances(env, d, es) && !e.Edit?
    ensures Advances(env, d, es + [e]) && StateOf(env, d, es + [e]) == Step(env, StateOf(env, d, es), e)
  {
    hide Step;
    assert (es + [e])[..|es|] == es;
  }

  // ---------- What every step keeps ----------

  // The tables are those of the file while its stamp matches, and the view in memory is that
  // of the text it was loaded from.
  ghost predicate Inv(env: Env, s: State) {
    && (s.cache.stamp.Some? ==> s.cache.stamp.value <= s.disk.mtime)
    && (IsFresh(s.cache, s.disk) ==>
          s.cache.tables == R.Stored(env.parse(s.disk.text.value)) && !IsBlankText(s.disk.text))
    && (s.cache.memory.Some? ==> s.loaded.Some? && IsViewOf(env, s.cache.memory.value, s.loaded.value))
  }

  ghost predicate IsViewOf(env: Env, v: View, text: string) {
    match v
    case FreshView(m) => m == env.parse(text)
    case RebuiltView(m) => m == R.Built(env.reader, R.Stored(env.parse(text)))
  }

  lemma {:induction false} StepKeeps(env: Env, s: State, e: Event)
    requires Inv(env, s) && (e.Edit? ==> e.mtime > s.disk.mtime)
    ensures Inv(env, Step(env, s, e))
  {
    hide R.Built, R.Stored, Trim;
  }

  lemma {:induction false} RunKeeps(env: Env, d: Disk, es: seq<Event>)
    requires Advances(env, d, es)
    ensures Inv(env, StateOf(env, d, es))
  {
    hide Inv, Step;
    if es == [] {
      StartHolds(env, d);
    } else {
      RunKeeps(env, d, es[..|es| - 1]);
      StepKeeps(env, StateOf(env, d, es[..|es| - 1]), es[|es| - 1]);
    }
  }

  lemma {:induction false} StartHolds(env: Env, d: Disk)
    ensures Inv(env, Start(d))
  {
  }

  // ---------- What a parse answers ----------

  function GetPhase(env: Env, v: View, number: string): Option<R.Answer> {
    match v
    case FreshView(m) => R.GetPhaseFresh(env.reader, m, number)
    case RebuiltView(m) => R.GetPhaseCached(env.reader, m, number)
  }

  ghost predicate MilestonesAnswerFor(env: Env, v: View, text: string) {
    && (forall name :: R.GetMilestone(v.roadmap.milestones, name) == R.GetMilestone(env.parse(text).milestones, name))
    && R.CurrentMilestone(v.roadmap.milestones) == R.CurrentMilestone(env.parse(text).milestones)
  }

  // The view answers every question as a fresh parse of the text does.
  ghost predicate AnswersFor(env: Env, v: View, text: string) {
    && (forall number :: GetPhase(env, v, number) == R.GetPhaseFresh(env.reader, env.parse(text), number))
    && MilestonesAnswerFor(env, v, text)
  }

  // A view that was parsed answers like a fresh parse; one that was rebuilt does so exactly
  // when no repeated number has a first and a last phase that answer differently.
  ghost predicate IsFaithful(env: Env, v: View, text: string) {
    v.RebuiltView? ==> R.RepeatsAgree(env.reader, env.parse(text).phases)
  }

  lemma {:induction false} ViewAnswersExactlyWhen(env: Env, v: View, text: string)
    requires IsParser(env) && IsViewOf(env, v, text)
    ensures AnswersFor(env, v, text) <==> IsFaithful(env, v, text)
    ensures MilestonesAnswerFor(env, v, text)
  {
    hide R.IsRoadmap, R.Built, R.Stored, R.RepeatsAgree, R.GetPhaseCached, R.GetPhaseFresh, R.GetMilestone,
         R.CurrentMilestone;
    var m := env.parse(text);
    if v.RebuiltView? {
      R.GetPhaseAgreesExactlyWhen(env.reader, m);
      forall number
        ensures GetPhase(env, v, number) == R.GetPhaseFresh(env.reader, m, number)
                <==> R.AnswersAgree(env.reader, m, number)
      {
      }
      R.MilestonesReadBack(env.reader, m);
    }
  }

  // In every run, with any parser: a parse gives a view exactly when there is text to parse,
  // or one is held. It answers the milestone questions as a fresh parse does, of the file as
  // it is or as it was when the view that is held was loaded; and all of them exactly when it
  // was parsed itself, or the repeated numbers of that text agree.
  lemma {:induction false} ParseAnswersExactlyWhen(env: Env, d: Disk, es: seq<Event>, end: StoreEnd)
    requires IsParser(env) && Advances(env, d, es)
    ensures var s := StateOf(env, d, es);
            var view := ParsedIn(env, s.cache, s.disk, end).1;
            && (view.Some? <==> s.cache.memory.Some? || !IsBlankText(s.disk.text))
            && (view.Some? ==>
                  var text := if s.cache.memory.Some? then s.loaded else s.disk.text;
                  && text.Some?
                  && MilestonesAnswerFor(env, view.value, text.value)
                  && (AnswersFor(env, view.value, text.value) <==> IsFaithful(env, view.value, text.value)))
            && (view.Some? && s.cache.memory.None? ==>
                  (view.value.RebuiltView? <==> IsFresh(s.cache, s.disk) && s.cache.tables.phases != []))
  {
    RunKeeps(env, d, es);
    var s := StateOf(env, d, es);
    var view := ParsedIn(env, s.cache, s.disk, end).1;
    hide R.IsRoadmap, R.Built, R.Stored, R.RepeatsAgree, Trim, AnswersFor, MilestonesAnswerFor, IsFaithful, StateOf,
         Advances;
    if view.Some? {
      var text := if s.cache.memory.Some? then s.loaded.value else s.disk.text.value;
      assert IsViewOf(env, view.value, text);
      ViewAnswersExactlyWhen(env, view.value, text);
    }
  }

  // No edit from position lo on.
  predicate Unedited(es: seq<Event>, lo: nat) {
    forall k :: lo <= k < |es| ==> !es[k].Edit?
  }

  lemma {:induction false} LoadedIsCurrent(env: Env, d: Disk, es: seq<Event>, lo: nat)
    requires lo <= |es| && Unedited(es, lo) && StateOf(env, d, es[..lo]).cache.memory.None?
    ensures var s := StateOf(env, d, es); s.cache.memory.Some? ==> s.loaded == s.disk.text
  {
    hide ParsedIn;
    if lo == |es| {
      assert es[..lo] == es;
    } else {
      var front := es[..|es| - 1];
      assert front[..lo] == es[..lo];
      LoadedIsCurrent(env, d, front, lo);
      assert !es[|es| - 1].Edit?;
      HeldStays(env, StateOf(env, d, front), es[|es| - 1]);
    }
  }

  // A view that is held stays until it is dropped.
  lemma {:induction false} HeldStays(env: Env, s: State, e: Event)
    ensures s.cache.memory.Some? && e.Parse? ==> Step(env, s, e) == s
  {
  }

  // So with the file unchanged since the process last held no view, what a parse answers is
  // what a fresh parse of the file does, under the same condition.
  lemma {:induction false} ParseOfUnchangedFile(env: Env, d: Disk, es: seq<Event>, lo: nat, end: StoreEnd)
    requires IsParser(env) && Advances(env, d, es) && lo <= |es| && Unedited(es, lo)
    requires StateOf(env, d, es[..lo]).cache.memory.None?
    ensures var s := StateOf(env, d, es);
            var view := ParsedIn(env, s.cache, s.disk, end).1;
            view.Some? ==>
              && s.disk.text.Some?
              && (AnswersFor(env, view.value, s.disk.text.value) <==> IsFaithful(env, view.value, s.disk.text.value))
  {
    LoadedIsCurrent(env, d, es, lo);
    ParseAnswersExactlyWhen(env, d, es, end);
  }

  // The condition is needed: a file that repeats a number, parsed, and parsed again by a new
  // process from the tables it left, has another answer for that number.
  lemma {:induction false} RepeatedNumberAnswersDifferently(env: Env, text: string)
    requires IsParser(env) && Trim(text) != ""
    requires !R.RepeatsAgree(env.reader, env.parse(text).phases)
    ensures var es := [Parse(Committed), Restart];
            var s := StateOf(env, Disk(Some(text), 1), es);
            && Advances(env, Disk(Some(text), 1), es)
            && ParsedIn(env, s.cache, s.disk, Committed).1.Some?
            && !AnswersFor(env, ParsedIn(env, s.cache, s.disk, Committed).1.value, text)
  {
    var d, es := Disk(Some(text), 1), [Parse(Committed), Restart];
    hide R.IsRoadmap, R.Stored, R.Built, R.RepeatsAgree, AnswersFor, MilestonesAnswerFor, Trim, IsParser;
    StoredRun(env, d, text);
    ParseAnswersExactlyWhen(env, d, es, Committed);
    R.NothingRepeats(env.reader);
    R.StoredIsNotEmpty(env.parse(text));
  }

  // A first parse, and a new process: the tables are filled, fresh, and not yet read.
  lemma {:induction false} StoredRun(env: Env, d: Disk, text: string)
    requires d.text == Some(text) && Trim(text) != ""
    ensures var es := [Parse(Committed), Restart];
            && Advances(env, d, es)
            && StateOf(env, d, es)
               == State(Cache(R.Stored(env.parse(text)), Some(d.mtime), None), d, Some(text))
  {
    hide R.Stored, R.Built, Trim;
    var first, second := Parse(Committed), Restart;
    RunAppend(env, d, [], first);
    assert [] + [first] == [first];
    RunAppend(env, d, [first], second);
    assert [first] + [second] == [first, second];
  }
}
