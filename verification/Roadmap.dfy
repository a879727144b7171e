// The roadmap view of the plugin (plugin.js, parsers/roadmap.js): what a fresh parse of
// ROADMAP.md answers, how it is kept in database rows, and what the view rebuilt from them
// answers.
module Roadmap {
  import opened Options
  import opened SeqFacts
  import opened TextOrder
  import opened Strings
  import T = SqlTable

  // What the text of a phase section says: its test hint, if it has one (which may be of no
  // known kind), and everything else getPhase reads out of it.
  datatype Details = Details(dependsOn: Option<string>, requirements: Option<string>, successCriteria: seq<string>,
                             plans: Option<(nat, nat)>)

  datatype Reader = Reader(hint: string -> Option<Option<string>>, details: string -> Details)

  datatype Phase = Phase(number: string, name: string, status: string, planCount: nat, goal: Option<string>,
                         tdd: Option<string>, section: string)

  datatype Range = Range(start: nat, end: nat)

  datatype Milestone = Milestone(name: string, version: Option<string>, status: string, phases: Option<Range>)

  datatype Progress = Progress(phase: string, complete: nat, total: nat, status: string, completed: Option<string>)

  datatype Roadmap = Roadmap(milestones: seq<Milestone>, phases: seq<Phase>, progress: seq<Progress>)

  // ---------- What the parser guarantees ----------

  function HintOf(r: Reader, section: string): Option<string> {
    match r.hint(section)
    case Some(hint) => hint
    case None => None
  }

  predicate IsPhase(r: Reader, p: Phase) {
    p.number != "" && p.status != "" && p.goal != Some("") && p.tdd == HintOf(r, p.section)
  }

  predicate IsMilestone(m: Milestone) {
    m.version.Some? && m.version.value != "" && m.status != ""
  }

  predicate IsProgress(p: Progress) {
    p.phase != "" && p.status != "" && p.completed != Some("")
  }

  predicate IsRoadmap(r: Reader, m: Roadmap) {
    && (forall i :: 0 <= i < |m.phases| ==> IsPhase(r, m.phases[i]))
    && (forall i :: 0 <= i < |m.milestones| ==> IsMilestone(m.milestones[i]))
    && (forall i :: 0 <= i < |m.progress| ==> IsProgress(m.progress[i]))
  }

  // ---------- Answers ----------

  datatype Answer = Answer(number: string, name: string, goal: Option<string>, tdd: Option<string>, details: Details)

  function FindPhase(phases: seq<Phase>, number: string): Option<Phase> {
    if phases == [] then None
    else if phases[0].number == number then Some(phases[0])
    else FindPhase(phases[1..], number)
  }

  // getPhase of a fresh parse
  function FreshAnswer(r: Reader, p: Phase): Answer {
    Answer(p.number, p.name, p.goal, p.tdd, r.details(p.section))
  }

  function GetPhaseFresh(r: Reader, m: Roadmap, number: string): Option<Answer> {
    match FindPhase(m.phases, number)
    case None => None
    case Some(p) => Some(FreshAnswer(r, p))
  }

  // getPhase of a rebuilt view: the hint is read out of the section again.
  function CachedAnswer(r: Reader, p: Phase): Answer {
    var tdd := if r.hint(p.section).Some? then r.hint(p.section).value else p.tdd;
    Answer(p.number, p.name, p.goal, tdd, r.details(p.section))
  }

  function GetPhaseCached(r: Reader, m: Roadmap, number: string): Option<Answer> {
    match FindPhase(m.phases, number)
    case None => None
    case Some(p) => Some(CachedAnswer(r, p))
  }

  predicate IsAskedFor(m: Milestone, name: string) {
    || Includes(LowerAll(m.name), LowerAll(name))
    || (m.version.Some? && m.version.value != "" && LowerAll(m.version.value) == LowerAll(name))
  }

  // getMilestone
  function GetMilestone(milestones: seq<Milestone>, name: string): Option<Milestone> {
    if milestones == [] then None
    else if IsAskedFor(milestones[0], name) then Some(milestones[0])
    else GetMilestone(milestones[1..], name)
  }

  // currentMilestone
  function CurrentMilestone(milestones: seq<Milestone>): Option<Milestone> {
    if milestones == [] then None
    else if milestones[0].status == "active" then Some(milestones[0])
    else CurrentMilestone(milestones[1..])
  }

  // A milestone is asked for by a part of its name or by its version, in any case. The first one
  // asked for answers.
  lemma {:induction false} GetMilestoneIsFirst(milestones: seq<Milestone>, name: string, i: nat)
    requires i < |milestones| && IsAskedFor(milestones[i], name)
    requires forall j :: 0 <= j < i ==> !IsAskedFor(milestones[j], name)
    ensures GetMilestone(milestones, name) == Some(milestones[i])
  {
    hide IsAskedFor;
    if i > 0 {
      assert !IsAskedFor(milestones[0], name);
      GetMilestoneIsFirst(milestones[1..], name, i - 1);
    }
  }

  lemma {:induction false} NoMilestoneExactlyWhen(milestones: seq<Milestone>, name: string)
    ensures GetMilestone(milestones, name).None? <==>
            forall m :: m in milestones ==> !IsAskedFor(m, name)
    ensures CurrentMilestone(milestones).None? <==> forall m :: m in milestones ==> m.status != "active"
  {
    hide IsAskedFor;
    if milestones != [] {
      NoMilestoneExactlyWhen(milestones[1..], name);
      assert milestones == [milestones[0]] + milestones[1..];
    }
  }

  // The first active milestone is the current one.
  lemma {:induction false} CurrentIsFirstActive(milestones: seq<Milestone>, i: nat)
    requires i < |milestones| && milestones[i].status == "active"
    requires forall j :: 0 <= j < i ==> milestones[j].status != "active"
    ensures CurrentMilestone(milestones) == Some(milestones[i])
  {
    if i > 0 {
      CurrentIsFirstActive(milestones[1..], i - 1);
    }
  }

  lemma {:induction false} AskedForExactlyWhen(m: Milestone, name: string)
    ensures IsAskedFor(m, name) <==>
            || (exists before: string, after: string :: LowerAll(m.name) == before + LowerAll(name) + after)
            || (m.version.Some? && m.version.value != "" && LowerAll(m.version.value) == LowerAll(name))
  {
    IncludesExactlyWhen(LowerAll(m.name), LowerAll(name));
    hide LowerAll, Includes;
  }

  // ---------- Rows ----------

  // A missing text is NULL, and so is an empty one in a column that allows it.
  datatype PhaseColumns = PhaseColumns(name: string, status: string, planCount: nat, goal: Option<string>,
      section: Option<string>)

  datatype MilestoneRow = MilestoneRow(name: string, version: Option<string>, status: string, start: Option<nat>,
      end: Option<nat>)

  datatype ProgressColumns = ProgressColumns(complete: nat, total: nat, status: Option<string>,
      completed: Option<string>)

  datatype Tables = Tables(phases: seq<T.Row<PhaseColumns>>, milestones: seq<MilestoneRow>,
      progress: seq<T.Row<ProgressColumns>>)

  function OrNull(s: Option<string>): Option<string> {
    if s == Some("") then None else s
  }

  function OrText(s: Option<string>, text: string): string {
    if s.Some? && s.value != "" then s.value else text
  }

  function PhaseRow(p: Phase): T.Row<PhaseColumns> {
    T.Row(p.number, PhaseColumns(p.name, if p.status != "" then p.status else "incomplete", p.planCount, OrNull(p.goal),
                                 OrNull(Some(p.section))))
  }

  function MilestoneRowOf(m: Milestone): MilestoneRow {
    MilestoneRow(m.name, OrNull(m.version), if m.status != "" then m.status else "pending",
                 if m.phases.Some? then Some(m.phases.value.start) else None,
                 if m.phases.Some? then Some(m.phases.value.end) else None)
  }

  function ProgressRow(p: Progress): T.Row<ProgressColumns> {
    T.Row(p.phase, ProgressColumns(p.complete, p.total, OrNull(Some(p.status)), OrNull(p.completed)))
  }

  function PhaseRows(phases: seq<Phase>): seq<T.Row<PhaseColumns>> {
    seq(|phases|, i requires 0 <= i < |phases| => PhaseRow(phases[i]))
  }

  function MilestoneRows(milestones: seq<Milestone>): seq<MilestoneRow> {
    seq(|milestones|, i requires 0 <= i < |milestones| => MilestoneRowOf(milestones[i]))
  }

  function ProgressRows(progress: seq<Progress>): seq<T.Row<ProgressColumns>> {
    seq(|progress|, i requires 0 <= i < |progress| => ProgressRow(progress[i]))
  }

  // storeRoadmap: the tables are emptied and filled again.
  function Stored(m: Roadmap): Tables {
    Tables(T.Filled(PhaseRows(m.phases)), MilestoneRows(m.milestones), T.Filled(ProgressRows(m.progress)))
  }

  // buildRoadmapFromCache
  function BuildPhase(r: Reader, row: T.Row<PhaseColumns>): Phase {
    var section := OrText(row.columns.section, "");
    Phase(row.key, row.columns.name, if row.columns.status != "" then row.columns.status else "incomplete",
          row.columns.planCount, OrNull(row.columns.goal), HintOf(r, section), section)
  }

  function BuildMilestone(row: MilestoneRow): Milestone {
    Milestone(row.name, OrNull(row.version), if row.status != "" then row.status else "pending",
              if row.start.Some? && row.end.Some? then Some(Range(row.start.value, row.end.value)) else None)
  }

  function BuildProgress(row: T.Row<ProgressColumns>): Progress {
    Progress(row.key, row.columns.complete, row.columns.total, OrText(row.columns.status, ""),
        OrNull(row.columns.completed))
  }

  function Built(r: Reader, t: Tables): Roadmap {
    Roadmap(seq(|t.milestones|, i requires 0 <= i < |t.milestones| => BuildMilestone(t.milestones[i])),
            seq(|t.phases|, i requires 0 <= i < |t.phases| => BuildPhase(r, t.phases[i])),
            seq(|t.progress|, i requires 0 <= i < |t.progress| => BuildProgress(t.progress[i])))
  }

  // ---------- Every row is read back ----------

  lemma {:induction false} PhaseReadsBack(r: Reader, p: Phase)
    requires IsPhase(r, p)
    ensures BuildPhase(r, PhaseRow(p)) == p
  {
  }

  lemma {:induction false} MilestonesReadBack(r: Reader, m: Roadmap)
    requires IsRoadmap(r, m)
    ensures Built(r, Stored(m)).milestones == m.milestones
  {
    var rows, built := Stored(m).milestones, Built(r, Stored(m)).milestones;
    forall i | 0 <= i < |m.milestones|
      ensures built[i] == m.milestones[i]
    {
      assert IsMilestone(m.milestones[i]) && rows[i] == MilestoneRowOf(m.milestones[i]);
    }
    hide IsRoadmap, T.Filled;
  }

  lemma {:induction false} ProgressReadsBack(p: Progress)
    requires IsProgress(p)
    ensures BuildProgress(ProgressRow(p)) == p
  {
  }

  // ---------- What the rebuilt view answers ----------

  function BuiltPhases(r: Reader, rows: seq<T.Row<PhaseColumns>>): seq<Phase> {
    seq(|rows|, i requires 0 <= i < |rows| => BuildPhase(r, rows[i]))
  }

  lemma {:induction false} FindBuilt(r: Reader, rows: seq<T.Row<PhaseColumns>>, number: string)
    ensures FindPhase(BuiltPhases(r, rows), number)
            == match T.FirstWith(rows, number) case Some(row) => Some(BuildPhase(r, row)) case None => None
  {
    if rows != [] {
      FindBuilt(r, rows[1..], number);
      assert BuiltPhases(r, rows)[1..] == BuiltPhases(r, rows[1..]);
      assert BuiltPhases(r, rows)[0].number == rows[0].key;
      hide BuildPhase;
    }
  }

  function LastPhase(phases: seq<Phase>, number: string): Option<Phase> {
    if phases == [] then None
    else if phases[|phases| - 1].number == number then Some(phases[|phases| - 1])
    else LastPhase(phases[..|phases| - 1], number)
  }

  lemma {:induction false} LastRow(phases: seq<Phase>, number: string)
    ensures T.LastWith(PhaseRows(phases), number)
            == match LastPhase(phases, number) case Some(p) => Some(PhaseRow(p)) case None => None
  {
    if phases != [] {
      LastRow(phases[..|phases| - 1], number);
      assert PhaseRows(phases)[..|phases| - 1] == PhaseRows(phases[..|phases| - 1]);
      assert PhaseRows(phases)[|phases| - 1] == PhaseRow(phases[|phases| - 1]);
    }
  }

  lemma {:induction false} LastPhaseIn(phases: seq<Phase>, number: string)
    ensures LastPhase(phases, number).Some? ==> LastPhase(phases, number).value in phases
    ensures FindPhase(phases, number).Some? ==> FindPhase(phases, number).value in phases
  {
    if phases != [] {
      LastPhaseIn(phases[..|phases| - 1], number);
      FindPhaseIn(phases, number);
    }
  }

  lemma {:induction false} FindPhaseIn(phases: seq<Phase>, number: string)
    ensures FindPhase(phases, number).Some? ==> FindPhase(phases, number).value in phases
  {
    if phases != [] {
      FindPhaseIn(phases[1..], number);
    }
  }

  // The rebuilt view answers for the last phase of a number, the fresh one for the first.
  lemma {:induction false} CachedAnswersLast(r: Reader, m: Roadmap, number: string)
    requires IsRoadmap(r, m)
    ensures GetPhaseCached(r, Built(r, Stored(m)), number)
            == match LastPhase(m.phases, number) case Some(p) => Some(FreshAnswer(r, p)) case None => None
  {
    var rows := PhaseRows(m.phases);
    T.FilledReadsLast(rows, number);
    FindBuilt(r, T.Filled(rows), number);
    assert Built(r, Stored(m)).phases == BuiltPhases(r, T.Filled(rows));
    LastRow(m.phases, number);
    LastPhaseIn(m.phases, number);
    if LastPhase(m.phases, number).Some? {
      var p := LastPhase(m.phases, number).value;
      var i :| 0 <= i < |m.phases| && m.phases[i] == p;
      assert IsPhase(r, m.phases[i]);
      PhaseReadsBack(r, p);
      HintAgain(r, p);
    }
    hide T.Filled, BuiltPhases, Built, PhaseRows, BuildPhase, PhaseRow, IsRoadmap, CachedAnswer, FreshAnswer;
  }

  lemma {:induction false} HintAgain(r: Reader, p: Phase)
    requires IsPhase(r, p)
    ensures CachedAnswer(r, p) == FreshAnswer(r, p)
  {
  }

  // A table filled from at least one phase has rows.
  lemma {:induction false} StoredIsNotEmpty(m: Roadmap)
    requires m.phases != []
    ensures Stored(m).phases != []
  {
    var number := m.phases[|m.phases| - 1].number;
    T.FilledReadsLast(PhaseRows(m.phases), number);
    LastRow(m.phases, number);
    assert LastPhase(m.phases, number).Some?;
    hide T.Filled, PhaseRows, PhaseRow;
  }

  predicate IsFirst(phases: seq<Phase>, i: nat)
    requires i < |phases|
  {
    forall k :: 0 <= k < i ==> phases[k].number != phases[i].number
  }

  predicate IsLast(phases: seq<Phase>, j: nat)
    requires j < |phases|
  {
    forall k :: j < k < |phases| ==> phases[k].number != phases[j].number
  }

  // Where a number is repeated, its first and its last phase answer alike.
  ghost predicate RepeatsAgree(r: Reader, phases: seq<Phase>) {
    forall i: nat, j: nat | i < j < |phases| && IsFirst(phases, i) && IsLast(phases, j) ::
      phases[i].number == phases[j].number ==> FreshAnswer(r, phases[i]) == FreshAnswer(r, phases[j])
  }

  lemma {:induction false} NothingRepeats(r: Reader)
    ensures RepeatsAgree(r, [])
  {
  }

  lemma {:induction false} FindIsFirst(phases: seq<Phase>, i: nat)
    requires i < |phases| && IsFirst(phases, i)
    ensures FindPhase(phases, phases[i].number) == Some(phases[i])
  {
    if i > 0 {
      var rest := phases[1..];
      assert rest[i - 1] == phases[i];
      assert forall k :: 0 <= k < i - 1 ==> rest[k] == phases[k + 1];
      FindIsFirst(rest, i - 1);
      assert phases[0].number != phases[i].number;
    }
  }

  lemma {:induction false} LastIsLast(phases: seq<Phase>, j: nat)
    requires j < |phases| && IsLast(phases, j)
    ensures LastPhase(phases, phases[j].number) == Some(phases[j])
  {
    if j < |phases| - 1 {
      LastIsLast(phases[..|phases| - 1], j);
      assert phases[|phases| - 1].number != phases[j].number;
    }
  }

  lemma {:induction false} FirstPosition(phases: seq<Phase>, number: string) returns (i: nat)
    requires FindPhase(phases, number).Some?
    ensures i < |phases| && IsFirst(phases, i) && phases[i].number == number
  {
    if phases[0].number == number {
      i := 0;
    } else {
      var rest := phases[1..];
      var k := FirstPosition(rest, number);
      i := k + 1;
      forall n | 0 <= n < i
        ensures phases[n].number != number
      {
        assert n > 0 ==> phases[n] == rest[n - 1];
      }
    }
  }

  lemma {:induction false} LastPosition(phases: seq<Phase>, number: string) returns (j: nat)
    requires LastPhase(phases, number).Some?
    ensures j < |phases| && IsLast(phases, j) && phases[j].number == number
  {
    if phases[|phases| - 1].number == number {
      j := |phases| - 1;
    } else {
      j := LastPosition(phases[..|phases| - 1], number);
    }
  }

  lemma {:induction false} FoundTogether(phases: seq<Phase>, number: string)
    ensures FindPhase(phases, number).Some? <==> LastPhase(phases, number).Some?
  {
    if FindPhase(phases, number).Some? {
      var i := FirstPosition(phases, number);
      FoundFromEnd(phases, number, i);
    }
    if LastPhase(phases, number).Some? {
      var j := LastPosition(phases, number);
      FoundFromStart(phases, number, j);
    }
  }

  lemma {:induction false} FoundFromEnd(phases: seq<Phase>, number: string, i: nat)
    requires i < |phases| && phases[i].number == number
    ensures LastPhase(phases, number).Some?
  {
    if phases[|phases| - 1].number != number {
      FoundFromEnd(phases[..|phases| - 1], number, i);
    }
  }

  lemma {:induction false} FoundFromStart(phases: seq<Phase>, number: string, i: nat)
    requires i < |phases| && phases[i].number == number
    ensures FindPhase(phases, number).Some?
  {
    if phases[0].number != number {
      FoundFromStart(phases[1..], number, i - 1);
    }
  }

  ghost predicate AnswersAgree(r: Reader, m: Roadmap, number: string) {
    GetPhaseCached(r, Built(r, Stored(m)), number) == GetPhaseFresh(r, m, number)
  }

  // The rebuilt view answers getPhase like the fresh one, for every argument, exactly when no
  // repeated number has a first and a last phase that differ.
  lemma {:induction false} GetPhaseAgreesExactlyWhen(r: Reader, m: Roadmap)
    requires IsRoadmap(r, m)
    ensures (forall number :: AnswersAgree(r, m, number)) <==> RepeatsAgree(r, m.phases)
  {
    hide IsRoadmap, Built, Stored, FreshAnswer, IsFirst, IsLast, GetPhaseCached;
    if RepeatsAgree(r, m.phases) {
      forall number
        ensures AnswersAgree(r, m, number)
      {
        CachedAnswersLast(r, m, number);
        FoundTogether(m.phases, number);
        if FindPhase(m.phases, number).Some? {
          var i := FirstPosition(m.phases, number);
          var j := LastPosition(m.phases, number);
          FirstComesFirst(m.phases, i, j);
          FindIsFirst(m.phases, i);
          LastIsLast(m.phases, j);
        }
      }
    }
    if forall number :: AnswersAgree(r, m, number) {
      forall i: nat, j: nat | i < j < |m.phases| && IsFirst(m.phases, i) && IsLast(m.phases, j)
                              && m.phases[i].number == m.phases[j].number
        ensures FreshAnswer(r, m.phases[i]) == FreshAnswer(r, m.phases[j])
      {
        assert AnswersAgree(r, m, m.phases[i].number);
        CachedAnswersLast(r, m, m.phases[i].number);
        FindIsFirst(m.phases, i);
        LastIsLast(m.phases, j);
      }
    }
  }

  lemma {:induction false} FirstComesFirst(phases: seq<Phase>, i: nat, j: nat)
    requires i < |phases| && j < |phases| && IsFirst(phases, i) && IsLast(phases, j)
    requires phases[i].number == phases[j].number
    ensures i <= j
  {
  }

  function Numbers(phases: seq<Phase>): seq<string> {
    seq(|phases|, i requires 0 <= i < |phases| => phases[i].number)
  }

  // With distinct numbers that is always so.
  lemma {:induction false} DistinctNumbersAgree(r: Reader, phases: seq<Phase>)
    requires Distinct(Numbers(phases))
    ensures RepeatsAgree(r, phases)
  {
    hide FreshAnswer, IsFirst, IsLast;
    forall i: nat, j: nat | i < j < |phases|
      ensures phases[i].number != phases[j].number
    {
      assert Numbers(phases)[i] != Numbers(phases)[j];
    }
  }

  // getMilestone and currentMilestone always answer alike.
  lemma {:induction false} MilestonesAgree(r: Reader, m: Roadmap, name: string)
    requires IsRoadmap(r, m)
    ensures GetMilestone(Built(r, Stored(m)).milestones, name) == GetMilestone(m.milestones, name)
    ensures CurrentMilestone(Built(r, Stored(m)).milestones) == CurrentMilestone(m.milestones)
  {
    hide IsRoadmap, Built, Stored, IsAskedFor;
    MilestonesReadBack(r, m);
  }

  // ---------- The lists ----------

  lemma {:induction false} BuiltMultiset(r: Reader, rows: seq<T.Row<PhaseColumns>>, phases: seq<Phase>)
    requires multiset(rows) == multiset(PhaseRows(phases))
    requires forall i :: 0 <= i < |phases| ==> IsPhase(r, phases[i])
    ensures multiset(BuiltPhases(r, rows)) == multiset(phases)
  {
    hide IsPhase, BuildPhase, PhaseRow;
    if phases == [] {
      assert rows == [] by {
        assert |multiset(rows)| == 0;
      }
    } else {
      var front, last := phases[..|phases| - 1], phases[|phases| - 1];
      assert PhaseRows(phases) == PhaseRows(front) + [PhaseRow(last)];
      assert PhaseRow(last) in multiset(rows);
      var k :| 0 <= k < |rows| && rows[k] == PhaseRow(last);
      var others := rows[..k] + rows[k + 1..];
      TakeRow(rows, k);
      RemoveOne(multiset(others), multiset(PhaseRows(front)), PhaseRow(last));
      BuiltMultiset(r, others, front);
      hide PhaseRows, BuiltPhases;
      BuiltAround(r, rows, k);
      assert IsPhase(r, phases[|phases| - 1]);
      PhaseReadsBack(r, last);
      assert phases == front + [last];
    }
  }

  lemma {:induction false} TakeRow<X>(rows: seq<X>, k: nat)
    requires k < |rows|
    ensures multiset(rows) == multiset(rows[..k] + rows[k + 1..]) + multiset{rows[k]}
  {
    assert rows == rows[..k] + [rows[k]] + rows[k + 1..];
  }

  lemma {:induction false} RemoveOne<X>(a: multiset<X>, b: multiset<X>, x: X)
    requires a + multiset{x} == b + multiset{x}
    ensures a == b
  {
    assert a == (a + multiset{x}) - multiset{x};
    assert b == (b + multiset{x}) - multiset{x};
  }

  lemma {:induction false} BuiltAround(r: Reader, rows: seq<T.Row<PhaseColumns>>, k: nat)
    requires k < |rows|
    ensures multiset(BuiltPhases(r, rows))
            == multiset(BuiltPhases(r, rows[..k] + rows[k + 1..])) + multiset{BuildPhase(r, rows[k])}
  {
    hide BuildPhase;
    var a, b := BuiltPhases(r, rows[..k]), BuiltPhases(r, rows[k + 1..]);
    assert BuiltPhases(r, rows) == a + [BuildPhase(r, rows[k])] + b;
    assert BuiltPhases(r, rows[..k] + rows[k + 1..]) == a + b;
  }

  // The phases come back in the order of their numbers as texts; with distinct numbers they
  // are the same phases.
  lemma {:induction false} PhasesComeBackSorted(r: Reader, m: Roadmap)
    requires IsRoadmap(r, m)
    ensures var back := Built(r, Stored(m)).phases;
            && (forall i, j :: 0 <= i < j < |back| ==> Before(back[i].number, back[j].number))
            && (Distinct(Numbers(m.phases)) ==> multiset(back) == multiset(m.phases))
  {
    var rows := PhaseRows(m.phases);
    T.FilledIsSorted(rows);
    var table := T.Filled(rows);
    assert Built(r, Stored(m)).phases == BuiltPhases(r, table);
    if Distinct(Numbers(m.phases)) {
      assert T.KeysOf(rows) == Numbers(m.phases);
      T.FilledPermutes(rows);
      BuiltMultiset(r, table, m.phases);
    }
    hide Before, T.Filled;
  }
}
