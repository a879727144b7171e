// What the lines of a section of INTENT.md add up to, whatever lines they are: lists keep their
// order, a header governs what follows it, a milestone the changes after it (plugin.js).
module IntentGathering {
  import opened Options
  import opened Strings
  import opened Scanning
  import opened IntentFormat
  import opened IntentSections
  import Generated = IntentGenerated

  function AsList<T>(x: Option<T>): seq<T> {
    if x.Some? then [x.value] else []
  }

  // ---------- Objective and lists ----------

  // The first line is the statement, the rest the elaboration.
  lemma {:induction false} ObjectiveIsFirstLine(first: string, rest: string)
    requires IsLine(first)
    ensures ReadObjective(first) == Objective(Trim(first), "")
    ensures ReadObjective(first + "\n" + rest) == Objective(Trim(first), Trim(rest))
  {
    SplitLine(first, rest);
    Generated.JoinSplit(rest);
    assert Trim("") == "";
    hide Trim, Split;
    assert Join([]) == "";
    assert ([first] + Split(rest))[1..] == Split(rest);
    hide Join;
  }

  // A list holds what its lines read as, in their order.
  lemma {:induction false} ListsAddUp(prefix: string, a: seq<string>, line: string)
    ensures ReadUsers(a + [line]) == ReadUsers(a) + AsList(UserOf(line))
    ensures ReadOutcomes(a + [line]) == ReadOutcomes(a) + AsList(OutcomeOf(line))
    ensures ReadItems(prefix, a + [line]) == ReadItems(prefix, a) + AsList(ItemOf(prefix, line))
    ensures ReadUsers([]) == [] && ReadOutcomes([]) == [] && ReadItems(prefix, []) == []
  {
    assert Front(a + [line]) == a && Last(a + [line]) == line;
    hide UserOf, OutcomeOf, ItemOf;
  }

  // ---------- Constraints ----------

  function WordOf(t: Topic): string
    requires t != NoTopic
  {
    match t
    case Technical => "technical"
    case Business => "business"
    case Timeline => "timeline"
  }

  ghost predicate IsTopic(line: string) {
    IsHeader(line, "technical") || IsHeader(line, "business") || IsHeader(line, "timeline")
  }

  ghost predicate NoTopicIn(lines: seq<string>) {
    forall k :: 0 <= k < |lines| ==> !IsTopic(lines[k])
  }

  function ReadConstraints(lines: seq<string>): Constraints {
    ConstraintsAfter(ConstraintState(NoTopic, NO_CONSTRAINTS), lines).items
  }

  lemma {:induction false} WordsDiffer(s: string)
    ensures StartsLower(s, "technical") ==> !StartsLower(s, "business") && !StartsLower(s, "timeline")
    ensures StartsLower(s, "business") ==> !StartsLower(s, "timeline")
    ensures StartsLower(s, "quantitative") ==> !StartsLower(s, "qualitative")
  {
    assert "technical"[1] == 'e' && "timeline"[1] == 'i' && "business"[1] == 'u';
    assert "quantitative"[3] == 'n' && "qualitative"[3] == 'l';
    hide Lower;
  }

  lemma {:induction false} HeaderTurns(s: ConstraintState, line: string, t: Topic)
    requires t != NoTopic && IsHeader(line, WordOf(t))
    ensures ConstraintStep(s, line) == s.(topic := t)
  {
    WordsDiffer(DropSpaces(After(line, "###").value));
    hide StartsLower, DropSpaces, After;
  }

  lemma {:induction false} ItemsUnder(s: ConstraintState, lines: seq<string>)
    requires NoTopicIn(lines)
    ensures ConstraintsAfter(s, lines).topic == s.topic
    ensures ConstraintsAfter(s, lines).items == WithItems(s.items, s.topic, ReadItems("C-", lines))
  {
    hide ItemOf, IsHeader;
    if lines != [] {
      ItemsUnder(s, Front(lines));
      assert !IsTopic(lines[|lines| - 1]);
    }
  }

  // Before the first header nothing counts; after a header every item of the section does, up to
  // the next header.
  lemma {:induction false} HeaderGoverns(a: seq<string>, header: string, t: Topic, b: seq<string>)
    requires t != NoTopic && IsHeader(header, WordOf(t)) && NoTopicIn(b)
    ensures ReadConstraints(b) == NO_CONSTRAINTS
    ensures ReadConstraints(a + [header] + b) == WithItems(ReadConstraints(a), t, ReadItems("C-", b))
  {
    var none := ConstraintState(NoTopic, NO_CONSTRAINTS);
    var before := ConstraintsAfter(none, a);
    ItemsUnder(none, b);
    ItemsUnder(before.(topic := t), b);
    ConstraintsAppend(none, a, [header] + b);
    ConstraintsAppend(before, [header], b);
    HeaderTurns(before, header, t);
    assert Front([header]) == [] && a + [header] + b == a + ([header] + b);
    hide IsHeader, ConstraintStep, NoTopicIn, ReadItems;
  }

  // ---------- Health ----------

  ghost predicate NoPartIn(lines: seq<string>) {
    forall k :: 0 <= k < |lines| ==> !IsHeader(lines[k], "quantitative") && !IsHeader(lines[k], "qualitative")
  }

  // The trimmed lines with something in them.
  function Prose(lines: seq<string>): seq<string> {
    if lines == [] then []
    else Prose(Front(lines)) + if Trim(Last(lines)) != "" then [Trim(Last(lines))] else []
  }

  const NO_HEALTH := HealthState(NoPart, [], [])

  lemma {:induction false} LinesUnder(s: HealthState, lines: seq<string>)
    requires NoPartIn(lines)
    ensures HealthAfter(s, lines)
            == match s.part
               case NoPart => s
               case Quantitative => s.(quantitative := s.quantitative + ReadItems("HM-", lines))
               case Qualitative => s.(lines := s.lines + Prose(lines))
  {
    hide ItemOf, IsHeader, Trim;
    if lines != [] {
      LinesUnder(s, Front(lines));
      assert !IsHeader(lines[|lines| - 1], "quantitative") && !IsHeader(lines[|lines| - 1], "qualitative");
    }
  }

  lemma {:induction false} PartTurns(s: HealthState, line: string)
    ensures IsHeader(line, "quantitative") ==> HealthStep(s, line) == s.(part := Quantitative)
    ensures IsHeader(line, "qualitative") ==> HealthStep(s, line) == s.(part := Qualitative)
  {
    if After(line, "###").Some? {
      WordsDiffer(DropSpaces(After(line, "###").value));
    }
    hide StartsLower, DropSpaces, After;
  }

  // The same two laws for the metrics and the prose.
  lemma {:induction false} PartGoverns(a: seq<string>, header: string, b: seq<string>)
    requires NoPartIn(b)
    ensures HealthAfter(NO_HEALTH, b) == NO_HEALTH
    ensures
      var before, after := HealthAfter(NO_HEALTH, a), HealthAfter(NO_HEALTH, a + [header] + b);
      && (IsHeader(header, "quantitative") ==>
            after.quantitative == before.quantitative + ReadItems("HM-", b) && after.lines == before.lines)
      && (IsHeader(header, "qualitative") ==>
            after.quantitative == before.quantitative && after.lines == before.lines + Prose(b))
  {
    var before := HealthAfter(NO_HEALTH, a);
    LinesUnder(NO_HEALTH, b);
    LinesUnder(before.(part := Quantitative), b);
    LinesUnder(before.(part := Qualitative), b);
    HealthAppend(NO_HEALTH, a, [header] + b);
    HealthAppend(before, [header], b);
    PartTurns(before, header);
    assert Front([header]) == [] && a + [header] + b == a + ([header] + b);
    hide IsHeader, HealthStep, NoPartIn, ReadItems, Prose;
  }

  // ---------- History ----------

  ghost predicate NoMilestoneIn(lines: seq<string>) {
    forall k :: 0 <= k < |lines| ==> MilestoneOf(lines[k]).None?
  }

  // The changes of one milestone: a reason belongs to the change before it, the last one counts.
  function ReadChanges(lines: seq<string>): seq<Change> {
    if lines == [] then []
    else
      var changes := ReadChanges(Front(lines));
      if ChangeOf(Last(lines)).Some? then changes + [ChangeOf(Last(lines)).value]
      else if ReasonOf(Last(lines)).Some? && changes != [] then
        Front(changes) + [Last(changes).(reason := ReasonOf(Last(lines)))]
      else changes
  }

  const NO_CHANGE := HistoryState([], None, None)

  lemma {:induction false} NothingBefore(lines: seq<string>)
    requires NoMilestoneIn(lines)
    ensures HistoryAfter(NO_CHANGE, lines) == NO_CHANGE
  {
    hide MilestoneOf, ChangeOf, ReasonOf;
    if lines != [] {
      NothingBefore(Front(lines));
      assert MilestoneOf(lines[|lines| - 1]).None?;
    }
  }

  // An entry in progress, with the changes read so far; the last is still open.
  function InProgress(history: seq<Entry>, e: Entry, changes: seq<Change>): HistoryState {
    if changes == [] then HistoryState(history, Some(e), None)
    else HistoryState(history, Some(e.(changes := e.changes + Front(changes))), Some(Last(changes)))
  }

  lemma {:induction false} ChangesUnder(history: seq<Entry>, e: Entry, lines: seq<string>)
    requires NoMilestoneIn(lines)
    ensures HistoryAfter(HistoryState(history, Some(e), None), lines) == InProgress(history, e, ReadChanges(lines))
  {
    hide MilestoneOf, ChangeOf, ReasonOf;
    if lines != [] {
      ChangesUnder(history, e, Front(lines));
      assert MilestoneOf(lines[|lines| - 1]).None?;
      StepInProgress(history, e, ReadChanges(Front(lines)), Last(lines));
    }
  }

  lemma {:induction false} StepInProgress(history: seq<Entry>, e: Entry, changes: seq<Change>, line: string)
    requires MilestoneOf(line).None?
    ensures
      HistoryStep(InProgress(history, e, changes), line)
      == InProgress(history, e,
                    if ChangeOf(line).Some? then changes + [ChangeOf(line).value]
                    else if ReasonOf(line).Some? && changes != [] then
                      Front(changes) + [Last(changes).(reason := ReasonOf(line))]
                    else changes)
  {
    hide MilestoneOf, ChangeOf, ReasonOf;
    CloseInProgress(history, e, changes);
    if ChangeOf(line).Some? {
      assert Front(changes + [ChangeOf(line).value]) == changes;
    } else if ReasonOf(line).Some? && changes != [] {
      assert Front(Front(changes) + [Last(changes).(reason := ReasonOf(line))]) == Front(changes);
    }
  }

  lemma {:induction false} CloseInProgress(history: seq<Entry>, e: Entry, changes: seq<Change>)
    ensures CloseChange(InProgress(history, e, changes)).entry == Some(e.(changes := e.changes + changes))
    ensures InProgress(history, e, changes).history == history
  {
    if changes == [] {
      assert e.changes + changes == e.changes;
    } else {
      assert changes == Front(changes) + [Last(changes)];
      assert e.changes + changes == e.changes + Front(changes) + [Last(changes)];
    }
  }

  // Before the first milestone nothing counts; a milestone opens an entry with the changes that
  // follow it, up to the next milestone.
  lemma {:induction false} MilestoneGoverns(a: seq<string>, milestone: string, b: seq<string>)
    requires MilestoneOf(milestone).Some? && NoMilestoneIn(b)
    ensures ReadHistory(b) == []
    ensures ReadHistory(a + [milestone] + b)
            == ReadHistory(a) + [MilestoneOf(milestone).value.(changes := ReadChanges(b))]
  {
    NothingBefore(b);
    var before := HistoryAfter(NO_CHANGE, a);
    var e := MilestoneOf(milestone).value;
    NewEntryIsEmpty(milestone);
    HistoryAppend(NO_CHANGE, a, [milestone] + b);
    HistoryAppend(before, [milestone], b);
    OneLine(before, milestone);
    hide MilestoneOf, HistoryAfter, CloseChange;
    var history := Push(before.history, CloseChange(before).entry);
    assert HistoryStep(before, milestone) == HistoryState(history, Some(e), None);
    ChangesUnder(history, e, b);
    CloseInProgress(history, e, ReadChanges(b));
    assert [] + ReadChanges(b) == ReadChanges(b);
    assert a + [milestone] + b == a + ([milestone] + b);
    hide HistoryStep, InProgress, NoMilestoneIn;
    assert CloseChange(NO_CHANGE).entry == None;
  }

  lemma {:induction false} NewEntryIsEmpty(milestone: string)
    requires MilestoneOf(milestone).Some?
    ensures MilestoneOf(milestone).value.changes == []
  {
  }
}
