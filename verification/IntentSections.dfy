// The lines of every section of INTENT.md, as they are written, are read as the records they
// were written from (plugin.js).
module IntentSections {
  import opened Options
  import opened Strings
  import opened Scanning
  import opened IntentFormat
  import opened IntentLines

  // ---------- Lists ----------

  lemma {:induction false} UsersRead(users: seq<string>)
    requires forall i :: 0 <= i < |users| ==> IsUser(users[i])
    ensures ReadUsers(UserLines(users)) == users
  {
    hide UserOf, IsUser;
    if users != [] {
      assert IsUser(users[|users| - 1]);
      UsersRead(Front(users));
      UserReads(Last(users));
      PushLast(UserLines(Front(users)), "- " + Last(users));
    }
  }

  lemma {:induction false} PushLast<T>(s: seq<T>, x: T)
    ensures Front(s + [x]) == s && Last(s + [x]) == x
  {
  }

  lemma {:induction false} OutcomesRead(outcomes: seq<Outcome>)
    requires forall i :: 0 <= i < |outcomes| ==> IsOutcome(outcomes[i])
    ensures ReadOutcomes(OutcomeLines(outcomes)) == outcomes
  {
    hide OutcomeOf, IsOutcome, OutcomeLine;
    if outcomes != [] {
      assert IsOutcome(outcomes[|outcomes| - 1]);
      OutcomesRead(Front(outcomes));
      OutcomeReads(Last(outcomes));
      PushLast(OutcomeLines(Front(outcomes)), OutcomeLine(Last(outcomes)));
    }
  }

  predicate AreItems(prefix: string, items: seq<Item>) {
    forall i :: 0 <= i < |items| ==> IsItem(prefix, items[i])
  }

  lemma {:induction false} ItemsRead(prefix: string, items: seq<Item>)
    requires AreItems(prefix, items) && prefix != "" && !IsSpace(prefix[0])
    ensures ReadItems(prefix, ItemLines(items)) == items
  {
    hide ItemOf, IsItem, ItemLine;
    if items != [] {
      assert IsItem(prefix, items[|items| - 1]);
      ItemsRead(prefix, Front(items));
      ItemReads(prefix, Last(items));
      PushLast(ItemLines(Front(items)), ItemLine(Last(items)));
    }
  }

  // A line without a bullet, alone in its section, is read as nothing.
  lemma {:induction false} PlaceholderReads(line: string)
    requires line != "" && !IsSpace(line[0]) && line[0] != '-' && line[0] != '#'
    ensures ReadUsers([line]) == [] && ReadOutcomes([line]) == []
    ensures ReadItems("SC-", [line]) == []
    ensures ConstraintsAfter(ConstraintState(NoTopic, NO_CONSTRAINTS), [line]).items == NO_CONSTRAINTS
    ensures ReadHealth([line]) == Health([], "")
  {
    NoBullet(line);
    NoHeader(line, "technical");
    NoHeader(line, "business");
    NoHeader(line, "timeline");
    NoHeader(line, "quantitative");
    NoHeader(line, "qualitative");
    hide Bullet, IsHeader, MilestoneOf;
    assert Front([line]) == [] && Last([line]) == line;
    assert UserOf(line) == None && OutcomeOf(line) == None && ItemOf("SC-", line) == None;
    var s := HealthState(NoPart, [], []);
    assert HealthAfter(s, [line]) == HealthStep(s, line) == s;
  }

  // ---------- Constraints ----------

  lemma {:induction false} ConstraintsAppend(s: ConstraintState, a: seq<string>, b: seq<string>)
    ensures ConstraintsAfter(s, a + b) == ConstraintsAfter(ConstraintsAfter(s, a), b)
  {
    hide ConstraintStep;
    if b == [] {
      assert a + b == a;
    } else {
      ConstraintsAppend(s, a, Front(b));
      assert Front(a + b) == a + Front(b);
    }
  }

  lemma {:induction false} BlankConstraint(s: ConstraintState)
    ensures ConstraintStep(s, "") == s
  {
    EmptyLine();
    hide Bullet, IsHeader;
    assert ItemOf("C-", "") == None;
  }

  function WithItems(c: Constraints, t: Topic, items: seq<Item>): Constraints {
    match t
    case NoTopic => c
    case Technical => c.(technical := c.technical + items)
    case Business => c.(business := c.business + items)
    case Timeline => c.(timeline := c.timeline + items)
  }

  lemma {:induction false} OneItem(s: ConstraintState, i: Item)
    requires IsItem("C-", i)
    ensures ConstraintStep(s, ItemLine(i)) == s.(items := WithItems(s.items, s.topic, [i]))
  {
    hide ItemOf, ItemLine, IsHeader, IsItem, AddConstraint, WithItems, ConstraintStep;
    ConstraintReads(i);
    ItemIsNoHeader(i);
    PlainStep(s, ItemLine(i));
    AddOne(s.items, s.topic, i);
  }

  lemma {:induction false} PlainStep(s: ConstraintState, line: string)
    requires forall word :: !IsHeader(line, word)
    ensures ConstraintStep(s, line) == s.(items := AddConstraint(s.items, s.topic, ItemOf("C-", line)))
  {
    hide ItemOf, IsHeader, AddConstraint;
  }

  lemma {:induction false} AddOne(c: Constraints, t: Topic, i: Item)
    ensures AddConstraint(c, t, Some(i)) == WithItems(c, t, [i])
  {
  }

  lemma {:induction false} ConstraintReads(i: Item)
    requires IsItem("C-", i)
    ensures ItemOf("C-", ItemLine(i)) == Some(i)
  {
    hide ItemOf, ItemLine, IsItem;
    ItemReads("C-", i);
  }

  lemma {:induction false} WithMore(c: Constraints, t: Topic, a: seq<Item>, b: seq<Item>)
    ensures WithItems(WithItems(c, t, a), t, b) == WithItems(c, t, a + b)
    ensures WithItems(c, t, []) == c
  {
    assert c.technical + a + b == c.technical + (a + b) && c.technical + [] == c.technical;
    assert c.business + a + b == c.business + (a + b) && c.business + [] == c.business;
    assert c.timeline + a + b == c.timeline + (a + b) && c.timeline + [] == c.timeline;
  }

  // Under a topic the items are added to it.
  lemma {:induction false} TopicItems(s: ConstraintState, items: seq<Item>)
    requires AreItems("C-", items)
    ensures ConstraintsAfter(s, ItemLines(items)) == s.(items := WithItems(s.items, s.topic, items))
  {
    hide IsItem, ItemLine, ConstraintStep, WithItems;
    if items == [] {
      WithMore(s.items, s.topic, [], []);
    } else {
      var last := Last(items);
      assert IsItem("C-", items[|items| - 1]);
      TopicItems(s, Front(items));
      OneItem(ConstraintsAfter(s, ItemLines(Front(items))), last);
      PushLast(ItemLines(Front(items)), ItemLine(last));
      assert items == Front(items) + [last];
      WithMore(s.items, s.topic, Front(items), [last]);
    }
  }

  lemma {:induction false} ItemIsNoHeader(i: Item)
    ensures forall word :: !IsHeader(ItemLine(i), word)
  {
    NoHash(ItemLine(i));
  }

  function HeaderOf(t: Topic): string {
    match t
    case NoTopic => ""
    case Technical => "### Technical"
    case Business => "### Business"
    case Timeline => "### Timeline"
  }

  lemma {:induction false} HeaderReads(line: string, title: string, word: string)
    requires line == "### " + title && title != "" && !IsSpace(title[0])
    ensures IsHeader(line, word) <==> StartsLower(title, word)
  {
    hide After, DropSpaces, StartsLower, IsSpace, SomeSpaces;
    var spaced := " " + title;
    assert line == "###" + spaced;
    AfterOf("###", spaced);
    OneSpace(title);
  }

  lemma {:induction false} TitlesDiffer()
    ensures StartsLower("Technical", "technical") && !StartsLower("Business", "technical")
    ensures !StartsLower("Timeline", "technical")
    ensures StartsLower("Business", "business") && !StartsLower("Timeline", "business")
    ensures StartsLower("Timeline", "timeline")
  {
    assert Lower("Business"[0]) == 'b' && "technical"[0] == 't' && "business"[0] == 'b';
    assert Lower("Timeline"[1]) == 'i' && "technical"[1] == 'e' && Lower("Timeline"[0]) == 't';
  }

  lemma {:induction false} TopicHeader(s: ConstraintState, t: Topic)
    requires t != NoTopic
    ensures ConstraintStep(s, HeaderOf(t)) == s.(topic := t)
  {
    TitlesDiffer();
    hide StartsLower, IsHeader;
    match t
    case Technical => HeaderReads("### Technical", "Technical", "technical");
    case Business =>
      HeaderReads("### Business", "Business", "technical");
      HeaderReads("### Business", "Business", "business");
    case Timeline =>
      HeaderReads("### Timeline", "Timeline", "technical");
      HeaderReads("### Timeline", "Timeline", "business");
      HeaderReads("### Timeline", "Timeline", "timeline");
  }

  lemma {:induction false} TopicReads(s: ConstraintState, t: Topic, items: seq<Item>)
    requires AreItems("C-", items) && t != NoTopic
    ensures ConstraintsAfter(s, TopicLines(HeaderOf(t), items)).items == WithItems(s.items, t, items)
  {
    hide ConstraintStep, HeaderOf, ItemLines;
    if items != [] {
      var headed := s.(topic := t);
      TopicHeader(s, t);
      assert ConstraintsAfter(s, [HeaderOf(t)]) == headed by {
        assert Front([HeaderOf(t)]) == [];
      }
      ConstraintsAppend(s, [HeaderOf(t)], ItemLines(items));
      TopicItems(headed, items);
      var lines := [HeaderOf(t)] + ItemLines(items);
      PushLast(lines, "");
      BlankConstraint(ConstraintsAfter(s, lines));
    }
  }

  lemma {:induction false} ConstraintsRead(c: Constraints)
    requires AreItems("C-", c.technical) && AreItems("C-", c.business) && AreItems("C-", c.timeline)
    ensures ConstraintsAfter(ConstraintState(NoTopic, NO_CONSTRAINTS), ConstraintLines(c)).items == c
  {
    hide ConstraintsAfter, TopicLines, AreItems;
    var s0 := ConstraintState(NoTopic, NO_CONSTRAINTS);
    var a, b, t := TopicLines("### Technical", c.technical), TopicLines("### Business", c.business),
                   TopicLines("### Timeline", c.timeline);
    var s1 := ConstraintsAfter(s0, a);
    var s2 := ConstraintsAfter(s1, b);
    ConstraintsAppend(s0, a, b);
    ConstraintsAppend(s0, a + b, t);
    TopicReads(s0, Technical, c.technical);
    TopicReads(s1, Business, c.business);
    TopicReads(s2, Timeline, c.timeline);
  }

  // ---------- Health ----------

  lemma {:induction false} HealthAppend(s: HealthState, a: seq<string>, b: seq<string>)
    ensures HealthAfter(s, a + b) == HealthAfter(HealthAfter(s, a), b)
  {
    hide HealthStep;
    if b == [] {
      assert a + b == a;
    } else {
      HealthAppend(s, a, Front(b));
      assert Front(a + b) == a + Front(b);
    }
  }

  lemma {:induction false} Metrics(s: HealthState, items: seq<Item>)
    requires AreItems("HM-", items) && s.part == Quantitative
    ensures HealthAfter(s, ItemLines(items)) == s.(quantitative := s.quantitative + items)
  {
    hide ItemOf, IsItem, ItemLine, IsHeader, HealthStep;
    if items != [] {
      var last := Last(items);
      assert IsItem("HM-", items[|items| - 1]);
      Metrics(s, Front(items));
      MetricReads(s.(quantitative := s.quantitative + Front(items)), last);
      PushLast(ItemLines(Front(items)), ItemLine(last));
      assert items == Front(items) + [last];
    }
  }

  lemma {:induction false} MetricReads(s: HealthState, item: Item)
    requires IsItem("HM-", item) && s.part == Quantitative
    ensures HealthStep(s, ItemLine(item)) == s.(quantitative := s.quantitative + [item])
  {
    hide ItemOf, IsItem, ItemLine, IsHeader;
    ItemReads("HM-", item);
    ItemIsNoHeader(item);
  }

  lemma {:induction false} HealthTitles()
    ensures StartsLower("Quantitative", "quantitative") && !StartsLower("Qualitative", "quantitative")
    ensures StartsLower("Qualitative", "qualitative")
  {
    assert Lower("Qualitative"[3]) == 'l' && "quantitative"[3] == 'n';
  }

  lemma {:induction false} HealthHeader(s: HealthState)
    ensures HealthStep(s, "### Quantitative") == s.(part := Quantitative)
    ensures HealthStep(s, "### Qualitative") == s.(part := Qualitative)
  {
    HealthTitles();
    hide StartsLower, IsHeader;
    HeaderReads("### Quantitative", "Quantitative", "quantitative");
    HeaderReads("### Qualitative", "Qualitative", "quantitative");
    HeaderReads("### Qualitative", "Qualitative", "qualitative");
  }

  lemma {:induction false} BlankMetric(s: HealthState)
    requires s.part == Quantitative
    ensures HealthStep(s, "") == s
  {
    EmptyLine();
    hide Bullet, IsHeader;
    assert ItemOf("HM-", "") == None;
  }

  lemma {:induction false} MetricsRead(s: HealthState, items: seq<Item>)
    requires AreItems("HM-", items)
    ensures var after := HealthAfter(s, TopicLines("### Quantitative", items));
            after.quantitative == s.quantitative + items && after.lines == s.lines
  {
    hide HealthStep, ItemLines;
    if items != [] {
      var headed := s.(part := Quantitative);
      HealthHeader(s);
      assert HealthAfter(s, ["### Quantitative"]) == headed by {
        assert Front(["### Quantitative"]) == [];
      }
      HealthAppend(s, ["### Quantitative"], ItemLines(items));
      Metrics(headed, items);
      var lines := ["### Quantitative"] + ItemLines(items);
      PushLast(lines, "");
      BlankMetric(HealthAfter(s, lines));
    }
  }

  // A line of prose: nothing to trim, and no header of its own.
  predicate IsProse(line: string) {
    IsTrimmed(line) && IsLine(line) && !IsHeader(line, "quantitative") && !IsHeader(line, "qualitative")
  }

  lemma {:induction false} ProseReads(s: HealthState, lines: seq<string>)
    requires s.part == Qualitative && forall i :: 0 <= i < |lines| ==> IsProse(lines[i])
    ensures HealthAfter(s, lines) == s.(lines := s.lines + lines)
  {
    hide IsHeader;
    if lines != [] {
      ProseReads(s, Front(lines));
      assert IsProse(lines[|lines| - 1]);
      TrimTrimmed(Last(lines));
      hide Trim, IsTrimmed;
      assert lines == Front(lines) + [Last(lines)];
    }
  }

  lemma {:induction false} HealthReads(items: seq<Item>, prose: seq<string>)
    requires AreItems("HM-", items) && forall i :: 0 <= i < |prose| ==> IsProse(prose[i])
    ensures ReadHealth(TopicLines("### Quantitative", items)
                       + (if prose == [] then [] else ["### Qualitative"] + prose))
            == Health(items, Join(prose))
  {
    hide HealthStep, TopicLines, IsProse, AreItems;
    var s0 := HealthState(NoPart, [], []);
    var a := TopicLines("### Quantitative", items);
    var s1 := HealthAfter(s0, a);
    MetricsRead(s0, items);
    if prose == [] {
      assert a + [] == a;
    } else {
      var b := ["### Qualitative"] + prose;
      HealthHeader(s1);
      HealthAppend(s0, a, b);
      HealthAppend(s1, ["### Qualitative"], prose);
      assert HealthAfter(s1, ["### Qualitative"]) == s1.(part := Qualitative) by {
        assert Front(["### Qualitative"]) == [];
      }
      ProseReads(s1.(part := Qualitative), prose);
      assert s1.lines + prose == prose;
    }
    assert s0.quantitative + items == items;
  }

  // ---------- History ----------

  lemma {:induction false} HistoryAppend(s: HistoryState, a: seq<string>, b: seq<string>)
    ensures HistoryAfter(s, a + b) == HistoryAfter(HistoryAfter(s, a), b)
  {
    hide HistoryStep;
    if b == [] {
      assert a + b == a;
    } else {
      HistoryAppend(s, a, Front(b));
      assert Front(a + b) == a + Front(b);
    }
  }

  lemma {:induction false} OneLine(s: HistoryState, line: string)
    ensures HistoryAfter(s, [line]) == HistoryStep(s, line)
  {
    assert Front([line]) == [];
    hide HistoryStep;
  }

  lemma {:induction false} BlankHistory(s: HistoryState)
    ensures HistoryStep(s, "") == s
  {
    EmptyLine();
    hide MilestoneOf, ChangeOf, ReasonOf;
  }

  // What a state amounts to once its change and its entry are closed.
  function Closed(s: HistoryState): HistoryState {
    HistoryState(s.history, CloseChange(s).entry, None)
  }

  lemma {:induction false} OneChange(s: HistoryState, c: Change)
    requires IsChange(c) && s.entry.Some?
    ensures var after := HistoryAfter(s, [ChangeLine(c)] + ReasonLines(c));
            && after == CloseChange(s).(change := Some(c))
            && var entry := Closed(s).entry.value;
               Closed(after) == Closed(s).(entry := Some(entry.(changes := entry.changes + [c])))
  {
    hide MilestoneOf, ChangeOf, ReasonOf, ChangeLine;
    ChangeReads(c);
    OneLine(s, ChangeLine(c));
    var s1 := CloseChange(s).(change := Some(c.(reason := None)));
    assert HistoryStep(s, ChangeLine(c)) == s1;
    HistoryAppend(s, [ChangeLine(c)], ReasonLines(c));
    if c.reason.Some? {
      var line := "  - Reason: " + c.reason.value;
      ReasonReads(c.reason.value);
      OneLine(s1, line);
      FieldStart(c.reason.value);
      assert ReasonLines(c) == [line];
    } else {
      assert [ChangeLine(c)] + ReasonLines(c) == [ChangeLine(c)];
    }
    hide HistoryAfter, ReasonLines;
  }

  lemma {:induction false} ChangesRead(s: HistoryState, changes: seq<Change>)
    requires s.entry.Some? && forall i :: 0 <= i < |changes| ==> IsChange(changes[i])
    ensures var after := HistoryAfter(s, ChangeLines(changes));
            && after.entry.Some? && after.history == s.history
            && var entry := Closed(s).entry.value;
               Closed(after) == Closed(s).(entry := Some(entry.(changes := entry.changes + changes)))
  {
    hide ChangeLine, ReasonLines, IsChange, HistoryStep;
    if changes == [] {
      assert Closed(s).entry.value.changes + [] == Closed(s).entry.value.changes;
    } else {
      var last := Last(changes);
      ChangesRead(s, Front(changes));
      assert IsChange(changes[|changes| - 1]);
      var before := HistoryAfter(s, ChangeLines(Front(changes)));
      OneChange(before, last);
      HistoryAppend(s, ChangeLines(Front(changes)), [ChangeLine(last)] + ReasonLines(last));
      assert changes == Front(changes) + [last];
      var earlier := Closed(s).entry.value.changes;
      assert (earlier + Front(changes)) + [last] == earlier + changes;
    }
  }

  // An entry's lines, after whatever came before: that is closed, and the entry is current.
  lemma {:induction false} EntryReads(s: HistoryState, e: Entry)
    requires IsEntry(e)
    ensures var after := HistoryAfter(s, EntryLines(e));
            after.history == Push(s.history, Closed(s).entry) && Closed(after).entry == Some(e)
  {
    hide ChangeLine, ReasonLines, IsChange, MilestoneOf, ChangeOf, ReasonOf, ChangeLines, MilestoneLine;
    MilestoneReads(e);
    var header := MilestoneLine(e);
    OneLine(s, header);
    var s1 := HistoryState(Push(s.history, Closed(s).entry), Some(Entry(e.milestone, e.date, [])), None);
    assert HistoryStep(s, header) == s1;
    HistoryAppend(s, [header], ChangeLines(e.changes));
    ChangesRead(s1, e.changes);
    var lines := [header] + ChangeLines(e.changes);
    HistoryAppend(s, lines, [""]);
    OneLine(HistoryAfter(s, lines), "");
    BlankHistory(HistoryAfter(s, lines));
    assert Closed(s1).entry.value.changes + e.changes == e.changes;
    hide HistoryAfter, HistoryStep;
  }

  lemma {:induction false} NoHistory(s: HistoryState)
    ensures HistoryLines([]) == [] && HistoryAfter(s, []) == s
  {
  }

  lemma {:induction false} EntriesRead(history: seq<Entry>)
    requires history != [] && forall i :: 0 <= i < |history| ==> IsEntry(history[i])
    ensures var s := HistoryAfter(HistoryState([], None, None), HistoryLines(history));
            s.history == Front(history) && Closed(s).entry == Some(Last(history))
  {
    hide EntryLines, HistoryStep, IsEntry, HistoryAfter;
    var s0 := HistoryState([], None, None);
    var last := Last(history);
    var before := HistoryAfter(s0, HistoryLines(Front(history)));
    HistoryAppend(s0, HistoryLines(Front(history)), EntryLines(last));
    assert IsEntry(history[|history| - 1]);
    EntryReads(before, last);
    if |history| == 1 {
      assert Front(history) == [];
      NoHistory(s0);
    } else {
      EntriesRead(Front(history));
      assert Front(history) == Front(Front(history)) + [Last(Front(history))];
    }
  }

  lemma {:induction false} HistoryReads(history: seq<Entry>)
    requires forall i :: 0 <= i < |history| ==> IsEntry(history[i])
    ensures ReadHistory(HistoryLines(history)) == history
  {
    hide IsEntry, HistoryStep;
    if history == [] {
      assert HistoryAfter(HistoryState([], None, None), []) == HistoryState([], None, None);
    } else {
      EntriesRead(history);
      assert history == Front(history) + [Last(history)];
    }
    hide HistoryAfter, HistoryLines;
  }
}
