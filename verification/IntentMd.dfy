// parseIntentMd and generateIntentMd as the loops they are (plugin.js); the record they
// exchange and its round trip are in IntentFormat and IntentRoundTrip.
module IntentMd {
  import opened Options
  import opened Strings
  import opened Decimals
  import opened Scanning
  import opened IntentFormat
  import opened IntentSections
  import L = IntentLines

  lemma {:induction false} Prefix<T>(s: seq<T>, i: nat)
    requires i < |s|
    ensures Front(s[..i + 1]) == s[..i] && Last(s[..i + 1]) == s[i]
  {
  }

  // ---------- Parsing ----------

  method ParseUsers(lines: seq<string>) returns (users: seq<string>)
    ensures users == ReadUsers(lines)
  {
    hide UserOf;
    users := [];
    for i := 0 to |lines|
      invariant users == ReadUsers(lines[..i])
    {
      Prefix(lines, i);
      users := Push(users, UserOf(lines[i]));
    }
    assert lines[..|lines|] == lines;
  }

  method ParseOutcomes(lines: seq<string>) returns (outcomes: seq<Outcome>)
    ensures outcomes == ReadOutcomes(lines)
  {
    hide OutcomeOf;
    outcomes := [];
    for i := 0 to |lines|
      invariant outcomes == ReadOutcomes(lines[..i])
    {
      Prefix(lines, i);
      outcomes := Push(outcomes, OutcomeOf(lines[i]));
    }
    assert lines[..|lines|] == lines;
  }

  method ParseCriteria(lines: seq<string>) returns (criteria: seq<Item>)
    ensures criteria == ReadItems("SC-", lines)
  {
    hide ItemOf;
    criteria := [];
    for i := 0 to |lines|
      invariant criteria == ReadItems("SC-", lines[..i])
    {
      Prefix(lines, i);
      criteria := Push(criteria, ItemOf("SC-", lines[i]));
    }
    assert lines[..|lines|] == lines;
  }

  method ParseConstraints(lines: seq<string>) returns (constraints: Constraints)
    ensures constraints == ConstraintsAfter(ConstraintState(NoTopic, NO_CONSTRAINTS), lines).items
  {
    hide ItemOf, IsHeader;
    constraints := NO_CONSTRAINTS;
    var currentType := NoTopic;
    for i := 0 to |lines|
      invariant ConstraintState(currentType, constraints)
                == ConstraintsAfter(ConstraintState(NoTopic, NO_CONSTRAINTS), lines[..i])
    {
      Prefix(lines, i);
      var line := lines[i];
      if IsHeader(line, "technical") {
        currentType := Technical;
      } else if IsHeader(line, "business") {
        currentType := Business;
      } else if IsHeader(line, "timeline") {
        currentType := Timeline;
      } else if currentType != NoTopic {
        constraints := AddConstraint(constraints, currentType, ItemOf("C-", line));
      }
    }
    assert lines[..|lines|] == lines;
  }

  method ParseHealth(lines: seq<string>) returns (health: Health)
    ensures health == ReadHealth(lines)
  {
    hide ItemOf, IsHeader, Trim, Join;
    var quantitative, qualLines := [], [];
    var part := NoPart;
    for i := 0 to |lines|
      invariant HealthState(part, quantitative, qualLines) == HealthAfter(HealthState(NoPart, [], []), lines[..i])
    {
      Prefix(lines, i);
      var line := lines[i];
      if IsHeader(line, "quantitative") {
        part := Quantitative;
      } else if IsHeader(line, "qualitative") {
        part := Qualitative;
      } else if part == Quantitative {
        quantitative := Push(quantitative, ItemOf("HM-", line));
      } else if part == Qualitative && Trim(line) != "" {
        qualLines := qualLines + [Trim(line)];
      }
    }
    assert lines[..|lines|] == lines;
    return Health(quantitative, Join(qualLines));
  }

  method ParseHistory(lines: seq<string>) returns (history: seq<Entry>)
    ensures history == ReadHistory(lines)
  {
    hide MilestoneOf, ChangeOf, ReasonOf;
    history := [];
    var currentEntry: Option<Entry> := None;
    var currentChange: Option<Change> := None;
    for i := 0 to |lines|
      invariant HistoryState(history, currentEntry, currentChange)
                == HistoryAfter(HistoryState([], None, None), lines[..i])
    {
      Prefix(lines, i);
      var line := lines[i];
      if MilestoneOf(line).Some? {
        currentEntry := PushChange(currentEntry, currentChange);
        currentChange := None;
        if currentEntry.Some? {
          history := history + [currentEntry.value];
        }
        currentEntry := MilestoneOf(line);
      } else if ChangeOf(line).Some? && currentEntry.Some? {
        currentEntry := PushChange(currentEntry, currentChange);
        currentChange := ChangeOf(line);
      } else if ReasonOf(line).Some? && currentChange.Some? {
        currentChange := Some(currentChange.value.(reason := ReasonOf(line)));
      }
    }
    assert lines[..|lines|] == lines;
    currentEntry := PushChange(currentEntry, currentChange);
    if currentEntry.Some? {
      history := history + [currentEntry.value];
    }
  }

  // The change in progress, if there are both, goes into the entry.
  function PushChange(entry: Option<Entry>, change: Option<Change>): (r: Option<Entry>)
    ensures r == CloseChange(HistoryState([], entry, change)).entry
  {
    if entry.Some? && change.Some? then Some(entry.value.(changes := entry.value.changes + [change.value])) else entry
  }

  method ParseIntentMd(content: string) returns (intent: Intent)
    ensures intent == Parsed(content)
  {
    hide LabelValue, Section, ReadObjective, ReadUsers, ReadOutcomes, ReadItems, ReadHealth, ReadHistory,
         ConstraintsAfter, SectionLines, ValueOf;
    if content == "" {
      NothingReads();
      return Intent(None, None, None, Objective("", ""), [], [], [], NO_CONSTRAINTS, Health([], ""), []);
    }
    var digits := LabelValue(content, "**Revision:**", IsDigit, 0);
    var revision := if digits.Some? && ValueOf(digits.value) >= 0 then Some(ValueOf(digits.value) as nat) else None;
    var objectiveRaw := Section(content, "objective");
    var objective := if objectiveRaw.Some? then ReadObjective(objectiveRaw.value) else Objective("", "");
    assert ReadObjective("") == Objective("", "") by {
      NoObjective();
    }
    var users := ParseUsers(SectionLines(content, "users"));
    var outcomes := ParseOutcomes(SectionLines(content, "outcomes"));
    var criteria := ParseCriteria(SectionLines(content, "criteria"));
    var constraints := ParseConstraints(SectionLines(content, "constraints"));
    var health := ParseHealth(SectionLines(content, "health"));
    var history := ParseHistory(SectionLines(content, "history"));
    return Intent(revision, LabelValue(content, "**Created:**", IsVisible, 0),
                  LabelValue(content, "**Updated:**", IsVisible, 0),
                  objective, users, outcomes, criteria, constraints, health, history);
  }

  lemma {:induction false} NoObjective()
    ensures ReadObjective("") == Objective("", "")
  {
  }

  // The shortcut for an empty text agrees with reading it.
  lemma {:induction false} NothingReads()
    ensures Parsed("") == Intent(None, None, None, Objective("", ""), [], [], [], NO_CONSTRAINTS, Health([], ""), [])
  {
    NothingFound("objective");
    NothingFound("users");
    NothingFound("outcomes");
    NothingFound("criteria");
    NothingFound("constraints");
    NothingFound("health");
    NothingFound("history");
    BlankSection();
    hide Section, Split, ReadUsers, ReadOutcomes, ReadItems, ReadHealth, ReadHistory, ConstraintsAfter;
    assert LabelValue("", "**Revision:**", IsDigit, 0) == None;
    assert LabelValue("", "**Created:**", IsVisible, 0) == None;
    assert LabelValue("", "**Updated:**", IsVisible, 0) == None;
  }

  lemma {:induction false} NothingFound(tag: string)
    ensures Section("", tag) == None
  {
    assert |OpenTag(tag)| >= 2;
  }

  lemma {:induction false} BlankSection()
    ensures Split("") == [""]
    ensures ReadUsers([""]) == [] && ReadOutcomes([""]) == [] && ReadItems("SC-", [""]) == []
    ensures ConstraintsAfter(ConstraintState(NoTopic, NO_CONSTRAINTS), [""]).items == NO_CONSTRAINTS
    ensures ReadHealth([""]) == Health([], "") && ReadHistory([""]) == []
  {
    L.EmptyLine();
    hide Bullet, IsHeader, MilestoneOf, ChangeOf, ReasonOf;
    assert Front([""]) == [] && Last([""]) == "";
    assert UserOf("") == None && OutcomeOf("") == None && ItemOf("SC-", "") == None;
    var s := HealthState(NoPart, [], []);
    assert HealthAfter(s, [""]) == HealthStep(s, "") == s;
    var h := HistoryState([], None, None);
    assert HistoryAfter(h, [""]) == HistoryStep(h, "") == h;
  }

  // ---------- Writing ----------

  method PushTopic(lines: seq<string>, header: string, items: seq<Item>) returns (more: seq<string>)
    ensures more == lines + TopicLines(header, items)
  {
    more := lines;
    if |items| > 0 {
      more := more + [header];
      for i := 0 to |items|
        invariant more == lines + ([header] + ItemLines(items[..i]))
      {
        Prefix(items, i);
        more := more + ["- " + items[i].id + ": " + items[i].text];
      }
      assert items[..|items|] == items;
      more := more + [""];
    }
  }

  method PushChanges(lines: seq<string>, changes: seq<Change>) returns (more: seq<string>)
    ensures more == lines + ChangeLines(changes)
  {
    hide ChangeLine, ReasonLines;
    more := lines;
    for j := 0 to |changes|
      invariant more == lines + ChangeLines(changes[..j])
    {
      Prefix(changes, j);
      more := more + [ChangeLine(changes[j])];
      more := more + ReasonLines(changes[j]);
    }
    assert changes[..|changes|] == changes;
  }

  method PushHistory(lines: seq<string>, history: seq<Entry>) returns (more: seq<string>)
    ensures more == lines + HistoryLines(history)
  {
    hide MilestoneLine, ChangeLines;
    more := lines;
    for i := 0 to |history|
      invariant more == lines + HistoryLines(history[..i])
    {
      Prefix(history, i);
      ghost var before := more;
      more := more + [MilestoneLine(history[i])];
      more := PushChanges(more, history[i].changes);
      more := more + [""];
      assert more == before + EntryLines(history[i]);
    }
    assert history[..|history|] == history;
  }

  method UserBody(users: seq<string>) returns (lines: seq<string>)
    ensures lines == OrElse(UserLines(users), USERS_COMMENT)
  {
    hide Comment;
    lines := [];
    for i := 0 to |users|
      invariant lines == UserLines(users[..i])
    {
      Prefix(users, i);
      lines := lines + ["- " + users[i]];
    }
    assert users[..|users|] == users;
    if |users| == 0 {
      lines := [USERS_COMMENT];
    }
  }

  method OutcomeBody(outcomes: seq<Outcome>) returns (lines: seq<string>)
    ensures lines == OrElse(OutcomeLines(outcomes), OUTCOMES_COMMENT)
  {
    hide Comment, OutcomeLine;
    lines := [];
    for i := 0 to |outcomes|
      invariant lines == OutcomeLines(outcomes[..i])
    {
      Prefix(outcomes, i);
      lines := lines + [OutcomeLine(outcomes[i])];
    }
    assert outcomes[..|outcomes|] == outcomes;
    if |outcomes| == 0 {
      lines := [OUTCOMES_COMMENT];
    }
  }

  method CriteriaBody(criteria: seq<Item>) returns (lines: seq<string>)
    ensures lines == OrElse(ItemLines(criteria), CRITERIA_COMMENT)
  {
    hide Comment, ItemLine;
    lines := [];
    for i := 0 to |criteria|
      invariant lines == ItemLines(criteria[..i])
    {
      Prefix(criteria, i);
      lines := lines + [ItemLine(criteria[i])];
    }
    assert criteria[..|criteria|] == criteria;
    if |criteria| == 0 {
      lines := [CRITERIA_COMMENT];
    }
  }

  lemma {:induction false} NoTopicLines(header: string, items: seq<Item>)
    ensures TopicLines(header, items) == [] <==> items == []
  {
  }

  method ConstraintBody(c: Constraints) returns (lines: seq<string>)
    ensures lines == OrElse(ConstraintLines(c), CONSTRAINTS_COMMENT)
  {
    hide Comment, TopicLines;
    NoTopicLines("### Technical", c.technical);
    NoTopicLines("### Business", c.business);
    NoTopicLines("### Timeline", c.timeline);
    if |c.technical| > 0 || |c.business| > 0 || |c.timeline| > 0 {
      lines := PushTopic([], "### Technical", c.technical);
      lines := PushTopic(lines, "### Business", c.business);
      lines := PushTopic(lines, "### Timeline", c.timeline);
    } else {
      lines := [CONSTRAINTS_COMMENT];
    }
  }

  method HealthBody(h: Health) returns (lines: seq<string>)
    ensures lines == OrElse(HealthLines(h), HEALTH_COMMENT)
  {
    hide Comment, TopicLines, Trim;
    NoTopicLines("### Quantitative", h.quantitative);
    if |h.quantitative| > 0 || Trim(h.qualitative) != "" {
      lines := PushTopic([], "### Quantitative", h.quantitative);
      if Trim(h.qualitative) != "" {
        lines := lines + ["### Qualitative", h.qualitative];
      }
    } else {
      lines := [HEALTH_COMMENT];
    }
  }

  lemma {:induction false} AddBlock(header: seq<string>, blocks: seq<Block>, b: Block)
    ensures header + AllBlockLines(blocks + [b]) == header + AllBlockLines(blocks) + BlockLines(b)
  {
    PushLast(blocks, b);
    hide BlockLines;
  }

  method GenerateIntentMd(d: Intent, today: string) returns (text: string)
    ensures text == Generated(d, today)
  {
    hide HeaderLines, ObjectiveLines, BlockLines, AllBlockLines, HistoryLines, OrElse, UserLines, OutcomeLines,
         ItemLines, ConstraintLines, HealthLines, Join, USERS_COMMENT, OUTCOMES_COMMENT, CRITERIA_COMMENT,
         CONSTRAINTS_COMMENT, HEALTH_COMMENT;
    ghost var header := HeaderLines(d, today);
    ghost var blocks: seq<Block> := [];
    NoBlocks();
    var lines := HeaderLines(d, today);
    lines := PushBlock(lines, Block("objective", ObjectiveLines(d.objective)), header, blocks);
    blocks := blocks + [Block("objective", ObjectiveLines(d.objective))];
    var users := UserBody(d.users);
    lines := PushBlock(lines, Block("users", users), header, blocks);
    blocks := blocks + [Block("users", users)];
    var outcomes := OutcomeBody(d.outcomes);
    lines := PushBlock(lines, Block("outcomes", outcomes), header, blocks);
    blocks := blocks + [Block("outcomes", outcomes)];
    var criteria := CriteriaBody(d.criteria);
    lines := PushBlock(lines, Block("criteria", criteria), header, blocks);
    blocks := blocks + [Block("criteria", criteria)];
    var constraints := ConstraintBody(d.constraints);
    lines := PushBlock(lines, Block("constraints", constraints), header, blocks);
    blocks := blocks + [Block("constraints", constraints)];
    var health := HealthBody(d.health);
    lines := PushBlock(lines, Block("health", health), header, blocks);
    blocks := blocks + [Block("health", health)];
    if |d.history| > 0 {
      var history := PushHistory([], d.history);
      assert history == HistoryLines(d.history);
      lines := PushBlock(lines, Block("history", history), header, blocks);
      blocks := blocks + [Block("history", history)];
    }
    assert blocks == Blocks(d);
    return Join(lines);
  }

  // A section's lines, with the section recorded among those written so far.
  method PushBlock(lines: seq<string>, b: Block, ghost header: seq<string>, ghost blocks: seq<Block>)
    returns (more: seq<string>)
    requires lines == header + AllBlockLines(blocks)
    ensures more == header + AllBlockLines(blocks + [b])
  {
    hide BlockLines;
    AddBlock(header, blocks, b);
    return lines + BlockLines(b);
  }

  lemma {:induction false} NoBlocks()
    ensures AllBlockLines([]) == []
  {
  }
}
