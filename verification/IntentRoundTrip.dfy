// A generated INTENT.md is read back as the record it was generated from (plugin.js).
module IntentRoundTrip {
  import opened Options
  import opened Strings
  import opened Decimals
  import opened Scanning
  import opened IntentFormat
  import opened IntentLines
  import opened IntentSections
  import opened IntentDocument
  import opened IntentShape
  import opened IntentGenerated

  // ---------- Section by section ----------

  lemma {:induction false} CommentReads(line: string)
    requires IsComment(line)
    ensures var lines := Split(Trim(Framed([line])));
            && ReadUsers(lines) == [] && ReadOutcomes(lines) == [] && ReadItems("SC-", lines) == []
            && ConstraintsAfter(ConstraintState(NoTopic, NO_CONSTRAINTS), lines).items == NO_CONSTRAINTS
            && ReadHealth(lines) == Health([], "")
  {
    CommentIsSolid(line);
    PlaceholderReads(line);
    hide Split, Trim, Framed;
  }

  lemma {:induction false} UserSection(users: seq<string>)
    requires forall i :: 0 <= i < |users| ==> IsUser(users[i])
    ensures ReadUsers(Split(Trim(Framed(OrElse(UserLines(users), USERS_COMMENT))))) == users
  {
    hide IsUser, Split, Trim, Framed, ReadUsers, IsComment, USERS_COMMENT;
    if users == [] {
      Placeholders();
      CommentReads(USERS_COMMENT);
    } else {
      UsersAreSolid(users);
      SolidReads(UserLines(users));
      UsersRead(users);
    }
  }

  lemma {:induction false} OutcomeSection(outcomes: seq<Outcome>)
    requires forall i :: 0 <= i < |outcomes| ==> IsOutcome(outcomes[i])
    ensures ReadOutcomes(Split(Trim(Framed(OrElse(OutcomeLines(outcomes), OUTCOMES_COMMENT))))) == outcomes
  {
    hide IsOutcome, Split, Trim, Framed, ReadOutcomes, IsComment, OUTCOMES_COMMENT;
    if outcomes == [] {
      Placeholders();
      CommentReads(OUTCOMES_COMMENT);
    } else {
      OutcomesAreSolid(outcomes);
      SolidReads(OutcomeLines(outcomes));
      OutcomesRead(outcomes);
    }
  }

  lemma {:induction false} CriteriaSection(items: seq<Item>)
    requires AreItems("SC-", items)
    ensures ReadItems("SC-", Split(Trim(Framed(OrElse(ItemLines(items), CRITERIA_COMMENT))))) == items
  {
    hide AreItems, Split, Trim, Framed, ReadItems, IsComment, CRITERIA_COMMENT;
    if items == [] {
      Placeholders();
      CommentReads(CRITERIA_COMMENT);
    } else {
      ItemsAreSolid("SC-", items);
      SolidReads(ItemLines(items));
      ItemsRead("SC-", items);
    }
  }

  lemma {:induction false} NoTopicLines(header: string, items: seq<Item>)
    ensures TopicLines(header, items) == [] <==> items == []
  {
  }

  lemma {:induction false} ConstraintSection(c: Constraints)
    requires AreItems("C-", c.technical) && AreItems("C-", c.business) && AreItems("C-", c.timeline)
    ensures ConstraintsAfter(ConstraintState(NoTopic, NO_CONSTRAINTS),
                             Split(Trim(Framed(OrElse(ConstraintLines(c), CONSTRAINTS_COMMENT))))).items == c
  {
    hide AreItems, Split, Trim, Framed, ConstraintsAfter, IsComment, CONSTRAINTS_COMMENT, TopicLines, Closing,
         ConstraintStep;
    NoTopicLines("### Technical", c.technical);
    NoTopicLines("### Business", c.business);
    NoTopicLines("### Timeline", c.timeline);
    if ConstraintLines(c) == [] {
      Placeholders();
      CommentReads(CONSTRAINTS_COMMENT);
    } else {
      var lines := ConstraintLines(c);
      ConstraintsAreClosing(c);
      ClosingReads(lines);
      ClosingFront(lines);
      ConstraintsRead(c);
      BlankConstraints(ConstraintState(NoTopic, NO_CONSTRAINTS), Front(lines));
    }
  }

  lemma {:induction false} BlankConstraints(s: ConstraintState, lines: seq<string>)
    ensures ConstraintsAfter(s, lines + [""]) == ConstraintsAfter(s, lines)
  {
    PushLast(lines, "");
    BlankConstraint(ConstraintsAfter(s, lines));
    hide ConstraintStep;
  }

  lemma {:induction false} BlankHealth(s: HealthState, lines: seq<string>)
    ensures HealthAfter(s, lines + [""]) == HealthAfter(s, lines)
  {
    hide HealthStep;
    PushLast(lines, "");
    BlankHealthLine(HealthAfter(s, lines));
  }

  lemma {:induction false} BlankHealthLine(s: HealthState)
    ensures HealthStep(s, "") == s
  {
    hide Bullet, IsHeader, Trim, MilestoneOf, ChangeOf, ReasonOf;
    EmptyLine();
    TrimNothing();
    assert ItemOf("HM-", "") == None;
  }

  lemma {:induction false} BlankHistories(s: HistoryState, lines: seq<string>)
    ensures HistoryAfter(s, lines + [""]) == HistoryAfter(s, lines)
  {
    PushLast(lines, "");
    BlankHistory(HistoryAfter(s, lines));
    hide HistoryStep;
  }

  function ProseOf(h: Health): seq<string> {
    if h.qualitative == "" then [] else Split(h.qualitative)
  }

  // The prose is written as one piece, and read line by line.
  lemma {:induction false} HealthText(h: Health)
    requires IsHealth(h)
    ensures AreProse(ProseOf(h)) && Join(ProseOf(h)) == h.qualitative
    ensures var lines := TopicLines("### Quantitative", h.quantitative) + ProseLines(ProseOf(h));
            && (HealthLines(h) == [] <==> lines == [])
            && Join(HealthLines(h)) == Join(lines)
  {
    var topic, q := TopicLines("### Quantitative", h.quantitative), h.qualitative;
    hide IsProse, TopicLines, AreItems, TagFreeItems, NoTags;
    JoinSplit(q);
    if q == "" {
      assert Trim("") == "";
    } else {
      var prose := Split(q);
      ProseIsTrimmed(prose);
      TrimTrimmed(q);
      hide Join, Split, Trim, IsTrimmed;
      SplitLast(topic + ["### Qualitative"], q);
      assert topic + ["### Qualitative", q] == topic + ["### Qualitative"] + [q];
      assert topic + (["### Qualitative"] + prose) == topic + ["### Qualitative"] + prose;
    }
  }

  lemma {:induction false} ProseIsTrimmed(prose: seq<string>)
    requires prose != [] && AreProse(prose)
    ensures IsTrimmed(Join(prose))
  {
    assert IsProse(prose[0]) && IsProse(prose[|prose| - 1]);
    forall i | 0 <= i < |prose|
      ensures IsLine(prose[i])
    {
      assert IsProse(prose[i]);
    }
    JoinIsTrimmed(prose);
    hide Join;
  }

  lemma {:induction false} HealthSection(h: Health)
    requires IsHealth(h)
    ensures ReadHealth(Split(Trim(Framed(OrElse(HealthLines(h), HEALTH_COMMENT))))) == h
  {
    var prose := ProseOf(h);
    var lines := TopicLines("### Quantitative", h.quantitative) + ProseLines(prose);
    HealthText(h);
    assert AreItems("HM-", h.quantitative) && AreProse(prose);
    hide IsHealth, AreItems, Split, Trim, Join, HealthAfter, IsComment, HEALTH_COMMENT, TopicLines, Closing, Solid,
         IsProse, HealthLines, ProseOf;
    HealthShape(h.quantitative, prose);
    HealthReads(h.quantitative, prose);
    if lines == [] {
      Placeholders();
      CommentReads(HEALTH_COMMENT);
      NoTopicLines("### Quantitative", h.quantitative);
      hide ReadHealth;
      assert h.quantitative == [] && prose == [];
      JoinNothing();
    } else if prose == [] {
      ClosingReads(lines);
      ClosingFront(lines);
      BlankHealth(HealthState(NoPart, [], []), Front(lines));
    } else {
      SolidReads(lines);
    }
  }

  lemma {:induction false} JoinNothing()
    ensures Join([]) == ""
  {
  }

  lemma {:induction false} HistorySection(history: seq<Entry>)
    requires history != [] && forall i :: 0 <= i < |history| ==> IsEntry(history[i])
    ensures ReadHistory(Split(Trim(Framed(HistoryLines(history))))) == history
  {
    hide IsEntry, Split, Trim, Framed, HistoryAfter, HistoryLines, Closing;
    var lines := HistoryLines(history);
    HistoryIsClosing(history);
    ClosingReads(lines);
    ClosingFront(lines);
    HistoryReads(history);
    BlankHistories(HistoryState([], None, None), Front(lines));
  }

  lemma {:induction false} NoHistorySection()
    ensures ReadHistory(Split("")) == []
  {
    var s := HistoryState([], None, None);
    assert Split("") == [""];
    OneLine(s, "");
    BlankHistory(s);
    hide HistoryAfter, HistoryStep;
  }

  lemma {:induction false} ObjectiveSection(o: Objective)
    requires IsObjective(o)
    ensures ReadObjective(Trim(Framed(ObjectiveLines(o)))) == o
  {
    BlankEnds();
    TrimTrimmed(o.statement);
    SplitLine(o.statement, "\n" + o.elaboration);
    if o.elaboration == "" {
      SingleLine(o.statement);
      TrimBetween("\n", o.statement, "\n");
      JoinNothing();
      hide Split, Join, Trim, NoTags;
      assert [o.statement][1..] == [];
      TrimNothing();
    } else {
      var text := o.statement + "\n" + ("\n" + o.elaboration);
      ObjectiveText(o);
      assert IsTrimmed(text);
      TrimBetween("\n", text, "\n");
      JoinSplit("\n" + o.elaboration);
      TrimBetween("\n", o.elaboration, "");
      hide Split, Join, Trim, NoTags, IsTrimmed;
      assert "\n" + o.elaboration + "" == "\n" + o.elaboration;
      assert ([o.statement] + Split("\n" + o.elaboration))[1..] == Split("\n" + o.elaboration);
    }
  }

  lemma {:induction false} TrimNothing()
    ensures Trim("") == ""
  {
  }

  lemma {:induction false} ObjectiveText(o: Objective)
    ensures Join([o.statement, "", o.elaboration]) == o.statement + "\n" + ("\n" + o.elaboration)
  {
    hide Join;
    JoinAppend([""], [o.elaboration]);
    JoinAppend([o.statement], [""] + [o.elaboration]);
    SingleLine(o.statement);
    SingleLine("");
    SingleLine(o.elaboration);
    assert [o.statement, "", o.elaboration] == [o.statement] + ([""] + [o.elaboration]);
    assert "" + "\n" + o.elaboration == "\n" + o.elaboration;
  }

  // ---------- The whole document ----------

  lemma {:induction false} GeneratedText(d: Intent, today: string)
    requires IsRest(d)
    ensures Generated(d, today)
            == Join(["**Revision:** " + Decimal(d.revision.value), "**Created:** " + d.created.value,
                     "**Updated:** " + d.updated.value] + ([""] + AllBlockLines(Blocks(d))))
  {
    assert IsStamp(d.created) && IsStamp(d.updated) && d.revision.value != 0;
    hide IsRest, Blocks, AllBlockLines, Decimal, Join, NoTags;
    var a, b, c := "**Revision:** " + Decimal(d.revision.value), "**Created:** " + d.created.value,
                   "**Updated:** " + d.updated.value;
    FourLines(a, b, c, AllBlockLines(Blocks(d)));
  }

  lemma {:induction false} FourLines(a: string, b: string, c: string, lines: seq<string>)
    ensures [a, b, c, ""] + lines == [a, b, c] + ([""] + lines)
  {
  }

  lemma {:induction false} HeaderIs(d: Intent, today: string)
    requires IsRest(d)
    ensures var text := Generated(d, today);
            && Parsed(text).revision == d.revision && Parsed(text).created == d.created
            && Parsed(text).updated == d.updated
  {
    var n, created, updated := d.revision.value, d.created.value, d.updated.value;
    var lines := [""] + AllBlockLines(Blocks(d));
    GeneratedText(d, today);
    assert IsStamp(d.created) && IsStamp(d.updated) && Lacks(created, "**Updated:**");
    DigitsAreDigits(n);
    HeaderFieldsRead(n, created, updated, lines);
    hide IsRest, IsStamp, Blocks, AllBlockLines, Decimal, ValueOf, LabelValue, Join, Section, ReadObjective,
         ReadUsers, ReadOutcomes, ReadItems, ReadHealth, ReadHistory, NoTags, SectionLines, ConstraintsAfter,
         Generated;
    LabelsAre(Generated(d, today), n, created, updated);
  }

  lemma {:induction false} LabelsAre(text: string, n: nat, created: string, updated: string)
    requires LabelValue(text, "**Revision:**", IsDigit, 0) == Some(Decimal(n)) && ValueOf(Decimal(n)) == n
    requires LabelValue(text, "**Created:**", IsVisible, 0) == Some(created)
    requires LabelValue(text, "**Updated:**", IsVisible, 0) == Some(updated)
    ensures Parsed(text).revision == Some(n) && Parsed(text).created == Some(created)
    ensures Parsed(text).updated == Some(updated)
  {
    hide Decimal, ValueOf, LabelValue, Section, ReadObjective, ReadUsers, ReadOutcomes, ReadItems, ReadHealth,
         ReadHistory, SectionLines, ConstraintsAfter;
  }

  ghost predicate CanBeWritten(d: Intent) {
    IsRest(d) && (d.objective.statement == "" || IsObjective(d.objective))
  }

  lemma {:induction false} SectionLinesAre(d: Intent, today: string, k: nat)
    requires CanBeWritten(d) && k < |Blocks(d)|
    ensures k < |TAGS| && SectionLines(Generated(d, today), TAGS[k]) == Split(Trim(Framed(Blocks(d)[k].lines)))
  {
    hide IsRest, IsObjective, TAGS, Blocks, Generated, Section, Split, Trim, Framed;
    SectionIs(d, today, k);
  }

  // Which lines stand in which section.
  lemma {:induction false} BlocksHold(d: Intent)
    ensures |Blocks(d)| >= 6 && |TAGS| == 7
    ensures TAGS[1] == "users" && Blocks(d)[1].lines == OrElse(UserLines(d.users), USERS_COMMENT)
    ensures TAGS[2] == "outcomes" && Blocks(d)[2].lines == OrElse(OutcomeLines(d.outcomes), OUTCOMES_COMMENT)
    ensures TAGS[3] == "criteria" && Blocks(d)[3].lines == OrElse(ItemLines(d.criteria), CRITERIA_COMMENT)
    ensures TAGS[4] == "constraints"
    ensures Blocks(d)[4].lines == OrElse(ConstraintLines(d.constraints), CONSTRAINTS_COMMENT)
    ensures TAGS[5] == "health" && Blocks(d)[5].lines == OrElse(HealthLines(d.health), HEALTH_COMMENT)
  {
    hide OrElse, UserLines, OutcomeLines, ItemLines, ConstraintLines, HealthLines, HistoryLines, ObjectiveLines,
         USERS_COMMENT, OUTCOMES_COMMENT, CRITERIA_COMMENT, CONSTRAINTS_COMMENT, HEALTH_COMMENT;
  }

  lemma {:induction false} UsersAre(d: Intent, today: string)
    requires CanBeWritten(d)
    ensures ReadUsers(SectionLines(Generated(d, today), "users")) == d.users
  {
    assert forall i :: 0 <= i < |d.users| ==> IsUser(d.users[i]);
    hide CanBeWritten, Generated, SectionLines, Split, Trim, Framed, Blocks, TAGS, OrElse, ReadUsers, IsUser;
    BlocksHold(d);
    SectionLinesAre(d, today, 1);
    UserSection(d.users);
  }

  lemma {:induction false} OutcomesAre(d: Intent, today: string)
    requires CanBeWritten(d)
    ensures ReadOutcomes(SectionLines(Generated(d, today), "outcomes")) == d.outcomes
  {
    assert forall i :: 0 <= i < |d.outcomes| ==> IsOutcome(d.outcomes[i]);
    hide CanBeWritten, Generated, SectionLines, Split, Trim, Framed, Blocks, TAGS, OrElse, ReadOutcomes, IsOutcome;
    BlocksHold(d);
    SectionLinesAre(d, today, 2);
    OutcomeSection(d.outcomes);
  }

  lemma {:induction false} CriteriaAre(d: Intent, today: string)
    requires CanBeWritten(d)
    ensures ReadItems("SC-", SectionLines(Generated(d, today), "criteria")) == d.criteria
  {
    assert AreItems("SC-", d.criteria);
    hide CanBeWritten, Generated, SectionLines, Split, Trim, Framed, Blocks, TAGS, OrElse, ReadItems, AreItems;
    BlocksHold(d);
    SectionLinesAre(d, today, 3);
    CriteriaSection(d.criteria);
  }

  lemma {:induction false} ConstraintsAre(d: Intent, today: string)
    requires CanBeWritten(d)
    ensures ConstraintsAfter(ConstraintState(NoTopic, NO_CONSTRAINTS),
        SectionLines(Generated(d, today), "constraints")).items
            == d.constraints
  {
    assert AreItems("C-", d.constraints.technical) && AreItems("C-", d.constraints.business)
           && AreItems("C-", d.constraints.timeline);
    hide CanBeWritten, Generated, SectionLines, Split, Trim, Framed, Blocks, TAGS, OrElse, ConstraintsAfter, AreItems;
    BlocksHold(d);
    SectionLinesAre(d, today, 4);
    ConstraintSection(d.constraints);
  }

  lemma {:induction false} HealthIs(d: Intent, today: string)
    requires CanBeWritten(d)
    ensures ReadHealth(SectionLines(Generated(d, today), "health")) == d.health
  {
    assert IsHealth(d.health);
    hide CanBeWritten, Generated, SectionLines, Split, Trim, Framed, Blocks, TAGS, OrElse, ReadHealth, IsHealth;
    BlocksHold(d);
    SectionLinesAre(d, today, 5);
    HealthSection(d.health);
  }

  lemma {:induction false} HistoryIs(d: Intent, today: string)
    requires CanBeWritten(d)
    ensures ReadHistory(SectionLines(Generated(d, today), "history")) == d.history
  {
    assert forall i :: 0 <= i < |d.history| ==> IsEntry(d.history[i]);
    BlocksAreDocument(d);
    HeaderHasNoTags(d, today);
    hide CanBeWritten, IsRest, IsObjective, Split, Trim, Framed, ReadHistory, IsEntry, Section, Join, HeaderLines,
         AllBlockLines, AllNoTags, IsDocument, OrElse, UserLines, OutcomeLines, ItemLines, ConstraintLines,
         HealthLines, HistoryLines, ObjectiveLines;
    if d.history != [] {
      SectionLinesAre(d, today, 6);
      HistorySection(d.history);
    } else {
      forall i | 0 <= i < |Blocks(d)|
        ensures Blocks(d)[i].tag != "history"
      {
        BlockTags(d, i);
        TagsDiffer(i, 6);
      }
      TagIsTag(6);
      SectionMissing(HeaderLines(d, today), Blocks(d), "history");
      NoHistorySection();
    }
  }

  lemma {:induction false} ObjectiveIs(d: Intent, today: string)
    requires CanBeWritten(d)
    ensures IsObjective(d.objective) ==> Parsed(Generated(d, today)).objective == d.objective
    ensures d.objective.statement == "" ==> Parsed(Generated(d, today)).objective.statement != ""
  {
    assert IsObjective(d.objective) ==> d.objective.statement != "";
    hide IsRest, IsObjective, Generated, Section, Split, Trim, Framed, ReadObjective, ObjectiveLines, OrElse,
         UserLines, OutcomeLines, ItemLines, ConstraintLines, HealthLines, HistoryLines, LabelValue, ReadUsers,
         ReadOutcomes, ReadItems, ReadHealth, ReadHistory, ConstraintsAfter, SectionLines, ValueOf;
    SectionIs(d, today, 0);
    if d.objective.statement == "" {
      CommentObjective(d.objective);
    } else {
      ObjectiveSection(d.objective);
    }
  }

  // The comment that stands for a missing objective is taken for one.
  lemma {:induction false} CommentObjective(o: Objective)
    requires o.statement == ""
    ensures ReadObjective(Trim(Framed(ObjectiveLines(o)))).statement != ""
  {
    ObjectivePlaceholder();
    hide IsComment, OBJECTIVE_COMMENT, Split, Framed;
    CommentIsSolid(OBJECTIVE_COMMENT);
    CommentIsTrimmed(OBJECTIVE_COMMENT);
    hide Trim;
  }

  lemma {:induction false} CommentIsTrimmed(line: string)
    requires IsComment(line)
    ensures Trim(line) == line && line != "" && Trim(Framed([line])) == line
  {
    TrimTrimmed(line);
    BlankEnds();
    SingleLine(line);
    TrimBetween("\n", line, "\n");
    hide Trim;
  }

  // Reading what was written gives the record back exactly when it states an objective.
  lemma {:induction false} IntentRoundTrip(d: Intent, today: string)
    requires CanBeWritten(d)
    ensures Parsed(Generated(d, today)) == d <==> d.objective.statement != ""
  {
    assert d.objective.statement != "" ==> IsObjective(d.objective);
    hide IsRest, IsObjective, Generated, Section, ReadObjective, LabelValue, ReadUsers, ReadOutcomes, ReadItems,
         ReadHealth, ReadHistory, ConstraintsAfter, SectionLines, ValueOf;
    HeaderIs(d, today);
    UsersAre(d, today);
    OutcomesAre(d, today);
    CriteriaAre(d, today);
    ConstraintsAre(d, today);
    HealthIs(d, today);
    HistoryIs(d, today);
    ObjectiveIs(d, today);
  }
}
