// The generated INTENT.md: its header fields and each of its sections are found again, with
// exactly the lines that were written (plugin.js).
module IntentGenerated {
  import opened Options
  import opened Strings
  import opened Decimals
  import opened Scanning
  import opened IntentFormat
  import opened IntentLines
  import opened IntentSections
  import opened IntentDocument
  import opened IntentShape

  // ---------- The records ----------

  ghost predicate IsStamp(stamp: Option<string>) {
    && stamp.Some? && stamp.value != "" && NoTags(stamp.value)
    && forall i :: 0 <= i < |stamp.value| ==> IsVisible(stamp.value[i])
  }

  ghost predicate IsObjective(o: Objective) {
    && IsTrimmed(o.statement) && IsLine(o.statement) && NoTags(o.statement)
    && (o.elaboration == "" || (IsTrimmed(o.elaboration) && NoTags(o.elaboration)))
  }

  predicate AreProse(lines: seq<string>) {
    forall i :: 0 <= i < |lines| ==> IsProse(lines[i])
  }

  ghost predicate IsHealth(h: Health) {
    && AreItems("HM-", h.quantitative) && TagFreeItems(h.quantitative)
    && NoTags(h.qualitative) && (h.qualitative == "" || AreProse(Split(h.qualitative)))
  }

  // Everything but the objective.
  ghost predicate IsRest(d: Intent) {
    && d.revision.Some? && d.revision.value >= 1
    && IsStamp(d.created) && IsStamp(d.updated) && Lacks(d.created.value, "**Updated:**")
    && (forall i :: 0 <= i < |d.users| ==> IsUser(d.users[i]) && NoTags(d.users[i]))
    && (forall i :: 0 <= i < |d.outcomes| ==> IsOutcome(d.outcomes[i]) && NoTags(d.outcomes[i].text))
    && AreItems("SC-", d.criteria) && TagFreeItems(d.criteria)
    && AreItems("C-", d.constraints.technical) && TagFreeItems(d.constraints.technical)
    && AreItems("C-", d.constraints.business) && TagFreeItems(d.constraints.business)
    && AreItems("C-", d.constraints.timeline) && TagFreeItems(d.constraints.timeline)
    && IsHealth(d.health)
    && (forall i :: 0 <= i < |d.history| ==> IsEntry(d.history[i]) && TagFreeEntry(d.history[i]))
  }

  // ---------- Joining and splitting ----------

  lemma {:induction false} JoinSplit(text: string)
    ensures Join(Split(text)) == text
  {
    if text != "" {
      var rest := Split(text[1..]);
      JoinSplit(text[1..]);
      SplitUnfold(text);
      if text[0] == '\n' {
        assert ([""] + rest)[1..] == rest;
        assert "" + "\n" + text[1..] == text;
      } else {
        JoinHead([text[0]], rest);
        assert [text[0]] + text[1..] == text;
      }
    }
  }

  lemma {:induction false} JoinHead(c: string, lines: seq<string>)
    requires lines != []
    ensures Join([c + lines[0]] + lines[1..]) == c + Join(lines)
  {
    var longer := [c + lines[0]] + lines[1..];
    if |lines| > 1 {
      assert longer[1..] == lines[1..];
      assert c + (lines[0] + "\n" + Join(lines[1..])) == c + lines[0] + "\n" + Join(lines[1..]);
    }
  }

  lemma {:induction false} SplitLast(before: seq<string>, text: string)
    requires before != []
    ensures Join(before + [text]) == Join(before + Split(text))
  {
    JoinSplit(text);
    SingleLine(text);
    hide Join, Split;
    JoinAppend(before, [text]);
    JoinAppend(before, Split(text));
  }

  // ---------- The header ----------

  // The first place where the label occurs is followed by the value.
  lemma {:induction false} LabelReads(text: string, title: string, p: char -> bool, i: nat, n: nat, value: string,
      after: string)
    requires i <= n <= |text| && StartsLate(text, title, i, n) && StartsAt(text, n, title)
    requires text[n + |title|..] == " " + (value + ("\n" + after))
    requires value != "" && !IsSpace(value[0]) && (forall k :: 0 <= k < |value| ==> p(value[k])) && !p('\n')
    ensures LabelValue(text, title, p, i) == Some(value)
    decreases n - i
  {
    hide Run, DropSpaces;
    if i < n {
      assert !StartsAt(text, i, title);
      LabelReads(text, title, p, i + 1, n, value, after);
    } else {
      OneSpace(value + ("\n" + after));
      RunOf(p, value, "\n" + after);
    }
  }

  // Behind a line without the label.
  lemma {:induction false} StartsAfterLine(line: string, title: string, after: string)
    requires title != "" && '\n' !in title && Lacks(line, title)
    ensures var text := line + "\n" + title + after;
            && StartsLate(text, title, 0, |line| + 1) && StartsAt(text, |line| + 1, title)
            && text[|line| + 1 + |title|..] == after
  {
    var text := line + "\n" + title + after;
    var rest := title + after;
    assert text == line + ['\n'] + rest;
    forall k: nat | 0 <= k < |line| + 1
      ensures !StartsAt(text, k, title)
    {
      StartsBehind(line, rest, title, k);
    }
    assert text[|line| + 1..|line| + 1 + |title|] == title;
  }

  lemma {:induction false} StartsBehind(line: string, rest: string, title: string, k: nat)
    requires title != "" && '\n' !in title && Lacks(line, title) && k < |line| + 1
    ensures !StartsAt(line + ['\n'] + rest, k, title)
  {
    if StartsAt(line + ['\n'] + rest, k, title) {
      StartsOnOneSide(line, '\n', rest, title, k);
    }
  }

  lemma {:induction false} HeaderText(lines: seq<string>, a: string, b: string, c: string)
    requires lines != []
    ensures Join([a, b, c] + lines) == a + "\n" + (b + "\n" + (c + ("\n" + Join(lines))))
  {
    hide Join;
    JoinAppend([c], lines);
    JoinAppend([b], [c] + lines);
    JoinAppend([a], [b] + ([c] + lines));
    SingleLine(a);
    SingleLine(b);
    SingleLine(c);
    assert [a, b, c] + lines == [a] + ([b] + ([c] + lines));
    assert c + "\n" + Join(lines) == c + ("\n" + Join(lines));
    assert b + "\n" + (c + ("\n" + Join(lines))) == b + "\n" + (c + ("\n" + Join(lines)));
  }

  lemma {:induction false} DigitsAreDigits(n: nat)
    ensures var s := Decimal(n); s != "" && !IsSpace(s[0]) && (forall i :: 0 <= i < |s| ==> IsDigit(s[i]))
    ensures ValueOf(Decimal(n)) == n
  {
    DecimalValue(n);
    hide Decimal, ValueOf;
    assert IsDigit(Decimal(n)[0]);
  }

  lemma {:induction false} RevisionReads(n: nat, after: string)
    ensures LabelValue("**Revision:** " + Decimal(n) + "\n" + after, "**Revision:**", IsDigit, 0) == Some(Decimal(n))
  {
    DigitsAreDigits(n);
    hide Decimal, LabelValue;
    var value := Decimal(n);
    var text := "**Revision:** " + value + "\n" + after;
    assert text == "**Revision:**" + (" " + (value + ("\n" + after)));
    assert text[0..13] == "**Revision:**" && text[13..] == " " + (value + ("\n" + after));
    LabelReads(text, "**Revision:**", IsDigit, 0, 0, value, after);
  }

  lemma {:induction false} StampReads(line: string, title: string, stamp: string, after: string)
    requires title != "" && '\n' !in title && Lacks(line, title)
    requires stamp != "" && forall i :: 0 <= i < |stamp| ==> IsVisible(stamp[i])
    ensures LabelValue(line + "\n" + title + (" " + (stamp + ("\n" + after))), title, IsVisible, 0) == Some(stamp)
  {
    assert IsVisible(stamp[0]) && !IsVisible('\n');
    hide LabelValue, StartsLate, Lacks;
    var rest := " " + (stamp + ("\n" + after));
    StartsAfterLine(line, title, rest);
    LabelReads(line + "\n" + title + rest, title, IsVisible, 0, |line| + 1, stamp, after);
  }

  lemma {:induction false} LabelsDiffer(n: nat, created: string)
    requires Lacks(created, "**Updated:**")
    ensures Lacks("**Revision:** " + Decimal(n), "**Created:**")
    ensures Lacks("**Revision:** " + Decimal(n) + "\n" + ("**Created:** " + created), "**Updated:**")
  {
    DigitsAreDigits(n);
    var revision := "**Revision:** " + Decimal(n);
    assert 'C' !in revision && 'U' !in revision by {
      forall i | 0 <= i < |revision|
        ensures revision[i] != 'C' && revision[i] != 'U'
      {
        if i >= 14 {
          assert revision[i] == Decimal(n)[i - 14] && IsDigit(Decimal(n)[i - 14]);
        }
      }
    }
    hide Lacks, Decimal;
    LacksByChar(revision, "**Created:**", 2);
    LacksByChar(revision, "**Updated:**", 2);
    LacksByChar("**Created:**", "**Updated:**", 2);
    LacksAround("**Created:**", ' ', created, "**Updated:**");
    assert "**Created:**" + [' '] + created == "**Created:** " + created;
    LacksAround(revision, '\n', "**Created:** " + created, "**Updated:**");
    assert revision + ['\n'] + ("**Created:** " + created) == revision + "\n" + ("**Created:** " + created);
  }

  lemma {:induction false} HeaderFieldsRead(n: nat, created: string, updated: string, lines: seq<string>)
    requires lines != [] && Lacks(created, "**Updated:**")
    requires created != "" && forall i :: 0 <= i < |created| ==> IsVisible(created[i])
    requires updated != "" && forall i :: 0 <= i < |updated| ==> IsVisible(updated[i])
    ensures var head := ["**Revision:** " + Decimal(n), "**Created:** " + created, "**Updated:** " + updated];
      var text := Join(head + lines);
            && LabelValue(text, "**Revision:**", IsDigit, 0) == Some(Decimal(n))
            && LabelValue(text, "**Created:**", IsVisible, 0) == Some(created)
            && LabelValue(text, "**Updated:**", IsVisible, 0) == Some(updated)
  {
    hide LabelValue, Join, Decimal, IsVisible, Lacks;
    var a, b, c := "**Revision:** " + Decimal(n), "**Created:** " + created, "**Updated:** " + updated;
    var rest := Join(lines);
    HeaderText(lines, a, b, c);
    LabelsDiffer(n, created);
    RevisionReads(n, b + "\n" + (c + ("\n" + rest)));
    StampReads(a, "**Created:**", created, c + ("\n" + rest));
    CreatedText(a, created, c + ("\n" + rest));
    StampReads(a + "\n" + b, "**Updated:**", updated, rest);
    UpdatedText(a, b, updated, rest);
  }

  lemma {:induction false} CreatedText(a: string, created: string, rest: string)
    ensures a + "\n" + "**Created:**" + (" " + (created + ("\n" + rest)))
            == a + "\n" + ("**Created:** " + created + "\n" + rest)
  {
  }

  lemma {:induction false} UpdatedText(a: string, b: string, updated: string, rest: string)
    ensures a + "\n" + b + "\n" + "**Updated:**" + (" " + (updated + ("\n" + rest)))
            == a + "\n" + (b + "\n" + ("**Updated:** " + updated + ("\n" + rest)))
  {
  }

  // ---------- The document ----------

  predicate IsComment(line: string) {
    && |line| >= 2 && line[0] == '<' && line[1] == '!' && '<' !in line[1..]
    && IsLine(line) && Ends(line)
  }

  lemma {:induction false} CommentIsSolid(line: string)
    requires IsComment(line)
    ensures Solid([line]) && AllNoTags([line]) && Split(Trim(Framed([line]))) == [line]
  {
    NoTagsInComment(line);
    AllNoTagsOne(line);
    SolidReads([line]);
    hide NoTags, AllNoTags, Split, Trim, Framed;
  }

  predicate IsPlain(text: string) {
    forall i :: 0 <= i < |text| ==> text[i] != '<' && text[i] != '\n'
  }

  lemma {:induction false} PlainAppend(a: string, b: string)
    requires IsPlain(a) && IsPlain(b)
    ensures IsPlain(a + b)
  {
  }

  lemma {:induction false} CommentIsComment(text: string)
    requires IsPlain(text)
    ensures IsComment(Comment(text))
  {
    var line := Comment(text);
    assert forall i :: 1 <= i < |line| ==> line[i] != '<';
    assert line[|line| - 1] == '>';
  }

  lemma {:induction false} ObjectivePlaceholder()
    ensures IsComment(OBJECTIVE_COMMENT)
  {
    assert IsPlain("Single statement: ");
    assert IsPlain("what this project does and why");
    hide IsComment, Comment, IsPlain;
    PlainAppend("Single statement: ", "what this project does and why");
    CommentIsComment("Single statement: " + "what this project does and why");
  }

  lemma {:induction false} UsersPlaceholder()
    ensures IsComment(USERS_COMMENT)
  {
    assert IsPlain("Brief audience descriptions, ");
    assert IsPlain("one per line");
    hide IsComment, Comment, IsPlain;
    PlainAppend("Brief audience descriptions, ", "one per line");
    CommentIsComment("Brief audience descriptions, " + "one per line");
  }

  lemma {:induction false} OutcomesPlaceholder()
    ensures IsComment(OUTCOMES_COMMENT)
  {
    assert IsPlain("Bullet list: - DO-XX [PX]: description");
    hide IsComment, Comment, IsPlain;
    CommentIsComment("Bullet list: - DO-XX [PX]: description");
  }

  lemma {:induction false} CriteriaPlaceholder()
    ensures IsComment(CRITERIA_COMMENT)
  {
    assert IsPlain("Bullet list: - SC-XX: launch gate");
    hide IsComment, Comment, IsPlain;
    CommentIsComment("Bullet list: - SC-XX: launch gate");
  }

  lemma {:induction false} ConstraintsPlaceholder()
    ensures IsComment(CONSTRAINTS_COMMENT)
  {
    assert IsPlain("Sub-headers: ### Technical, ### ");
    assert IsPlain("Business, ### Timeline. ");
    assert IsPlain("Items: - C-XX: constraint");
    hide IsComment, Comment, IsPlain;
    PlainAppend("Business, ### Timeline. ", "Items: - C-XX: constraint");
    PlainAppend("Sub-headers: ### Technical, ### ", "Business, ### Timeline. " + "Items: - C-XX: constraint");
    CommentIsComment("Sub-headers: ### Technical, ### " + ("Business, ### Timeline. " + "Items: - C-XX: constraint"));
  }

  lemma {:induction false} HealthPlaceholder()
    ensures IsComment(HEALTH_COMMENT)
  {
    assert IsPlain("Sub-headers: ### Quantitative ");
    assert IsPlain("(- HM-XX: metric) and ");
    assert IsPlain("### Qualitative (prose)");
    hide IsComment, Comment, IsPlain;
    PlainAppend("(- HM-XX: metric) and ", "### Qualitative (prose)");
    PlainAppend("Sub-headers: ### Quantitative ", "(- HM-XX: metric) and " + "### Qualitative (prose)");
    CommentIsComment("Sub-headers: ### Quantitative " + ("(- HM-XX: metric) and " + "### Qualitative (prose)"));
  }

  lemma {:induction false} Placeholders()
    ensures IsComment(OBJECTIVE_COMMENT)
    ensures IsComment(USERS_COMMENT)
    ensures IsComment(OUTCOMES_COMMENT)
    ensures IsComment(CRITERIA_COMMENT)
    ensures IsComment(CONSTRAINTS_COMMENT)
    ensures IsComment(HEALTH_COMMENT)
  {
    hide IsComment;
    ObjectivePlaceholder();
    UsersPlaceholder();
    OutcomesPlaceholder();
    CriteriaPlaceholder();
    ConstraintsPlaceholder();
    HealthPlaceholder();
  }

  ghost predicate IsGood(lines: seq<string>) {
    lines != [] && AllNoTags(lines)
  }

  lemma {:induction false} GoodOrElse(lines: seq<string>, placeholder: string)
    requires AllNoTags(lines) && IsComment(placeholder)
    ensures IsGood(OrElse(lines, placeholder))
  {
    CommentIsSolid(placeholder);
    hide AllNoTags;
  }

  lemma {:induction false} ObjectiveIsGood(o: Objective)
    requires o.statement == "" || IsObjective(o)
    ensures IsGood(ObjectiveLines(o))
  {
    Placeholders();
    CommentIsSolid(OBJECTIVE_COMMENT);
    NoAngle("");
    hide NoTags, AllNoTags, IsComment, Comment;
    if o.statement != "" {
      AllNoTagsOne(o.statement);
      AllNoTagsOne("");
      AllNoTagsOne(o.elaboration) by {
        NoAngle("");
      }
      AllNoTagsAppend([o.statement], [""]);
      AllNoTagsAppend([o.statement] + [""], [o.elaboration]);
      assert [o.statement] + [""] + [o.elaboration] == [o.statement, "", o.elaboration];
    }
  }

  lemma {:induction false} ConstraintsAreGood(c: Constraints)
    requires AreItems("C-", c.technical) && TagFreeItems(c.technical)
    requires AreItems("C-", c.business) && TagFreeItems(c.business)
    requires AreItems("C-", c.timeline) && TagFreeItems(c.timeline)
    ensures AllNoTags(ConstraintLines(c))
  {
    TopicHasNoTags("### Technical", "C-", c.technical);
    TopicHasNoTags("### Business", "C-", c.business);
    TopicHasNoTags("### Timeline", "C-", c.timeline);
    hide AllNoTags, TopicLines, AreItems, TagFreeItems;
    AllNoTagsAppend(TopicLines("### Technical", c.technical), TopicLines("### Business", c.business));
    AllNoTagsAppend(TopicLines("### Technical", c.technical) + TopicLines("### Business", c.business),
                    TopicLines("### Timeline", c.timeline));
  }

  lemma {:induction false} HealthIsGood(h: Health)
    requires IsHealth(h)
    ensures AllNoTags(HealthLines(h))
  {
    TopicHasNoTags("### Quantitative", "HM-", h.quantitative);
    NoAngle("### Qualitative");
    hide NoTags, AllNoTags, TopicLines, AreItems, TagFreeItems, AreProse;
    AllNoTagsNone();
    AllNoTagsOne("### Qualitative");
    AllNoTagsOne(h.qualitative);
    AllNoTagsAppend(["### Qualitative"], [h.qualitative]);
    assert ["### Qualitative"] + [h.qualitative] == ["### Qualitative", h.qualitative];
    AllNoTagsAppend(TopicLines("### Quantitative", h.quantitative), ["### Qualitative", h.qualitative]);
    AllNoTagsAppend(TopicLines("### Quantitative", h.quantitative), []);
  }

  lemma {:induction false} BlocksAreGood(d: Intent, k: nat)
    requires IsRest(d) && (d.objective.statement == "" || IsObjective(d.objective)) && k < |Blocks(d)|
    ensures IsGood(Blocks(d)[k].lines)
  {
    hide NoTags, AllNoTags, IsComment, Comment, IsObjective, IsHealth, IsGood, IsUser, IsOutcome, IsEntry,
         TagFreeEntry, AreItems, TagFreeItems, OrElse, UserLines, OutcomeLines, ItemLines, ConstraintLines,
         HealthLines, HistoryLines, ObjectiveLines, Lacks, IsStamp;
    Placeholders();
    match k
    case 0 => ObjectiveIsGood(d.objective);
    case 1 =>
      UsersHaveNoTags(d.users);
      GoodOrElse(UserLines(d.users), USERS_COMMENT);
    case 2 =>
      OutcomesHaveNoTags(d.outcomes);
      GoodOrElse(OutcomeLines(d.outcomes), OUTCOMES_COMMENT);
    case 3 =>
      ItemsHaveNoTags("SC-", d.criteria);
      GoodOrElse(ItemLines(d.criteria), CRITERIA_COMMENT);
    case 4 =>
      ConstraintsAreGood(d.constraints);
      GoodOrElse(ConstraintLines(d.constraints),
                 CONSTRAINTS_COMMENT);
    case 5 =>
      HealthIsGood(d.health);
      GoodOrElse(HealthLines(d.health),
                 HEALTH_COMMENT);
    case _ =>
      HistoryIsGood(d.history);
  }

  lemma {:induction false} HistoryIsGood(history: seq<Entry>)
    requires history != [] && forall i :: 0 <= i < |history| ==> IsEntry(history[i]) && TagFreeEntry(history[i])
    ensures IsGood(HistoryLines(history))
  {
    hide AllNoTags, IsEntry, TagFreeEntry, HistoryLines;
    HistoryHasNoTags(history);
    HistoryIsClosing(history);
  }

  lemma {:induction false} BlockTags(d: Intent, k: nat)
    requires k < |Blocks(d)|
    ensures k < |TAGS| && Blocks(d)[k].tag == TAGS[k]
  {
    hide ObjectiveLines, UserLines, OutcomeLines, ItemLines, ConstraintLines, HealthLines, HistoryLines, OrElse;
  }

  lemma {:induction false} TagsDiffer(i: nat, j: nat)
    requires i < j < |TAGS|
    ensures TAGS[i] != TAGS[j] && IsTag(TAGS[i]) && IsTag(TAGS[j])
  {
    assert "outcomes"[0] == 'o' && "criteria"[0] == 'c';
  }

  lemma {:induction false} BlocksAreDocument(d: Intent)
    requires IsRest(d) && (d.objective.statement == "" || IsObjective(d.objective))
    ensures IsDocument(Blocks(d))
  {
    hide IsRest, IsObjective, AllNoTags, TAGS, Blocks, IsTag;
    forall i | 0 <= i < |Blocks(d)|
      ensures IsBlock(Blocks(d)[i])
    {
      BlocksAreGood(d, i);
      BlockTags(d, i);
      TagIsTag(i);
    }
    forall i, j | 0 <= i < j < |Blocks(d)|
      ensures Blocks(d)[i].tag != Blocks(d)[j].tag
    {
      BlockTags(d, i);
      BlockTags(d, j);
      TagsDiffer(i, j);
    }
  }

  lemma {:induction false} TagIsTag(k: nat)
    requires k < |TAGS|
    ensures IsTag(TAGS[k])
  {
  }

  lemma {:induction false} StampHasNoTags(title: string, stamp: Option<string>)
    requires IsStamp(stamp) && '<' !in title
    ensures AllNoTags([title + " " + stamp.value])
  {
    hide NoTags, AllNoTags;
    FieldLineHasNoTags(title, stamp.value);
    AllNoTagsOne(title + " " + stamp.value);
  }

  lemma {:induction false} RevisionHasNoTags(n: nat)
    ensures AllNoTags(["**Revision:** " + Decimal(n)])
  {
    DigitsAreDigits(n);
    hide Decimal;
    forall i | 0 <= i < |Decimal(n)|
      ensures Decimal(n)[i] != '<'
    {
      assert IsDigit(Decimal(n)[i]);
    }
    NoAngle("**Revision:** " + Decimal(n));
  }

  lemma {:induction false} HeaderHasNoTags(d: Intent, today: string)
    requires IsRest(d)
    ensures AllNoTags(HeaderLines(d, today))
  {
    assert IsStamp(d.created) && IsStamp(d.updated) && d.revision.value != 0;
    hide IsRest, NoTags, AllNoTags, Decimal;
    RevisionHasNoTags(d.revision.value);
    StampHasNoTags("**Created:**", d.created);
    StampHasNoTags("**Updated:**", d.updated);
    var a, b, c := ["**Revision:** " + Decimal(d.revision.value)], ["**Created:**" + " " + d.created.value],
                   ["**Updated:**" + " " + d.updated.value];
    AllNoTagsBlank();
    AllNoTagsAppend(a, b);
    AllNoTagsAppend(a + b, c);
    AllNoTagsAppend(a + b + c, [""]);
    HeaderAsParts(d, today);
  }

  lemma {:induction false} HeaderAsParts(d: Intent, today: string)
    requires IsRest(d)
    ensures HeaderLines(d, today)
            == ["**Revision:** " + Decimal(d.revision.value)] + ["**Created:**" + " " + d.created.value]
               + ["**Updated:**" + " " + d.updated.value] + [""]
  {
    hide Decimal;
    assert "**Created:**" + " " + d.created.value == "**Created:** " + d.created.value;
    assert "**Updated:**" + " " + d.updated.value == "**Updated:** " + d.updated.value;
  }

  lemma {:induction false} AllNoTagsBlank()
    ensures AllNoTags([""])
  {
    NoAngle("");
  }

  // Every section of the generated document is found with its own lines.
  lemma {:induction false} SectionIs(d: Intent, today: string, k: nat)
    requires IsRest(d) && (d.objective.statement == "" || IsObjective(d.objective)) && k < |Blocks(d)|
    ensures k < |TAGS| && Section(Generated(d, today), TAGS[k]) == Some(Trim(Framed(Blocks(d)[k].lines)))
  {
    hide IsRest, IsObjective, AllNoTags, TAGS, Blocks, Section, Trim, Framed, IsDocument, AllBlockLines, Join;
    BlocksAreDocument(d);
    HeaderHasNoTags(d, today);
    BlockTags(d, k);
    SectionAt(HeaderLines(d, today), Blocks(d), k);
  }
}
