// The shape of what generateIntentMd writes between two tags: lines that survive trimming and
// splitting, and in which no section tag occurs (plugin.js).
module IntentShape {
  import opened Strings
  import opened Decimals
  import opened Scanning
  import opened IntentFormat
  import opened IntentLines
  import opened IntentSections
  import opened IntentDocument

  // ---------- The lines a section is read from ----------

  predicate Begins(line: string) { line != "" && !IsSpace(line[0]) }

  predicate Ends(line: string) { line != "" && !IsSpace(line[|line| - 1]) }

  predicate AreLines(lines: seq<string>) {
    forall i :: 0 <= i < |lines| ==> IsLine(lines[i])
  }

  // Lines whose text has nothing to trim.
  predicate Solid(lines: seq<string>) {
    lines != [] && AreLines(lines) && Begins(lines[0]) && Ends(Last(lines))
  }

  // The same with an empty line at the end.
  predicate Closing(lines: seq<string>) {
    |lines| >= 2 && AreLines(lines) && Begins(lines[0]) && Ends(lines[|lines| - 2]) && Last(lines) == ""
  }

  lemma {:induction false} ClosingAppend(a: seq<string>, b: seq<string>)
    requires Closing(a)
    ensures Closing(b) ==> Closing(a + b)
    ensures Solid(b) ==> Solid(a + b)
  {
    hide IsLine, Begins, Ends;
  }

  lemma {:induction false} SolidThenBlank(lines: seq<string>)
    requires Solid(lines)
    ensures Closing(lines + [""])
  {
    hide Begins, Ends;
    assert IsLine("");
    hide IsLine;
  }

  lemma {:induction false} ClosingFront(lines: seq<string>)
    requires Closing(lines)
    ensures Solid(Front(lines)) && lines == Front(lines) + [""]
  {
    hide IsLine, Begins, Ends;
  }

  lemma {:induction false} JoinEnds(lines: seq<string>)
    requires lines != [] && Ends(Last(lines))
    ensures Ends(Join(lines))
  {
    if |lines| > 1 {
      assert Last(lines[1..]) == Last(lines);
      JoinEnds(lines[1..]);
      var rest := Join(lines[1..]);
      var s := lines[0] + "\n" + rest;
      assert s[|s| - 1] == rest[|rest| - 1];
    }
  }

  lemma {:induction false} JoinBegins(lines: seq<string>)
    requires lines != [] && Begins(lines[0])
    ensures Begins(Join(lines))
  {
  }

  lemma {:induction false} JoinIsTrimmed(lines: seq<string>)
    requires Solid(lines)
    ensures IsTrimmed(Join(lines))
  {
    JoinBegins(lines);
    JoinEnds(lines);
    hide Join;
  }

  lemma {:induction false} BlankEnds()
    ensures IsBlank("\n") && IsBlank("\n\n") && IsBlank("")
  {
  }

  lemma {:induction false} SolidReads(lines: seq<string>)
    requires Solid(lines)
    ensures Split(Trim(Framed(lines))) == lines
  {
    BlankEnds();
    JoinIsTrimmed(lines);
    TrimBetween("\n", Join(lines), "\n");
    SplitJoin(lines);
    hide Join, Trim, Split;
  }

  lemma {:induction false} ClosingReads(lines: seq<string>)
    requires Closing(lines)
    ensures Split(Trim(Framed(lines))) == Front(lines)
  {
    ClosingFront(lines);
    var core := Front(lines);
    BlankEnds();
    JoinIsTrimmed(core);
    SplitJoin(core);
    JoinAppend(core, [""]);
    SingleLine("");
    hide Join, Trim, Split;
    var text := Join(core);
    assert "\n" + (text + "\n" + "") + "\n" == "\n" + text + "\n\n";
    TrimBetween("\n", text, "\n\n");
  }

  // ---------- Which lines are solid ----------

  lemma {:induction false} EndsAfter(before: string, field: string)
    requires IsTrimmed(field)
    ensures Ends(before + field)
  {
    var s := before + field;
    assert s[|s| - 1] == field[|field| - 1];
  }

  lemma {:induction false} LineAppend(a: string, b: string)
    requires IsLine(a) && IsLine(b)
    ensures IsLine(a + b)
  {
  }

  lemma {:induction false} FieldIsLine(s: string)
    requires IsField(s)
    ensures IsLine(s)
  {
    forall i | 0 <= i < |s|
      ensures s[i] != '\n'
    {
      assert IsChar(s[i]);
    }
  }

  lemma {:induction false} IdIsLine(id: string, prefix: string)
    requires HasId(id, prefix) && IsLine(prefix)
    ensures IsLine(id)
  {
    var digits := id[|prefix|..];
    assert id == prefix + digits;
    forall i | 0 <= i < |digits|
      ensures digits[i] != '\n'
    {
      assert IsDigit(digits[i]);
    }
  }

  // A line that starts with a dash and ends in a field.
  lemma {:induction false} DashLine(middle: string, field: string)
    requires IsLine(middle) && IsTrimmed(field) && IsLine(field)
    ensures var line := "- " + middle + field; Begins(line) && Ends(line) && IsLine(line)
  {
    EndsAfter("- " + middle, field);
    LineAppend("- ", middle);
    LineAppend("- " + middle, field);
  }

  lemma {:induction false} ItemIsSolid(prefix: string, i: Item)
    requires IsItem(prefix, i) && IsLine(prefix)
    ensures Begins(ItemLine(i)) && Ends(ItemLine(i)) && IsLine(ItemLine(i))
  {
    IdIsLine(i.id, prefix);
    FieldIsLine(i.text);
    LineAppend(i.id, ": ");
    assert ItemLine(i) == "- " + (i.id + ": ") + i.text;
    DashLine(i.id + ": ", i.text);
    hide ItemLine, IsLine;
  }

  lemma {:induction false} OutcomeIsSolid(o: Outcome)
    requires IsOutcome(o)
    ensures Begins(OutcomeLine(o)) && Ends(OutcomeLine(o)) && IsLine(OutcomeLine(o))
  {
    IdIsLine(o.id, "DO-");
    FieldIsLine(o.text);
    var middle := o.id + " [" + o.priority + "]: ";
    LineAppend(o.id, " [");
    LineAppend(o.id + " [", o.priority);
    LineAppend(o.id + " [" + o.priority, "]: ");
    assert OutcomeLine(o) == "- " + middle + o.text;
    DashLine(middle, o.text);
    hide OutcomeLine, IsLine;
  }

  lemma {:induction false} UsersAreSolid(users: seq<string>)
    requires users != [] && forall i :: 0 <= i < |users| ==> IsUser(users[i])
    ensures Solid(UserLines(users))
  {
    var line := "- " + Last(users);
    assert IsUser(users[|users| - 1]);
    DashLine("", Last(users));
    assert "- " + "" + Last(users) == line;
    hide IsLine, Begins, Ends, IsUser;
    if |users| > 1 {
      UsersAreSolid(Front(users));
      SolidMore(UserLines(Front(users)), line);
    } else {
      SolidOne(line);
      assert UserLines(Front(users)) == [];
    }
  }

  lemma {:induction false} SolidOne(line: string)
    requires IsLine(line) && Begins(line) && Ends(line)
    ensures Solid([line]) && [] + [line] == [line]
  {
  }

  lemma {:induction false} SolidMore(lines: seq<string>, line: string)
    requires Solid(lines) && IsLine(line) && Ends(line)
    ensures Solid(lines + [line])
  {
    hide IsLine, Begins, Ends;
  }

  lemma {:induction false} OutcomesAreSolid(outcomes: seq<Outcome>)
    requires outcomes != [] && forall i :: 0 <= i < |outcomes| ==> IsOutcome(outcomes[i])
    ensures Solid(OutcomeLines(outcomes))
  {
    assert IsOutcome(outcomes[|outcomes| - 1]);
    OutcomeIsSolid(Last(outcomes));
    hide IsLine, Begins, Ends, IsOutcome, OutcomeLine, Solid;
    SolidOne(OutcomeLine(Last(outcomes)));
    if |outcomes| > 1 {
      OutcomesAreSolid(Front(outcomes));
      SolidMore(OutcomeLines(Front(outcomes)), OutcomeLine(Last(outcomes)));
    } else {
      assert OutcomeLines(Front(outcomes)) == [];
    }
  }

  lemma {:induction false} ItemsAreSolid(prefix: string, items: seq<Item>)
    requires items != [] && AreItems(prefix, items) && IsLine(prefix)
    ensures Solid(ItemLines(items))
  {
    assert IsItem(prefix, items[|items| - 1]);
    ItemIsSolid(prefix, Last(items));
    hide IsLine, Begins, Ends, IsItem, ItemLine, Solid;
    SolidOne(ItemLine(Last(items)));
    if |items| > 1 {
      ItemsAreSolid(prefix, Front(items));
      SolidMore(ItemLines(Front(items)), ItemLine(Last(items)));
    } else {
      assert ItemLines(Front(items)) == [];
    }
  }

  // A heading, its items and an empty line.
  lemma {:induction false} TopicIsClosing(header: string, prefix: string, items: seq<Item>)
    requires items != [] && AreItems(prefix, items) && IsLine(prefix) && IsLine(header) && Begins(header)
    ensures Closing(TopicLines(header, items))
  {
    ItemsAreSolid(prefix, items);
    hide IsLine, Begins, Ends, ItemLines, AreItems;
    var lines := [header] + ItemLines(items);
    assert Solid(lines);
    SolidThenBlank(lines);
  }

  lemma {:induction false} ConstraintsAreClosing(c: Constraints)
    requires AreItems("C-", c.technical) && AreItems("C-", c.business) && AreItems("C-", c.timeline)
    ensures ConstraintLines(c) == [] || Closing(ConstraintLines(c))
  {
    hide TopicLines, Closing, AreItems, IsLine, Begins;
    var a, b, t := TopicLines("### Technical", c.technical), TopicLines("### Business", c.business),
                   TopicLines("### Timeline", c.timeline);
    HeadersBegin();
    TopicClosingOrEmpty("### Technical", "C-", c.technical);
    TopicClosingOrEmpty("### Business", "C-", c.business);
    TopicClosingOrEmpty("### Timeline", "C-", c.timeline);
    ClosingOrEmpty(a, b);
    ClosingOrEmpty(a + b, t);
  }

  lemma {:induction false} HeadersBegin()
    ensures IsLine("C-") && IsLine("### Technical") && IsLine("### Business") && IsLine("### Timeline")
    ensures Begins("### Technical") && Begins("### Business") && Begins("### Timeline")
  {
  }

  lemma {:induction false} TopicClosingOrEmpty(header: string, prefix: string, items: seq<Item>)
    requires AreItems(prefix, items) && IsLine(prefix) && IsLine(header) && Begins(header)
    ensures TopicLines(header, items) == [] || Closing(TopicLines(header, items))
  {
    if items != [] {
      TopicIsClosing(header, prefix, items);
    }
  }

  lemma {:induction false} ClosingOrEmpty(a: seq<string>, b: seq<string>)
    requires (a == [] || Closing(a)) && (b == [] || Closing(b))
    ensures a + b == [] || Closing(a + b)
  {
    hide Closing;
    if a == [] {
      assert a + b == b;
    } else if b == [] {
      assert a + b == a;
    } else {
      ClosingAppend(a, b);
    }
  }

  lemma {:induction false} TargetIsLine(t: string)
    requires IsTarget(t)
    ensures IsLine(t)
  {
    forall i | 0 <= i < |t|
      ensures t[i] != '\n'
    {
      assert IsChar(t[i]);
    }
  }

  lemma {:induction false} ChangeIsSolid(c: Change)
    requires IsChange(c)
    ensures Begins(ChangeLine(c)) && Ends(ChangeLine(c)) && IsLine(ChangeLine(c))
  {
    TargetIsLine(c.target);
    FieldIsLine(c.description);
    var bold := "**" + KindText(c.kind) + "** ";
    assert IsLine(bold);
    LineAppend(bold, c.target);
    LineAppend(bold + c.target, ": ");
    var middle := bold + c.target + ": ";
    assert ChangeLine(c) == "- " + middle + c.description;
    DashLine(middle, c.description);
    hide ChangeLine, IsLine;
  }

  lemma {:induction false} ReasonIsSolid(reason: string)
    requires IsField(reason)
    ensures Ends("  - Reason: " + reason) && IsLine("  - Reason: " + reason)
  {
    FieldIsLine(reason);
    EndsAfter("  - Reason: ", reason);
    LineAppend("  - Reason: ", reason);
  }

  lemma {:induction false} MilestoneIsSolid(e: Entry)
    requires IsVersion(e.milestone) && IsDate(e.date)
    ensures Begins(MilestoneLine(e)) && Ends(MilestoneLine(e)) && IsLine(MilestoneLine(e))
  {
    forall i | 0 <= i < |e.milestone|
      ensures e.milestone[i] != '\n'
    {
      assert i > 0 ==> IsDotted(e.milestone[i]);
    }
    forall i | 0 <= i < 10
      ensures e.date[i] != '\n' && !IsSpace(e.date[i])
    {
      assert if i == 4 || i == 7 then e.date[i] == '-' else IsDigit(e.date[i]);
    }
    var front := "### " + e.milestone + " " + [EM_DASH] + " ";
    EndsAfter(front, e.date);
    LineAppend("### ", e.milestone);
    LineAppend("### " + e.milestone, " ");
    LineAppend("### " + e.milestone + " ", [EM_DASH]);
    LineAppend("### " + e.milestone + " " + [EM_DASH], " ");
    LineAppend(front, e.date);
    hide IsLine, Ends;
  }

  lemma {:induction false} ChangesAreSolid(header: string, changes: seq<Change>)
    requires IsLine(header) && Begins(header) && Ends(header)
    requires forall i :: 0 <= i < |changes| ==> IsChange(changes[i])
    ensures Solid([header] + ChangeLines(changes))
  {
    hide IsLine, Begins, Ends, IsChange, ChangeLine, ReasonLines, Solid;
    SolidOne(header);
    if changes == [] {
      assert [header] + ChangeLines(changes) == [header];
    } else {
      var front, last := Front(changes), Last(changes);
      ChangesAreSolid(header, front);
      assert IsChange(changes[|changes| - 1]);
      ChangeIsSolid(last);
      var lines := [header] + ChangeLines(front);
      SolidMore(lines, ChangeLine(last));
      SolidReason(lines + [ChangeLine(last)], last);
      assert [header] + ChangeLines(changes) == lines + [ChangeLine(last)] + ReasonLines(last);
    }
  }

  lemma {:induction false} SolidReason(lines: seq<string>, c: Change)
    requires Solid(lines) && IsChange(c)
    ensures Solid(lines + ReasonLines(c))
  {
    if c.reason.Some? {
      ReasonIsSolid(c.reason.value);
      hide IsLine, Begins, Ends, Solid;
      SolidMore(lines, "  - Reason: " + c.reason.value);
      FieldStart(c.reason.value);
    } else {
      assert lines + [] == lines;
    }
  }

  lemma {:induction false} EntryIsClosing(e: Entry)
    requires IsEntry(e)
    ensures Closing(EntryLines(e))
  {
    MilestoneIsSolid(e);
    hide IsLine, Begins, Ends, IsChange, ChangeLines, MilestoneLine, Solid, Closing;
    ChangesAreSolid(MilestoneLine(e), e.changes);
    SolidThenBlank([MilestoneLine(e)] + ChangeLines(e.changes));
  }

  lemma {:induction false} HistoryIsClosing(history: seq<Entry>)
    requires history != [] && forall i :: 0 <= i < |history| ==> IsEntry(history[i])
    ensures Closing(HistoryLines(history))
  {
    hide IsEntry, EntryLines, Closing;
    assert IsEntry(history[|history| - 1]);
    EntryIsClosing(Last(history));
    if |history| > 1 {
      HistoryIsClosing(Front(history));
      ClosingAppend(HistoryLines(Front(history)), EntryLines(Last(history)));
    } else {
      assert HistoryLines(Front(history)) == [] && [] + EntryLines(Last(history)) == EntryLines(Last(history));
    }
  }

  function ProseLines(prose: seq<string>): seq<string> {
    if prose == [] then [] else ["### Qualitative"] + prose
  }

  lemma {:induction false} HealthShape(items: seq<Item>, prose: seq<string>)
    requires AreItems("HM-", items) && forall i :: 0 <= i < |prose| ==> IsProse(prose[i])
    ensures var lines := TopicLines("### Quantitative", items) + ProseLines(prose);
            && (prose == [] ==> lines == [] || Closing(lines))
            && (prose != [] ==> Solid(lines))
  {
    var topic := TopicLines("### Quantitative", items);
    TopicClosingOrEmpty("### Quantitative", "HM-", items);
    hide TopicLines, AreItems;
    if prose == [] {
      assert topic + ProseLines(prose) == topic;
    } else {
      ProseIsSolid(prose);
      hide Closing, Solid, IsProse, ProseLines;
      if topic == [] {
        assert topic + ProseLines(prose) == ProseLines(prose);
      } else {
        ClosingAppend(topic, ProseLines(prose));
      }
    }
  }

  lemma {:induction false} ProseIsSolid(prose: seq<string>)
    requires prose != [] && forall i :: 0 <= i < |prose| ==> IsProse(prose[i])
    ensures Solid(ProseLines(prose))
  {
    var lines := ProseLines(prose);
    forall i | 0 <= i < |lines|
      ensures IsLine(lines[i])
    {
      assert i > 0 ==> lines[i] == prose[i - 1] && IsProse(prose[i - 1]);
    }
    assert IsProse(prose[|prose| - 1]);
    assert Last(lines) == prose[|prose| - 1];
    hide IsHeader;
  }

  // ---------- No tags ----------

  lemma {:induction false} IdHasNoAngle(id: string, prefix: string)
    requires HasId(id, prefix) && '<' !in prefix
    ensures '<' !in id
  {
    forall i | 0 <= i < |id|
      ensures id[i] != '<'
    {
      if i < |prefix| {
        assert id[i] == prefix[i];
      } else {
        assert id[i] == id[|prefix|..][i - |prefix|] && IsDigit(id[|prefix|..][i - |prefix|]);
      }
    }
  }

  // What precedes the space has no tag because it has no angle.
  lemma {:induction false} FieldLineHasNoTags(before: string, field: string)
    requires '<' !in before && NoTags(field)
    ensures NoTags(before + " " + field)
  {
    NoAngle(before);
    hide NoTags;
    NoTagsAround(before, ' ', field);
    assert before + [' '] + field == before + " " + field;
  }

  lemma {:induction false} ItemHasNoTags(prefix: string, i: Item)
    requires IsItem(prefix, i) && '<' !in prefix && NoTags(i.text)
    ensures NoTags(ItemLine(i))
  {
    IdHasNoAngle(i.id, prefix);
    var before := "- " + i.id + ":";
    assert ItemLine(i) == before + " " + i.text;
    FieldLineHasNoTags(before, i.text);
    hide NoTags, ItemLine;
  }

  lemma {:induction false} OutcomeHasNoTags(o: Outcome)
    requires IsOutcome(o) && NoTags(o.text)
    ensures NoTags(OutcomeLine(o))
  {
    IdHasNoAngle(o.id, "DO-");
    var before := "- " + o.id + " [" + o.priority + "]:";
    assert OutcomeLine(o) == before + " " + o.text;
    assert '<' !in o.priority;
    FieldLineHasNoTags(before, o.text);
    hide NoTags, OutcomeLine;
  }

  lemma {:induction false} ChangeHasNoTags(c: Change)
    requires IsChange(c) && NoTags(c.target) && NoTags(c.description)
    ensures NoTags(ChangeLine(c))
  {
    var bold := "- **" + KindText(c.kind) + "**";
    assert '<' !in bold;
    hide NoTags, KindText;
    FieldLineHasNoTags(bold, c.target);
    NoAngle("");
    NoTagsAround(bold + " " + c.target, ':', "");
    var before := bold + " " + c.target + [':'] + "";
    NoTagsAround(before, ' ', c.description);
    assert ChangeLine(c) == before + [' '] + c.description;
  }

  lemma {:induction false} ReasonHasNoTags(reason: string)
    requires NoTags(reason)
    ensures NoTags("  - Reason: " + reason)
  {
    assert "  - Reason: " + reason == "  - Reason:" + " " + reason;
    FieldLineHasNoTags("  - Reason:", reason);
    hide NoTags;
  }

  lemma {:induction false} MilestoneHasNoTags(e: Entry)
    requires IsVersion(e.milestone) && IsDate(e.date)
    ensures NoTags(MilestoneLine(e))
  {
    forall i | 0 <= i < |e.milestone|
      ensures e.milestone[i] != '<'
    {
      assert i > 0 ==> IsDotted(e.milestone[i]);
    }
    forall i | 0 <= i < 10
      ensures e.date[i] != '<'
    {
      assert if i == 4 || i == 7 then e.date[i] == '-' else IsDigit(e.date[i]);
    }
    NoAngle(MilestoneLine(e));
    hide NoTags;
  }

  lemma {:induction false} AllNoTagsAppend(a: seq<string>, b: seq<string>)
    requires AllNoTags(a) && AllNoTags(b)
    ensures AllNoTags(a + b)
  {
    hide NoTags;
  }

  lemma {:induction false} AllNoTagsOne(line: string)
    requires NoTags(line)
    ensures AllNoTags([line])
  {
    hide NoTags;
  }

  ghost predicate TagFreeItems(items: seq<Item>) {
    forall i :: 0 <= i < |items| ==> NoTags(items[i].text)
  }

  lemma {:induction false} ItemsHaveNoTags(prefix: string, items: seq<Item>)
    requires AreItems(prefix, items) && '<' !in prefix && TagFreeItems(items)
    ensures AllNoTags(ItemLines(items))
  {
    hide NoTags, IsItem, ItemLine;
    if items != [] {
      ItemsHaveNoTags(prefix, Front(items));
      assert IsItem(prefix, items[|items| - 1]) && NoTags(items[|items| - 1].text);
      ItemHasNoTags(prefix, Last(items));
      AllNoTagsOne(ItemLine(Last(items)));
      AllNoTagsAppend(ItemLines(Front(items)), [ItemLine(Last(items))]);
    }
  }

  lemma {:induction false} OutcomesHaveNoTags(outcomes: seq<Outcome>)
    requires forall i :: 0 <= i < |outcomes| ==> IsOutcome(outcomes[i]) && NoTags(outcomes[i].text)
    ensures AllNoTags(OutcomeLines(outcomes))
  {
    hide NoTags, IsOutcome, OutcomeLine;
    if outcomes != [] {
      OutcomesHaveNoTags(Front(outcomes));
      assert IsOutcome(outcomes[|outcomes| - 1]) && NoTags(outcomes[|outcomes| - 1].text);
      OutcomeHasNoTags(Last(outcomes));
      AllNoTagsOne(OutcomeLine(Last(outcomes)));
      AllNoTagsAppend(OutcomeLines(Front(outcomes)), [OutcomeLine(Last(outcomes))]);
    }
  }

  lemma {:induction false} UsersHaveNoTags(users: seq<string>)
    requires forall i :: 0 <= i < |users| ==> NoTags(users[i])
    ensures AllNoTags(UserLines(users))
  {
    hide NoTags;
    if users != [] {
      UsersHaveNoTags(Front(users));
      assert NoTags(users[|users| - 1]);
      assert "- " + Last(users) == "-" + " " + Last(users);
      FieldLineHasNoTags("-", Last(users));
      AllNoTagsOne("- " + Last(users));
      AllNoTagsAppend(UserLines(Front(users)), ["- " + Last(users)]);
    }
  }

  lemma {:induction false} TopicHasNoTags(header: string, prefix: string, items: seq<Item>)
    requires AreItems(prefix, items) && '<' !in prefix && TagFreeItems(items) && '<' !in header
    ensures AllNoTags(TopicLines(header, items))
  {
    NoAngle(header);
    NoAngle("");
    hide NoTags, ItemLines, AreItems, TagFreeItems;
    if items != [] {
      ItemsHaveNoTags(prefix, items);
      AllNoTagsOne(header);
      AllNoTagsOne("");
      AllNoTagsAppend([header], ItemLines(items));
      AllNoTagsAppend([header] + ItemLines(items), [""]);
    }
  }

  ghost predicate TagFreeChange(c: Change) {
    NoTags(c.target) && NoTags(c.description) && (c.reason.Some? ==> NoTags(c.reason.value))
  }

  ghost predicate TagFreeEntry(e: Entry) {
    forall i :: 0 <= i < |e.changes| ==> TagFreeChange(e.changes[i])
  }

  lemma {:induction false} OneChangeHasNoTags(c: Change)
    requires IsChange(c) && TagFreeChange(c)
    ensures AllNoTags([ChangeLine(c)] + ReasonLines(c))
  {
    ChangeHasNoTags(c);
    hide NoTags, ChangeLine, IsChange;
    AllNoTagsOne(ChangeLine(c));
    if c.reason.Some? && c.reason.value != "" {
      ReasonHasNoTags(c.reason.value);
      AllNoTagsOne("  - Reason: " + c.reason.value);
    }
    AllNoTagsAppend([ChangeLine(c)], ReasonLines(c));
  }

  lemma {:induction false} ChangesHaveNoTags(changes: seq<Change>)
    requires forall i :: 0 <= i < |changes| ==> IsChange(changes[i]) && TagFreeChange(changes[i])
    ensures AllNoTags(ChangeLines(changes))
  {
    hide NoTags, IsChange, TagFreeChange, ChangeLine, ReasonLines, AllNoTags;
    if changes == [] {
      AllNoTagsNone();
    } else {
      var last := Last(changes);
      ChangesHaveNoTags(Front(changes));
      assert IsChange(changes[|changes| - 1]) && TagFreeChange(changes[|changes| - 1]);
      OneChangeHasNoTags(last);
      AllNoTagsAppend(ChangeLines(Front(changes)), [ChangeLine(last)] + ReasonLines(last));
    }
  }

  lemma {:induction false} AllNoTagsNone()
    ensures AllNoTags([])
  {
  }

  lemma {:induction false} HistoryHasNoTags(history: seq<Entry>)
    requires forall i :: 0 <= i < |history| ==> IsEntry(history[i]) && TagFreeEntry(history[i])
    ensures AllNoTags(HistoryLines(history))
  {
    hide NoTags, IsEntry, TagFreeEntry, EntryLines, AllNoTags;
    if history == [] {
      AllNoTagsNone();
    } else {
      HistoryHasNoTags(Front(history));
      assert IsEntry(history[|history| - 1]) && TagFreeEntry(history[|history| - 1]);
      EntryHasNoTags(Last(history));
      AllNoTagsAppend(HistoryLines(Front(history)), EntryLines(Last(history)));
    }
  }

  lemma {:induction false} EntryHasNoTags(e: Entry)
    requires IsEntry(e) && TagFreeEntry(e)
    ensures AllNoTags(EntryLines(e))
  {
    MilestoneHasNoTags(e);
    ChangesHaveNoTags(e.changes);
    NoAngle("");
    hide NoTags, AllNoTags, ChangeLines, MilestoneLine;
    AllNoTagsOne(MilestoneLine(e));
    AllNoTagsOne("");
    AllNoTagsAppend([MilestoneLine(e)], ChangeLines(e.changes));
    AllNoTagsAppend([MilestoneLine(e)] + ChangeLines(e.changes), [""]);
  }
}
