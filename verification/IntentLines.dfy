// Every line generateIntentMd writes is read by parseIntentMd as what it was written from
// (plugin.js).
module IntentLines {
  import opened Options
  import opened Strings
  import opened Decimals
  import opened Scanning
  import opened IntentFormat

  // ---------- The records that can be written ----------

  predicate HasId(id: string, prefix: string) {
    prefix <= id && |id| > |prefix| && IsDigits(id[|prefix|..])
  }

  predicate IsItem(prefix: string, i: Item) {
    HasId(i.id, prefix) && IsField(i.text)
  }

  predicate IsOutcome(o: Outcome) {
    HasId(o.id, "DO-") && |o.priority| == 2 && o.priority[0] == 'P' && '1' <= o.priority[1] <= '3' && IsField(o.text)
  }

  predicate IsUser(u: string) { IsTrimmed(u) && IsLine(u) }

  // A target does not contain the delimiter that follows it.
  predicate IsTarget(t: string) {
    t != "" && !IsSpace(t[0]) && forall i :: 0 <= i < |t| ==> IsChar(t[i]) && t[i] != ':'
  }

  predicate IsChange(c: Change) {
    IsTarget(c.target) && IsField(c.description) && (c.reason.Some? ==> IsField(c.reason.value))
  }

  predicate IsVersion(m: string) {
    |m| >= 2 && m[0] == 'v' && forall i :: 1 <= i < |m| ==> IsDotted(m[i])
  }

  predicate IsEntry(e: Entry) {
    IsVersion(e.milestone) && IsDate(e.date) && forall i :: 0 <= i < |e.changes| ==> IsChange(e.changes[i])
  }

  // ---------- Items and outcomes ----------

  lemma {:induction false} IdentifierOf(id: string, prefix: string, rest: string)
    requires HasId(id, prefix) && (rest == "" || !IsDigit(rest[0]))
    ensures Identifier(id + rest, prefix) == Some(Token(id, rest))
  {
    var digits := id[|prefix|..];
    assert id == prefix + digits;
    assert id + rest == prefix + (digits + rest);
    AfterOf(prefix, digits + rest);
    RunOf(IsDigit, digits, rest);
  }

  lemma {:induction false} FieldStart(text: string)
    requires IsField(text)
    ensures text != "" && !IsSpace(text[0])
  {
  }

  lemma {:induction false} ItemReads(prefix: string, i: Item)
    requires IsItem(prefix, i) && prefix != "" && !IsSpace(prefix[0])
    ensures ItemOf(prefix, ItemLine(i)) == Some(i)
  {
    var tail := " " + i.text;
    var rest := i.id + (":" + tail);
    assert ItemLine(i) == "- " + rest;
    assert rest[0] == prefix[0];
    BulletOf(rest);
    IdentifierOf(i.id, prefix, ":" + tail);
    AfterOf(":", tail);
    RestOfLineOf(i.text);
    hide ItemLine, Bullet, Identifier, After, RestOfLine, IsItem;
  }

  lemma {:induction false} BracketReads(priority: string, rest: string)
    requires |priority| == 2 && priority[0] == 'P' && '1' <= priority[1] <= '3'
    ensures BracketOf(" [" + (priority + ("]:" + rest))) == Some(Token(priority, rest))
  {
    var inner := priority + ("]:" + rest);
    assert " [" + inner == " " + ("[" + inner);
    OneSpace("[" + inner);
    AfterOf("[", inner);
    assert inner[..2] == priority && inner[2..] == "]:" + rest;
    AfterOf("]:", rest);
    hide SomeSpaces, After;
  }

  lemma {:induction false} OutcomeReads(o: Outcome)
    requires IsOutcome(o)
    ensures OutcomeOf(OutcomeLine(o)) == Some(o)
  {
    var tail := " " + o.text;
    var bracket := " [" + (o.priority + ("]:" + tail));
    var rest := o.id + bracket;
    assert OutcomeLine(o) == "- " + rest;
    assert rest[0] == "DO-"[0];
    BulletOf(rest);
    IdentifierOf(o.id, "DO-", bracket);
    BracketReads(o.priority, tail);
    RestOfLineOf(o.text);
    hide OutcomeLine, Bullet, Identifier, BracketOf, RestOfLine, IsOutcome;
  }

  lemma {:induction false} UserReads(u: string)
    requires IsUser(u)
    ensures UserOf("- " + u) == Some(u)
  {
    BulletOf(u);
    TrimTrimmed(u);
    hide Bullet, Trim;
  }

  // ---------- Lines that are not of a kind ----------

  lemma {:induction false} NoBullet(line: string)
    requires line == "" || (!IsSpace(line[0]) && line[0] != '-')
    ensures Bullet(line) == None
  {
    if line != "" {
      SkipWhileIs(IsSpace, line, 0, 0);
    }
  }

  lemma {:induction false} NoHash(line: string)
    requires line == "" || line[0] != '#'
    ensures After(line, "###") == None
  {
  }

  lemma {:induction false} NoHeader(line: string, word: string)
    requires line == "" || line[0] != '#'
    ensures !IsHeader(line, word) && MilestoneOf(line) == None
  {
    NoHash(line);
  }

  // ---------- History ----------

  lemma {:induction false} EmDash()
    ensures IsDash(EM_DASH) && !IsSpace(EM_DASH) && !IsDotted(EM_DASH)
  {
  }

  lemma {:induction false} DashedDateParts(s: string, rest: string, date: string)
    requires SomeSpaces(s) == Some(rest) && rest != "" && IsDash(rest[0])
    requires SomeSpaces(rest[1..]) == Some(date) && |date| == 10 && IsDate(date)
    ensures DashedDate(s) == Some(date)
  {
    hide SomeSpaces, IsDate, IsDash;
    assert date[..10] == date;
  }

  lemma {:induction false} DateReads(dash: char, date: string)
    requires IsDash(dash) && !IsSpace(dash) && date != "" && !IsSpace(date[0]) && |date| == 10 && IsDate(date)
    ensures DashedDate(" " + ([dash] + (" " + date))) == Some(date)
  {
    hide SomeSpaces, IsDate, IsDash, IsSpace, DashedDate, DropSpaces;
    var spaced := " " + date;
    var rest := [dash] + spaced;
    OneSpace(date);
    assert rest[1..] == spaced && rest[0] == dash;
    OneSpace(rest);
    DashedDateParts(" " + rest, rest, date);
  }

  lemma {:induction false} VersionReads(milestone: string, rest: string)
    requires IsVersion(milestone) && (rest == "" || !IsDotted(rest[0]))
    ensures VersionOf(milestone + rest) == Some(Token(milestone, rest))
  {
    var number := milestone[1..];
    assert milestone == "v" + number;
    assert milestone + rest == "v" + (number + rest);
    AfterOf("v", number + rest);
    assert forall i :: 0 <= i < |number| ==> number[i] == milestone[i + 1];
    RunOf(IsDotted, number, rest);
    hide After, Run;
  }

  lemma {:induction false} DateStart(date: string)
    requires IsDate(date)
    ensures |date| == 10 && !IsSpace(date[0])
  {
    assert IsDigit(date[0]);
  }

  lemma {:induction false} MilestoneParts(milestone: string, dash: char, date: string)
    ensures "### " + milestone + " " + [dash] + " " + date
            == "###" + (" " + (milestone + (" " + ([dash] + (" " + date)))))
  {
  }

  lemma {:induction false} MilestoneOfParts(line: string, title: string, rest: string, version: Token, date: string)
    requires After(line, "###") == Some(title) && SomeSpaces(title) == Some(rest)
    requires VersionOf(rest) == Some(version) && DashedDate(version.rest) == Some(date)
    ensures MilestoneOf(line) == Some(Entry(version.text, date, []))
  {
    hide SomeSpaces, After, DashedDate, VersionOf;
  }

  lemma {:induction false} MilestoneTitle(milestone: string, dated: string, date: string)
    requires IsVersion(milestone) && dated != "" && !IsDotted(dated[0]) && DashedDate(dated) == Some(date)
    ensures MilestoneOf("###" + (" " + (milestone + dated))) == Some(Entry(milestone, date, []))
  {
    var rest := milestone + dated;
    VersionStart(milestone);
    assert rest[0] == milestone[0];
    hide SomeSpaces, After, DashedDate, VersionOf, IsVersion, IsSpace, IsDotted, MilestoneOf;
    AfterOf("###", " " + rest);
    OneSpace(rest);
    VersionReads(milestone, dated);
    MilestoneOfParts("###" + (" " + rest), " " + rest, rest, Token(milestone, dated), date);
  }

  lemma {:induction false} MilestoneReads(e: Entry)
    requires IsVersion(e.milestone) && IsDate(e.date)
    ensures MilestoneOf(MilestoneLine(e)) == Some(Entry(e.milestone, e.date, []))
  {
    EmDash();
    DateStart(e.date);
    SpaceIsNotDotted();
    hide DashedDate, IsDate, IsVersion, IsDash, IsSpace, IsDotted, EM_DASH, MilestoneOf;
    MilestoneParts(e.milestone, EM_DASH, e.date);
    DateReads(EM_DASH, e.date);
    MilestoneTitle(e.milestone, " " + ([EM_DASH] + (" " + e.date)), e.date);
  }

  lemma {:induction false} VersionStart(m: string)
    requires IsVersion(m)
    ensures m != "" && !IsSpace(m[0])
  {
  }

  lemma {:induction false} SpaceIsNotDotted()
    ensures !IsDotted(' ')
  {
  }

  lemma {:induction false} KindReads(k: ChangeKind, rest: string)
    ensures KindOf("**" + KindText(k) + "**" + rest) == Some((k, rest))
  {
    var s := "**" + KindText(k) + "**" + rest;
    match k
    case Added =>
      assert s == "**Added**" + rest;
      AfterOf("**Added**", rest);
    case Modified =>
      assert s == "**Modified**" + rest;
      AfterOf("**Modified**", rest);
      assert s[2] == 'M' && "**Added**"[2] == 'A';
    case Removed =>
      assert s == "**Removed**" + rest;
      AfterOf("**Removed**", rest);
      assert s[2] == 'R' && "**Added**"[2] == 'A' && "**Modified**"[2] == 'M';
  }

  // Where a target ends, and what is left.
  ghost predicate EndsAt(s: string, target: string, description: string) {
    && |target| < |s| && s[|target|] == ':' && s[..|target|] == target
    && s[|target| + 1..] == " " + description
    && forall i :: 0 <= i < |target| ==> IsChar(s[i]) && s[i] != ':'
  }

  lemma {:induction false} TargetEnds(target: string, description: string)
    requires IsTarget(target)
    ensures EndsAt(target + (":" + (" " + description)), target, description)
  {
  }

  // The target ends at the first colon.
  lemma {:induction false} TargetReads(s: string, target: string, description: string, n: nat)
    requires EndsAt(s, target, description) && target != "" && n <= |target|
    requires RestOfLine(" " + description) == Some(description)
    ensures TargetFrom(s, n) == Some(Token(target, description))
    decreases |target| - n
  {
    hide RestOfLine, IsChar;
    if n < |target| {
      assert IsChar(s[n]) && s[n] != ':';
      TargetReads(s, target, description, n + 1);
    }
  }

  lemma {:induction false} SpacedTarget(s: string, target: Token)
    requires s != "" && !IsSpace(s[0]) && TargetFrom(s, 0) == Some(target)
    ensures TargetOf(" " + s, SkipWhile(IsSpace, " " + s, 0)) == Some(target)
  {
    var tail := " " + s;
    assert tail[1] == s[0];
    SkipWhileIs(IsSpace, tail, 0, 1);
    assert tail[1..] == s;
    hide TargetFrom;
  }

  lemma {:induction false} ChangeOfParts(line: string, rest: string, kind: ChangeKind, tail: string, target: Token)
    requires Bullet(line) == Some(rest) && KindOf(rest) == Some((kind, tail))
    requires TargetOf(tail, SkipWhile(IsSpace, tail, 0)) == Some(target)
    ensures ChangeOf(line) == Some(Change(kind, target.text, target.rest, None))
  {
    hide Bullet, KindOf, TargetOf;
  }

  lemma {:induction false} ChangeParts(c: Change)
    ensures ChangeLine(c)
            == "- " + ("**" + KindText(c.kind) + "**" + (" " + (c.target + (":" + (" " + c.description)))))
  {
    hide KindText;
  }

  lemma {:induction false} TargetStart(t: string, rest: string)
    requires IsTarget(t)
    ensures t != "" && t + rest != "" && !IsSpace((t + rest)[0])
  {
  }

  lemma {:induction false} ChangeReads(c: Change)
    requires IsChange(c)
    ensures ChangeOf(ChangeLine(c)) == Some(c.(reason := None))
    ensures MilestoneOf(ChangeLine(c)) == None
  {
    var described := c.target + (":" + (" " + c.description));
    var tail := " " + described;
    var rest := "**" + KindText(c.kind) + "**" + tail;
    assert rest != "" && rest[0] == '*' && !IsSpace('*');
    TargetStart(c.target, ":" + (" " + c.description));
    hide Bullet, KindOf, KindText, TargetFrom, TargetOf, MilestoneOf, ChangeOf, IsSpace, IsTarget, RestOfLine, EndsAt;
    ChangeParts(c);
    BulletOf(rest);
    KindReads(c.kind, tail);
    TargetEnds(c.target, c.description);
    RestOfLineOf(c.description);
    TargetReads(described, c.target, c.description, 0);
    SpacedTarget(described, Token(c.target, c.description));
    ChangeOfParts(ChangeLine(c), rest, c.kind, tail, Token(c.target, c.description));
    DashIsNoMilestone(rest);
  }

  lemma {:induction false} DashIsNoMilestone(rest: string)
    ensures MilestoneOf("- " + rest) == None
  {
    NoHeader("- " + rest, "");
  }

  lemma {:induction false} ReasonReads(reason: string)
    requires IsField(reason)
    ensures ReasonOf("  - Reason: " + reason) == Some(reason)
    ensures MilestoneOf("  - Reason: " + reason) == None && ChangeOf("  - Reason: " + reason) == None
  {
    var line := "  - Reason: " + reason;
    var rest := "Reason:" + (" " + reason);
    assert line == "  - " + rest;
    BulletOf(rest);
    AfterOf("Reason:", " " + reason);
    RestOfLineOf(reason);
    NoHeader(line, "");
    NotBold(rest);
    hide Bullet, After, RestOfLine, MilestoneOf, KindOf;
  }

  lemma {:induction false} NotBold(s: string)
    requires s == "" || s[0] != '*'
    ensures KindOf(s) == None
  {
    assert "**Added**"[0] == '*' && "**Modified**"[0] == '*' && "**Removed**"[0] == '*';
  }

  lemma {:induction false} EmptyLine()
    ensures Bullet("") == None && MilestoneOf("") == None && ChangeOf("") == None && ReasonOf("") == None
    ensures forall word :: !IsHeader("", word)
  {
    NoBullet("");
    NoHash("");
  }
}
