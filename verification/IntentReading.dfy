// Which lines parseIntentMd reads, and as what, said of the characters of any line, not only of
// those generateIntentMd writes (plugin.js).
module IntentReading {
  import opened Options
  import opened Strings
  import opened Decimals
  import opened Scanning
  import opened IntentFormat

  // ---------- Gaps, bullets and the rest of a line ----------

  predicate IsGap(s: string) { s != "" && IsBlank(s) }

  predicate StartsInk(s: string) { s == "" || !IsSpace(s[0]) }

  lemma {:induction false} DropSpacesIs(gap: string, rest: string)
    requires IsBlank(gap) && StartsInk(rest)
    ensures DropSpaces(gap + rest) == rest
  {
    var s := gap + rest;
    assert rest != "" ==> s[|gap|] == rest[0];
    SkipWhileIs(IsSpace, s, 0, |gap|);
    assert s[|gap|..] == rest;
  }

  lemma {:induction false} DropSpacesCuts(s: string) returns (gap: string)
    ensures s == gap + DropSpaces(s) && IsBlank(gap) && StartsInk(DropSpaces(s))
  {
    gap := s[..SkipWhile(IsSpace, s, 0)];
  }

  lemma {:induction false} SomeSpacesExactlyWhen(s: string, rest: string)
    ensures SomeSpaces(s) == Some(rest) <==> exists gap :: s == gap + rest && IsGap(gap) && StartsInk(rest)
  {
    hide IsBlank, StartsInk;
    var g := DropSpacesCuts(s);
    forall gap | s == gap + rest && IsGap(gap) && StartsInk(rest)
      ensures SomeSpaces(s) == Some(rest)
    {
      DropSpacesIs(gap, rest);
    }
    if SomeSpaces(s) == Some(rest) {
      assert s == g + rest && IsGap(g);
    }
  }

  ghost predicate BulletParts(line: string, indent: string, gap: string, rest: string) {
    line == indent + "-" + gap + rest && IsBlank(indent) && IsGap(gap) && StartsInk(rest)
  }

  // A bullet: a dash, indented or not, white space, and the text.
  ghost predicate IsBullet(line: string, rest: string) {
    exists indent, gap :: BulletParts(line, indent, gap, rest)
  }

  lemma {:induction false} BulletReads(line: string, indent: string, gap: string, rest: string)
    requires BulletParts(line, indent, gap, rest)
    ensures Bullet(line) == Some(rest)
  {
    var dashed := "-" + (gap + rest);
    assert line == indent + dashed;
    hide IsBlank, IsGap;
    DropSpacesIs(indent, dashed);
    AfterOf("-", gap + rest);
    hide DropSpaces, After;
    SomeSpacesExactlyWhen(gap + rest, rest);
  }

  lemma {:induction false} BulletExactlyWhen(line: string, rest: string)
    ensures Bullet(line) == Some(rest) <==> IsBullet(line, rest)
  {
    hide IsBlank, IsGap, StartsInk, SomeSpaces, DropSpaces;
    if Bullet(line) == Some(rest) {
      var indent := DropSpacesCuts(line);
      var tail := DropSpaces(line)[1..];
      assert DropSpaces(line) == "-" + tail;
      SomeSpacesExactlyWhen(tail, rest);
      var gap :| tail == gap + rest && IsGap(gap) && StartsInk(rest);
      assert line == indent + ("-" + (gap + rest));
      assert BulletParts(line, indent, gap, rest);
    }
    if IsBullet(line, rest) {
      var indent, gap :| BulletParts(line, indent, gap, rest);
      BulletReads(line, indent, gap, rest);
    }
  }

  ghost predicate RestParts(s: string, gap: string, run: string, more: string, text: string) {
    && s == gap + run + more && IsBlank(gap) && run != "" && StartsInk(run)
    && (forall i :: 0 <= i < |run| ==> IsChar(run[i])) && (more == "" || IsTerminator(more[0]))
    && text == Trim(run)
  }

  // The text that ends a line: what follows the white space, up to a line terminator, trimmed. White
  // space alone counts as an empty text, unless it is made of terminators.
  ghost predicate IsRest(s: string, text: string) {
    || (exists gap, run, more :: RestParts(s, gap, run, more, text))
    || (IsBlank(s) && (exists i :: 0 <= i < |s| && IsChar(s[i])) && text == "")
  }

  lemma {:induction false} RestReads(s: string, gap: string, run: string, more: string, text: string)
    requires RestParts(s, gap, run, more, text)
    ensures RestOfLine(s) == Some(text)
  {
    var rest := run + more;
    assert s == gap + rest;
    assert StartsInk(rest);
    DropSpacesIs(gap, rest);
    assert more != "" ==> rest[|run|] == more[0];
    SkipWhileIs(IsChar, rest, 0, |run|);
    assert rest[..|run|] == run;
    hide Trim, DropSpaces;
  }

  lemma {:induction false} BlankRest(s: string)
    ensures DropSpaces(s) == "" <==> IsBlank(s)
  {
    var gap := DropSpacesCuts(s);
    if IsBlank(s) {
      DropSpacesIs(s, "");
      assert s + "" == s;
    }
  }

  lemma {:induction false} RestOfLineExactlyWhen(s: string, text: string)
    ensures RestOfLine(s) == Some(text) <==> IsRest(s, text)
  {
    hide IsBlank, IsSpace, IsTerminator, Trim, DropSpaces;
    BlankRest(s);
    var gap := DropSpacesCuts(s);
    var rest := DropSpaces(s);
    if rest != "" {
      SpacesAndTerminators(rest[0]);
      var n := SkipWhile(IsChar, rest, 0);
      assert rest == rest[..n] + rest[n..];
      assert s == gap + rest[..n] + rest[n..];
      assert RestParts(s, gap, rest[..n], rest[n..], Trim(rest[..n]));
    }
    forall g, run, more | RestParts(s, g, run, more, text)
      ensures RestOfLine(s) == Some(text)
    {
      RestReads(s, g, run, more, text);
    }
  }

  // ---------- Users, items and outcomes ----------

  lemma {:induction false} UserExactlyWhen(line: string, user: string)
    ensures UserOf(line) == Some(user) <==> user != "" && exists rest :: IsBullet(line, rest) && user == Trim(rest)
  {
    hide Bullet, Trim, IsBullet;
    if Bullet(line).Some? {
      BulletExactlyWhen(line, Bullet(line).value);
    }
    forall rest | IsBullet(line, rest)
      ensures Bullet(line) == Some(rest)
    {
      BulletExactlyWhen(line, rest);
    }
  }

  ghost predicate IdParts(s: string, prefix: string, digits: string, rest: string) {
    s == prefix + digits + rest && digits != "" && IsDigits(digits) && (rest == "" || !IsDigit(rest[0]))
  }

  lemma {:induction false} IdentifierExactlyWhen(s: string, prefix: string, id: string, rest: string)
    ensures Identifier(s, prefix) == Some(Token(id, rest))
            <==> exists digits :: IdParts(s, prefix, digits, rest) && id == prefix + digits
  {
    hide IsDigit;
    if Identifier(s, prefix) == Some(Token(id, rest)) {
      var tail := s[|prefix|..];
      assert s == prefix + tail;
      var digits := tail[..SkipWhile(IsDigit, tail, 0)];
      assert tail == digits + rest;
      assert s == prefix + digits + rest;
      assert IdParts(s, prefix, digits, rest);
    }
    forall digits | IdParts(s, prefix, digits, rest) && id == prefix + digits
      ensures Identifier(s, prefix) == Some(Token(id, rest))
    {
      assert s == prefix + (digits + rest);
      AfterOf(prefix, digits + rest);
      RunOf(IsDigit, digits, rest);
    }
  }

  // - ID: text
  ghost predicate ItemParts(line: string, prefix: string, i: Item, digits: string, tail: string) {
    && IsBullet(line, prefix + digits + ":" + tail) && digits != "" && IsDigits(digits)
    && i.id == prefix + digits && IsRest(tail, i.text)
  }

  lemma {:induction false} ItemReads(line: string, prefix: string, i: Item, digits: string, tail: string)
    requires ItemParts(line, prefix, i, digits, tail)
    ensures ItemOf(prefix, line) == Some(i)
  {
    hide IsBullet, IsRest, Bullet, Identifier, RestOfLine, IsDigits;
    var rest := prefix + digits + ":" + tail;
    BulletExactlyWhen(line, rest);
    assert rest == prefix + digits + (":" + tail);
    assert IdParts(rest, prefix, digits, ":" + tail);
    IdentifierExactlyWhen(rest, prefix, i.id, ":" + tail);
    AfterOf(":", tail);
    RestOfLineExactlyWhen(tail, i.text);
  }

  lemma {:induction false} ItemExactlyWhen(line: string, prefix: string, i: Item)
    ensures ItemOf(prefix, line) == Some(i) <==> exists digits, tail :: ItemParts(line, prefix, i, digits, tail)
  {
    hide IsBullet, IsRest, Bullet, Identifier, RestOfLine, IsDigits;
    if ItemOf(prefix, line) == Some(i) {
      var rest := Bullet(line).value;
      BulletExactlyWhen(line, rest);
      var id := Identifier(rest, prefix).value;
      IdentifierExactlyWhen(rest, prefix, id.text, id.rest);
      var digits :| IdParts(rest, prefix, digits, id.rest) && id.text == prefix + digits;
      var tail := After(id.rest, ":").value;
      assert id.rest == ":" + tail;
      RestOfLineExactlyWhen(tail, i.text);
      assert rest == prefix + digits + ":" + tail;
      assert ItemParts(line, prefix, i, digits, tail);
    }
    forall digits, tail | ItemParts(line, prefix, i, digits, tail)
      ensures ItemOf(prefix, line) == Some(i)
    {
      ItemReads(line, prefix, i, digits, tail);
    }
  }

  // The priority in its brackets, after white space.
  ghost predicate BracketParts(s: string, gap: string, priority: string, tail: string) {
    s == gap + "[" + priority + "]:" + tail && IsGap(gap) && priority in ["P1", "P2", "P3"]
  }

  lemma {:induction false} PriorityExactlyWhen(s: string, priority: string, rest: string)
    ensures PriorityOf(s) == Some(Token(priority, rest)) <==> s == priority + rest && priority in ["P1", "P2", "P3"]
  {
    if PriorityOf(s).Some? {
      assert s == s[..2] + s[2..];
      assert s[..2] == [s[0], s[1]];
      assert s[1] == '1' || s[1] == '2' || s[1] == '3';
    }
    if s == priority + rest && priority in ["P1", "P2", "P3"] {
      assert s[0] == priority[0] && s[1] == priority[1];
      assert s[..2] == priority && s[2..] == rest;
    }
  }

  lemma {:induction false} BracketReads(s: string, gap: string, priority: string, tail: string)
    requires BracketParts(s, gap, priority, tail)
    ensures BracketOf(s) == Some(Token(priority, tail))
  {
    hide IsGap, PriorityOf, SomeSpaces;
    var rest := "[" + (priority + ("]:" + tail));
    assert s == gap + rest;
    SomeSpacesExactlyWhen(s, rest);
    AfterOf("[", priority + ("]:" + tail));
    PriorityExactlyWhen(priority + ("]:" + tail), priority, "]:" + tail);
    AfterOf("]:", tail);
  }

  lemma {:induction false} BracketExactlyWhen(s: string, priority: string, tail: string)
    ensures BracketOf(s) == Some(Token(priority, tail)) <==> exists gap :: BracketParts(s, gap, priority, tail)
  {
    hide IsGap, PriorityOf, SomeSpaces;
    if BracketOf(s) == Some(Token(priority, tail)) {
      var rest := SomeSpaces(s).value;
      SomeSpacesExactlyWhen(s, rest);
      var gap :| s == gap + rest && IsGap(gap) && StartsInk(rest);
      var inner := After(rest, "[").value;
      assert rest == "[" + inner;
      PriorityExactlyWhen(inner, priority, PriorityOf(inner).value.rest);
      assert PriorityOf(inner).value.rest == "]:" + tail;
      assert s == gap + "[" + priority + "]:" + tail;
      assert BracketParts(s, gap, priority, tail);
    }
    forall gap | BracketParts(s, gap, priority, tail)
      ensures BracketOf(s) == Some(Token(priority, tail))
    {
      BracketReads(s, gap, priority, tail);
    }
  }

  // - DO-n [Pn]: text
  ghost predicate OutcomeParts(line: string, o: Outcome, digits: string, bracket: string, tail: string) {
    && IsBullet(line, "DO-" + digits + bracket) && digits != "" && IsDigits(digits) && o.id == "DO-" + digits
    && (exists gap :: BracketParts(bracket, gap, o.priority, tail)) && IsRest(tail, o.text)
  }

  lemma {:induction false} GapEndsDigits(bracket: string, gap: string, priority: string, tail: string)
    requires BracketParts(bracket, gap, priority, tail)
    ensures bracket != "" && !IsDigit(bracket[0])
  {
    assert bracket[0] == gap[0];
  }

  lemma {:induction false} OutcomeReads(line: string, o: Outcome, digits: string, bracket: string, tail: string)
    requires OutcomeParts(line, o, digits, bracket, tail)
    ensures OutcomeOf(line) == Some(o)
  {
    hide IsBullet, IsRest, Bullet, Identifier, RestOfLine, IsDigits, BracketOf, BracketParts, IsDigit;
    var rest := "DO-" + digits + bracket;
    BulletExactlyWhen(line, rest);
    var gap :| BracketParts(bracket, gap, o.priority, tail);
    GapEndsDigits(bracket, gap, o.priority, tail);
    assert IdParts(rest, "DO-", digits, bracket);
    IdentifierExactlyWhen(rest, "DO-", o.id, bracket);
    BracketExactlyWhen(bracket, o.priority, tail);
    RestOfLineExactlyWhen(tail, o.text);
  }

  lemma {:induction false} OutcomeExactlyWhen(line: string, o: Outcome)
    ensures OutcomeOf(line) == Some(o)
            <==> exists digits, bracket, tail :: OutcomeParts(line, o, digits, bracket, tail)
  {
    hide IsBullet, IsRest, Bullet, Identifier, RestOfLine, IsDigits, BracketOf, BracketParts, IsDigit;
    if OutcomeOf(line) == Some(o) {
      var rest := Bullet(line).value;
      BulletExactlyWhen(line, rest);
      var id := Identifier(rest, "DO-").value;
      IdentifierExactlyWhen(rest, "DO-", id.text, id.rest);
      var digits :| IdParts(rest, "DO-", digits, id.rest) && id.text == "DO-" + digits;
      var tail := BracketOf(id.rest).value.rest;
      BracketExactlyWhen(id.rest, o.priority, tail);
      RestOfLineExactlyWhen(tail, o.text);
      assert OutcomeParts(line, o, digits, id.rest, tail);
    }
    forall digits, bracket, tail | OutcomeParts(line, o, digits, bracket, tail)
      ensures OutcomeOf(line) == Some(o)
    {
      OutcomeReads(line, o, digits, bracket, tail);
    }
  }

  // ---------- Headers ----------

  // The same letter in either case; the words asked for are written in small letters.
  predicate SameLetter(c: char, small: char) {
    c == small || ('a' <= small <= 'z' && c == small - 32 as char)
  }

  ghost predicate HeaderParts(line: string, word: string, gap: string, title: string, rest: string) {
    && line == "###" + gap + title + rest && IsBlank(gap) && |title| == |word|
    && forall i :: 0 <= i < |word| ==> SameLetter(title[i], word[i])
  }

  predicate IsSmall(word: string) {
    word != "" && forall i :: 0 <= i < |word| ==> 'a' <= word[i] <= 'z'
  }

  lemma {:induction false} LowerExactlyWhen(c: char, small: char)
    requires 'a' <= small <= 'z'
    ensures Lower(c) == small <==> SameLetter(c, small)
    ensures SameLetter(c, small) ==> !IsSpace(c)
  {
  }

  lemma {:induction false} StartsLowerExactlyWhen(s: string, title: string, rest: string, word: string)
    requires IsSmall(word) && s == title + rest && |title| == |word|
    ensures StartsLower(s, word) <==> forall i :: 0 <= i < |word| ==> SameLetter(title[i], word[i])
  {
    hide Lower, SameLetter;
    forall i | 0 <= i < |word|
      ensures s[i] == title[i] && (Lower(s[i]) == word[i] <==> SameLetter(title[i], word[i]))
    {
      LowerExactlyWhen(s[i], word[i]);
    }
  }

  lemma {:induction false} HeaderReads(line: string, word: string, gap: string, title: string, rest: string)
    requires IsSmall(word) && HeaderParts(line, word, gap, title, rest)
    ensures IsHeader(line, word)
  {
    hide IsBlank, SameLetter, StartsLower;
    assert line == "###" + (gap + (title + rest));
    AfterOf("###", gap + (title + rest));
    LowerExactlyWhen(title[0], word[0]);
    DropSpacesIs(gap, title + rest);
    StartsLowerExactlyWhen(title + rest, title, rest, word);
  }

  // Three hashes, white space or none, and the word in any case.
  lemma {:induction false} HeaderExactlyWhen(line: string, word: string)
    requires IsSmall(word)
    ensures IsHeader(line, word) <==> exists gap, title, rest :: HeaderParts(line, word, gap, title, rest)
  {
    hide IsBlank, SameLetter, DropSpaces;
    if IsHeader(line, word) {
      var tail := line[3..];
      var gap := DropSpacesCuts(tail);
      var s := DropSpaces(tail);
      var title, rest := s[..|word|], s[|word|..];
      StartsLowerExactlyWhen(s, title, rest, word);
      assert line == "###" + gap + title + rest;
      assert HeaderParts(line, word, gap, title, rest);
    }
    forall gap, title, rest | HeaderParts(line, word, gap, title, rest)
      ensures IsHeader(line, word)
    {
      HeaderReads(line, word, gap, title, rest);
    }
  }

  // ---------- Milestones ----------

  ghost predicate IsVersion(version: string, number: string) {
    version == "v" + number && number != "" && forall i :: 0 <= i < |number| ==> IsDigit(number[i]) || number[i] == '.'
  }

  lemma {:induction false} VersionReads(version: string, number: string, rest: string)
    requires IsVersion(version, number) && (rest == "" || !IsDotted(rest[0]))
    ensures VersionOf(version + rest) == Some(Token(version, rest))
  {
    assert version + rest == "v" + (number + rest);
    AfterOf("v", number + rest);
    RunOf(IsDotted, number, rest);
  }

  lemma {:induction false} VersionCuts(s: string) returns (number: string)
    requires VersionOf(s).Some?
    ensures var version := VersionOf(s).value; IsVersion(version.text, number) && s == version.text + version.rest
  {
    var rest := s[1..];
    assert s == "v" + rest;
    number := rest[..SkipWhile(IsDotted, rest, 0)];
  }

  ghost predicate IsDay(date: string, year: string, month: string, day: string) {
    && date == year + "-" + month + "-" + day && |year| == 4 && |month| == 2 && |day| == 2
    && IsDigits(year) && IsDigits(month) && IsDigits(day)
  }

  lemma {:induction false} DateExactlyWhen(date: string)
    ensures IsDate(date) <==> exists year, month, day :: IsDay(date, year, month, day)
  {
    hide IsDigit;
    if IsDate(date) {
      assert date == date[..4] + "-" + date[5..7] + "-" + date[8..];
      assert IsDay(date, date[..4], date[5..7], date[8..]);
    }
    forall year, month, day | IsDay(date, year, month, day)
      ensures IsDate(date)
    {
      assert forall i :: 0 <= i < 4 ==> date[i] == year[i];
      assert forall i :: 5 <= i < 7 ==> date[i] == month[i - 5];
      assert forall i :: 8 <= i < 10 ==> date[i] == day[i - 8];
    }
  }

  // A hyphen, an en dash or an em dash between white space, and a date.
  ghost predicate DatedParts(s: string, gap: string, dash: char, more: string, date: string, rest: string) {
    && s == gap + [dash] + more + date + rest && IsGap(gap) && IsGap(more) && IsDate(date)
    && dash in ['-', '\U{2013}', '\U{2014}']
  }

  lemma {:induction false} DashIsInk(dash: char)
    ensures IsDash(dash) <==> dash in ['-', '\U{2013}', '\U{2014}']
    ensures IsDash(dash) ==> !IsSpace(dash)
  {
  }

  lemma {:induction false} DateIsInk(date: string)
    requires IsDate(date)
    ensures !IsSpace(date[0])
  {
    assert IsDigit(date[0]);
  }

  lemma {:induction false} DatedReads(s: string, gap: string, dash: char, more: string, date: string, rest: string)
    requires DatedParts(s, gap, dash, more, date, rest)
    ensures DashedDate(s) == Some(date)
  {
    DateIsInk(date);
    DashIsInk(dash);
    TenLong(date);
    hide IsGap, SomeSpaces, IsDate, IsDash, IsSpace;
    var dated := date + rest;
    assert dated[..10] == date;
    var dashed := [dash] + (more + dated);
    assert dashed[1..] == more + dated;
    DatedIs(s, gap, dash, more, date, rest);
    hide DatedParts;
    SomeSpacesExactlyWhen(more + dated, dated);
    SomeSpacesExactlyWhen(s, dashed);
  }

  lemma {:induction false} DatedIs(s: string, gap: string, dash: char, more: string, date: string, rest: string)
    requires DatedParts(s, gap, dash, more, date, rest)
    ensures s == gap + ([dash] + (more + (date + rest))) && IsGap(gap) && IsGap(more)
  {
    hide IsGap, IsDate;
  }

  lemma {:induction false} TenLong(date: string)
    requires IsDate(date)
    ensures |date| == 10
  {
  }

  lemma {:induction false} DatedExactlyWhen(s: string, date: string)
    ensures DashedDate(s) == Some(date)
            <==> exists gap, dash, more, rest :: DatedParts(s, gap, dash, more, date, rest)
  {
    hide IsGap, SomeSpaces, IsDate, IsDash;
    if DashedDate(s) == Some(date) {
      var dashed := SomeSpaces(s).value;
      SomeSpacesExactlyWhen(s, dashed);
      var gap :| s == gap + dashed && IsGap(gap) && StartsInk(dashed);
      var dash := dashed[0];
      DashIsInk(dash);
      var dated := SomeSpaces(dashed[1..]).value;
      SomeSpacesExactlyWhen(dashed[1..], dated);
      var more :| dashed[1..] == more + dated && IsGap(more) && StartsInk(dated);
      assert dashed == [dash] + (more + (date + dated[10..]));
      assert s == gap + [dash] + more + date + dated[10..];
      assert DatedParts(s, gap, dash, more, date, dated[10..]);
    }
    forall gap, dash, more, rest | DatedParts(s, gap, dash, more, date, rest)
      ensures DashedDate(s) == Some(date)
    {
      DatedReads(s, gap, dash, more, date, rest);
    }
  }

  // ### v1.2 - 2024-01-31
  ghost predicate MilestoneParts(line: string, e: Entry, gap: string, number: string, dated: string) {
    && line == "###" + gap + e.milestone + dated && IsGap(gap) && IsVersion(e.milestone, number)
    && (exists before, dash, after, rest :: DatedParts(dated, before, dash, after, e.date, rest))
    && e.changes == []
  }

  lemma {:induction false} GapEndsVersion(
    dated: string, gap: string, dash: char, more: string, date: string, rest: string)
    requires DatedParts(dated, gap, dash, more, date, rest)
    ensures dated != "" && !IsDotted(dated[0])
  {
    assert dated[0] == gap[0];
  }

  lemma {:induction false} MilestoneReads(line: string, e: Entry, gap: string, number: string, dated: string)
    requires MilestoneParts(line, e, gap, number, dated)
    ensures MilestoneOf(line) == Some(e)
  {
    hide IsGap, SomeSpaces, VersionOf, DashedDate, IsDotted, DatedParts, IsDigit;
    var rest := e.milestone + dated;
    assert line == "###" + (gap + rest);
    AfterOf("###", gap + rest);
    assert rest[0] == 'v';
    SomeSpacesExactlyWhen(gap + rest, rest);
    var before, dash, after, more :| DatedParts(dated, before, dash, after, e.date, more);
    GapEndsVersion(dated, before, dash, after, e.date, more);
    VersionReads(e.milestone, number, dated);
    DatedExactlyWhen(dated, e.date);
  }

  lemma {:induction false} MilestoneExactlyWhen(line: string, e: Entry)
    ensures MilestoneOf(line) == Some(e)
            <==> exists gap, number, dated :: MilestoneParts(line, e, gap, number, dated)
  {
    hide IsGap, SomeSpaces, VersionOf, DashedDate, IsVersion, DatedParts;
    if MilestoneOf(line) == Some(e) {
      var title := After(line, "###").value;
      assert line == "###" + title;
      var rest := SomeSpaces(title).value;
      SomeSpacesExactlyWhen(title, rest);
      var gap :| title == gap + rest && IsGap(gap) && StartsInk(rest);
      var number := VersionCuts(rest);
      var dated := VersionOf(rest).value.rest;
      DatedExactlyWhen(dated, e.date);
      assert line == "###" + gap + e.milestone + dated;
      assert MilestoneParts(line, e, gap, number, dated);
    }
    forall gap, number, dated | MilestoneParts(line, e, gap, number, dated)
      ensures MilestoneOf(line) == Some(e)
    {
      MilestoneReads(line, e, gap, number, dated);
    }
  }

  // ---------- Changes and reasons ----------

  // An indented bullet.
  lemma {:induction false} ReasonExactlyWhen(line: string, reason: string)
    ensures ReasonOf(line) == Some(reason)
            <==> && line != "" && IsSpace(line[0])
                 && exists tail :: IsBullet(line, "Reason:" + tail) && IsRest(tail, reason)
  {
    hide IsBullet, IsRest, Bullet, RestOfLine, IsSpace;
    if ReasonOf(line) == Some(reason) {
      var rest := Bullet(line).value;
      BulletExactlyWhen(line, rest);
      var tail := After(rest, "Reason:").value;
      assert rest == "Reason:" + tail;
      RestOfLineExactlyWhen(tail, reason);
    }
    forall tail | line != "" && IsSpace(line[0]) && IsBullet(line, "Reason:" + tail) && IsRest(tail, reason)
      ensures ReasonOf(line) == Some(reason)
    {
      BulletExactlyWhen(line, "Reason:" + tail);
      AfterOf("Reason:", tail);
      RestOfLineExactlyWhen(tail, reason);
    }
  }

  lemma {:induction false} KindExactlyWhen(s: string, kind: ChangeKind, tail: string)
    ensures KindOf(s) == Some((kind, tail))
            <==> || (kind == Added && s == "**Added**" + tail)
                 || (kind == Modified && s == "**Modified**" + tail)
                 || (kind == Removed && s == "**Removed**" + tail)
  {
    assert "**Added**"[2] == 'A' && "**Modified**"[2] == 'M' && "**Removed**"[2] == 'R';
    if KindOf(s) == Some((kind, tail)) {
      match kind
      case Added => assert s == "**Added**" + tail;
      case Modified => assert s == "**Modified**" + tail;
      case Removed => assert s == "**Removed**" + tail;
    }
    if s == "**Added**" + tail {
      AfterOf("**Added**", tail);
    } else if s == "**Modified**" + tail {
      AfterOf("**Modified**", tail);
    } else if s == "**Removed**" + tail {
      AfterOf("**Removed**", tail);
    }
  }

  // The target can end at position k: it is on one line, and a colon and a description follow.
  ghost predicate TargetEnds(s: string, k: nat) {
    && 0 < k < |s| && s[k] == ':' && (forall i :: 0 <= i < k ==> IsChar(s[i]))
    && HasRest(s[k + 1..])
  }

  ghost predicate HasRest(s: string) {
    exists description :: IsRest(s, description)
  }

  lemma {:induction false} SomeRest(s: string)
    ensures RestOfLine(s).Some? <==> HasRest(s)
  {
    hide RestOfLine, IsRest;
    if RestOfLine(s).Some? {
      RestOfLineExactlyWhen(s, RestOfLine(s).value);
    }
    forall text | IsRest(s, text)
      ensures RestOfLine(s).Some?
    {
      RestOfLineExactlyWhen(s, text);
    }
  }

  // The target ends as early as it can.
  lemma {:induction false} TargetFromFinds(s: string, n: nat) returns (k: nat)
    requires n <= |s| && forall i :: 0 <= i < n ==> IsChar(s[i])
    ensures TargetFrom(s, n).None? ==> forall j: nat :: n <= j ==> !TargetEnds(s, j)
    ensures TargetFrom(s, n).Some? ==>
              && n <= k && TargetEnds(s, k) && (forall j: nat :: n <= j < k ==> !TargetEnds(s, j))
              && TargetFrom(s, n).value.text == s[..k] && IsRest(s[k + 1..], TargetFrom(s, n).value.rest)
    decreases |s| - n
  {
    hide IsChar, IsRest, RestOfLine;
    k := n;
    if n < |s| {
      SomeRest(s[n + 1..]);
      if n > 0 && s[n] == ':' && RestOfLine(s[n + 1..]).Some? {
        RestOfLineExactlyWhen(s[n + 1..], RestOfLine(s[n + 1..]).value);
      } else if IsChar(s[n]) {
        k := TargetFromFinds(s, n + 1);
      }
    }
  }

  // After n characters of white space comes a target of k characters.
  ghost predicate TargetAt(s: string, n: nat, k: nat) {
    0 < n <= |s| && IsBlank(s[..n]) && TargetEnds(s[n..], k)
  }

  // The white space takes as much as it can, the target as little.
  ghost predicate IsTarget(s: string, n: nat, k: nat) {
    && TargetAt(s, n, k)
    && (forall m: nat, j: nat :: TargetAt(s, m, j) ==> m < n || (m == n && k <= j))
  }

  lemma {:induction false} TargetOfFinds(s: string, n: nat) returns (m: nat, k: nat)
    requires n <= |s| && IsBlank(s[..n])
    ensures TargetOf(s, n).None? ==> forall i: nat, j: nat :: i <= n ==> !TargetAt(s, i, j)
    ensures TargetOf(s, n).Some? ==>
              && m <= n && TargetAt(s, m, k)
              && (forall i: nat, j: nat :: i <= n && TargetAt(s, i, j) ==> i < m || (i == m && k <= j))
              && TargetOf(s, n).value.text == s[m..][..k]
              && IsRest(s[m..][k + 1..], TargetOf(s, n).value.rest)
    decreases n
  {
    hide TargetEnds, IsRest, TargetFrom;
    m, k := n, 0;
    if n > 0 {
      k := TargetFromFinds(s[n..], 0);
      if TargetFrom(s[n..], 0).None? {
        assert s[..n - 1] == s[..n][..n - 1];
        m, k := TargetOfFinds(s, n - 1);
      }
    }
  }

  lemma {:induction false} BlankIsSkipped(s: string, n: nat)
    requires n <= |s| && IsBlank(s[..n])
    ensures n <= SkipWhile(IsSpace, s, 0)
  {
    assert forall i :: 0 <= i < n ==> s[i] == s[..n][i];
  }

  ghost predicate TargetParts(s: string, n: nat, k: nat, target: string, description: string) {
    IsTarget(s, n, k) && target == s[n..][..k] && IsRest(s[n..][k + 1..], description)
  }

  lemma {:induction false} TargetExactlyWhen(s: string, target: string, description: string)
    ensures TargetOf(s, SkipWhile(IsSpace, s, 0)) == Some(Token(target, description))
            <==> exists n: nat, k: nat :: TargetParts(s, n, k, target, description)
  {
    hide IsRest, TargetOf;
    var stop := SkipWhile(IsSpace, s, 0);
    assert IsBlank(s[..stop]);
    forall i: nat, j: nat | TargetAt(s, i, j)
      ensures i <= stop
    {
      BlankIsSkipped(s, i);
    }
    var m, k := TargetOfFinds(s, stop);
    hide IsBlank, IsSpace, HasRest;
    if TargetOf(s, stop) == Some(Token(target, description)) {
      assert TargetParts(s, m, k, target, description);
    }
    forall n: nat, j: nat | TargetParts(s, n, j, target, description)
      ensures TargetOf(s, stop) == Some(Token(target, description))
    {
      assert n == m && j == k;
      OneRest(s[n..][j + 1..], description, TargetOf(s, stop).value.rest);
    }
  }

  lemma {:induction false} OneRest(s: string, a: string, b: string)
    requires IsRest(s, a) && IsRest(s, b)
    ensures a == b
  {
    RestOfLineExactlyWhen(s, a);
    RestOfLineExactlyWhen(s, b);
    hide IsRest;
  }

  ghost predicate IsKind(line: string, kind: ChangeKind, tail: string) {
    match kind
    case Added => IsBullet(line, "**Added**" + tail)
    case Modified => IsBullet(line, "**Modified**" + tail)
    case Removed => IsBullet(line, "**Removed**" + tail)
  }

  ghost predicate ChangeParts(line: string, c: Change, tail: string, n: nat, k: nat) {
    IsKind(line, c.kind, tail) && TargetParts(tail, n, k, c.target, c.description) && c.reason == None
  }

  // - **Added** target: description
  lemma {:induction false} ChangeExactlyWhen(line: string, c: Change)
    ensures ChangeOf(line) == Some(c) <==> exists tail, n: nat, k: nat :: ChangeParts(line, c, tail, n, k)
  {
    hide IsBullet, TargetParts, Bullet, TargetOf, SkipWhile;
    if ChangeOf(line) == Some(c) {
      var rest := Bullet(line).value;
      BulletExactlyWhen(line, rest);
      var tail := KindOf(rest).value.1;
      KindExactlyWhen(rest, c.kind, tail);
      TargetExactlyWhen(tail, c.target, c.description);
      var n: nat, k: nat :| TargetParts(tail, n, k, c.target, c.description);
      assert ChangeParts(line, c, tail, n, k);
    }
    forall tail, n: nat, k: nat | ChangeParts(line, c, tail, n, k)
      ensures ChangeOf(line) == Some(c)
    {
      ChangeReads(line, c, tail, n, k);
    }
  }

  lemma {:induction false} ChangeReads(line: string, c: Change, tail: string, n: nat, k: nat)
    requires ChangeParts(line, c, tail, n, k)
    ensures ChangeOf(line) == Some(c)
  {
    var rest := match c.kind
      case Added => "**Added**" + tail
      case Modified => "**Modified**" + tail
      case Removed => "**Removed**" + tail;
    hide IsBullet, TargetParts, Bullet, TargetOf, SkipWhile;
    BulletExactlyWhen(line, rest);
    KindExactlyWhen(rest, c.kind, tail);
    TargetExactlyWhen(tail, c.target, c.description);
    hide KindOf;
  }
}
