// The INTENT.md document (plugin.js, parseIntentMd and generateIntentMd): its record, how it
// is read, line by line, and how it is written.
module IntentFormat {
  import opened Options
  import opened Strings
  import opened Decimals
  import opened Scanning

  datatype Objective = Objective(statement: string, elaboration: string)

  datatype Outcome = Outcome(id: string, priority: string, text: string)

  datatype Item = Item(id: string, text: string)

  datatype Constraints = Constraints(technical: seq<Item>, business: seq<Item>, timeline: seq<Item>)

  datatype Health = Health(quantitative: seq<Item>, qualitative: string)

  datatype ChangeKind = Added | Modified | Removed

  datatype Change = Change(kind: ChangeKind, target: string, description: string, reason: Option<string>)

  datatype Entry = Entry(milestone: string, date: string, changes: seq<Change>)

  datatype Intent = Intent(
    revision: Option<nat>, created: Option<string>, updated: Option<string>, objective: Objective,
    users: seq<string>, outcomes: seq<Outcome>, criteria: seq<Item>, constraints: Constraints,
    health: Health, history: seq<Entry>)

  // ---------- Reading one line ----------

  predicate IsVisible(c: char) { !IsSpace(c) }

  // The run of such characters after a label that stands at position i.
  function ValueAfter(text: string, title: string, p: char -> bool, i: nat): Option<string> {
    if StartsAt(text, i, title) && Run(p, DropSpaces(text[i + |title|..])).Some? then
      Some(Run(p, DropSpaces(text[i + |title|..])).value.text)
    else None
  }

  // The value after the first label that has one.
  function LabelValue(text: string, title: string, p: char -> bool, i: nat): Option<string>
    requires i <= |text|
    decreases |text| - i
  {
    if ValueAfter(text, title, p, i).Some? then ValueAfter(text, title, p, i)
    else if i == |text| then None
    else LabelValue(text, title, p, i + 1)
  }

  function OpenTag(tag: string): string { "<" + tag + ">" }

  function CloseTag(tag: string): string { "</" + tag + ">" }

  // extractSection: from the first opening tag to the first closing tag after it.
  function Section(content: string, tag: string): Option<string> {
    match Find(content, OpenTag(tag), 0)
    case None => None
    case Some(i) =>
      var rest := content[i + |OpenTag(tag)|..];
      match Find(rest, CloseTag(tag), 0)
      case None => None
      case Some(j) => Some(Trim(rest[..j]))
  }

  // A missing section is read like an empty one.
  function SectionLines(content: string, tag: string): seq<string> {
    Split(if Section(content, tag).Some? then Section(content, tag).value else "")
  }

  function UserOf(line: string): Option<string> {
    match Bullet(line)
    case None => None
    case Some(rest) => if Trim(rest) != "" then Some(Trim(rest)) else None
  }

  // An identifier: the prefix and at least one digit.
  function Identifier(s: string, prefix: string): Option<Token> {
    match After(s, prefix)
    case None => None
    case Some(rest) =>
      match Run(IsDigit, rest)
      case None => None
      case Some(digits) => Some(Token(prefix + digits.text, digits.rest))
  }

  // - ID: text
  function ItemOf(prefix: string, line: string): Option<Item> {
    match Bullet(line)
    case None => None
    case Some(rest) =>
      match Identifier(rest, prefix)
      case None => None
      case Some(id) =>
        match After(id.rest, ":")
        case None => None
        case Some(tail) =>
          match RestOfLine(tail)
          case None => None
          case Some(text) => Some(Item(id.text, text))
  }

  function PriorityOf(s: string): Option<Token> {
    if |s| >= 2 && s[0] == 'P' && '1' <= s[1] <= '3' then Some(Token(s[..2], s[2..])) else None
  }

  function BracketOf(s: string): Option<Token> {
    match SomeSpaces(s)
    case None => None
    case Some(rest) =>
      match After(rest, "[")
      case None => None
      case Some(inner) =>
        match PriorityOf(inner)
        case None => None
        case Some(priority) =>
          match After(priority.rest, "]:")
          case None => None
          case Some(tail) => Some(Token(priority.text, tail))
  }

  // - DO-n [Pn]: text
  function OutcomeOf(line: string): Option<Outcome> {
    match Bullet(line)
    case None => None
    case Some(rest) =>
      match Identifier(rest, "DO-")
      case None => None
      case Some(id) =>
        match BracketOf(id.rest)
        case None => None
        case Some(priority) =>
          match RestOfLine(priority.rest)
          case None => None
          case Some(text) => Some(Outcome(id.text, priority.text, text))
  }

  predicate StartsLower(s: string, word: string) {
    |word| <= |s| && forall i :: 0 <= i < |word| ==> Lower(s[i]) == word[i]
  }

  // A ### header whose title starts with the word, in any case.
  predicate IsHeader(line: string, word: string) {
    After(line, "###").Some? && StartsLower(DropSpaces(After(line, "###").value), word)
  }

  predicate IsDotted(c: char) { IsDigit(c) || c == '.' }

  predicate IsDash(c: char) { c == '-' || c == '\U{2013}' || c == '\U{2014}' }

  predicate IsDate(s: string) {
    |s| == 10 && forall i :: 0 <= i < 10 ==> if i == 4 || i == 7 then s[i] == '-' else IsDigit(s[i])
  }

  function VersionOf(s: string): Option<Token> {
    match After(s, "v")
    case None => None
    case Some(rest) =>
      match Run(IsDotted, rest)
      case None => None
      case Some(number) => Some(Token("v" + number.text, number.rest))
  }

  function DashedDate(s: string): Option<string> {
    match SomeSpaces(s)
    case None => None
    case Some(rest) =>
      if rest == "" || !IsDash(rest[0]) then None
      else
        match SomeSpaces(rest[1..])
        case None => None
        case Some(tail) => if |tail| >= 10 && IsDate(tail[..10]) then Some(tail[..10]) else None
  }

  // ### v1.2 - 2024-01-31, with any of three dashes
  function MilestoneOf(line: string): Option<Entry> {
    match After(line, "###")
    case None => None
    case Some(title) =>
      match SomeSpaces(title)
      case None => None
      case Some(rest) =>
        match VersionOf(rest)
        case None => None
        case Some(version) =>
          match DashedDate(version.rest)
          case None => None
          case Some(date) => Some(Entry(version.text, date, []))
  }

  function KindText(k: ChangeKind): string {
    match k
    case Added => "Added"
    case Modified => "Modified"
    case Removed => "Removed"
  }

  function KindOf(s: string): Option<(ChangeKind, string)> {
    if After(s, "**Added**").Some? then Some((Added, After(s, "**Added**").value))
    else if After(s, "**Modified**").Some? then Some((Modified, After(s, "**Modified**").value))
    else if After(s, "**Removed**").Some? then Some((Removed, After(s, "**Removed**").value))
    else None
  }

  // The shortest target of at least n characters that a colon and a description follow.
  function TargetFrom(s: string, n: nat): Option<Token>
    requires n <= |s| && forall i :: 0 <= i < n ==> IsChar(s[i])
    decreases |s| - n
  {
    if n == |s| then None
    else if n > 0 && s[n] == ':' && RestOfLine(s[n + 1..]).Some? then
      Some(Token(s[..n], RestOfLine(s[n + 1..]).value))
    else if IsChar(s[n]) then TargetFrom(s, n + 1)
    else None
  }

  // White space before the target, n characters of it; fewer if that leads nowhere.
  function TargetOf(s: string, n: nat): Option<Token>
    requires n <= |s|
    decreases n
  {
    if n == 0 then None
    else if TargetFrom(s[n..], 0).Some? then TargetFrom(s[n..], 0)
    else TargetOf(s, n - 1)
  }

  // - **Added** target: description
  function ChangeOf(line: string): Option<Change> {
    match Bullet(line)
    case None => None
    case Some(rest) =>
      match KindOf(rest)
      case None => None
      case Some((kind, tail)) =>
        match TargetOf(tail, SkipWhile(IsSpace, tail, 0))
        case None => None
        case Some(target) => Some(Change(kind, target.text, target.rest, None))
  }

  // Indented: - Reason: text
  function ReasonOf(line: string): Option<string> {
    if line == "" || !IsSpace(line[0]) then None
    else
      match Bullet(line)
      case None => None
      case Some(rest) =>
        match After(rest, "Reason:")
        case None => None
        case Some(tail) => RestOfLine(tail)
  }

  // ---------- Reading a section ----------

  function ReadObjective(raw: string): Objective {
    if raw == "" then Objective("", "")
    else
      var lines := Split(raw);
      Objective(Trim(lines[0]), Trim(Join(lines[1..])))
  }

  function Front<T>(s: seq<T>): seq<T>
    requires s != []
  {
    s[..|s| - 1]
  }

  function Last<T>(s: seq<T>): T
    requires s != []
  {
    s[|s| - 1]
  }

  function Push<T>(s: seq<T>, x: Option<T>): seq<T> {
    if x.Some? then s + [x.value] else s
  }

  function ReadUsers(lines: seq<string>): seq<string> {
    if lines == [] then [] else Push(ReadUsers(Front(lines)), UserOf(Last(lines)))
  }

  function ReadOutcomes(lines: seq<string>): seq<Outcome> {
    if lines == [] then [] else Push(ReadOutcomes(Front(lines)), OutcomeOf(Last(lines)))
  }

  function ReadItems(prefix: string, lines: seq<string>): seq<Item> {
    if lines == [] then [] else Push(ReadItems(prefix, Front(lines)), ItemOf(prefix, Last(lines)))
  }

  datatype Topic = NoTopic | Technical | Business | Timeline

  datatype ConstraintState = ConstraintState(topic: Topic, items: Constraints)

  function AddConstraint(c: Constraints, topic: Topic, item: Option<Item>): Constraints {
    match topic
    case NoTopic => c
    case Technical => c.(technical := Push(c.technical, item))
    case Business => c.(business := Push(c.business, item))
    case Timeline => c.(timeline := Push(c.timeline, item))
  }

  function ConstraintStep(s: ConstraintState, line: string): ConstraintState {
    if IsHeader(line, "technical") then s.(topic := Technical)
    else if IsHeader(line, "business") then s.(topic := Business)
    else if IsHeader(line, "timeline") then s.(topic := Timeline)
    else s.(items := AddConstraint(s.items, s.topic, ItemOf("C-", line)))
  }

  const NO_CONSTRAINTS := Constraints([], [], [])

  function ConstraintsAfter(s: ConstraintState, lines: seq<string>): ConstraintState {
    if lines == [] then s else ConstraintStep(ConstraintsAfter(s, Front(lines)), Last(lines))
  }

  datatype HealthPart = NoPart | Quantitative | Qualitative

  datatype HealthState = HealthState(part: HealthPart, quantitative: seq<Item>, lines: seq<string>)

  function HealthStep(s: HealthState, line: string): HealthState {
    if IsHeader(line, "quantitative") then s.(part := Quantitative)
    else if IsHeader(line, "qualitative") then s.(part := Qualitative)
    else
      match s.part
      case NoPart => s
      case Quantitative => s.(quantitative := Push(s.quantitative, ItemOf("HM-", line)))
      case Qualitative => if Trim(line) != "" then s.(lines := s.lines + [Trim(line)]) else s
  }

  function HealthAfter(s: HealthState, lines: seq<string>): HealthState {
    if lines == [] then s else HealthStep(HealthAfter(s, Front(lines)), Last(lines))
  }

  datatype HistoryState = HistoryState(history: seq<Entry>, entry: Option<Entry>, change: Option<Change>)

  // The change in progress goes into its entry.
  function CloseChange(s: HistoryState): HistoryState {
    if s.change.Some? && s.entry.Some? then
      s.(entry := Some(s.entry.value.(changes := s.entry.value.changes + [s.change.value])))
    else s
  }

  function HistoryStep(s: HistoryState, line: string): HistoryState {
    if MilestoneOf(line).Some? then
      HistoryState(Push(s.history, CloseChange(s).entry), MilestoneOf(line), None)
    else if ChangeOf(line).Some? && s.entry.Some? then CloseChange(s).(change := ChangeOf(line))
    else if ReasonOf(line).Some? && s.change.Some? then
      s.(change := Some(s.change.value.(reason := ReasonOf(line))))
    else s
  }

  function HistoryAfter(s: HistoryState, lines: seq<string>): HistoryState {
    if lines == [] then s else HistoryStep(HistoryAfter(s, Front(lines)), Last(lines))
  }

  function ReadHistory(lines: seq<string>): seq<Entry> {
    var s := HistoryAfter(HistoryState([], None, None), lines);
    Push(s.history, CloseChange(s).entry)
  }

  function ReadHealth(lines: seq<string>): Health {
    var s := HealthAfter(HealthState(NoPart, [], []), lines);
    Health(s.quantitative, Join(s.lines))
  }

  // parseIntentMd
  function Parsed(content: string): Intent {
    Intent(
      match LabelValue(content, "**Revision:**", IsDigit, 0)
      case Some(digits) => if ValueOf(digits) >= 0 then Some(ValueOf(digits)) else None
      case None => None,
      LabelValue(content, "**Created:**", IsVisible, 0),
      LabelValue(content, "**Updated:**", IsVisible, 0),
      ReadObjective(if Section(content, "objective").Some? then Section(content, "objective").value else ""),
      ReadUsers(SectionLines(content, "users")),
      ReadOutcomes(SectionLines(content, "outcomes")),
      ReadItems("SC-", SectionLines(content, "criteria")),
      ConstraintsAfter(ConstraintState(NoTopic, NO_CONSTRAINTS), SectionLines(content, "constraints")).items,
      ReadHealth(SectionLines(content, "health")),
      ReadHistory(SectionLines(content, "history")))
  }

  // ---------- Writing ----------

  function OrToday(date: Option<string>, today: string): string {
    if date.Some? && date.value != "" then date.value else today
  }

  function HeaderLines(d: Intent, today: string): seq<string> {
    ["**Revision:** " + Decimal(if d.revision.Some? && d.revision.value != 0 then d.revision.value else 1),
     "**Created:** " + OrToday(d.created, today),
     "**Updated:** " + OrToday(d.updated, today),
     ""]
  }

  function Comment(text: string): string {
    "<!-- " + text + " -->"
  }

  // What stands in an empty section.
  const OBJECTIVE_COMMENT := Comment("Single statement: " + "what this project does and why")
  const USERS_COMMENT := Comment("Brief audience descriptions, " + "one per line")
  const OUTCOMES_COMMENT := Comment("Bullet list: - DO-XX [PX]: description")
  const CRITERIA_COMMENT := Comment("Bullet list: - SC-XX: launch gate")
  const CONSTRAINTS_COMMENT :=
    Comment("Sub-headers: ### Technical, ### " + ("Business, ### Timeline. " + "Items: - C-XX: constraint"))
  const HEALTH_COMMENT :=
    Comment("Sub-headers: ### Quantitative " + ("(- HM-XX: metric) and " + "### Qualitative (prose)"))

  function ObjectiveLines(o: Objective): seq<string> {
    if o.statement == "" then [OBJECTIVE_COMMENT]
    else if o.elaboration == "" then [o.statement]
    else [o.statement, "", o.elaboration]
  }

  function UserLines(users: seq<string>): seq<string> {
    if users == [] then [] else UserLines(Front(users)) + ["- " + Last(users)]
  }

  function OutcomeLine(o: Outcome): string {
    "- " + o.id + " [" + o.priority + "]: " + o.text
  }

  function OutcomeLines(outcomes: seq<Outcome>): seq<string> {
    if outcomes == [] then [] else OutcomeLines(Front(outcomes)) + [OutcomeLine(Last(outcomes))]
  }

  function ItemLine(i: Item): string {
    "- " + i.id + ": " + i.text
  }

  function ItemLines(items: seq<Item>): seq<string> {
    if items == [] then [] else ItemLines(Front(items)) + [ItemLine(Last(items))]
  }

  function OrElse(lines: seq<string>, placeholder: string): seq<string> {
    if lines == [] then [placeholder] else lines
  }

  function TopicLines(header: string, items: seq<Item>): seq<string> {
    if items == [] then [] else [header] + ItemLines(items) + [""]
  }

  function ConstraintLines(c: Constraints): seq<string> {
    TopicLines("### Technical", c.technical) + TopicLines("### Business", c.business)
    + TopicLines("### Timeline", c.timeline)
  }

  function HealthLines(h: Health): seq<string> {
    TopicLines("### Quantitative", h.quantitative)
    + (if Trim(h.qualitative) != "" then ["### Qualitative", h.qualitative] else [])
  }

  function ReasonLines(c: Change): seq<string> {
    if c.reason.Some? && c.reason.value != "" then ["  - Reason: " + c.reason.value] else []
  }

  function ChangeLine(c: Change): string {
    "- **" + KindText(c.kind) + "** " + c.target + ": " + c.description
  }

  function ChangeLines(changes: seq<Change>): seq<string> {
    if changes == [] then []
    else ChangeLines(Front(changes)) + ([ChangeLine(Last(changes))] + ReasonLines(Last(changes)))
  }

  const EM_DASH := '\U{2014}'

  function MilestoneLine(e: Entry): string {
    "### " + e.milestone + " " + [EM_DASH] + " " + e.date
  }

  function EntryLines(e: Entry): seq<string> {
    [MilestoneLine(e)] + ChangeLines(e.changes) + [""]
  }

  function HistoryLines(history: seq<Entry>): seq<string> {
    if history == [] then [] else HistoryLines(Front(history)) + EntryLines(Last(history))
  }

  // A section: its tags around its lines, and an empty line.
  datatype Block = Block(tag: string, lines: seq<string>)

  function BlockLines(b: Block): seq<string> {
    [OpenTag(b.tag)] + b.lines + [CloseTag(b.tag), ""]
  }

  function Blocks(d: Intent): seq<Block> {
    [Block("objective", ObjectiveLines(d.objective)),
     Block("users", OrElse(UserLines(d.users), USERS_COMMENT)),
     Block("outcomes", OrElse(OutcomeLines(d.outcomes), OUTCOMES_COMMENT)),
     Block("criteria", OrElse(ItemLines(d.criteria), CRITERIA_COMMENT)),
     Block("constraints", OrElse(ConstraintLines(d.constraints), CONSTRAINTS_COMMENT)),
     Block("health", OrElse(HealthLines(d.health), HEALTH_COMMENT))]
    + (if d.history == [] then [] else [Block("history", HistoryLines(d.history))])
  }

  function AllBlockLines(blocks: seq<Block>): seq<string> {
    if blocks == [] then [] else AllBlockLines(Front(blocks)) + BlockLines(Last(blocks))
  }

  // generateIntentMd
  function Generated(d: Intent, today: string): string {
    Join(HeaderLines(d, today) + AllBlockLines(Blocks(d)))
  }
}
