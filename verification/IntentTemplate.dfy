// The INTENT.md documents generateIntentMd writes for nothing and for one of everything, line by
// line (plugin.js).
module IntentTemplate {
  import opened Options
  import opened Strings
  import opened Decimals
  import opened IntentFormat

  lemma {:induction false} BlocksAppend(blocks: seq<Block>, b: Block)
    ensures AllBlockLines([]) == []
    ensures AllBlockLines(blocks + [b]) == AllBlockLines(blocks) + BlockLines(b)
  {
    assert Front(blocks + [b]) == blocks && Last(blocks + [b]) == b;
    hide BlockLines;
  }

  // The sections stand one after the other.
  lemma {:induction false} SixBlocks(a: Block, b: Block, c: Block, d: Block, e: Block, f: Block)
    ensures AllBlockLines([a, b, c, d, e, f])
            == BlockLines(a) + BlockLines(b) + BlockLines(c) + BlockLines(d) + BlockLines(e) + BlockLines(f)
  {
    hide AllBlockLines, BlockLines;
    BlocksAppend([], a);
    BlocksAppend([a], b);
    BlocksAppend([a, b], c);
    BlocksAppend([a, b, c], d);
    BlocksAppend([a, b, c, d], e);
    BlocksAppend([a, b, c, d, e], f);
    assert [] + [a] == [a] && [a] + [b] == [a, b] && [a, b] + [c] == [a, b, c];
    assert [a, b, c] + [d] == [a, b, c, d] && [a, b, c, d] + [e] == [a, b, c, d, e];
    assert [a, b, c, d, e] + [f] == [a, b, c, d, e, f];
    assert [] + BlockLines(a) == BlockLines(a);
  }

  const NOTHING := Intent(None, None, None, Objective("", ""), [], [], [], NO_CONSTRAINTS, Health([], ""), [])

  lemma {:induction false} NothingToWrite()
    ensures UserLines([]) == [] && OutcomeLines([]) == [] && ItemLines([]) == []
    ensures ConstraintLines(NO_CONSTRAINTS) == [] && HealthLines(Health([], "")) == []
    ensures ObjectiveLines(Objective("", "")) == [OBJECTIVE_COMMENT]
  {
    assert Trim("") == "";
    hide Trim, OBJECTIVE_COMMENT;
  }

  lemma {:induction false} FirstRevision(today: string)
    ensures HeaderLines(NOTHING, today)
            == ["**Revision:** " + "1", "**Created:** " + today, "**Updated:** " + today, ""]
  {
    assert Decimal(1) == "1" by {
      assert "" + "1" == "1";
    }
    hide Decimal;
  }

  // The wording of the placeholders.
  function Hint(tag: string): string {
    "<!-- "
    + (if tag == "objective" then "Single statement: " + "what this project does and why"
       else if tag == "users" then "Brief audience descriptions, " + "one per line"
       else if tag == "outcomes" then "Bullet list: - DO-XX [PX]: description"
       else if tag == "criteria" then "Bullet list: - SC-XX: launch gate"
       else if tag == "constraints" then
         "Sub-headers: ### Technical, ### " + ("Business, ### Timeline. " + "Items: - C-XX: constraint")
       else "Sub-headers: ### Quantitative " + ("(- HM-XX: metric) and " + "### Qualitative (prose)"))
    + " -->"
  }

  lemma {:induction false} HintsAre()
    ensures OBJECTIVE_COMMENT == Hint("objective") && USERS_COMMENT == Hint("users")
    ensures OUTCOMES_COMMENT == Hint("outcomes") && CRITERIA_COMMENT == Hint("criteria")
    ensures CONSTRAINTS_COMMENT == Hint("constraints") && HEALTH_COMMENT == Hint("health")
  {
    assert "users"[0] == 'u' && "objective"[1] == 'b' && "outcomes"[1] == 'u' && "criteria"[1] == 'r';
    assert "constraints"[1] == 'o' && "constraints"[0] == 'c' && "health"[0] == 'h';
  }

  // A section with these lines.
  function Between(tag: string, lines: seq<string>): seq<string> {
    ["<" + tag + ">"] + lines + ["</" + tag + ">", ""]
  }

  function Form(tag: string): seq<string> {
    Between(tag, [Hint(tag)])
  }

  lemma {:induction false} FormIs(tag: string)
    ensures BlockLines(Block(tag, [Hint(tag)])) == Form(tag)
  {
    hide Hint;
  }

  // A record of nothing is written as a form to fill in.
  lemma {:induction false} EmptyDocument(today: string)
    ensures Generated(NOTHING, today)
            == Join(["**Revision:** " + "1", "**Created:** " + today, "**Updated:** " + today, ""]
                    + (Form("objective") + Form("users") + Form("outcomes")
                       + Form("criteria") + Form("constraints") + Form("health")))
  {
    NothingToWrite();
    FirstRevision(today);
    HintsAre();
    hide ObjectiveLines, ConstraintLines, HealthLines, Join, HeaderLines, AllBlockLines, OpenTag, CloseTag, Hint,
         OBJECTIVE_COMMENT, USERS_COMMENT, OUTCOMES_COMMENT, CRITERIA_COMMENT, CONSTRAINTS_COMMENT, HEALTH_COMMENT,
         BlockLines, Form, UserLines, OutcomeLines, ItemLines;
    FormIs("objective");
    FormIs("users");
    FormIs("outcomes");
    FormIs("criteria");
    FormIs("constraints");
    FormIs("health");
    var a, b, c := Block("objective", [Hint("objective")]), Block("users", [Hint("users")]),
                   Block("outcomes", [Hint("outcomes")]);
    var d, e, f := Block("criteria", [Hint("criteria")]), Block("constraints", [Hint("constraints")]),
                   Block("health", [Hint("health")]);
    SixBlocks(a, b, c, d, e, f);
    assert Blocks(NOTHING) == [a, b, c, d, e, f];
  }

  // ---------- One of everything ----------

  predicate IsFull(d: Intent) {
    && d.revision.Some? && d.revision.value > 0
    && d.created.Some? && d.created.value != "" && d.updated.Some? && d.updated.value != ""
    && d.objective.statement != "" && d.objective.elaboration != ""
    && |d.users| == |d.outcomes| == |d.criteria| == 1
    && |d.constraints.technical| == |d.constraints.business| == |d.constraints.timeline| == 1
    && |d.health.quantitative| == 1 && Trim(d.health.qualitative) != ""
    && |d.history| == 1 && |d.history[0].changes| == 2
    && d.history[0].changes[0].kind == Added && d.history[0].changes[1].kind == Removed
    && d.history[0].changes[0].reason.Some? && d.history[0].changes[0].reason.value != ""
    && d.history[0].changes[1].reason.None?
  }

  function WrittenItem(i: Item): string { "- " + i.id + ": " + i.text }

  lemma {:induction false} OneItemLine(i: Item)
    ensures ItemLines([i]) == [WrittenItem(i)]
    ensures TopicLines("### Technical", [i]) == ["### Technical", WrittenItem(i), ""]
    ensures TopicLines("### Business", [i]) == ["### Business", WrittenItem(i), ""]
    ensures TopicLines("### Timeline", [i]) == ["### Timeline", WrittenItem(i), ""]
    ensures TopicLines("### Quantitative", [i]) == ["### Quantitative", WrittenItem(i), ""]
  {
    assert Front([i]) == [] && ItemLines([]) == [];
  }

  function WrittenChanges(a: Change, b: Change, reason: string): seq<string> {
    ["- **" + "Added" + "** " + a.target + ": " + a.description, "  - Reason: " + reason,
     "- **" + "Removed" + "** " + b.target + ": " + b.description]
  }

  lemma {:induction false} TwoChangeLines(a: Change, b: Change)
    requires a.kind == Added && b.kind == Removed && a.reason.Some? && a.reason.value != "" && b.reason.None?
    ensures ChangeLines([a, b]) == WrittenChanges(a, b, a.reason.value)
  {
    assert Front([a, b]) == [a] && Front([a]) == [];
    assert ChangeLines([]) == [];
    assert ChangeLines([a]) == [ChangeLine(a)] + ReasonLines(a);
  }

  lemma {:induction false} HeaderIs(d: Intent, today: string)
    requires IsFull(d)
    ensures HeaderLines(d, today)
            == ["**Revision:** " + Decimal(d.revision.value), "**Created:** " + d.created.value,
                "**Updated:** " + d.updated.value, ""]
  {
    hide Decimal;
  }

  lemma {:induction false} FullLists(d: Intent)
    requires IsFull(d)
    ensures ObjectiveLines(d.objective) == [d.objective.statement, "", d.objective.elaboration]
    ensures UserLines(d.users) == ["- " + d.users[0]]
    ensures
      var o := d.outcomes[0];
      OutcomeLines(d.outcomes) == ["- " + o.id + " [" + o.priority + "]: " + o.text]
    ensures ItemLines(d.criteria) == [WrittenItem(d.criteria[0])]
  {
    assert d.users == [d.users[0]] && d.outcomes == [d.outcomes[0]] && d.criteria == [d.criteria[0]];
    OneItemLine(d.criteria[0]);
    hide ItemLines, WrittenItem;
    assert Front(d.users) == [] && Front(d.outcomes) == [];
    assert UserLines([]) == [] && OutcomeLines([]) == [];
  }

  lemma {:induction false} FullTopics(d: Intent)
    requires IsFull(d)
    ensures ConstraintLines(d.constraints)
            == ["### Technical", WrittenItem(d.constraints.technical[0]), ""]
               + ["### Business", WrittenItem(d.constraints.business[0]), ""]
               + ["### Timeline", WrittenItem(d.constraints.timeline[0]), ""]
    ensures HealthLines(d.health)
            == ["### Quantitative", WrittenItem(d.health.quantitative[0]), ""]
               + ["### Qualitative", d.health.qualitative]
  {
    var c := d.constraints;
    assert c.technical == [c.technical[0]] && c.business == [c.business[0]] && c.timeline == [c.timeline[0]];
    assert d.health.quantitative == [d.health.quantitative[0]];
    OneItemLine(c.technical[0]);
    OneItemLine(c.business[0]);
    OneItemLine(c.timeline[0]);
    OneItemLine(d.health.quantitative[0]);
    hide TopicLines, WrittenItem, Trim;
  }

  lemma {:induction false} FullHistory(e: Entry)
    requires |e.changes| == 2 && e.changes[0].kind == Added && e.changes[1].kind == Removed
    requires e.changes[0].reason.Some? && e.changes[0].reason.value != "" && e.changes[1].reason.None?
    ensures HistoryLines([e])
            == ["### " + e.milestone + " " + "\U{2014}" + " " + e.date]
               + WrittenChanges(e.changes[0], e.changes[1], e.changes[0].reason.value) + [""]
  {
    assert e.changes == [e.changes[0], e.changes[1]];
    TwoChangeLines(e.changes[0], e.changes[1]);
    hide ChangeLines, WrittenChanges;
    assert Front([e]) == [] && HistoryLines([]) == [];
    assert [EM_DASH] == "\U{2014}";
  }

  lemma {:induction false} FullBlocks(d: Intent)
    requires IsFull(d)
    ensures Blocks(d) == [
              Block("objective", ObjectiveLines(d.objective)), Block("users", UserLines(d.users)),
              Block("outcomes", OutcomeLines(d.outcomes)), Block("criteria", ItemLines(d.criteria)),
              Block("constraints", ConstraintLines(d.constraints)), Block("health", HealthLines(d.health)),
              Block("history", HistoryLines(d.history))]
  {
    FullLists(d);
    FullTopics(d);
    hide UserLines, OutcomeLines, ItemLines, ConstraintLines, HealthLines, ObjectiveLines, HistoryLines, Trim,
         WrittenItem, USERS_COMMENT, OUTCOMES_COMMENT, CRITERIA_COMMENT, CONSTRAINTS_COMMENT, HEALTH_COMMENT;
  }

  lemma {:induction false} SevenBlocks(a: Block, b: Block, c: Block, d: Block, e: Block, f: Block, g: Block)
    ensures AllBlockLines([a, b, c, d, e, f, g])
            == Between(a.tag, a.lines) + Between(b.tag, b.lines) + Between(c.tag, c.lines) + Between(d.tag, d.lines)
               + Between(e.tag, e.lines) + Between(f.tag, f.lines) + Between(g.tag, g.lines)
  {
    SixBlocks(a, b, c, d, e, f);
    BlocksAppend([a, b, c, d, e, f], g);
    assert [a, b, c, d, e, f] + [g] == [a, b, c, d, e, f, g];
    BetweenIs(a);
    BetweenIs(b);
    BetweenIs(c);
    BetweenIs(d);
    BetweenIs(e);
    BetweenIs(f);
    BetweenIs(g);
    hide AllBlockLines, BlockLines, Between;
  }

  lemma {:induction false} BetweenIs(b: Block)
    ensures BlockLines(b) == Between(b.tag, b.lines)
  {
  }

  // A full record is written section by section, in this order and with these words.
  lemma {:induction false} FullDocument(d: Intent, today: string)
    requires IsFull(d)
    ensures
      var o, c, h, e := d.outcomes[0], d.constraints, d.health, d.history[0];
      Generated(d, today)
      == Join(["**Revision:** " + Decimal(d.revision.value), "**Created:** " + d.created.value,
               "**Updated:** " + d.updated.value, ""]
              + (Between("objective", [d.objective.statement, "", d.objective.elaboration])
                 + Between("users", ["- " + d.users[0]])
                 + Between("outcomes", ["- " + o.id + " [" + o.priority + "]: " + o.text])
                 + Between("criteria", [WrittenItem(d.criteria[0])])
                 + Between("constraints", ["### Technical", WrittenItem(c.technical[0]), ""]
                                          + ["### Business", WrittenItem(c.business[0]), ""]
                                          + ["### Timeline", WrittenItem(c.timeline[0]), ""])
                 + Between("health", ["### Quantitative", WrittenItem(h.quantitative[0]), ""]
                                     + ["### Qualitative", h.qualitative])
                 + Between("history", ["### " + e.milestone + " " + "\U{2014}" + " " + e.date]
                                      + WrittenChanges(e.changes[0], e.changes[1], e.changes[0].reason.value)
                                      + [""])))
  {
    HeaderIs(d, today);
    FullLists(d);
    FullTopics(d);
    FullHistory(d.history[0]);
    FullBlocks(d);
    assert d.history == [d.history[0]];
    hide Decimal, Join, HeaderLines, WrittenItem, WrittenChanges, Between, HistoryLines, UserLines,
         OutcomeLines, ItemLines, ConstraintLines, HealthLines, ObjectiveLines, AllBlockLines, Trim;
    var blocks := Blocks(d);
    hide Blocks;
    SevenBlocks(blocks[0], blocks[1], blocks[2], blocks[3], blocks[4], blocks[5], blocks[6]);
    assert blocks == [blocks[0], blocks[1], blocks[2], blocks[3], blocks[4], blocks[5], blocks[6]];
  }
}
