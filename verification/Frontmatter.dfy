// What a parse of printed frontmatter returns (plugin.js, reconstructFrontmatter and
// spliceFrontmatter against extractFrontmatter): exactly which trees come back as they were,
// and exactly when the text after the frontmatter does.
module Frontmatter {
  import opened Strings
  import opened FrontmatterParser
  import opened FrontmatterPrinter
  import opened FrontmatterLines

  // ---------- The printed lines as the parser classifies them ----------

  function ItemShapes(items: seq<string>, level: nat): (lines: seq<Line>)
    ensures |lines| == |items|
  {
    seq(|items|, i requires 0 <= i < |items| => ItemShape(2 * level + 2, PrintItem(items[i], level)))
  }

  function Shape(e: Entry, level: nat): seq<Line>
    decreases e, 0
  {
    match e.tree
    case Scalar(text) => [KeyValue(2 * level, e.key, ReadText(PrintScalar(text, level)))]
    case Items(items) =>
      if items == [] then [KeyValue(2 * level, e.key, ReadText("[]"))]
      else if IsInline(items, level) then [KeyValue(2 * level, e.key, ReadText(Brackets(JoinComma(items))))]
      else [KeyValue(2 * level, e.key, "")] + ItemShapes(items, level)
    case Fields(entries) =>
      if level >= 2 then [KeyValue(2 * level, e.key, ReadText("[object Object]"))]
      else [KeyValue(2 * level, e.key, "")] + Shapes(entries, level + 1)
  }

  function Shapes(entries: seq<Entry>, level: nat): seq<Line>
    decreases entries
  {
    if entries == [] then [] else Shape(entries[0], level) + Shapes(entries[1..], level)
  }

  // Every key is one the pattern takes, and none is set twice.
  ghost predicate HaveKeys(entries: seq<Entry>)
    decreases entries
  {
    entries == [] ||
    (var e := entries[0];
     && IsKey(e.key) && (forall i :: 1 <= i < |entries| ==> entries[i].key != e.key)
     && (e.tree.Fields? ==> HaveKeys(e.tree.entries)) && HaveKeys(entries[1..]))
  }

  lemma {:induction false} ReadableHaveKeys(entries: seq<Entry>)
    requires AreReadable(ToFields(entries))
    ensures HaveKeys(entries)
    decreases entries
  {
    if entries != [] {
      ReadableUncons(entries);
      if entries[0].tree.Fields? {
        ReadableHaveKeys(entries[0].tree.entries);
      }
      ReadableHaveKeys(entries[1..]);
    }
    hide IsKey, ToFields, AreReadable;
  }

  lemma {:induction false} ClassifyConcat(a: seq<string>, b: seq<string>)
    ensures ClassifyAll(a + b) == ClassifyAll(a) + ClassifyAll(b)
  {
    hide Classify;
  }

  lemma {:induction false} ClassifyOne(line: string)
    ensures ClassifyAll([line]) == [Classify(line)]
  {
    hide Classify;
  }

  lemma {:induction false} OneLineReads(e: Entry, level: nat, printed: string)
    requires IsKey(e.key)
    ensures ClassifyAll([KeyLine(2 * level, e.key, printed)]) == [KeyValue(2 * level, e.key, ReadText(printed))]
  {
    KeyLineReads(2 * level, e.key, printed);
    ClassifyOne(KeyLine(2 * level, e.key, printed));
    hide Classify, ClassifyAll, KeyLine, IsKey, ReadText;
  }

  lemma {:induction false} HeadThenReads(e: Entry, level: nat, lines: seq<string>)
    requires IsKey(e.key)
    ensures ClassifyAll([BareKeyLine(2 * level, e.key)] + lines)
            == [KeyValue(2 * level, e.key, "")] + ClassifyAll(lines)
  {
    hide Classify, ClassifyAll, BareKeyLine, IsKey;
    BareKeyReads(2 * level, e.key);
    ClassifyOne(BareKeyLine(2 * level, e.key));
    ClassifyConcat([BareKeyLine(2 * level, e.key)], lines);
  }

  lemma {:induction false} ItemsRead(items: seq<string>, level: nat)
    ensures ClassifyAll(ItemLines(items, level)) == ItemShapes(items, level)
  {
    hide Classify, ItemLine, PrintItem, ItemShape;
    forall i | 0 <= i < |items|
      ensures Classify(ItemLines(items, level)[i]) == ItemShape(2 * level + 2, PrintItem(items[i], level))
    {
      ItemLineReads(2 * level + 2, PrintItem(items[i], level));
    }
  }

  // Every printed line is read as what it was printed from, whatever its text.
  lemma {:induction false} EntryReads(e: Entry, level: nat)
    requires IsKey(e.key) && (e.tree.Fields? ==> HaveKeys(e.tree.entries))
    ensures ClassifyAll(PrintEntry(e, level)) == Shape(e, level)
    decreases e, 0
  {
    hide Classify, KeyLine, BareKeyLine, ClassifyAll, IsKey, ReadText, ItemLines, ItemShapes, IsInline, JoinComma;
    match e.tree
    case Scalar(text) =>
      OneLineReads(e, level, PrintScalar(text, level));
    case Items(items) =>
      if items == [] {
        OneLineReads(e, level, "[]");
      } else if IsInline(items, level) {
        OneLineReads(e, level, Brackets(JoinComma(items)));
      } else {
        HeadThenReads(e, level, ItemLines(items, level));
        ItemsRead(items, level);
      }
    case Fields(entries) =>
      if level >= 2 {
        OneLineReads(e, level, "[object Object]");
      } else {
        HeadThenReads(e, level, PrintEntries(entries, level + 1));
        EntriesRead(entries, level + 1);
      }
  }

  lemma {:induction false} EntriesRead(entries: seq<Entry>, level: nat)
    requires HaveKeys(entries)
    ensures ClassifyAll(PrintEntries(entries, level)) == Shapes(entries, level)
    decreases entries
  {
    if entries != [] {
      EntryReads(entries[0], level);
      EntriesRead(entries[1..], level);
      hide Classify, ClassifyAll, PrintEntry, Shape, HaveKeys;
      ClassifyConcat(PrintEntry(entries[0], level), PrintEntries(entries[1..], level));
    }
  }

  // ---------- Building the tree on the stack ----------

  lemma {:induction false} ApplyConcat(stack: seq<Frame>, a: seq<Line>, b: seq<Line>)
    requires IsStack(stack)
    ensures ApplyAll(stack, a + b) == ApplyAll(ApplyAll(stack, a), b)
    decreases |a|
  {
    hide Apply, IsStack;
    if a == [] {
      assert a + b == b;
    } else {
      assert (a + b)[0] == a[0] && (a + b)[1..] == a[1..] + b;
      ApplyConcat(Apply(stack, a[0]), a[1..], b);
    }
  }

  // Popping to one indentation and then to a smaller one.
  lemma {:induction false} PopPop(stack: seq<Frame>, a: int, b: int)
    requires IsStack(stack) && b <= a
    ensures PopTo(PopTo(stack, a), b) == PopTo(stack, b)
    decreases |stack|
  {
    hide Close;
    if |stack| > 1 && a <= stack[|stack| - 1].indent {
      PopPop(Close(stack), a, b);
    }
  }

  // A stack on which lines at `indent` go to the object on top, which has these fields.
  ghost predicate IsBase(base: seq<Frame>, indent: int, fields: seq<Field>) {
    && IsStack(base) && base[|base| - 1].indent < indent
    && base[|base| - 1].obj == Node(false, [], fields)
  }

  function WithFields(base: seq<Frame>, fields: seq<Field>): seq<Frame>
    requires IsStack(base)
  {
    Replace(base, Node(false, [], fields))
  }

  // The stack after "key:": the property holds an empty object, and its frame is on top.
  function OpenChild(base: seq<Frame>, fields: seq<Field>, key: string, indent: int): seq<Frame>
    requires IsStack(base)
  {
    WithFields(base, fields + [Field(key, EMPTY_OBJECT)]) + [Frame(key, EMPTY_OBJECT, indent)]
  }

  ghost predicate AreNewKeys(fields: seq<Field>, entries: seq<Entry>) {
    forall j :: 0 <= j < |entries| ==> IsNewKey(fields, entries[j].key)
  }

  lemma {:induction false} SetNewField(fields: seq<Field>, key: string, value: Value)
    requires IsNewKey(fields, key)
    ensures SetField(fields, key, value) == fields + [Field(key, value)]
  {
    if fields != [] {
      SetNewField(fields[1..], key, value);
    }
  }

  lemma {:induction false} SetLastField(fields: seq<Field>, key: string, was: Value, value: Value)
    requires IsNewKey(fields, key)
    ensures SetField(fields + [Field(key, was)], key, value) == fields + [Field(key, value)]
  {
    var longer := fields + [Field(key, was)];
    if fields != [] {
      assert longer[1..] == fields[1..] + [Field(key, was)];
      SetLastField(fields[1..], key, was, value);
    } else {
      assert longer[1..] == [];
    }
  }

  // Closing the frame of a property that was set last.
  lemma {:induction false} CloseChild(base: seq<Frame>, fields: seq<Field>, key: string, was: Value, child: Value,
      indent: nat)
    requires IsBase(base, indent, fields) && child.Node?
    requires IsNewKey(fields, key) && key != PROTO
    ensures var open := WithFields(base, fields + [Field(key, was)]) + [Frame(key, child, indent)];
      IsStack(open) && PopTo(open, indent) == WithFields(base, fields + [Field(key, child)])
  {
    var below := WithFields(base, fields + [Field(key, was)]);
    var open := below + [Frame(key, child, indent)];
    SetLastField(fields, key, was, child);
    assert open[..|open| - 2] == base[..|base| - 1];
    assert open[|open| - 2] == below[|below| - 1];
    assert Close(open) == WithFields(base, fields + [Field(key, child)]);
  }

  // A line that sets one property, if need be through a frame that stays empty.
  lemma {:induction false} LeafBuilds(stack: seq<Frame>, base: seq<Frame>, fields: seq<Field>, indent: nat, key: string,
      value: string)
    requires IsStack(stack) && IsBase(base, indent, fields) && PopTo(stack, indent) == base
    requires IsNewKey(fields, key) && key != PROTO
    ensures var built := ApplyAll(stack, [KeyValue(indent, key, value)]);
      PopTo(built, indent) == WithFields(base, fields + [Field(key, ReadScalar(value))])
  {
    SetNewField(fields, key, ReadScalar(value));
    hide StripQuotes, InlineList, IsBracketed;
    var line := KeyValue(indent, key, value);
    assert ApplyAll(Apply(stack, line), [line][1..]) == Apply(stack, line);
    if value == "" || value == "[" {
      CloseChild(base, fields, key, ReadScalar(value), ReadScalar(value), indent);
    }
  }

  // "key:" opens a frame for an object that is still empty.
  lemma {:induction false} BareKeyOpens(stack: seq<Frame>, base: seq<Frame>, fields: seq<Field>, indent: nat,
      key: string, rest: seq<Line>)
    requires IsStack(stack) && IsBase(base, indent, fields) && PopTo(stack, indent) == base
    requires IsNewKey(fields, key) && key != PROTO
    ensures var open := OpenChild(base, fields, key, indent);
      IsStack(open) && PopTo(open, indent + 2) == open && IsBase(open, indent + 2, []) &&
      ApplyAll(stack, [KeyValue(indent, key, "")] + rest) == ApplyAll(open, rest)
  {
    SetNewField(fields, key, EMPTY_OBJECT);
    var lines := [KeyValue(indent, key, "")] + rest;
    assert lines[1..] == rest;
  }

  // The items read so far, in the frame of the list.
  ghost predicate HoldsItems(stack: seq<Frame>, indent: nat, done: seq<string>) {
    IsStack(stack) && |stack| > 1 && stack[|stack| - 1].indent < indent && stack[|stack| - 1].obj == ListOf(done)
  }

  lemma {:induction false} ItemsBuild(stack: seq<Frame>, level: nat, done: seq<string>, items: seq<string>)
    requires HoldsItems(stack, 2 * level + 2, done)
    ensures ApplyAll(stack, ItemShapes(items, level)) == Replace(stack, ListOf(done + ReadItems(items, level)))
    decreases |items|
  {
    hide ItemShapes, ItemShape, Apply, IsStack, Replace, ReadItem, ReadItems, ListOf, PrintItem;
    ItemsUncons(items, level, done);
    if items == [] {
      NothingAppends(stack, level);
    } else {
      var one := ReadItem(PrintItem(items[0], level));
      ItemAppends(stack, 2 * level + 2, done, PrintItem(items[0], level));
      ShapesUncons(items, level);
      ItemsBuild(Replace(stack, ListOf(done + one)), level, done + one, items[1..]);
    }
  }

  lemma {:induction false} ItemsUncons(items: seq<string>, level: nat, done: seq<string>)
    ensures items == [] ==> done + ReadItems(items, level) == done
    ensures items != [] ==>
      done + ReadItem(PrintItem(items[0], level)) + ReadItems(items[1..], level) == done + ReadItems(items, level)
  {
    hide ReadItem, PrintItem;
  }

  lemma {:induction false} NothingAppends(stack: seq<Frame>, level: nat)
    requires IsStack(stack)
    ensures ApplyAll(stack, ItemShapes([], level)) == Replace(stack, stack[|stack| - 1].obj)
  {
  }

  lemma {:induction false} ShapesUncons(items: seq<string>, level: nat)
    requires items != []
    ensures ItemShapes(items, level)[0] == ItemShape(2 * level + 2, PrintItem(items[0], level))
    ensures ItemShapes(items, level)[1..] == ItemShapes(items[1..], level)
  {
    hide ItemShape, PrintItem;
  }

  // An item line puts its item, if it has one, at the end of the list.
  lemma {:induction false} ItemAppends(stack: seq<Frame>, indent: nat, done: seq<string>, printed: string)
    requires HoldsItems(stack, indent, done)
    ensures var next := Replace(stack, ListOf(done + ReadItem(printed)));
      && Apply(stack, ItemShape(indent, printed)) == next && HoldsItems(next, indent, done + ReadItem(printed))
      && forall obj: Value :: obj.Node? ==> Replace(next, obj) == Replace(stack, obj)
  {
    ReadOne(printed);
    var one := ReadItem(printed);
    hide ReadItem;
    if one == [] {
      assert done + one == done;
      assert Replace(stack, ListOf(done)) == stack;
    } else {
      assert one == [one[0]];
      assert done == [] ==> done + one == one;
    }
  }

  lemma {:induction false} OpenChildTop(base: seq<Frame>, fields: seq<Field>, key: string, indent: int, child: Value)
    requires IsStack(base) && child.Node?
    ensures var open := OpenChild(base, fields, key, indent);
      && |open| > 1 && IsStack(open)
      && Replace(open, child) == WithFields(base, fields + [Field(key, EMPTY_OBJECT)]) + [Frame(key, child, indent)]
  {
  }

  lemma {:induction false} BlockListBuilds(stack: seq<Frame>, base: seq<Frame>, fields: seq<Field>, level: nat,
      key: string, items: seq<string>)
    requires IsStack(stack) && IsBase(base, 2 * level, fields) && PopTo(stack, 2 * level) == base
    requires IsNewKey(fields, key) && key != PROTO
    ensures PopTo(ApplyAll(stack, [KeyValue(2 * level, key, "")] + ItemShapes(items, level)), 2 * level)
            == WithFields(base, fields + [Field(key, ListOf(ReadItems(items, level)))])
  {
    var indent, read := 2 * level, ReadItems(items, level);
    var open := OpenChild(base, fields, key, indent);
    BareKeyOpens(stack, base, fields, indent, key, ItemShapes(items, level));
    assert HoldsItems(open, indent + 2, []);
    hide PopTo, ApplyAll, ItemShapes, IsStack, IsBase, IsNewKey, ReadItems, ListOf, HoldsItems, OpenChild, Replace;
    assert [] + read == read;
    ItemsBuild(open, level, [], items);
    OpenChildTop(base, fields, key, indent, ListOf(read));
    CloseChild(base, fields, key, EMPTY_OBJECT, ListOf(read), indent);
  }

  // Once its lines have been applied, a nested object is closed into its property.
  lemma {:induction false} NestedCloses(stack: seq<Frame>, base: seq<Frame>, fields: seq<Field>, indent: nat,
      key: string, lines: seq<Line>, children: seq<Field>)
    requires IsStack(stack) && IsBase(base, indent, fields) && PopTo(stack, indent) == base
    requires IsNewKey(fields, key) && key != PROTO
    requires var open := OpenChild(base, fields, key, indent);
      IsStack(open) && PopTo(ApplyAll(open, lines), indent + 2) == WithFields(open, children)
    ensures PopTo(ApplyAll(stack, [KeyValue(indent, key, "")] + lines), indent)
            == WithFields(base, fields + [Field(key, Node(false, [], children))])
  {
    hide PopTo, ApplyAll, IsStack, IsBase, OpenChild, Replace, IsNewKey;
    BareKeyOpens(stack, base, fields, indent, key, lines);
    OpenChildTop(base, fields, key, indent, Node(false, [], children));
    PopPop(ApplyAll(OpenChild(base, fields, key, indent), lines), indent + 2, indent);
    CloseChild(base, fields, key, EMPTY_OBJECT, Node(false, [], children), indent);
  }

  // The lines of an entry set its property to what is read back of its tree.
  lemma {:induction false} EntryBuilds(stack: seq<Frame>, base: seq<Frame>, fields: seq<Field>, level: nat, e: Entry)
    requires IsStack(stack) && IsBase(base, 2 * level, fields) && PopTo(stack, 2 * level) == base
    requires IsNewKey(fields, e.key) && e.key != PROTO
    requires e.tree.Fields? ==> HaveKeys(e.tree.entries)
    ensures PopTo(ApplyAll(stack, Shape(e, level)), 2 * level)
            == WithFields(base, fields + [Field(e.key, ReadBack(e.tree, level))])
    decreases e, 0
  {
    hide PopTo, ApplyAll, IsStack, IsBase, ItemShapes, OpenChild, WithFields, IsNewKey, PrintScalar, JoinComma,
         ReadText, ReadScalar, ReadItems, IsInline, Shapes, ReadEntries, Brackets;
    var indent := 2 * level;
    match e.tree
    case Scalar(text) =>
      LeafBuilds(stack, base, fields, indent, e.key, ReadText(PrintScalar(text, level)));
    case Items(items) =>
      if items == [] {
        LeafBuilds(stack, base, fields, indent, e.key, ReadText("[]"));
      } else if IsInline(items, level) {
        LeafBuilds(stack, base, fields, indent, e.key, ReadText(Brackets(JoinComma(items))));
      } else {
        BlockListBuilds(stack, base, fields, level, e.key, items);
      }
    case Fields(entries) =>
      if level >= 2 {
        LeafBuilds(stack, base, fields, indent, e.key, ReadText("[object Object]"));
      } else {
        NothingApart(entries);
        hide AreNewKeys;
        BareKeyOpens(stack, base, fields, indent, e.key, Shapes(entries, level + 1));
        BaseIsStack(base, indent, fields);
        var open := OpenChild(base, fields, e.key, indent);
        EntriesBuild(open, open, [], level + 1, entries);
        assert [] + ReadEntries(entries, level + 1) == ReadEntries(entries, level + 1);
        NestedCloses(stack, base, fields, indent, e.key, Shapes(entries, level + 1), ReadEntries(entries, level + 1));
      }
  }

  lemma {:induction false} BaseIsStack(base: seq<Frame>, indent: int, fields: seq<Field>)
    requires IsBase(base, indent, fields)
    ensures IsStack(base)
  {
  }

  lemma {:induction false} BaseGrows(base: seq<Frame>, indent: int, fields: seq<Field>, longer: seq<Field>,
      all: seq<Field>)
    requires IsBase(base, indent, fields)
    ensures IsBase(WithFields(base, longer), indent, longer)
    ensures WithFields(WithFields(base, longer), all) == WithFields(base, all)
    ensures WithFields(base, fields) == base
  {
  }

  lemma {:induction false} KeysStayNew(fields: seq<Field>, entries: seq<Entry>, value: Value)
    requires AreNewKeys(fields, entries) && entries != [] && HaveKeys(entries)
    ensures IsNewKey(fields, entries[0].key) && entries[0].key != PROTO
    ensures AreNewKeys(fields + [Field(entries[0].key, value)], entries[1..])
  {
    var rest := entries[1..];
    forall j | 0 <= j < |rest|
      ensures IsNewKey(fields + [Field(entries[0].key, value)], rest[j].key)
    {
      assert rest[j] == entries[j + 1];
      assert IsNewKey(fields, entries[j + 1].key);
    }
  }

  lemma {:induction false} NothingApart(entries: seq<Entry>)
    ensures AreNewKeys([], entries)
  {
  }

  lemma {:induction false} ReadUncons(fields: seq<Field>, entries: seq<Entry>, level: nat)
    requires entries != []
    ensures fields + [Field(entries[0].key, ReadBack(entries[0].tree, level))] + ReadEntries(entries[1..], level)
            == fields + ReadEntries(entries, level)
  {
    hide ReadBack;
  }

  lemma {:induction false} EntriesBuild(stack: seq<Frame>, base: seq<Frame>, fields: seq<Field>, level: nat,
      entries: seq<Entry>)
    requires IsStack(stack) && IsBase(base, 2 * level, fields) && PopTo(stack, 2 * level) == base
    requires AreNewKeys(fields, entries) && HaveKeys(entries)
    ensures PopTo(ApplyAll(stack, Shapes(entries, level)), 2 * level)
            == WithFields(base, fields + ReadEntries(entries, level))
    decreases entries
  {
    hide PopTo, Shape, ApplyAll, WithFields, IsStack, IsBase, ReadBack;
    if entries == [] {
      BaseGrows(base, 2 * level, fields, fields, fields);
      assert fields + [] == fields;
      ApplyNothing(stack);
    } else {
      var e, rest := entries[0], entries[1..];
      KeysStayNew(fields, entries, ReadBack(e.tree, level));
      ReadUncons(fields, entries, level);
      hide IsNewKey, AreNewKeys, ReadEntries, IsKey;
      EntryBuilds(stack, base, fields, level, e);
      var built := ApplyAll(stack, Shape(e, level));
      var longer := fields + [Field(e.key, ReadBack(e.tree, level))];
      BaseGrows(base, 2 * level, fields, longer, longer + ReadEntries(rest, level));
      EntriesBuild(built, WithFields(base, longer), longer, level, rest);
      ApplyConcat(stack, Shape(e, level), Shapes(rest, level));
    }
  }

  lemma {:induction false} ApplyNothing(stack: seq<Frame>)
    requires IsStack(stack)
    ensures ApplyAll(stack, []) == stack
  {
  }

  // The parser's loop over the printed lines builds what is read back of the tree.
  lemma {:induction false} LinesBuild(entries: seq<Entry>)
    requires HaveKeys(entries)
    ensures PopTo(ApplyAll(ROOT, ClassifyAll(PrintEntries(entries, 0))), -1)[0].obj
            == Node(false, [], ReadEntries(entries, 0))
  {
    hide HaveKeys, PrintEntries, ClassifyAll, ApplyAll, Shapes, ReadEntries;
    EntriesRead(entries, 0);
    assert PopTo(ROOT, 0) == ROOT;
    NothingApart(entries);
    hide AreNewKeys;
    EntriesBuild(ROOT, ROOT, [], 0, entries);
    assert [] + ReadEntries(entries, 0) == ReadEntries(entries, 0);
    PopPop(ApplyAll(ROOT, Shapes(entries, 0)), 0, -1);
  }

  // ---------- The closing fence ----------

  // A closing fence in the frontmatter itself, after its first character.
  ghost predicate HoldsFence(text: string) {
    exists p: nat :: 1 <= p && StartsAt(text, p, END_FENCE)
  }

  function Document(text: string, rest: string): string {
    "---\n" + text + "\n---" + rest
  }

  lemma {:induction false} FenceInside(text: string, rest: string, p: nat)
    requires p < |text|
    ensures StartsAt(Document(text, rest), |FENCE| + p, END_FENCE) <==> StartsAt(text, p, END_FENCE)
  {
    var doc, at := Document(text, rest), |FENCE| + p;
    if p + 4 <= |text| {
      assert doc[at..at + 4] == text[p..p + 4];
    } else if at + 4 <= |doc| {
      assert doc[at..at + 4][|text| - p] == doc[|FENCE| + |text|] == '\n';
    }
  }

  lemma {:induction false} DocumentStarts(text: string, rest: string)
    ensures StartsAt(Document(text, rest), 0, FENCE)
    ensures StartsAt(Document(text, rest), |FENCE| + |text|, END_FENCE)
    ensures Document(text, rest)[|FENCE|..|FENCE| + |text|] == text
    ensures Document(text, rest)[|FENCE| + |text| + |END_FENCE|..] == rest
  {
  }

  // The closing fence is found where the splice wrote it, exactly when there is none before.
  lemma {:induction false} FenceIsFoundExactlyWhen(text: string, rest: string)
    requires text != ""
    ensures 5 <= EndOf(Document(text, rest)) <= |FENCE| + |text|
    ensures EndOf(Document(text, rest)) == |FENCE| + |text| <==> !HoldsFence(text)
  {
    DocumentStarts(text, rest);
    hide Document, StartsAt;
    var end := EndOf(Document(text, rest));
    assert end != -1 && end <= |FENCE| + |text|;
    if HoldsFence(text) {
      var p: nat :| 1 <= p && StartsAt(text, p, END_FENCE);
      FenceFits(text, p);
      FenceInside(text, rest, p);
    } else if end < |FENCE| + |text| {
      FenceInside(text, rest, end - |FENCE|);
    }
  }

  lemma {:induction false} FenceFits(text: string, p: nat)
    requires StartsAt(text, p, END_FENCE)
    ensures p < |text|
  {
  }

  // What a splice keeps of a document.
  function Kept(content: string): string {
    if EndOf(content) != -1 then BodyOf(content) else "\n\n" + content
  }

  lemma {:induction false} SpliceIsDocument(content: string, entries: seq<Entry>)
    ensures SpliceFrontmatter(content, entries) == Document(ReconstructFrontmatter(entries), Kept(content))
  {
    hide EndOf, ReconstructFrontmatter;
  }

  lemma {:induction false} BodyFrom(text: string, rest: string)
    requires EndOf(Document(text, rest)) != -1
    ensures BodyOf(Document(text, rest)) == rest <==> EndOf(Document(text, rest)) == |FENCE| + |text|
  {
    DocumentStarts(text, rest);
    hide EndOf, StartsAt;
    assert |Document(text, rest)| == |FENCE| + |text| + |END_FENCE| + |rest|;
    hide Document;
  }

  // An empty tree prints nothing between the fences, which is no frontmatter. What is kept is
  // searched for another closing fence: without one there is no frontmatter at all, and with
  // one the frontmatter ends there and swallows what comes before it.
  lemma {:induction false} EmptyTreeLosesBody(content: string)
    ensures var doc, rest := SpliceFrontmatter(content, []), Kept(content);
      && (EndOf(doc) == -1 <==> forall k: nat :: !StartsAt(rest, k, END_FENCE))
      && (EndOf(doc) == -1 ==> Parse(doc) == EMPTY_OBJECT && BodyOf(doc) == doc)
      && (EndOf(doc) != -1 ==>
            var k := EndOf(doc) - |FENCE| - |END_FENCE|;
            && 0 <= k && StartsAt(rest, k, END_FENCE) && BodyOf(doc) == rest[k + |END_FENCE|..]
            && forall j: nat :: j < k ==> !StartsAt(rest, j, END_FENCE))
      && BodyOf(doc) != rest
  {
    var doc, rest := SpliceFrontmatter(content, []), Kept(content);
    SpliceIsDocument(content, []);
    DocumentStarts("", rest);
    assert doc == (FENCE + END_FENCE) + rest;
    hide SpliceFrontmatter, Kept;
    forall j: nat
      ensures StartsAt(doc, 8 + j, END_FENCE) <==> StartsAt(rest, j, END_FENCE)
    {
      StartsShift(FENCE + END_FENCE, rest, j);
    }
    forall j | 5 <= j < 8
      ensures !StartsAt(doc, j, END_FENCE)
    {
      assert doc[j] == '-';
      FenceStartsWithNewline(doc, j);
    }
    hide StartsAt;
    var end := EndOf(doc);
    if end != -1 {
      assert end == 8 + (end - 8);
      FenceFits(rest, end - 8);
      assert doc[end + 4..] == rest[end - 8 + 4..];
    } else {
      forall k: nat
        ensures !StartsAt(rest, k, END_FENCE)
      {
        assert !StartsAt(doc, 8 + k, END_FENCE);
      }
    }
  }

  lemma {:induction false} FenceStartsWithNewline(text: string, p: nat)
    requires p < |text| && text[p] != '\n'
    ensures !StartsAt(text, p, END_FENCE)
  {
    if p + 4 <= |text| {
      assert text[p..p + 4][0] == text[p];
    }
  }

  lemma {:induction false} StartsShift(head: string, tail: string, p: nat)
    ensures StartsAt(head + tail, |head| + p, END_FENCE) <==> StartsAt(tail, p, END_FENCE)
  {
    if p + 4 <= |tail| {
      assert (head + tail)[|head| + p..|head| + p + 4] == tail[p..p + 4];
    }
  }

  // A fence at the end of a line needs the next line to start with three dashes.
  lemma {:induction false} FenceShift(head: string, tail: string, p: nat)
    requires head != "" && p == |head| - 1
    ensures StartsAt(head + tail, p, END_FENCE) ==> StartsAt(tail, 0, "---")
  {
    var text := head + tail;
    if p + 4 <= |text| && text[p..p + 4] == END_FENCE {
      assert tail[0..3] == text[p..p + 4][1..];
    }
  }

  lemma {:induction false} PrintedIsEmptyExactlyWhen(entries: seq<Entry>)
    ensures ReconstructFrontmatter(entries) == "" <==> entries == []
  {
    if entries != [] {
      var first, rest := PrintEntry(entries[0], 0), PrintEntries(entries[1..], 0);
      assert first != [] && first[0] != "";
      assert PrintEntries(entries, 0) == first + rest && (first + rest)[0] == first[0];
      hide PrintEntry, PrintEntries;
    }
  }

  // For every tree at all, the text after the frontmatter is kept exactly when the tree is not
  // empty and no closing fence occurs in what is printed of it.
  lemma {:induction false} BodySurvivesExactlyWhen(content: string, entries: seq<Entry>)
    ensures BodyOf(SpliceFrontmatter(content, entries)) == Kept(content)
            <==> entries != [] && !HoldsFence(ReconstructFrontmatter(entries))
  {
    hide EndOf, BodyOf, Document, SpliceFrontmatter, ReconstructFrontmatter, Kept, HoldsFence, Parse;
    if entries == [] {
      EmptyTreeLosesBody(content);
    } else {
      var text, rest := ReconstructFrontmatter(entries), Kept(content);
      PrintedIsEmptyExactlyWhen(entries);
      SpliceIsDocument(content, entries);
      FenceIsFoundExactlyWhen(text, rest);
      BodyFrom(text, rest);
    }
  }

  // Splicing again replaces what was spliced before, under the same condition.
  lemma {:induction false} SpliceReplacesExactlyWhen(content: string, first: seq<Entry>, second: seq<Entry>)
    ensures SpliceFrontmatter(SpliceFrontmatter(content, first), second) == SpliceFrontmatter(content, second)
            <==> first != [] && !HoldsFence(ReconstructFrontmatter(first))
  {
    var once, text := SpliceFrontmatter(content, first), ReconstructFrontmatter(second);
    SpliceIsDocument(content, first);
    SpliceIsDocument(once, second);
    SpliceIsDocument(content, second);
    SameDocument(text, Kept(once), Kept(content));
    BodySurvivesExactlyWhen(content, first);
    if EndOf(once) == -1 {
      PrintedIsEmptyExactlyWhen(first);
      if first != [] {
        FenceIsFoundExactlyWhen(ReconstructFrontmatter(first), Kept(content));
      }
      assert |Kept(once)| > |once| > |Kept(content)|;
    }
    hide EndOf, BodyOf, SpliceFrontmatter, ReconstructFrontmatter, HoldsFence, Document;
  }

  lemma {:induction false} SameDocument(text: string, a: string, b: string)
    ensures Document(text, a) == Document(text, b) <==> a == b
  {
    DocumentStarts(text, a);
    DocumentStarts(text, b);
    hide Document;
  }

  // ---------- The printed lines in the document ----------

  ghost predicate IsBodyLine(line: string) {
    IsLine(line) && !IsFence(line)
  }

  ghost predicate AreBodyLines(lines: seq<string>) {
    forall k :: 0 <= k < |lines| ==> IsBodyLine(lines[k])
  }

  lemma {:induction false} KeyLineFence(indent: nat, key: string, rest: string)
    requires IsKey(key) && IsLine(rest)
    ensures var line := BareKeyLine(indent, key) + rest;
      IsLine(line) && line != "" && (IsFence(line) <==> indent == 0 && IsFence(key))
  {
    var line, tail := BareKeyLine(indent, key) + rest, ":" + rest;
    assert forall i :: 0 <= i < |key| ==> IsKeyChar(key[i]) && key[i] != '\n';
    assert line == Spaces(indent) + (key + tail);
    if indent > 0 {
      assert line[0] == ' ' && (|line| >= 3 ==> line[0..3][0] == line[0]);
    } else {
      assert line == key + tail;
      if IsFence(line) {
        ColonEndsKey(key, tail);
      }
      if IsFence(key) {
        assert line[0..3] == key[0..3];
      }
    }
  }

  lemma {:induction false} ColonEndsKey(key: string, tail: string)
    requires tail != "" && tail[0] == ':' && IsFence(key + tail)
    ensures IsFence(key)
  {
    var text := key + tail;
    assert text[0..3] == "---";
    assert forall k :: 0 <= k < 3 ==> text[k] == text[0..3][k] == '-';
    assert text[|key|] == ':';
    assert key[0..3] == text[0..3];
  }

  lemma {:induction false} ItemLineIsBodyLine(indent: nat, item: string)
    requires indent > 0 && IsLine(item)
    ensures IsBodyLine(ItemLine(indent, item))
  {
    var line := ItemLine(indent, item);
    assert line == Spaces(indent) + ("- " + item);
    assert line[0] == ' ' && (|line| >= 3 ==> line[0..3][0] == line[0]);
  }

  // The lines of an entry: the first may be taken for a fence if its key can, the others not.
  ghost predicate AreLinesOf(e: Entry, level: nat, lines: seq<string>) {
    && lines != [] && lines[0] != "" && IsLine(lines[0])
    && (IsFence(lines[0]) <==> level == 0 && IsFence(e.key))
    && AreBodyLines(lines[1..])
  }

  lemma {:induction false} OneLineOf(e: Entry, level: nat, printed: string)
    requires IsKey(e.key) && IsLine(printed)
    ensures AreLinesOf(e, level, [KeyLine(2 * level, e.key, printed)])
  {
    KeyLineFence(2 * level, e.key, " " + printed);
    assert KeyLine(2 * level, e.key, printed) == BareKeyLine(2 * level, e.key) + (" " + printed);
    hide IsKey, IsFence, KeyLine, BareKeyLine;
  }

  lemma {:induction false} HeadAndLinesOf(e: Entry, level: nat, lines: seq<string>)
    requires IsKey(e.key) && AreBodyLines(lines)
    ensures AreLinesOf(e, level, [BareKeyLine(2 * level, e.key)] + lines)
  {
    var head := BareKeyLine(2 * level, e.key);
    assert head + "" == head;
    KeyLineFence(2 * level, e.key, "");
    assert ([head] + lines)[1..] == lines;
    hide IsKey, IsFence, BareKeyLine, AreBodyLines;
  }

  lemma {:induction false} PrintedInLine(s: string, level: nat)
    requires IsLine(s)
    ensures IsLine(PrintScalar(s, level)) && IsLine(PrintItem(s, level))
  {
    QuotedStays(s);
    hide IsQuotedScalar, IsQuotedItem, Quote, IsLine;
  }

  lemma {:induction false} BracketsInLine(s: string)
    requires IsLine(s)
    ensures IsLine(Brackets(s))
  {
    var b := Brackets(s);
    assert forall i :: 1 <= i < |b| - 1 ==> b[i] == s[i - 1];
  }

  lemma {:induction false} ItemsAreBodyLines(items: seq<string>, level: nat)
    requires AreLines(items)
    ensures AreBodyLines(ItemLines(items, level))
  {
    hide IsBodyLine, IsLine, PrintItem, ItemLine;
    forall i | 0 <= i < |items|
      ensures IsBodyLine(ItemLines(items, level)[i])
    {
      PrintedInLine(items[i], level);
      ItemLineIsBodyLine(2 * level + 2, PrintItem(items[i], level));
    }
  }

  lemma {:induction false} ListLines(e: Entry, level: nat)
    requires IsKey(e.key) && e.tree.Items? && AreLines(e.tree.items)
    ensures AreLinesOf(e, level, PrintEntry(e, level))
  {
    var items := e.tree.items;
    assert Brackets("") == "[]";
    hide IsKey, AreLinesOf, AreBodyLines, KeyLine, BareKeyLine, IsLine, ItemLines, IsInline;
    JoinInLine(items);
    if items == [] {
      NothingInLine();
      BracketsInLine("");
      OneLineOf(e, level, "[]");
    } else if IsInline(items, level) {
      BracketsInLine(JoinComma(items));
      OneLineOf(e, level, Brackets(JoinComma(items)));
    } else {
      ItemsAreBodyLines(items, level);
      HeadAndLinesOf(e, level, ItemLines(items, level));
    }
  }

  lemma {:induction false} NothingInLine()
    ensures IsLine("") && IsLine("[object Object]")
  {
  }

  lemma {:induction false} EntryLines(e: Entry, level: nat)
    requires IsKey(e.key) && IsReadable(ToValue(e.tree))
    ensures AreLinesOf(e, level, PrintEntry(e, level))
    decreases e, 0
  {
    match e.tree
    case Scalar(text) =>
      assert IsLine(text);
      PrintedInLine(text, level);
      OneLineOf(e, level, PrintScalar(text, level));
    case Items(items) =>
      ListLines(e, level);
    case Fields(entries) =>
      hide IsKey, AreLinesOf, AreBodyLines, KeyLine, BareKeyLine, IsLine, ToFields;
      if level >= 2 {
        NothingInLine();
        OneLineOf(e, level, "[object Object]");
      } else {
        EntriesLines(entries, level + 1);
        HeadAndLinesOf(e, level, PrintEntries(entries, level + 1));
      }
  }

  lemma {:induction false} EntriesLines(entries: seq<Entry>, level: nat)
    requires AreReadable(ToFields(entries))
    requires level == 0 ==> forall i :: 0 <= i < |entries| ==> !IsFence(entries[i].key)
    ensures AreBodyLines(PrintEntries(entries, level))
    decreases entries
  {
    if entries != [] {
      ReadableUncons(entries);
      EntryLines(entries[0], level);
      EntriesLines(entries[1..], level);
      hide PrintEntry, IsLine, IsFence, IsKey, ToValue, IsReadable;
      BodyConcat(PrintEntry(entries[0], level), PrintEntries(entries[1..], level));
    }
  }

  lemma {:induction false} BodyConcat(a: seq<string>, b: seq<string>)
    requires a != [] && IsBodyLine(a[0]) && AreBodyLines(a[1..]) && AreBodyLines(b)
    ensures AreBodyLines(a + b)
  {
    hide IsBodyLine;
    forall k | 0 <= k < |a|
      ensures IsBodyLine(a[k])
    {
      assert k > 0 ==> a[k] == a[1..][k - 1];
    }
  }

  // No closing fence begins inside of lines that are none, the first of which may be one.
  lemma {:induction false} NoFenceIn(lines: seq<string>, p: nat)
    requires lines != [] && IsLine(lines[0]) && AreBodyLines(lines[1..])
    ensures !StartsAt(Join(lines), p, END_FENCE)
    decreases |lines|
  {
    var text, first := Join(lines), lines[0];
    if StartsAt(text, p, END_FENCE) {
      FenceFits(text, p);
      assert text[p] == text[p..p + 4][0] == '\n';
      if |lines| > 1 {
        var rest := lines[1..];
        var tail := Join(rest);
        assert IsBodyLine(rest[0]) && AreBodyLines(rest[1..]);
        assert text == (first + "\n") + tail;
        if p == |first| {
          FenceShift(first + "\n", tail, p);
          TailIsNotFence(rest);
        } else {
          assert p > |first|;
          StartsShift(first + "\n", tail, p - |first| - 1);
          NoFenceIn(rest, p - |first| - 1);
        }
      }
    }
  }

  lemma {:induction false} TailIsNotFence(lines: seq<string>)
    requires lines != [] && IsBodyLine(lines[0])
    ensures !IsFence(Join(lines))
  {
    if |lines| > 1 {
      var line, text := lines[0], Join(lines);
      assert text[|line|] == '\n' && text[..|line|] == line;
      NewlineEndsDashes(text, line);
    }
  }

  lemma {:induction false} NewlineEndsDashes(text: string, line: string)
    requires |text| > |line| && text[|line|] == '\n' && text[..|line|] == line
    ensures IsFence(text) ==> IsFence(line)
  {
    if IsFence(text) {
      assert forall k :: 0 <= k < 3 ==> text[k] == text[0..3][k] == '-';
      assert line[0..3] == text[0..3];
    }
  }

  lemma {:induction false} PrintConcat(a: seq<Entry>, b: seq<Entry>, level: nat)
    ensures PrintEntries(a + b, level) == PrintEntries(a, level) + PrintEntries(b, level)
  {
    hide PrintEntry;
    if a == [] {
      assert a + b == b;
    } else {
      assert (a + b)[0] == a[0] && (a + b)[1..] == a[1..] + b;
      PrintConcat(a[1..], b, level);
    }
  }

  lemma {:induction false} JoinConcat(a: seq<string>, b: seq<string>)
    requires a != [] && b != []
    ensures Join(a + b) == Join(a) + "\n" + Join(b)
  {
    if |a| == 1 {
      assert (a + b)[1..] == b;
    } else {
      assert (a + b)[0] == a[0] && (a + b)[1..] == a[1..] + b;
      JoinConcat(a[1..], b);
    }
  }

  // ---------- Round trip ----------

  // The parse of a readable tree without a fence among its keys, wherever it stands.
  lemma {:induction false} ParsePrinted(entries: seq<Entry>, rest: string)
    requires entries != [] && AreReadable(ToFields(entries)) && HasNoFence(entries)
    ensures !HoldsFence(ReconstructFrontmatter(entries))
    ensures Parse(Document(ReconstructFrontmatter(entries), rest)) == Node(false, [], ReadEntries(entries, 0))
  {
    var lines := PrintEntries(entries, 0);
    hide AreReadable, PrintEntries, ReadEntries, Document, Join, Split, Parse, EndOf, ToFields, StartsAt;
    PrintedLines(entries);
    forall p: nat
      ensures !StartsAt(Join(lines), p, END_FENCE)
    {
      NoFenceIn(lines, p);
    }
    PrintedIsEmptyExactlyWhen(entries);
    FenceIsFoundExactlyWhen(Join(lines), rest);
    SplitBody(lines);
    ParseFenced(Join(lines), rest);
    ReadableHaveKeys(entries);
    LinesBuild(entries);
  }

  lemma {:induction false} SplitBody(lines: seq<string>)
    requires lines != [] && IsLine(lines[0]) && AreBodyLines(lines[1..])
    ensures Split(Join(lines)) == lines
  {
    forall k | 0 <= k < |lines|
      ensures IsLine(lines[k])
    {
      assert k > 0 ==> lines[k] == lines[1..][k - 1] && IsBodyLine(lines[1..][k - 1]);
    }
    SplitJoin(lines);
  }

  lemma {:induction false} PrintedLines(entries: seq<Entry>)
    requires entries != [] && AreReadable(ToFields(entries)) && HasNoFence(entries)
    ensures var lines := PrintEntries(entries, 0);
      lines != [] && IsLine(lines[0]) && AreBodyLines(lines[1..])
  {
    ReadableUncons(entries);
    EntryLines(entries[0], 0);
    hide PrintEntry, IsLine, IsFence, IsKey, ToValue, IsReadable, IsBodyLine, AreReadable, ToFields;
    EntriesLines(entries[1..], 0);
    var first, rest := PrintEntry(entries[0], 0), PrintEntries(entries[1..], 0);
    assert (first + rest)[1..] == first[1..] + rest;
  }

  lemma {:induction false} ParseFenced(text: string, rest: string)
    requires EndOf(Document(text, rest)) == |FENCE| + |text|
    ensures Parse(Document(text, rest)) == PopTo(ApplyAll(ROOT, ClassifyAll(Split(text))), -1)[0].obj
  {
    DocumentStarts(text, rest);
    hide EndOf, PopTo, ApplyAll, ClassifyAll, Split, Document;
  }

  lemma {:induction false} ReadablePrefix(fields: seq<Field>, k: nat)
    requires AreReadable(fields) && k <= |fields|
    ensures AreReadable(fields[..k])
  {
    hide IsKey, IsReadable;
    if k > 0 {
      ReadablePrefix(fields[1..], k - 1);
      assert fields[..k][1..] == fields[1..][..k - 1];
    }
  }

  lemma {:induction false} FieldsPrefix(entries: seq<Entry>, k: nat)
    requires k <= |entries|
    ensures ToFields(entries[..k]) == ToFields(entries)[..k]
  {
    hide ToValue;
    if k > 0 {
      FieldsPrefix(entries[1..], k - 1);
      assert entries[..k][1..] == entries[1..][..k - 1];
    }
  }

  lemma {:induction false} FirstFence(entries: seq<Entry>) returns (k: nat)
    requires !HasNoFence(entries)
    ensures 1 <= k < |entries| && IsFence(entries[k].key) && HasNoFence(entries[..k])
  {
    hide IsFence;
    k := 1;
    while !IsFence(entries[k].key)
      invariant 1 <= k < |entries| && HasNoFence(entries[..k])
      invariant exists i :: k <= i < |entries| && IsFence(entries[i].key)
      decreases |entries| - k
    {
      k := k + 1;
    }
  }

  // A key that begins with three dashes, but for the first, ends the frontmatter before it.
  lemma {:induction false} FenceEndsEarly(entries: seq<Entry>, rest: string, k: nat) returns (more: string)
    requires AreReadable(ToFields(entries)) && 1 <= k < |entries| && IsFence(entries[k].key)
    ensures Document(ReconstructFrontmatter(entries), rest) == Document(ReconstructFrontmatter(entries[..k]), more)
    ensures HoldsFence(ReconstructFrontmatter(entries))
  {
    hide AreReadable, ToFields, PrintEntries, Join, Document, IsFence, HoldsFence;
    var front, back := PrintEntries(entries[..k], 0), PrintEntries(entries[k..], 0);
    assert entries == entries[..k] + entries[k..];
    PrintConcat(entries[..k], entries[k..], 0);
    BackBegins(entries, k);
    JoinConcat(front, back);
    PrintedIsEmptyExactlyWhen(entries[..k]);
    more := DashesAreFence(Join(front), Join(back), rest);
  }

  // Three dashes on a new line are a closing fence.
  lemma {:induction false} DashesAreFence(front: string, tail: string, rest: string) returns (more: string)
    requires front != "" && IsFence(tail)
    ensures HoldsFence(front + "\n" + tail)
    ensures Document(front + "\n" + tail, rest) == Document(front, more)
  {
    assert tail == "---" + tail[3..] by {
      assert tail == tail[0..3] + tail[3..];
    }
    assert "\n" + "---" == END_FENCE;
    var text := front + "\n" + tail;
    assert text == front + END_FENCE + tail[3..];
    hide IsFence;
    assert text[|front|..|front| + 4] == END_FENCE;
    assert StartsAt(text, |front|, END_FENCE);
    hide HoldsFence, StartsAt;
    more := tail[3..] + END_FENCE + rest;
  }

  lemma {:induction false} BackBegins(entries: seq<Entry>, k: nat)
    requires AreReadable(ToFields(entries)) && 1 <= k < |entries| && IsFence(entries[k].key)
    ensures PrintEntries(entries[..k], 0) != []
    ensures PrintEntries(entries[k..], 0) != [] && IsFence(Join(PrintEntries(entries[k..], 0)))
  {
    ReadableAt(entries, k);
    EntryLines(entries[k], 0);
    var first, rest := PrintEntry(entries[k], 0), PrintEntries(entries[k..][1..], 0);
    assert PrintEntries(entries[k..], 0) == first + rest;
    assert PrintEntry(entries[0], 0) != [] && entries[..k][0] == entries[0];
    hide PrintEntry, AreReadable, ToFields;
    FirstBegins(first + rest);
  }

  lemma {:induction false} FirstBegins(lines: seq<string>)
    requires lines != [] && IsFence(lines[0])
    ensures IsFence(Join(lines))
  {
    if |lines| > 1 {
      assert Join(lines)[0..3] == lines[0][0..3];
    }
  }

  lemma {:induction false} ReadableAt(entries: seq<Entry>, k: nat)
    requires AreReadable(ToFields(entries)) && k < |entries|
    ensures IsKey(entries[k].key) && IsReadable(ToValue(entries[k].tree))
  {
    ReadableUncons(entries);
    hide IsKey, IsReadable, ToValue, AreReadable, ToFields;
    if k > 0 {
      ReadableAt(entries[1..], k - 1);
    }
  }

  // Round trip: a tree that is not empty, spliced into any document, is read back as it was
  // exactly when it is printable.
  lemma {:induction false} SpliceThenParseExactlyWhen(content: string, entries: seq<Entry>)
    requires entries != []
    ensures Parse(SpliceFrontmatter(content, entries)) == ToValue(Fields(entries)) <==> IsPrintable(entries)
  {
    var doc, rest := SpliceFrontmatter(content, entries), Kept(content);
    SpliceIsDocument(content, entries);
    hide SpliceFrontmatter, Kept, Parse, Document, ReconstructFrontmatter, ToFields, ReadEntries, AreSafe,
         AreReadable, HasNoFence;
    if AreSafe(entries, 0) {
      SafeAreReadable(entries, 0);
    }
    if Parse(doc) == ToValue(Fields(entries)) {
      ParseIsReadable(doc);
    }
    if AreReadable(ToFields(entries)) {
      EntriesExactlyWhen(entries, 0);
      if HasNoFence(entries) {
        ParsePrinted(entries, rest);
      } else {
        var k := FirstFence(entries);
        var more := FenceEndsEarly(entries, rest, k);
        FieldsPrefix(entries, k);
        ReadablePrefix(ToFields(entries), k);
        ParsePrinted(entries[..k], more);
      }
    }
  }

  // A printable tree also leaves the text after it alone.
  lemma {:induction false} PrintableKeepsBody(content: string, entries: seq<Entry>)
    requires entries != [] && IsPrintable(entries)
    ensures BodyOf(SpliceFrontmatter(content, entries)) == Kept(content)
  {
    SafeAreReadable(entries, 0);
    ParsePrinted(entries, "");
    BodySurvivesExactlyWhen(content, entries);
    hide BodyOf, SpliceFrontmatter, Kept, HoldsFence, Parse;
  }
}
