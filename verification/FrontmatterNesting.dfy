// What the frontmatter parser makes of any document, not only of a printed one (plugin.js,
// extractFrontmatter): the stack of frames builds the objects that nesting by indentation
// describes, and which lines make no difference.
module FrontmatterNesting {
  import opened Strings
  import opened FrontmatterParser
  import opened FrontmatterLines
  import opened Frontmatter

  // ---------- Nesting by indentation ----------

  predicate Opens(value: string) {
    value == "" || value == "["
  }

  // Whether a line ends whatever was opened at an indentation.
  predicate Ends(line: Line, indent: nat) {
    !line.Blank? && line.indent <= indent
  }

  // How many lines belong to what was opened at an indentation: those up to the first that
  // ends it.
  function BodySize(lines: seq<Line>, indent: nat): (n: nat)
    ensures n <= |lines|
    ensures forall k :: 0 <= k < n ==> !Ends(lines[k], indent)
    ensures n < |lines| ==> Ends(lines[n], indent)
  {
    if lines == [] || Ends(lines[0], indent) then 0 else 1 + BodySize(lines[1..], indent)
  }

  // An item goes to the end of a list; an object that is still empty becomes one, but not the
  // document itself.
  function AddItem(obj: Value, item: string, isDocument: bool): (v: Value)
    requires obj.Node?
    ensures v.Node?
  {
    if obj.isList then obj.(items := obj.items + [item])
    else if obj.fields == [] && !isDocument then Node(true, [item], [])
    else obj
  }

  // The lines that belong to an object, put into it one after the other. A key that opens an
  // object is set to that object, filled with the lines that belong to it in turn.
  function Fill(obj: Value, lines: seq<Line>, isDocument: bool): (v: Value)
    requires obj.Node?
    ensures v.Node?
    decreases |lines|
  {
    if lines == [] then obj
    else
      var rest := lines[1..];
      match lines[0]
      case Blank => Fill(obj, rest, isDocument)
      case Other(_) => Fill(obj, rest, isDocument)
      case Item(_, text) => Fill(AddItem(obj, text, isDocument), rest, isDocument)
      case KeyValue(indent, key, value) =>
        if Opens(value) then
          var n := BodySize(rest, indent);
          var child := Fill(ReadScalar(value), rest[..n], false);
          Fill(SetProperty(obj, key, child), rest[n..], isDocument)
        else Fill(SetProperty(obj, key, ReadScalar(value)), rest, isDocument)
  }

  lemma {:induction false} SetFieldTwice(fields: seq<Field>, key: string, first: Value, second: Value)
    ensures SetField(SetField(fields, key, first), key, second) == SetField(fields, key, second)
  {
    if fields != [] && fields[0].key != key {
      SetFieldTwice(fields[1..], key, first, second);
    }
  }

  lemma {:induction false} SetTwice(obj: Value, key: string, first: Value, second: Value)
    requires obj.Node?
    ensures SetProperty(SetProperty(obj, key, first), key, second) == SetProperty(obj, key, second)
  {
    SetFieldTwice(obj.fields, key, first, second);
  }

  function TopOf(stack: seq<Frame>): (f: Frame)
    requires IsStack(stack)
    ensures f.obj.Node?
  {
    stack[|stack| - 1]
  }

  ghost predicate AreInside(lines: seq<Line>, indent: int) {
    forall k :: 0 <= k < |lines| ==> lines[k].Blank? || lines[k].indent > indent
  }

  // Lines of one frame: closing what they have opened leaves the frame filled.
  lemma {:induction false} FillsFrame(stack: seq<Frame>, lines: seq<Line>)
    requires IsStack(stack) && AreInside(lines, TopOf(stack).indent)
    ensures PopTo(ApplyAll(stack, lines), TopOf(stack).indent + 1)
            == Replace(stack, Fill(TopOf(stack).obj, lines, |stack| == 1))
    decreases |lines|, 0
  {
    hide PopTo, ApplyAll, Replace, Fill, IsStack, AreInside, BodySize, SetProperty, AddItem;
    if lines == [] {
      NothingFills(stack);
    } else {
      InsideUncons(lines, TopOf(stack).indent);
      FillUncons(TopOf(stack).obj, lines, |stack| == 1);
      AppliesFirst(stack, lines);
      var rest := lines[1..];
      match lines[0]
      case Blank =>
        FillsFrame(stack, rest);
      case Other(_) =>
        StaysOnTop(stack, lines[0].indent);
        FillsFrame(stack, rest);
      case Item(_, text) =>
        StaysOnTop(stack, lines[0].indent);
        ItemFills(stack, text);
        var next := Replace(stack, AddItem(TopOf(stack).obj, text, |stack| == 1));
        ReplacedTop(stack, AddItem(TopOf(stack).obj, text, |stack| == 1));
        FillsFrame(next, rest);
      case KeyValue(indent, key, value) =>
        StaysOnTop(stack, indent);
        if Opens(value) {
          OpenFills(stack, indent, key, value, rest);
        } else {
          LeafFills(stack, indent, key, value);
          ReplacedTop(stack, SetProperty(TopOf(stack).obj, key, ReadScalar(value)));
          FillsFrame(Replace(stack, SetProperty(TopOf(stack).obj, key, ReadScalar(value))), rest);
        }
    }
  }

  lemma {:induction false} NothingFills(stack: seq<Frame>)
    requires IsStack(stack)
    ensures PopTo(ApplyAll(stack, []), TopOf(stack).indent + 1)
            == Replace(stack, Fill(TopOf(stack).obj, [], |stack| == 1))
  {
  }

  lemma {:induction false} InsideUncons(lines: seq<Line>, indent: int)
    requires AreInside(lines, indent) && lines != []
    ensures AreInside(lines[1..], indent) && (lines[0].Blank? || lines[0].indent > indent)
  {
  }

  lemma {:induction false} FillUncons(obj: Value, lines: seq<Line>, isDocument: bool)
    requires obj.Node? && lines != []
    ensures Fill(obj, lines, isDocument)
            == match lines[0]
               case Blank => Fill(obj, lines[1..], isDocument)
               case Other(_) => Fill(obj, lines[1..], isDocument)
               case Item(_, text) => Fill(AddItem(obj, text, isDocument), lines[1..], isDocument)
               case KeyValue(indent, key, value) =>
                 if Opens(value) then
                   var n := BodySize(lines[1..], indent);
                   Fill(SetProperty(obj, key, Fill(ReadScalar(value), lines[1..][..n], false)), lines[1..][n..],
                        isDocument)
                 else Fill(SetProperty(obj, key, ReadScalar(value)), lines[1..], isDocument)
  {
    hide SetProperty, AddItem, ReadScalar, BodySize;
  }

  lemma {:induction false} AppliesFirst(stack: seq<Frame>, lines: seq<Line>)
    requires IsStack(stack) && lines != []
    ensures ApplyAll(stack, lines) == ApplyAll(Apply(stack, lines[0]), lines[1..])
  {
    hide Apply;
  }

  lemma {:induction false} StaysOnTop(stack: seq<Frame>, indent: int)
    requires IsStack(stack) && TopOf(stack).indent < indent
    ensures PopTo(stack, indent) == stack
  {
  }

  lemma {:induction false} ReplacedTop(stack: seq<Frame>, obj: Value)
    requires IsStack(stack) && obj.Node?
    ensures var next := Replace(stack, obj);
      && IsStack(next) && |next| == |stack| && TopOf(next).obj == obj && TopOf(next).indent == TopOf(stack).indent
      && forall other: Value :: other.Node? ==> Replace(next, other) == Replace(stack, other)
  {
  }

  lemma {:induction false} ItemFills(stack: seq<Frame>, text: string)
    requires IsStack(stack)
    ensures ApplyItem(stack, text) == Replace(stack, AddItem(TopOf(stack).obj, text, |stack| == 1))
  {
    var obj := TopOf(stack).obj;
    assert Replace(stack, obj) == stack;
  }

  lemma {:induction false} LeafFills(stack: seq<Frame>, indent: nat, key: string, value: string)
    requires IsStack(stack) && !Opens(value)
    ensures ApplyKey(stack, indent, key, value)
            == Replace(stack, SetProperty(TopOf(stack).obj, key, ReadScalar(value)))
  {
    hide SetProperty, InlineList, StripQuotes;
  }

  // A key that opens an object, with the lines that belong to it and those after them.
  lemma {:induction false} OpenFills(stack: seq<Frame>, indent: nat, key: string, value: string, rest: seq<Line>)
    requires IsStack(stack) && TopOf(stack).indent < indent && Opens(value)
    requires AreInside(rest, TopOf(stack).indent)
    ensures var n := BodySize(rest, indent);
      var child := Fill(ReadScalar(value), rest[..n], false);
      PopTo(ApplyAll(ApplyKey(stack, indent, key, value), rest), TopOf(stack).indent + 1)
      == Replace(stack, Fill(SetProperty(TopOf(stack).obj, key, child), rest[n..], |stack| == 1))
    decreases |rest|, 1
  {
    hide PopTo, ApplyAll, Replace, Fill, IsStack, SetProperty, ApplyKey;
    var n, obj := BodySize(rest, indent), TopOf(stack).obj;
    var child := Fill(ReadScalar(value), rest[..n], false);
    var open := ApplyKey(stack, indent, key, value);
    StackIsNonEmpty(stack);
    KeyOpens(stack, indent, key, value);
    BodyIsInside(rest, indent, TopOf(stack).indent);
    hide BodySize, AreInside;
    assert rest == rest[..n] + rest[n..];
    ApplyConcat(open, rest[..n], rest[n..]);
    FillsFrame(open, rest[..n]);
    ClosesChild(stack, indent, key, value, child);
    var filled, next := ApplyAll(open, rest[..n]), Replace(stack, SetProperty(obj, key, child));
    PopPop(filled, indent + 1, indent);
    assert PopTo(filled, indent) == next;
    RestStartsLower(filled, rest[n..], indent, TopOf(stack).indent);
    ReplacedTop(stack, SetProperty(obj, key, child));
    FillsFrame(next, rest[n..]);
  }

  lemma {:induction false} KeyOpens(stack: seq<Frame>, indent: nat, key: string, value: string)
    requires IsStack(stack) && Opens(value)
    ensures var open := ApplyKey(stack, indent, key, value);
      && IsStack(open) && |open| == |stack| + 1
      && open == Replace(stack, SetProperty(TopOf(stack).obj, key, ReadScalar(value)))
                 + [Frame(key, ReadScalar(value), indent)]
  {
    hide SetProperty;
  }

  lemma {:induction false} BodyIsInside(rest: seq<Line>, indent: nat, outer: int)
    requires AreInside(rest, outer)
    ensures var n := BodySize(rest, indent);
      && AreInside(rest[..n], indent) && AreInside(rest[n..], outer)
      && (n < |rest| ==> !rest[n].Blank? && rest[n].indent <= indent)
  {
  }

  // Closing the frame of a key sets it to what the frame holds.
  lemma {:induction false} ClosesChild(stack: seq<Frame>, indent: nat, key: string, value: string, child: Value)
    requires IsStack(stack) && TopOf(stack).indent < indent && Opens(value) && child.Node?
    ensures var open := ApplyKey(stack, indent, key, value);
      && IsStack(open) && TopOf(open) == Frame(key, ReadScalar(value), indent)
      && PopTo(Replace(open, child), indent) == Replace(stack, SetProperty(TopOf(stack).obj, key, child))
  {
    hide SetProperty;
    var obj := TopOf(stack).obj;
    KeyOpens(stack, indent, key, value);
    SetTwice(obj, key, ReadScalar(value), child);
    var open := Replace(ApplyKey(stack, indent, key, value), child);
    var below := Replace(stack, SetProperty(obj, key, ReadScalar(value)));
    assert open[|open| - 2] == TopOf(below) && open[..|open| - 2] == stack[..|stack| - 1];
    assert Close(open) == Replace(stack, SetProperty(obj, key, child));
    StaysOnTop(Close(open), indent);
  }

  // The line after a body pops its frame, so the frame may as well be popped before.
  lemma {:induction false} RestStartsLower(filled: seq<Frame>, rest: seq<Line>, indent: nat, outer: int)
    requires IsStack(filled) && outer < indent
    requires rest != [] ==> !rest[0].Blank? && rest[0].indent <= indent
    ensures PopTo(ApplyAll(filled, rest), outer + 1) == PopTo(ApplyAll(PopTo(filled, indent), rest), outer + 1)
  {
    hide PopTo, ApplyKey, ApplyItem, IsStack;
    if rest == [] {
      PopPop(filled, indent, outer + 1);
      ApplyNothing(filled);
      ApplyNothing(PopTo(filled, indent));
    } else {
      PopPop(filled, indent, rest[0].indent);
    }
  }

  // The object of a document is its lines filled into an empty one.
  lemma {:induction false} ParseIsNested(content: string)
    ensures Parse(content) ==
      if EndOf(content) == -1 then EMPTY_OBJECT
      else Fill(EMPTY_OBJECT, ClassifyAll(Split(content[|FENCE|..EndOf(content)])), true)
  {
    if EndOf(content) != -1 {
      var lines := ClassifyAll(Split(content[|FENCE|..EndOf(content)]));
      hide Split, ClassifyAll, EndOf, Fill, ApplyAll;
      assert IsStack(ROOT) && AreInside(lines, -1);
      FillsFrame(ROOT, lines);
      PopPop(ApplyAll(ROOT, lines), 0, -1);
      var filled := Fill(EMPTY_OBJECT, lines, true);
      assert Replace(ROOT, filled) == [Frame("", filled, -1)];
    }
  }

  // ---------- Lines that make no difference ----------

  // A document with these lines between its fences, the first of which after it is its own.
  ghost predicate IsFenced(lines: seq<string>, rest: string) {
    AreLines(lines) && EndOf(Document(Join(lines), rest)) == |FENCE| + |Join(lines)|
  }

  lemma {:induction false} ParseOfLines(lines: seq<string>, rest: string)
    requires IsFenced(lines, rest)
    ensures Parse(Document(Join(lines), rest)) == PopTo(ApplyAll(ROOT, ClassifyAll(lines)), -1)[0].obj
  {
    assert lines != [];
    SplitJoin(lines);
    ParseFenced(Join(lines), rest);
    hide EndOf, PopTo, ApplyAll, ClassifyAll, Split, Parse, Join;
  }

  lemma {:induction false} Associate(a: seq<string>, middle: seq<string>, b: seq<string>)
    ensures a + middle + b == a + (middle + b)
  {
  }

  // Some lines in the middle, from the stack the lines before them leave.
  lemma {:induction false} LinesInMiddle(a: seq<string>, middle: seq<string>, b: seq<string>)
    ensures IsStack(ROOT) && IsStack(ApplyAll(ROOT, ClassifyAll(a)))
    ensures ApplyAll(ROOT, ClassifyAll(a + middle + b))
            == ApplyAll(ApplyAll(ROOT, ClassifyAll(a)), ClassifyAll(middle) + ClassifyAll(b))
  {
    StackFacts();
    hide ApplyAll, ClassifyAll, IsStack;
    Associate(a, middle, b);
    ClassifyConcat(middle, b);
    ClassifyConcat(a, middle + b);
    ApplyConcat(ROOT, ClassifyAll(a), ClassifyAll(middle + b));
  }

  // A blank line makes no difference, wherever it stands.
  lemma {:induction false} BlankLineIsIgnored(a: seq<string>, blank: string, b: seq<string>, rest: string,
      other: string)
    requires Trim(blank) == "" && IsFenced(a + [blank] + b, rest) && IsFenced(a + b, other)
    ensures Parse(Document(Join(a + [blank] + b), rest)) == Parse(Document(Join(a + b), other))
  {
    ParseOfLines(a + [blank] + b, rest);
    ParseOfLines(a + b, other);
    assert Classify(blank) == Blank;
    hide Parse, Document, IsFenced, Classify, PopTo, IsStack, Join, ApplyAll, ClassifyAll;
    BlankInMiddle(a, blank, b);
  }

  lemma {:induction false} BlankInMiddle(a: seq<string>, blank: string, b: seq<string>)
    requires Classify(blank) == Blank
    ensures IsStack(ROOT) && ApplyAll(ROOT, ClassifyAll(a + [blank] + b)) == ApplyAll(ROOT, ClassifyAll(a + b))
  {
    hide Classify, IsStack, ApplyAll, ClassifyAll;
    LinesInMiddle(a, [blank], b);
    ClassifyOne(blank);
    BlankThen(ApplyAll(ROOT, ClassifyAll(a)), ClassifyAll(b));
    ClassifyConcat(a, b);
    ApplyConcat(ROOT, ClassifyAll(a), ClassifyAll(b));
  }

  lemma {:induction false} BlankThen(stack: seq<Frame>, after: seq<Line>)
    requires IsStack(stack)
    ensures ApplyAll(stack, [Blank] + after) == ApplyAll(stack, after)
  {
    AppliesFirst(stack, [Blank] + after);
    assert ([Blank] + after)[1..] == after;
    hide ApplyAll;
  }

  // A note is a line that begins with a number sign.
  predicate IsNote(line: string) {
    line != "" && line[0] == '#'
  }

  lemma {:induction false} NoteReads(note: string)
    requires IsNote(note)
    ensures Classify(note) == Other(0)
  {
    assert !IsSpace('#') && !IsKeyChar('#');
    SkipWhileIs(IsSpace, note, 0, 0);
    SkipWhileIs(IsKeyChar, note, 0, 0);
    assert note[0..] == note;
    TrimEndKeeps(note);
    hide TrimEnd, IsSpace, IsKeyChar, IsTerminator;
    assert Trim(note)[0] == '#';
    assert |Trim(note)| >= 2 ==> Trim(note)[0..2][0] == '#';
  }

  lemma {:induction false} TopKeyReads(line: string, key: string, tail: string)
    requires IsKeyText(key) && line == key + ":" + tail
    ensures Classify(line).KeyValue? && Classify(line).indent == 0
  {
    assert IsKeyChar(key[0]) && !IsSpace(key[0]) && !IsKeyChar(':');
    assert forall i :: 0 <= i < |key| ==> line[i] == key[i];
    assert line[|key|] == ':';
    hide IsSpace, IsKeyChar, IsTerminator;
    SkipWhileIs(IsSpace, line, 0, 0);
    SkipWhileIs(IsKeyChar, line, 0, |key|);
    assert line[0..] == line;
    TrimEndKeeps(line);
    hide TrimEnd;
  }

  // A note without indentation before a key without indentation makes no difference.
  lemma {:induction false} NoteIsIgnored(a: seq<string>, note: string, line: string, key: string, tail: string,
      b: seq<string>, rest: string, other: string)
    requires IsNote(note) && IsKeyText(key) && line == key + ":" + tail
    requires IsFenced(a + [note, line] + b, rest) && IsFenced(a + [line] + b, other)
    ensures Parse(Document(Join(a + [note, line] + b), rest)) == Parse(Document(Join(a + [line] + b), other))
  {
    ParseOfLines(a + [note, line] + b, rest);
    ParseOfLines(a + [line] + b, other);
    NoteReads(note);
    TopKeyReads(line, key, tail);
    hide Parse, Document, IsFenced, Classify, PopTo, IsStack, ApplyAll, ClassifyAll, Join;
    LinesInMiddle(a, [note, line], b);
    LinesInMiddle(a, [line], b);
    ClassifyConcat([note], [line]);
    ClassifyOne(note);
    ClassifyOne(line);
    assert [note] + [line] == [note, line];
    NoteThenKey(ApplyAll(ROOT, ClassifyAll(a)), Classify(line), ClassifyAll(b));
    assert [Other(0)] + [Classify(line)] == [Other(0), Classify(line)];
  }

  lemma {:induction false} NoteThenKey(stack: seq<Frame>, k: Line, after: seq<Line>)
    requires IsStack(stack) && k.KeyValue? && k.indent == 0
    ensures ApplyAll(stack, [Other(0), k] + after) == ApplyAll(stack, [k] + after)
  {
    hide PopTo, ApplyKey, IsStack;
    AppliesFirst(stack, [Other(0), k] + after);
    assert ([Other(0), k] + after)[1..] == [k] + after;
    AppliesFirst(PopTo(stack, 0), [k] + after);
    AppliesFirst(stack, [k] + after);
    PopPop(stack, 0, 0);
  }

  // ---------- Properties ----------

  function ValueOf(fields: seq<Field>, key: string): seq<Value> {
    if fields == [] then [] else if fields[0].key == key then [fields[0].value] else ValueOf(fields[1..], key)
  }

  // Setting a property gives it that value, leaves the others alone, and adds it at the end
  // only if it is new.
  lemma {:induction false} SetFieldExactly(fields: seq<Field>, key: string, value: Value, other: string)
    ensures ValueOf(SetField(fields, key, value), other)
            == if other == key then [value] else ValueOf(fields, other)
    ensures KeysOf(SetField(fields, key, value))
            == if key in KeysOf(fields) then KeysOf(fields) else KeysOf(fields) + [key]
  {
    if fields != [] && fields[0].key != key {
      SetFieldExactly(fields[1..], key, value, other);
    }
  }

  function KeysOf(fields: seq<Field>): seq<string> {
    if fields == [] then [] else [fields[0].key] + KeysOf(fields[1..])
  }
}
