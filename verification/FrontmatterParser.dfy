// The uncached frontmatter parser (plugin.js, extractFrontmatter): lines are classified,
// then applied to a stack of frames that mirrors the objects being built.
module FrontmatterParser {
  import opened Strings

  // A JavaScript value the parser builds: a string, or an object or array with the
  // properties set on it in order.
  datatype Value =
    | Str(text: string)
    | Node(isList: bool, items: seq<string>, fields: seq<Field>)

  datatype Field = Field(key: string, value: Value)

  const EMPTY_OBJECT := Node(false, [], [])

  // Setting this property makes no property of the object's own.
  const PROTO := "__proto__"

  // ---------- One line ----------

  predicate IsKeyChar(c: char) {
    'a' <= c <= 'z' || 'A' <= c <= 'Z' || '0' <= c <= '9' || c == '_' || c == '-'
  }

  predicate IsQuote(c: char) { c == '"' || c == '\'' }

  predicate InLine(c: char) { !IsTerminator(c) }

  // replace(/^["']|["']$/g, "")
  function StripQuotes(s: string): string {
    var t := if s != "" && IsQuote(s[0]) then s[1..] else s;
    if t != "" && IsQuote(t[|t| - 1]) then t[..|t| - 1] else t
  }

  datatype Line =
    | Blank
    | KeyValue(indent: nat, key: string, value: string)
    | Item(indent: nat, text: string)
    | Other(indent: nat)

  // The two patterns: ^(\s*)([a-zA-Z0-9_-]+):\s*(.*) and, failing that, a leading "- ".
  function Classify(line: string): Line {
    if Trim(line) == "" then Blank
    else
      var n := SkipWhile(IsSpace, line, 0);
      var e := SkipWhile(IsKeyChar, line, n);
      if n < e < |line| && line[e] == ':' then
        var v := SkipWhile(IsSpace, line, e + 1);
        KeyValue(n, line[n..e], Trim(line[v..SkipWhile(InLine, line, v)]))
      else if StartsAt(Trim(line), 0, "- ") then Item(n, StripQuotes(Trim(line)[2..]))
      else Other(n)
  }

  // ---------- The stack ----------

  // obj hangs under `key` in the object of the frame below; the source finds that key again
  // by comparing references.
  datatype Frame = Frame(key: string, obj: Value, indent: int)

  const ROOT := [Frame("", EMPTY_OBJECT, -1)]

  predicate IsStack(stack: seq<Frame>) {
    stack != [] && forall k :: 0 <= k < |stack| ==> stack[k].obj.Node?
  }

  // obj[key] = value: an existing property keeps its place.
  function SetField(fields: seq<Field>, key: string, value: Value): seq<Field> {
    if fields == [] then [Field(key, value)]
    else if fields[0].key == key then [Field(key, value)] + fields[1..]
    else [fields[0]] + SetField(fields[1..], key, value)
  }

  function SetProperty(obj: Value, key: string, value: Value): (v: Value)
    requires obj.Node?
    ensures v.Node?
  {
    if key == PROTO then obj else obj.(fields := SetField(obj.fields, key, value))
  }

  // Popping a frame leaves its object in the frame below.
  function Close(stack: seq<Frame>): (r: seq<Frame>)
    requires IsStack(stack) && |stack| > 1
    ensures IsStack(r) && |r| == |stack| - 1
  {
    var top, below := stack[|stack| - 1], stack[|stack| - 2];
    stack[..|stack| - 2] + [below.(obj := SetProperty(below.obj, top.key, top.obj))]
  }

  function PopTo(stack: seq<Frame>, indent: int): (r: seq<Frame>)
    requires IsStack(stack)
    ensures IsStack(r) && |r| <= |stack|
    ensures |r| > 1 ==> indent > r[|r| - 1].indent
    decreases |stack|
  {
    if |stack| > 1 && indent <= stack[|stack| - 1].indent then PopTo(Close(stack), indent) else stack
  }

  function Replace(stack: seq<Frame>, obj: Value): (r: seq<Frame>)
    requires IsStack(stack) && obj.Node?
    ensures IsStack(r)
  {
    stack[..|stack| - 1] + [stack[|stack| - 1].(obj := obj)]
  }

  // value.slice(1, -1).split(",").map(trim and strip).filter(Boolean)
  function SplitComma(s: string): (parts: seq<string>)
    ensures parts != []
  {
    if s == "" then [""]
    else
      var rest := SplitComma(s[1..]);
      if s[0] == ',' then [""] + rest else [[s[0]] + rest[0]] + rest[1..]
  }

  function InlineItems(parts: seq<string>): seq<string> {
    if parts == [] then []
    else
      var item := StripQuotes(Trim(parts[0]));
      (if item != "" then [item] else []) + InlineItems(parts[1..])
  }

  predicate IsBracketed(value: string) {
    value != "" && value[0] == '[' && value[|value| - 1] == ']'
  }

  function InlineList(value: string): (v: Value)
    requires IsBracketed(value)
    ensures v.Node? && v.isList && v.fields == []
  {
    var inner := if |value| >= 2 then value[1..|value| - 1] else "";
    Node(true, InlineItems(SplitComma(inner)), [])
  }

  function ApplyKey(stack: seq<Frame>, indent: nat, key: string, value: string): (r: seq<Frame>)
    requires IsStack(stack)
    ensures IsStack(r)
  {
    var obj := stack[|stack| - 1].obj;
    if value == "" || value == "[" then
      var child := Node(value == "[", [], []);
      Replace(stack, SetProperty(obj, key, child)) + [Frame(key, child, indent)]
    else if IsBracketed(value) then Replace(stack, SetProperty(obj, key, InlineList(value)))
    else Replace(stack, SetProperty(obj, key, Str(StripQuotes(value))))
  }

  // An item turns an object that is still empty into an array, unless it is the root.
  function ApplyItem(stack: seq<Frame>, item: string): (r: seq<Frame>)
    requires IsStack(stack)
    ensures IsStack(r)
  {
    var obj := stack[|stack| - 1].obj;
    if !obj.isList && obj.fields == [] then
      if |stack| > 1 then Replace(stack, Node(true, [item], [])) else stack
    else if obj.isList then Replace(stack, obj.(items := obj.items + [item]))
    else stack
  }

  function Apply(stack: seq<Frame>, line: Line): (r: seq<Frame>)
    requires IsStack(stack)
    ensures IsStack(r)
  {
    match line
    case Blank => stack
    case KeyValue(indent, key, value) => ApplyKey(PopTo(stack, indent), indent, key, value)
    case Item(indent, text) => ApplyItem(PopTo(stack, indent), text)
    case Other(indent) => PopTo(stack, indent)
  }

  function ApplyAll(stack: seq<Frame>, lines: seq<Line>): (r: seq<Frame>)
    requires IsStack(stack)
    ensures IsStack(r)
    decreases |lines|
  {
    if lines == [] then stack else ApplyAll(Apply(stack, lines[0]), lines[1..])
  }

  function ClassifyAll(lines: seq<string>): (r: seq<Line>)
    ensures |r| == |lines|
    ensures forall i :: 0 <= i < |lines| ==> r[i] == Classify(lines[i])
  {
    seq(|lines|, i requires 0 <= i < |lines| => Classify(lines[i]))
  }

  // ---------- The document ----------

  const FENCE := "---\n"
  const END_FENCE := "\n---"

  // ^---\n([\s\S]+?)\n--- : the closing fence is the first one after at least one character.
  function FindEnd(content: string, from: nat): (end: int)
    ensures end == -1 ==> forall j :: from <= j ==> !StartsAt(content, j, END_FENCE)
    ensures end != -1 ==> from <= end && StartsAt(content, end, END_FENCE)
    ensures end != -1 ==> forall j :: from <= j < end ==> !StartsAt(content, j, END_FENCE)
    decreases |content| - from
  {
    if from + |END_FENCE| > |content| then -1
    else if StartsAt(content, from, END_FENCE) then from
    else FindEnd(content, from + 1)
  }

  function EndOf(content: string): (end: int)
    ensures end != -1 ==> 5 <= end && end + |END_FENCE| <= |content|
  {
    if StartsAt(content, 0, FENCE) then FindEnd(content, |FENCE| + 1) else -1
  }

  // The document after its frontmatter; all of it if there is none.
  function BodyOf(content: string): string {
    var end := EndOf(content);
    if end == -1 then content else content[end + |END_FENCE|..]
  }

  function Parse(content: string): Value {
    var end := EndOf(content);
    if end == -1 then EMPTY_OBJECT
    else PopTo(ApplyAll(ROOT, ClassifyAll(Split(content[|FENCE|..end]))), -1)[0].obj
  }

  method PopFrames(stack0: seq<Frame>, indent: int) returns (stack: seq<Frame>)
    requires IsStack(stack0)
    ensures stack == PopTo(stack0, indent)
  {
    stack := stack0;
    while |stack| > 1 && indent <= stack[|stack| - 1].indent
      invariant IsStack(stack) && PopTo(stack, indent) == PopTo(stack0, indent)
      decreases |stack|
    {
      stack := Close(stack);
    }
  }

  // The parser's loop over the lines, with its stack updated in place. The source returns
  // the root object, which refers to all the others; here the open frames are closed first.
  method ExtractFrontmatter(content: string) returns (frontmatter: Value)
    ensures frontmatter == Parse(content)
  {
    hide PopTo, ApplyKey, ApplyItem, Classify, Split, IsStack;
    StackFacts();
    var end := EndOf(content);
    if end == -1 {
      return EMPTY_OBJECT;
    }
    var lines := Split(content[|FENCE|..end]);
    var stack := ROOT;
    ghost var classified := ClassifyAll(lines);
    assert classified[0..] == classified;
    for i := 0 to |lines|
      invariant IsStack(stack)
      invariant ApplyAll(stack, classified[i..]) == ApplyAll(ROOT, classified)
    {
      var line := Classify(lines[i]);
      assert classified[i..][0] == line && classified[i..][1..] == classified[i + 1..];
      match line {
        case Blank =>
        case KeyValue(indent, key, value) =>
          stack := PopFrames(stack, indent);
          stack := ApplyKey(stack, indent, key, value);
        case Item(indent, text) =>
          stack := PopFrames(stack, indent);
          stack := ApplyItem(stack, text);
        case Other(indent) =>
          stack := PopFrames(stack, indent);
      }
    }
    StackIsNonEmpty(PopTo(stack, -1));
    return PopTo(stack, -1)[0].obj;
  }

  lemma {:induction false} StackFacts()
    ensures IsStack(ROOT)
  {
  }

  lemma {:induction false} StackIsNonEmpty(stack: seq<Frame>)
    requires IsStack(stack)
    ensures stack != []
  {
  }

  // ---------- What a parse can return ----------

  predicate InOneLine(s: string) {
    forall i :: 0 <= i < |s| ==> !IsTerminator(s[i])
  }

  predicate IsKeyText(key: string) {
    key != "" && forall i :: 0 <= i < |key| ==> IsKeyChar(key[i])
  }

  predicate IsKey(key: string) {
    IsKeyText(key) && key != PROTO
  }

  ghost predicate IsNewKey(fields: seq<Field>, key: string) {
    forall i :: 0 <= i < |fields| ==> fields[i].key != key
  }

  // Texts on one line, items without newlines, and different keys of key characters.
  ghost predicate IsReadable(v: Value)
    decreases v, 0
  {
    match v
    case Str(text) => InOneLine(text)
    case Node(_, items, fields) => AreLines(items) && AreReadable(fields)
  }

  ghost predicate AreReadable(fields: seq<Field>)
    decreases fields
  {
    fields == [] ||
    (IsKey(fields[0].key) && IsNewKey(fields[1..], fields[0].key) && IsReadable(fields[0].value) &&
     AreReadable(fields[1..]))
  }

  // The parts of an inline list.
  predicate ArePlain(parts: seq<string>) {
    forall i :: 0 <= i < |parts| ==> InOneLine(parts[i]) && ',' !in parts[i]
  }

  predicate AreLines(items: seq<string>) {
    forall i :: 0 <= i < |items| ==> IsLine(items[i])
  }

  lemma {:induction false} SetFieldKeys(fields: seq<Field>, key: string, value: Value, other: string)
    requires IsNewKey(fields, other) && key != other
    ensures IsNewKey(SetField(fields, key, value), other)
  {
    if fields != [] && fields[0].key != key {
      SetFieldKeys(fields[1..], key, value, other);
    }
  }

  lemma {:induction false} SetFieldReadable(fields: seq<Field>, key: string, value: Value)
    requires AreReadable(fields) && IsKey(key) && IsReadable(value)
    ensures AreReadable(SetField(fields, key, value))
  {
    hide IsKey, IsReadable;
    if fields == [] {
      assert [Field(key, value)][1..] == [];
    } else if fields[0].key != key {
      SetFieldReadable(fields[1..], key, value);
      SetFieldKeys(fields[1..], key, value, fields[0].key);
      hide IsNewKey;
    }
  }

  lemma {:induction false} SetPropertyReadable(obj: Value, key: string, value: Value)
    requires obj.Node? && IsReadable(obj) && IsKeyText(key) && IsReadable(value)
    ensures SetProperty(obj, key, value).Node? && IsReadable(SetProperty(obj, key, value))
  {
    if key != PROTO {
      SetFieldReadable(obj.fields, key, value);
    }
    hide IsKeyText, AreLines, SetField;
  }

  ghost predicate IsReadableStack(stack: seq<Frame>) {
    && IsStack(stack)
    && (forall k :: 0 <= k < |stack| ==> IsReadable(stack[k].obj))
    && (forall k :: 1 <= k < |stack| ==> IsKeyText(stack[k].key))
  }

  ghost predicate IsReadableLine(line: Line) {
    match line
    case Blank => true
    case KeyValue(_, key, value) => IsKeyText(key) && InOneLine(value)
    case Item(_, text) => IsLine(text)
    case Other(_) => true
  }

  lemma {:induction false} CloseReadable(stack: seq<Frame>)
    requires IsReadableStack(stack) && |stack| > 1
    ensures IsReadableStack(Close(stack))
  {
    hide IsReadable, SetProperty, IsKeyText;
    var top, below := stack[|stack| - 1], stack[|stack| - 2];
    SetPropertyReadable(below.obj, top.key, top.obj);
  }

  lemma {:induction false} PopReadable(stack: seq<Frame>, indent: int)
    requires IsReadableStack(stack)
    ensures IsReadableStack(PopTo(stack, indent))
    decreases |stack|
  {
    hide IsReadableStack, IsReadable, Close;
    ReadableIsStack(stack);
    if |stack| > 1 && indent <= stack[|stack| - 1].indent {
      CloseReadable(stack);
      PopReadable(Close(stack), indent);
    }
  }

  lemma {:induction false} ReplaceReadable(stack: seq<Frame>, obj: Value)
    requires IsReadableStack(stack) && obj.Node? && IsReadable(obj)
    ensures IsReadableStack(Replace(stack, obj))
  {
    hide IsReadable, IsKeyText;
  }

  lemma {:induction false} SplitCommaInLine(s: string)
    requires InOneLine(s)
    ensures ArePlain(SplitComma(s))
  {
    if s != "" {
      SplitCommaInLine(s[1..]);
      hide SplitComma;
      SplitCommaUnfold(s);
    }
  }

  lemma {:induction false} SplitCommaUnfold(s: string)
    requires s != ""
    ensures var rest := SplitComma(s[1..]);
            SplitComma(s) == if s[0] == ',' then [""] + rest else [[s[0]] + rest[0]] + rest[1..]
  {
  }

  // Cutting off the ends of a text leaves a piece of it.
  ghost predicate IsPiece(part: string, whole: string) {
    exists i: nat, j: nat :: i <= j <= |whole| && part == whole[i..j]
  }

  lemma {:induction false} PieceOfPiece(a: string, b: string, c: string)
    requires IsPiece(a, b) && IsPiece(b, c)
    ensures IsPiece(a, c)
  {
    var i: nat, j: nat :| i <= j <= |b| && a == b[i..j];
    var k: nat, l: nat :| k <= l <= |c| && b == c[k..l];
    assert |a| == |c[k + i..k + j]|;
    assert forall x :: 0 <= x < |a| ==> a[x] == b[i + x] == c[k + i + x];
    assert a == c[k + i..k + j];
  }

  lemma {:induction false} TrimIsPiece(s: string)
    ensures IsPiece(Trim(s), s)
  {
    var from := s[SkipWhile(IsSpace, s, 0)..];
    assert from == s[SkipWhile(IsSpace, s, 0)..|s|];
    assert Trim(s) == from[0..|Trim(s)|];
    assert IsPiece(from, s) && IsPiece(Trim(s), from);
    PieceOfPiece(Trim(s), from, s);
  }

  lemma {:induction false} StripIsPiece(s: string)
    ensures IsPiece(StripQuotes(s), s)
  {
    var i := if s != "" && IsQuote(s[0]) then 1 else 0;
    var t := s[i..];
    assert s[0..] == s;
    var j := if t != "" && IsQuote(t[|t| - 1]) then |s| - 1 else |s|;
    assert StripQuotes(s) == s[i..j];
  }

  lemma {:induction false} PieceInLine(part: string, whole: string)
    requires IsPiece(part, whole)
    ensures InOneLine(whole) ==> InOneLine(part)
    ensures IsLine(whole) ==> IsLine(part)
    ensures ',' !in whole ==> ',' !in part
  {
  }

  // What is left of one part of an inline list.
  lemma {:induction false} PartInLine(part: string)
    ensures InOneLine(part) ==> InOneLine(StripQuotes(Trim(part)))
    ensures IsLine(part) ==> IsLine(StripQuotes(Trim(part)))
    ensures ',' !in part ==> ',' !in StripQuotes(Trim(part))
  {
    TrimIsPiece(part);
    StripIsPiece(Trim(part));
    PieceOfPiece(StripQuotes(Trim(part)), Trim(part), part);
    PieceInLine(StripQuotes(Trim(part)), part);
    hide Trim, StripQuotes, IsPiece;
  }

  // The items of an inline list are on one line and hold no comma.
  lemma {:induction false} InlineInLine(parts: seq<string>)
    requires ArePlain(parts)
    ensures ArePlain(InlineItems(parts)) && |InlineItems(parts)| <= |parts|
  {
    hide Trim, StripQuotes, InOneLine;
    if parts != [] {
      PartInLine(parts[0]);
      InlineInLine(parts[1..]);
    }
  }

  lemma {:induction false} InlineListReadable(value: string)
    requires InOneLine(value) && IsBracketed(value)
    ensures ArePlain(InlineList(value).items) && IsReadable(InlineList(value))
  {
    var inner := if |value| >= 2 then value[1..|value| - 1] else "";
    SplitCommaInLine(inner);
    InlineInLine(SplitComma(inner));
    hide SplitComma, InlineItems;
    forall i | 0 <= i < |InlineList(value).items|
      ensures IsLine(InlineList(value).items[i])
    {
      assert InOneLine(InlineList(value).items[i]);
    }
  }

  lemma {:induction false} KeyReadable(stack: seq<Frame>, indent: nat, key: string, value: string)
    requires IsReadableStack(stack) && IsKeyText(key) && InOneLine(value)
    ensures IsReadableStack(ApplyKey(stack, indent, key, value))
  {
    var child := if value == "" || value == "[" then Node(value == "[", [], [])
                 else if IsBracketed(value) then InlineList(value) else Str(StripQuotes(value));
    if value != "" && value != "[" {
      if IsBracketed(value) {
        InlineListReadable(value);
      } else {
        StripIsPiece(value);
        PieceInLine(StripQuotes(value), value);
      }
    }
    assert IsReadable(child);
    hide IsReadable, InlineList, StripQuotes, IsKeyText, InOneLine, SetProperty, IsBracketed;
    var obj := stack[|stack| - 1].obj;
    SetPropertyReadable(obj, key, child);
    ReplaceReadable(stack, SetProperty(obj, key, child));
  }

  lemma {:induction false} ItemReadable(stack: seq<Frame>, item: string)
    requires IsReadableStack(stack) && IsLine(item)
    ensures IsReadableStack(ApplyItem(stack, item))
  {
    var obj := stack[|stack| - 1].obj;
    assert IsReadable(obj);
    if !obj.isList && obj.fields == [] {
      ReplaceReadable(stack, Node(true, [item], []));
    } else if obj.isList {
      ReplaceReadable(stack, obj.(items := obj.items + [item]));
    }
    hide AreReadable, IsReadableStack, IsLine;
  }

  lemma {:induction false} AllReadable(stack: seq<Frame>, lines: seq<Line>)
    requires IsReadableStack(stack) && forall k :: 0 <= k < |lines| ==> IsReadableLine(lines[k])
    ensures IsReadableStack(ApplyAll(stack, lines))
    decreases |lines|
  {
    hide IsReadableStack, ApplyKey, ApplyItem, PopTo;
    ReadableIsStack(stack);
    if lines != [] {
      assert IsReadableLine(lines[0]);
      match lines[0] {
        case Blank =>
        case KeyValue(indent, key, value) =>
          PopReadable(stack, indent);
          KeyReadable(PopTo(stack, indent), indent, key, value);
        case Item(indent, text) =>
          PopReadable(stack, indent);
          ItemReadable(PopTo(stack, indent), text);
        case Other(indent) =>
          PopReadable(stack, indent);
      }
      AllReadable(Apply(stack, lines[0]), lines[1..]);
    }
  }

  lemma {:induction false} ReadableIsStack(stack: seq<Frame>)
    requires IsReadableStack(stack)
    ensures IsStack(stack)
  {
  }

  // The value of a key line lies between two positions of it.
  lemma {:induction false} ValueInLine(line: string, v: nat, w: nat)
    requires v <= w <= |line| && forall k :: v <= k < w ==> InLine(line[k])
    ensures InOneLine(Trim(line[v..w]))
  {
    hide IsTerminator;
    assert InOneLine(line[v..w]);
    TrimIsPiece(line[v..w]);
    PieceInLine(Trim(line[v..w]), line[v..w]);
  }

  lemma {:induction false} ItemInLine(line: string)
    requires IsLine(line) && |Trim(line)| >= 2
    ensures IsLine(StripQuotes(Trim(line)[2..]))
  {
    TrimIsPiece(line);
    PieceInLine(Trim(line), line);
    var item := Trim(line)[2..];
    StripIsPiece(item);
    PieceInLine(StripQuotes(item), item);
    hide IsPiece, Trim, StripQuotes;
  }

  lemma {:induction false} ClassifyReadable(line: string)
    requires IsLine(line)
    ensures IsReadableLine(Classify(line))
  {
    hide IsSpace, IsTerminator, IsKeyChar, Trim, StripQuotes, SkipWhile, IsLine, InOneLine;
    var n := SkipWhile(IsSpace, line, 0);
    var e := SkipWhile(IsKeyChar, line, n);
    if n < e < |line| && line[e] == ':' {
      var v := SkipWhile(IsSpace, line, e + 1);
      ValueInLine(line, v, SkipWhile(InLine, line, v));
    } else if StartsAt(Trim(line), 0, "- ") {
      ItemInLine(line);
    }
  }

  lemma {:induction false} SplitIsLines(text: string)
    ensures AreLines(Split(text))
  {
    if text != "" {
      SplitIsLines(text[1..]);
      SplitUnfold(text);
      hide Split;
    }
  }

  // Whatever the document, a parse returns a readable object.
  lemma {:induction false} ParseIsReadable(content: string)
    ensures IsReadable(Parse(content))
  {
    var end := EndOf(content);
    if end != -1 {
      var lines := Split(content[|FENCE|..end]);
      SplitIsLines(content[|FENCE|..end]);
      forall k | 0 <= k < |lines|
        ensures IsReadableLine(Classify(lines[k]))
      {
        ClassifyReadable(lines[k]);
      }
      hide Split, Classify, IsReadableLine, AreLines, EndOf;
      RootIsReadable();
      AllReadable(ROOT, ClassifyAll(lines));
      PopReadable(ApplyAll(ROOT, ClassifyAll(lines)), -1);
    }
  }

  lemma {:induction false} RootIsReadable()
    ensures IsReadableStack(ROOT) && IsReadable(EMPTY_OBJECT)
  {
  }
}
