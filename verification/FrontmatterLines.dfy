// How the parser of the frontmatter reads a printed line (plugin.js, extractFrontmatter on
// the lines of reconstructFrontmatter), whatever text the line was printed from, and which
// texts it reads as they were.
module FrontmatterLines {
  import opened Strings
  import opened FrontmatterParser
  import opened FrontmatterPrinter

  // ---------- Trimming ----------

  lemma {:induction false} TrimEndKeeps(s: string)
    requires s != "" && !IsSpace(s[0])
    ensures TrimEnd(s) != ""
  {
    if IsSpace(s[|s| - 1]) {
      TrimEndKeeps(s[..|s| - 1]);
    }
  }

  lemma {:induction false} TrimEndConcat(a: string, b: string)
    ensures TrimEnd(a + b) == if TrimEnd(b) == "" then TrimEnd(a) else a + TrimEnd(b)
  {
    hide IsSpace;
    if b == "" {
      assert a + b == a;
    } else if IsSpace(b[|b| - 1]) {
      assert (a + b)[..|a + b| - 1] == a + b[..|b| - 1];
      TrimEndConcat(a, b[..|b| - 1]);
    }
  }

  lemma {:induction false} TrimKeepsExactlyWhen(s: string)
    ensures |Trim(s)| <= |s|
    ensures Trim(s) == s <==> s == "" || IsTrimmed(s)
  {
    if s != "" && !IsSpace(s[0]) {
      SkipWhileIs(IsSpace, s, 0, 0);
      assert s[0..] == s;
    }
  }

  lemma {:induction false} StripKeepsExactlyWhen(s: string)
    ensures |StripQuotes(s)| <= |s|
    ensures StripQuotes(s) == s <==> HasNoEdgeQuotes(s)
  {
  }

  // Trimming and taking off quotes leaves exactly the clean texts alone.
  lemma {:induction false} CleanExactlyWhen(s: string)
    ensures StripQuotes(Trim(s)) == s <==> s == "" || IsClean(s)
  {
    TrimKeepsExactlyWhen(s);
    StripKeepsExactlyWhen(Trim(s));
    if StripQuotes(Trim(s)) == s {
      assert |Trim(s)| == |s|;
      TrimIsPiece(s);
      WholePiece(Trim(s), s);
    }
    hide Trim, StripQuotes, IsTrimmed, HasNoEdgeQuotes, IsPiece;
  }

  lemma {:induction false} WholePiece(part: string, whole: string)
    requires IsPiece(part, whole) && |part| == |whole|
    ensures part == whole
  {
  }

  lemma {:induction false} QuotedStays(s: string)
    ensures StripQuotes(Quote(s)) == s && IsTrimmed(Quote(s)) && |Quote(s)| >= 2 && !IsBracketed(Quote(s))
    ensures InOneLine(s) ==> InOneLine(Quote(s))
    ensures IsLine(s) ==> IsLine(Quote(s))
  {
    var q, t := Quote(s), s + "\"";
    assert q == ['"'] + t;
    assert q[1..] == t;
    assert t[..|s|] == s;
    assert q[1..|q| - 1] == s;
    assert forall i :: 1 <= i < |q| - 1 ==> q[i] == s[i - 1];
  }

  // ---------- Key lines ----------

  // What the pattern takes from a line after the colon and a space.
  function ReadText(printed: string): string {
    var v := SkipWhile(IsSpace, printed, 0);
    Trim(printed[v..SkipWhile(InLine, printed, v)])
  }

  lemma {:induction false} SkipShift(p: char -> bool, a: string, b: string, i: nat)
    requires i <= |b|
    ensures SkipWhile(p, a + b, |a| + i) == |a| + SkipWhile(p, b, i)
  {
    var j := SkipWhile(p, b, i);
    assert forall k :: 0 <= k < |b| ==> (a + b)[|a| + k] == b[k];
    forall k | |a| + i <= k < |a| + j
      ensures p((a + b)[k])
    {
      assert (a + b)[k] == b[k - |a|];
    }
    SkipWhileIs(p, a + b, |a| + i, |a| + j);
  }

  lemma {:induction false} KeyCharsAreNotSpace(key: string)
    requires IsKey(key)
    ensures !IsSpace(key[0])
  {
    assert IsKeyChar(key[0]);
  }

  // The characters of "  key:", followed by anything.
  lemma {:induction false} HeadReads(line: string, indent: nat, key: string, rest: string)
    requires IsKey(key) && line == BareKeyLine(indent, key) + rest
    ensures var colon := indent + |key|;
      && indent < colon < |line| && line[colon] == ':' && line[indent..colon] == key && Trim(line) != ""
      && SkipWhile(IsSpace, line, 0) == indent && SkipWhile(IsKeyChar, line, indent) == colon
  {
    KeyCharsAreNotSpace(key);
    assert IsSpace(' ') && !IsKeyChar(':');
    hide IsSpace, IsKeyChar;
    var colon := indent + |key|;
    assert forall i :: 0 <= i < indent ==> line[i] == ' ';
    assert forall i :: indent <= i < colon ==> line[i] == key[i - indent];
    SkipWhileIs(IsSpace, line, 0, indent);
    SkipWhileIs(IsKeyChar, line, indent, colon);
    TrimEndKeeps(line[indent..]);
  }

  lemma {:induction false} BareKeyReads(indent: nat, key: string)
    requires IsKey(key)
    ensures Classify(BareKeyLine(indent, key)) == KeyValue(indent, key, "")
  {
    var line := BareKeyLine(indent, key);
    HeadReads(line, indent, key, "");
    assert |line| == indent + |key| + 1;
    assert line[|line|..|line|] == "";
    TrimNothing();
    hide IsSpace, IsKeyChar, IsTerminator, IsKey, Trim, BareKeyLine;
  }

  lemma {:induction false} TrimNothing()
    ensures Trim("") == ""
  {
  }

  // A key line, from where its four runs stop.
  lemma {:induction false} ClassifyFrom(line: string, n: nat, e: nat, v: nat, w: nat)
    requires n < e < |line| && line[e] == ':' && e < v <= w <= |line| && Trim(line) != ""
    requires SkipWhile(IsSpace, line, 0) == n && SkipWhile(IsKeyChar, line, n) == e
    requires SkipWhile(IsSpace, line, e + 1) == v && SkipWhile(InLine, line, v) == w
    ensures Classify(line) == KeyValue(n, line[n..e], Trim(line[v..w]))
  {
    hide IsSpace, IsKeyChar, IsTerminator, SkipWhile, Trim;
  }

  // The text runs as far in a line, from v to w, as it does on its own.
  lemma {:induction false} TextRuns(line: string, head: string, printed: string) returns (v: nat, w: nat)
    requires head != "" && head[|head| - 1] == ' ' && line == head + printed
    ensures |head| <= v <= w <= |line|
    ensures SkipWhile(IsSpace, line, |head| - 1) == v && SkipWhile(InLine, line, v) == w
    ensures ReadText(printed) == Trim(line[v..w])
  {
    assert IsSpace(' ');
    hide IsSpace, IsTerminator, Trim;
    var i := SkipWhile(IsSpace, printed, 0);
    assert line[|head| - 1] == ' ';
    SkipShift(IsSpace, head, printed, 0);
    SkipShift(InLine, head, printed, i);
    v, w := |head| + i, |head| + SkipWhile(InLine, printed, i);
    assert line[v..w] == printed[i..SkipWhile(InLine, printed, i)];
  }

  lemma {:induction false} KeyLineParts(line: string, indent: nat, key: string, printed: string) returns (head: string)
    requires line == KeyLine(indent, key, printed)
    ensures line == head + printed && line == BareKeyLine(indent, key) + (" " + printed)
    ensures |head| == indent + |key| + 2 && head[|head| - 1] == ' '
  {
    head := BareKeyLine(indent, key) + " ";
  }

  lemma {:induction false} KeyLineReads(indent: nat, key: string, printed: string)
    requires IsKey(key)
    ensures Classify(KeyLine(indent, key, printed)) == KeyValue(indent, key, ReadText(printed))
  {
    hide IsSpace, IsKeyChar, IsTerminator, IsKey, Trim, SkipWhile, Classify, BareKeyLine, KeyLine, ReadText;
    var line, colon := KeyLine(indent, key, printed), indent + |key|;
    var head := KeyLineParts(line, indent, key, printed);
    HeadReads(line, indent, key, " " + printed);
    var v, w := TextRuns(line, head, printed);
    ClassifyFrom(line, indent, colon, v, w);
  }

  lemma {:induction false} TextOnOneLine(printed: string)
    requires InOneLine(printed)
    ensures ReadText(printed) == Trim(printed)
  {
    hide IsTerminator, IsSpace;
    var v := SkipWhile(IsSpace, printed, 0);
    SkipWhileIs(InLine, printed, v, |printed|);
    var text := printed[v..];
    assert printed[v..|printed|] == text;
    SkipWhileIs(IsSpace, text, 0, 0);
    assert text[0..] == text;
  }

  // A text that stops before a line terminator never holds one.
  lemma {:induction false} TextInLine(printed: string)
    ensures InOneLine(ReadText(printed))
  {
    var v := SkipWhile(IsSpace, printed, 0);
    ValueInLine(printed, v, SkipWhile(InLine, printed, v));
    hide IsSpace, IsTerminator, Trim;
  }

  // ---------- Any line ----------

  // White space up to n, a key up to the colon at e, white space up to v, and from there a
  // text up to w, where the line ends.
  ghost predicate IsKeyLine(line: string, n: nat, e: nat, v: nat, w: nat) {
    && n < e < v <= w <= |line|
    && IsBlank(line[..n]) && IsKeyText(line[n..e]) && line[e] == ':' && IsBlank(line[e + 1..v])
    && InOneLine(line[v..w])
    && (v < |line| ==> !IsSpace(line[v])) && (w < |line| ==> IsTerminator(line[w]))
  }

  lemma {:induction false} KeyLineRuns(line: string, n: nat, e: nat, v: nat, w: nat)
    requires IsKeyLine(line, n, e, v, w)
    ensures !IsSpace(line[n])
    ensures SkipWhile(IsSpace, line, 0) == n && SkipWhile(IsKeyChar, line, n) == e
    ensures SkipWhile(IsSpace, line, e + 1) == v && SkipWhile(InLine, line, v) == w
  {
    assert IsKeyChar(line[n..e][0]) && !IsKeyChar(':');
    assert !IsSpace(line[n]);
    hide IsSpace, IsKeyChar, IsTerminator;
    assert forall i :: 0 <= i < n ==> line[i] == line[..n][i];
    assert forall i :: n <= i < e ==> line[i] == line[n..e][i - n];
    assert forall i :: e < i < v ==> line[i] == line[e + 1..v][i - e - 1];
    assert forall i :: v <= i < w ==> line[i] == line[v..w][i - v];
    SkipWhileIs(IsSpace, line, 0, n);
    SkipWhileIs(IsKeyChar, line, n, e);
    SkipWhileIs(IsSpace, line, e + 1, v);
    SkipWhileIs(InLine, line, v, w);
  }

  lemma {:induction false} StartsInk(line: string, n: nat)
    requires n < |line| && SkipWhile(IsSpace, line, 0) == n && !IsSpace(line[n])
    ensures Trim(line) != ""
  {
    TrimEndKeeps(line[n..]);
    hide TrimEnd, IsSpace, SkipWhile;
  }

  lemma {:induction false} KeyLineIsRead(line: string, n: nat, e: nat, v: nat, w: nat)
    requires IsKeyLine(line, n, e, v, w)
    ensures Classify(line) == KeyValue(n, line[n..e], Trim(line[v..w]))
  {
    hide IsSpace, IsKeyChar, IsTerminator, SkipWhile, Trim, IsBlank, IsKeyText, InOneLine, Classify;
    KeyLineRuns(line, n, e, v, w);
    StartsInk(line, n);
    ClassifyFrom(line, n, e, v, w);
  }

  // The four runs of a line that sets a key are its parts.
  lemma {:induction false} RunsAreParts(line: string, n: nat, e: nat, v: nat, w: nat)
    requires n < e < |line| && line[e] == ':' && e < v <= w <= |line|
    requires SkipWhile(IsSpace, line, 0) == n && SkipWhile(IsKeyChar, line, n) == e
    requires SkipWhile(IsSpace, line, e + 1) == v && SkipWhile(InLine, line, v) == w
    ensures IsKeyLine(line, n, e, v, w)
  {
    hide IsSpace, IsKeyChar, IsTerminator, SkipWhile;
    forall i | 0 <= i < n
      ensures IsSpace(line[..n][i])
    {
      assert IsSpace(line[i]);
    }
    forall i | 0 <= i < e - n
      ensures IsKeyChar(line[n..e][i])
    {
      assert IsKeyChar(line[n + i]);
    }
    var gap := line[e + 1..v];
    forall i | 0 <= i < |gap|
      ensures IsSpace(gap[i])
    {
      assert IsSpace(line[e + 1 + i]);
    }
    forall i | 0 <= i < w - v
      ensures !IsTerminator(line[v..w][i])
    {
      assert InLine(line[v + i]);
    }
  }

  lemma {:induction false} KeyLineHasParts(line: string, n: nat, key: string, value: string)
    returns (e: nat, v: nat, w: nat)
    requires Classify(line) == KeyValue(n, key, value)
    ensures IsKeyLine(line, n, e, v, w) && key == line[n..e] && value == Trim(line[v..w])
  {
    hide Trim, IsSpace, IsKeyChar, IsTerminator, SkipWhile, IsKeyLine;
    e := SkipWhile(IsKeyChar, line, n);
    v := SkipWhile(IsSpace, line, e + 1);
    w := SkipWhile(InLine, line, v);
    RunsAreParts(line, n, e, v, w);
  }

  // A line sets a key exactly when it is made of these parts; the text is trimmed.
  lemma {:induction false} KeyLineExactlyWhen(line: string, n: nat, key: string, value: string)
    ensures Classify(line) == KeyValue(n, key, value) <==>
      exists e: nat, v: nat, w: nat ::
        IsKeyLine(line, n, e, v, w) && key == line[n..e] && value == Trim(line[v..w])
  {
    hide Classify, SkipWhile, Trim, IsBlank, IsKeyText, InOneLine, IsSpace, IsTerminator;
    if e: nat, v: nat, w: nat :|
      IsKeyLine(line, n, e, v, w) && key == line[n..e] && value == Trim(line[v..w]) {
      KeyLineIsRead(line, n, e, v, w);
    }
    if Classify(line) == KeyValue(n, key, value) {
      var e, v, w := KeyLineHasParts(line, n, key, value);
    }
  }

  // White space up to n, a dash and a space, and something behind them that is no white space.
  ghost predicate IsItemLine(line: string, n: nat) {
    n + 2 <= |line| && IsBlank(line[..n]) && line[n] == '-' && line[n + 1] == ' ' && TrimEnd(line[n + 2..]) != ""
  }

  lemma {:induction false} DashRuns(line: string, n: nat)
    requires n + 2 <= |line| && IsBlank(line[..n]) && line[n] == '-' && line[n + 1] == ' '
    ensures SkipWhile(IsSpace, line, 0) == n && SkipWhile(IsKeyChar, line, n) == n + 1
  {
    assert IsSpace(' ') && !IsSpace('-') && IsKeyChar('-') && !IsKeyChar(' ');
    hide IsSpace, IsKeyChar;
    assert forall i :: 0 <= i < n ==> line[i] == line[..n][i];
    SkipWhileIs(IsSpace, line, 0, n);
    SkipWhileIs(IsKeyChar, line, n, n + 1);
  }

  lemma {:induction false} DashTrims(line: string, n: nat)
    requires n + 2 <= |line| && SkipWhile(IsSpace, line, 0) == n && line[n] == '-' && line[n + 1] == ' '
    ensures Trim(line) == if TrimEnd(line[n + 2..]) == "" then "-" else "- " + TrimEnd(line[n + 2..])
  {
    assert line[n..] == "- " + line[n + 2..];
    TrimEndConcat("- ", line[n + 2..]);
    TrimDash();
    hide TrimEnd, SkipWhile;
  }

  lemma {:induction false} ItemLineIsRead(line: string, n: nat)
    requires IsItemLine(line, n)
    ensures Classify(line) == Item(n, StripQuotes(TrimEnd(line[n + 2..])))
  {
    DashRuns(line, n);
    DashTrims(line, n);
    hide IsSpace, IsKeyChar, IsTerminator, Trim, TrimEnd, StripQuotes, SkipWhile;
    var text := TrimEnd(line[n + 2..]);
    assert ("- " + text)[0..2] == "- " && ("- " + text)[2..] == text;
  }

  lemma {:induction false} ItemLineHasParts(line: string, n: nat, item: string)
    requires Classify(line) == Item(n, item)
    ensures IsItemLine(line, n) && item == StripQuotes(TrimEnd(line[n + 2..]))
  {
    ItemStarts(line, n, item);
    DashTrims(line, n);
    hide IsSpace, IsKeyChar, IsTerminator, TrimEnd, StripQuotes, Trim;
    var text := TrimEnd(line[n + 2..]);
    assert ("- " + text)[2..] == text;
    forall i | 0 <= i < n
      ensures IsSpace(line[..n][i])
    {
      assert IsSpace(line[i]);
    }
    hide SkipWhile;
  }

  lemma {:induction false} ItemStarts(line: string, n: nat, item: string)
    requires Classify(line) == Item(n, item)
    ensures SkipWhile(IsSpace, line, 0) == n && n + 2 <= |line| && line[n] == '-' && line[n + 1] == ' '
    ensures StartsAt(Trim(line), 0, "- ") && item == StripQuotes(Trim(line)[2..])
  {
    hide IsSpace, IsKeyChar, IsTerminator, TrimEnd, StripQuotes, SkipWhile;
    var trimmed, rest := Trim(line), line[n..];
    assert trimmed[0..2] == "- ";
    assert trimmed[0] == trimmed[0..2][0] && trimmed[1] == trimmed[0..2][1];
    assert trimmed <= rest && rest[0] == trimmed[0] && rest[1] == trimmed[1];
  }

  // A line adds an item exactly when it is made of these parts; the item loses the white
  // space at its end and its edge quotes.
  lemma {:induction false} ItemLineExactlyWhen(line: string, n: nat, item: string)
    ensures Classify(line) == Item(n, item) <==>
      IsItemLine(line, n) && item == StripQuotes(TrimEnd(line[n + 2..]))
  {
    hide Classify, IsItemLine, TrimEnd, StripQuotes;
    if IsItemLine(line, n) {
      ItemLineIsRead(line, n);
    }
    if Classify(line) == Item(n, item) {
      ItemLineHasParts(line, n, item);
    }
    ItemLineIsLong(line, n);
  }

  lemma {:induction false} ItemLineIsLong(line: string, n: nat)
    ensures IsItemLine(line, n) ==> n + 2 <= |line|
  {
  }

  // ---------- Scalars ----------

  // The value a key line sets, once the frame it may open has been closed again.
  function ReadScalar(value: string): (v: Value) {
    if value == "" then EMPTY_OBJECT
    else if value == "[" then Node(true, [], [])
    else if IsBracketed(value) then InlineList(value)
    else Str(StripQuotes(value))
  }

  lemma {:induction false} ScalarExactlyWhen(text: string, level: nat)
    requires InOneLine(text)
    ensures ReadScalar(ReadText(PrintScalar(text, level))) == Str(text) <==> IsSafeScalar(text, level)
  {
    hide IsTerminator, InOneLine, IsSpace, Trim, StripQuotes, InlineList, IsQuotedScalar;
    if IsQuotedScalar(text, level) {
      QuotedStays(text);
      TextOnOneLine(Quote(text));
      TrimKeepsExactlyWhen(Quote(text));
    } else {
      TextOnOneLine(text);
      TrimKeepsExactlyWhen(text);
      CleanExactlyWhen(text);
    }
  }

  // ---------- Lists in brackets ----------

  function Brackets(s: string): string { "[" + s + "]" }

  lemma {:induction false} BracketsRead(s: string)
    requires InOneLine(s)
    ensures ReadText(Brackets(s)) == Brackets(s) && IsBracketed(Brackets(s)) && Brackets(s) != "["
    ensures InlineList(Brackets(s)) == Node(true, InlineItems(SplitComma(s)), [])
  {
    var b := Brackets(s);
    assert b[1..|b| - 1] == s;
    assert forall i :: 1 <= i < |b| - 1 ==> b[i] == s[i - 1];
    TextOnOneLine(b);
    TrimTrimmed(b);
    hide InlineItems, SplitComma, Trim, ReadText, IsSpace;
  }

  lemma {:induction false} NothingInline()
    ensures InlineItems(SplitComma("")) == []
  {
    TrimNothing();
    hide Trim;
    InlineUncons([""]);
    assert [""][1..] == [];
  }

  lemma {:induction false} EmptyListReads()
    ensures Brackets("") == "[]" && ReadScalar(ReadText("[]")) == Node(true, [], [])
  {
    hide ReadText, InlineList, IsBracketed, SplitComma, InlineItems;
    NothingInline();
    BracketsRead("");
    assert Brackets("") == "[]";
  }

  // An object too deep to be printed is read as a list.
  lemma {:induction false} ObjectTextReads()
    ensures var v := ReadScalar(ReadText("[object Object]")); v.Node? && v.isList
  {
    hide ReadText, SplitComma, InlineItems, Trim;
    var s := "object Object";
    assert InOneLine(s);
    BracketsRead(s);
    assert Brackets(s) == "[object Object]";
  }

  lemma {:induction false} SplitCommaPart(part: string, rest: string)
    requires ',' !in part
    ensures SplitComma(part) == [part]
    ensures SplitComma(part + "," + rest) == [part] + SplitComma(rest)
  {
    var text := part + "," + rest;
    if part == "" {
      assert text[1..] == rest;
    } else {
      SplitCommaPart(part[1..], rest);
      assert text[1..] == part[1..] + "," + rest && text[0] == part[0];
      assert part == [part[0]] + part[1..];
    }
  }

  ghost predicate AreClean(items: seq<string>) {
    forall i :: 0 <= i < |items| ==> IsClean(items[i])
  }

  lemma {:induction false} InlineAtMost(parts: seq<string>)
    ensures |InlineItems(parts)| <= |parts|
  {
    if parts != [] {
      InlineAtMost(parts[1..]);
    }
  }

  // One part is read as its item exactly when the item is clean.
  lemma {:induction false} PartExactlyWhen(pad: nat, item: string)
    ensures StripQuotes(Trim(Spaces(pad) + item)) == item && item != "" <==> IsClean(item)
  {
    TrimSpaces(pad, item);
    CleanExactlyWhen(item);
    hide Trim, StripQuotes;
  }

  lemma {:induction false} TrimSpaces(pad: nat, s: string)
    ensures Trim(Spaces(pad) + s) == Trim(s)
  {
    var text, v := Spaces(pad) + s, SkipWhile(IsSpace, s, 0);
    assert forall k :: 0 <= k < |s| ==> text[pad + k] == s[k];
    assert forall k :: pad <= k < pad + v ==> text[k] == s[k - pad];
    assert IsSpace(' ');
    SkipWhileIs(IsSpace, text, 0, pad + v);
    assert text[pad + v..] == s[v..];
    hide IsSpace, TrimEnd;
  }

  lemma {:induction false} InlineUncons(parts: seq<string>)
    requires parts != []
    ensures var item := StripQuotes(Trim(parts[0]));
      InlineItems(parts) == (if item != "" then [item] else []) + InlineItems(parts[1..])
  {
  }

  // The parts an inline list is split into.
  lemma {:induction false} InlineParts(items: seq<string>, pad: nat)
    requires items != [] && ',' !in items[0]
    ensures var parts := SplitComma(Spaces(pad) + JoinComma(items));
      && parts[0] == Spaces(pad) + items[0]
      && parts[1..] == if |items| == 1 then [] else SplitComma(Spaces(1) + JoinComma(items[1..]))
  {
    hide SplitComma;
    var first := Spaces(pad) + items[0];
    assert ',' !in first;
    if |items| == 1 {
      SplitCommaPart(first, "");
    } else {
      var more := Spaces(1) + JoinComma(items[1..]);
      assert Spaces(pad) + JoinComma(items) == first + "," + more by {
        assert Spaces(1) == " ";
        assert ", " == "," + " ";
      }
      SplitCommaPart(first, more);
    }
  }

  // The items of an inline list are read back exactly when all of them are clean.
  lemma {:induction false} InlineExactlyWhen(items: seq<string>, pad: nat)
    requires items != [] && forall i :: 0 <= i < |items| ==> ',' !in items[i]
    ensures var parts := SplitComma(Spaces(pad) + JoinComma(items));
      |parts| == |items| && (InlineItems(parts) == items <==> AreClean(items))
  {
    hide SplitComma, Trim, StripQuotes, IsClean, JoinComma, AreClean, InlineItems;
    var rest := items[1..];
    var parts := SplitComma(Spaces(pad) + JoinComma(items));
    InlineParts(items, pad);
    PartExactlyWhen(pad, items[0]);
    if |items| == 1 {
      NoInline();
    } else {
      InlineExactlyWhen(rest, 1);
    }
    InlineUncons(parts);
    InlineAtMost(parts[1..]);
    CleanUncons(items);
    assert items == [items[0]] + rest;
  }

  lemma {:induction false} NoInline()
    ensures InlineItems([]) == []
  {
  }

  lemma {:induction false} CleanUncons(items: seq<string>)
    requires items != []
    ensures AreClean(items) <==> IsClean(items[0]) && AreClean(items[1..])
    ensures AreClean([])
  {
    hide IsClean;
    assert forall i :: 1 <= i < |items| ==> items[i] == items[1..][i - 1];
  }

  lemma {:induction false} JoinInLine(items: seq<string>)
    ensures ArePlain(items) ==> InOneLine(JoinComma(items))
    ensures AreLines(items) ==> IsLine(JoinComma(items))
  {
    if |items| > 1 {
      JoinInLine(items[1..]);
    }
  }

  lemma {:induction false} SafeInlineExactlyWhen(items: seq<string>)
    ensures AreSafeInline(items) <==> ArePlain(items) && AreClean(items)
  {
    hide InOneLine, IsClean;
  }

  // A list on one line is read back exactly when its items are safe.
  lemma {:induction false} InlineListExactlyWhen(items: seq<string>)
    requires items != []
    ensures ReadScalar(ReadText(Brackets(JoinComma(items)))) == Node(true, items, []) <==> AreSafeInline(items)
  {
    var printed := Brackets(JoinComma(items));
    SafeInlineExactlyWhen(items);
    if ArePlain(items) {
      JoinInLine(items);
      BracketsRead(JoinComma(items));
      assert forall i :: 0 <= i < |items| ==> ',' !in items[i];
      hide ArePlain;
      assert Spaces(0) + JoinComma(items) == JoinComma(items);
      InlineExactlyWhen(items, 0);
    } else {
      TextInLine(printed);
      if IsBracketed(ReadText(printed)) {
        InlineListReadable(ReadText(printed));
      }
    }
    hide ReadText, InlineList, IsBracketed, SplitComma, InlineItems, JoinComma, AreClean, AreSafeInline, Brackets;
  }

  // ---------- Lists on lines of their own ----------

  // What an item line adds: an item or, when nothing but space is left of it, none.
  function ReadItem(printed: string): seq<string> {
    var text := TrimEnd(printed);
    if text == "" then [] else [StripQuotes(text)]
  }

  function ReadItems(items: seq<string>, level: nat): seq<string> {
    if items == [] then [] else ReadItem(PrintItem(items[0], level)) + ReadItems(items[1..], level)
  }

  function ItemShape(indent: nat, printed: string): Line {
    var item := ReadItem(printed);
    if item == [] then Other(indent) else Item(indent, item[0])
  }

  lemma {:induction false} ItemLineReads(indent: nat, printed: string)
    ensures Classify(ItemLine(indent, printed)) == ItemShape(indent, printed)
  {
    var line, text := ItemLine(indent, printed), "- " + printed;
    assert line == Spaces(indent) + text;
    assert IsSpace(' ') && !IsSpace('-') && IsKeyChar('-') && !IsKeyChar(' ');
    assert line[indent] == '-' && line[indent + 1] == ' ' && line[indent..] == text;
    SkipWhileIs(IsSpace, line, 0, indent);
    SkipWhileIs(IsKeyChar, line, indent, indent + 1);
    TrimEndConcat("- ", printed);
    TrimDash();
    hide IsSpace, IsKeyChar, TrimEnd, StripQuotes, ItemLine, SkipWhile;
    assert Trim(line) == TrimEnd(text);
    if TrimEnd(printed) != "" {
      assert Trim(line)[0..2] == "- " && Trim(line)[2..] == TrimEnd(printed);
    }
  }

  lemma {:induction false} TrimDash()
    ensures TrimEnd("- ") == "-"
  {
    assert "- "[..1] == "-";
    assert TrimEnd("-") == "-";
  }

  lemma {:induction false} ItemExactlyWhen(item: string, level: nat)
    requires IsLine(item)
    ensures ReadItem(PrintItem(item, level)) == [item] <==> IsSafeItem(item, level)
  {
    hide IsSpace;
    if IsQuotedItem(item, level) {
      QuotedStays(item);
      TrimEndKeepsExactlyWhen(Quote(item));
    } else {
      StripKeepsExactlyWhen(TrimEnd(item));
      TrimEndKeepsExactlyWhen(item);
    }
    hide StripQuotes, TrimEnd, IsQuotedItem;
  }

  lemma {:induction false} TrimEndKeepsExactlyWhen(s: string)
    ensures TrimEnd(s) == s <==> s == "" || !IsSpace(s[|s| - 1])
    ensures |TrimEnd(s)| <= |s| && (|TrimEnd(s)| == |s| ==> TrimEnd(s) == s)
  {
  }

  lemma {:induction false} ReadAtMost(items: seq<string>, level: nat)
    ensures |ReadItems(items, level)| <= |items|
  {
    if items != [] {
      ReadAtMost(items[1..], level);
      hide ReadItem;
    }
  }

  lemma {:induction false} ItemsExactlyWhen(items: seq<string>, level: nat)
    requires AreLines(items)
    ensures ReadItems(items, level) == items <==> AreSafeItems(items, level)
  {
    hide IsLine, PrintItem, IsSafeItem, ReadItem;
    if items != [] {
      var rest := items[1..];
      ItemsExactlyWhen(rest, level);
      ItemExactlyWhen(items[0], level);
      ReadAtMost(rest, level);
      ReadOne(PrintItem(items[0], level));
      assert items == [items[0]] + rest;
      assert AreSafeItems(items, level) <==> IsSafeItem(items[0], level) && AreSafeItems(rest, level) by {
        assert forall i :: 1 <= i < |items| ==> items[i] == rest[i - 1];
      }
      hide AreSafeItems;
    }
  }

  lemma {:induction false} ReadOne(printed: string)
    ensures |ReadItem(printed)| <= 1
  {
  }

  // The value of a list whose item lines have been read.
  function ListOf(items: seq<string>): (v: Value)
    ensures v.Node?
  {
    if items == [] then EMPTY_OBJECT else Node(true, items, [])
  }

  // ---------- Trees ----------

  // What is read where a tree was printed.
  function ReadBack(t: Tree, level: nat): (v: Value)
    decreases t, 0
  {
    match t
    case Scalar(text) => ReadScalar(ReadText(PrintScalar(text, level)))
    case Items(items) =>
      if items == [] then ReadScalar(ReadText("[]"))
      else if IsInline(items, level) then ReadScalar(ReadText(Brackets(JoinComma(items))))
      else ListOf(ReadItems(items, level))
    case Fields(entries) =>
      if level >= 2 then ReadScalar(ReadText("[object Object]"))
      else Node(false, [], ReadEntries(entries, level + 1))
  }

  function ReadEntries(entries: seq<Entry>, level: nat): (fields: seq<Field>)
    ensures |fields| == |entries|
    decreases entries
  {
    if entries == [] then []
    else [Field(entries[0].key, ReadBack(entries[0].tree, level))] + ReadEntries(entries[1..], level)
  }

  lemma {:induction false} ListExactlyWhen(items: seq<string>, level: nat)
    requires AreLines(items)
    ensures ReadBack(Items(items), level) == Node(true, items, []) <==> IsSafe(Items(items), level)
  {
    if items == [] {
      EmptyListReads();
    } else if IsInline(items, level) {
      InlineListExactlyWhen(items);
    } else {
      ItemsExactlyWhen(items, level);
    }
    hide ReadText, ReadScalar, ReadItems, IsInline, AreSafeInline, AreSafeItems, Brackets, JoinComma;
  }

  // A readable tree is read as it was exactly when it is safe.
  lemma {:induction false} TreeExactlyWhen(t: Tree, level: nat)
    requires IsReadable(ToValue(t))
    ensures ReadBack(t, level) == ToValue(t) <==> IsSafe(t, level)
    decreases t, 0
  {
    match t
    case Scalar(text) =>
      ScalarExactlyWhen(text, level);
    case Items(items) =>
      ListExactlyWhen(items, level);
    case Fields(entries) =>
      if level >= 2 {
        ObjectTextReads();
      } else {
        EntriesExactlyWhen(entries, level + 1);
      }
      hide ReadText, ReadScalar, ToFields, ReadEntries, AreSafe, AreReadable;
  }

  lemma {:induction false} EntriesExactlyWhen(entries: seq<Entry>, level: nat)
    requires AreReadable(ToFields(entries))
    ensures ReadEntries(entries, level) == ToFields(entries) <==> AreSafe(entries, level)
    decreases entries
  {
    if entries != [] {
      var e, rest := entries[0], entries[1..];
      ReadableUncons(entries);
      TreeExactlyWhen(e.tree, level);
      EntriesExactlyWhen(rest, level);
      FieldsUncons(entries, level);
      hide ReadBack, ToValue, IsSafe, IsReadable, IsKey, ToFields, ReadEntries, AreReadable;
    }
  }

  lemma {:induction false} FieldsUncons(entries: seq<Entry>, level: nat)
    requires entries != []
    ensures ReadEntries(entries, level) == ToFields(entries) <==>
      && ReadBack(entries[0].tree, level) == ToValue(entries[0].tree)
      && ReadEntries(entries[1..], level) == ToFields(entries[1..])
  {
    hide ReadBack, ToValue;
    var read, fields := ReadEntries(entries, level), ToFields(entries);
    assert read[1..] == ReadEntries(entries[1..], level) && fields[1..] == ToFields(entries[1..]);
    if ReadEntries(entries, level) == ToFields(entries) {
      assert read[0] == fields[0];
    }
  }

  lemma {:induction false} ReadableUncons(entries: seq<Entry>)
    requires AreReadable(ToFields(entries)) && entries != []
    ensures IsKey(entries[0].key) && forall i :: 1 <= i < |entries| ==> entries[i].key != entries[0].key
    ensures IsReadable(ToValue(entries[0].tree)) && AreReadable(ToFields(entries[1..]))
  {
    hide ToValue, IsReadable, IsKey;
    var fields, rest := ToFields(entries), ToFields(entries[1..]);
    assert fields[0] == Field(entries[0].key, ToValue(entries[0].tree)) && fields[1..] == rest;
    forall i | 1 <= i < |entries|
      ensures entries[i].key != entries[0].key
    {
      assert rest[i - 1].key == entries[1..][i - 1].key == entries[i].key;
    }
  }

  // Safe trees are readable.
  lemma {:induction false} SafeIsReadable(t: Tree, level: nat)
    requires IsSafe(t, level)
    ensures IsReadable(ToValue(t))
    decreases t, 0
  {
    match t
    case Scalar(_) =>
    case Items(items) =>
      forall i | 0 <= i < |items|
        ensures IsLine(items[i])
      {
        if IsInline(items, level) {
          assert IsSafeInline(items[i]);
          assert InOneLine(items[i]);
        } else {
          assert IsSafeItem(items[i], level);
        }
      }
    case Fields(entries) =>
      SafeAreReadable(entries, level + 1);
      hide ToFields, AreSafe, AreReadable;
  }

  lemma {:induction false} SafeAreReadable(entries: seq<Entry>, level: nat)
    requires AreSafe(entries, level)
    ensures AreReadable(ToFields(entries))
    decreases entries
  {
    if entries != [] {
      SafeIsReadable(entries[0].tree, level);
      SafeAreReadable(entries[1..], level);
      hide ToValue, IsSafe, IsReadable, IsKey;
      var fields := ToFields(entries);
      assert fields[1..] == ToFields(entries[1..]);
      forall i | 0 <= i < |fields[1..]|
        ensures fields[1..][i].key != fields[0].key
      {
        assert fields[1..][i].key == entries[i + 1].key;
      }
    }
  }
}
