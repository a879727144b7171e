// The opening markers of conditional sections as they are written (plugin.js, the pattern
// CONDITIONAL_OPEN_RE): what text is a marker, with which name and condition, and that the
// search finds one list of them.
module ElisionMarkers {
  import opened Options
  import opened Strings
  import opened ElisionText

  const QUOTE := "\""

  predicate IsName(name: string) {
    name != "" && forall i :: 0 <= i < |name| ==> !IsSpace(name[i])
  }

  predicate IsCondition(condition: string) {
    condition != "" && forall i :: 0 <= i < |condition| ==> condition[i] != '"'
  }

  // What a marker is made of; the four gaps are white space.
  datatype Parts = Parts(gap1: string, gap2: string, name: string, gap3: string, condition: string, gap4: string)

  predicate AreParts(p: Parts) {
    && IsBlank(p.gap1) && IsBlank(p.gap2) && IsBlank(p.gap3) && p.gap3 != "" && IsBlank(p.gap4)
    && IsName(p.name) && IsCondition(p.condition)
  }

  function Written(p: Parts): string {
    OPEN + (p.gap1 + (SECTION + (p.gap2 + (p.name + (p.gap3 + (IF
    + (p.condition + (QUOTE + (p.gap4 + CLOSE_COMMENT)))))))))
  }

  lemma {:induction false} Flatten(a: string, b: string, c: string, rest: string)
    ensures a + (b + (c + rest)) == a + b + c + rest
  {
  }

  // The delimiters, as they are written.
  lemma {:induction false} WrittenIs(p: Parts)
    ensures Written(p)
            == "<!--" + p.gap1 + "section:" + p.gap2 + p.name + p.gap3 + "if=\"" + p.condition + "\"" + p.gap4 + "-->"
  {
    var tail := QUOTE + (p.gap4 + CLOSE_COMMENT);
    var middle := p.gap3 + (IF + (p.condition + tail));
    Flatten(OPEN, p.gap1, SECTION, p.gap2 + (p.name + middle));
    Flatten(OPEN + p.gap1 + SECTION, p.gap2, p.name, middle);
    Flatten(OPEN + p.gap1 + SECTION + p.gap2 + p.name, p.gap3, IF, p.condition + tail);
    Flatten(OPEN + p.gap1 + SECTION + p.gap2 + p.name + p.gap3 + IF, p.condition, QUOTE, p.gap4 + CLOSE_COMMENT);
    hide OPEN, SECTION, IF, QUOTE, CLOSE_COMMENT;
    Delimiters();
  }

  lemma {:induction false} Delimiters()
    ensures OPEN == "<!--" && SECTION == "section:" && IF == "if=\"" && QUOTE == "\"" && CLOSE_COMMENT == "-->"
    ensures SECTION_CLOSE == "<!-- /section -->"
  {
  }

  // ---------- Reading a marker ----------

  // part stands in the text at i.
  ghost predicate At(text: string, i: nat, part: string) {
    i + |part| <= |text| && text[i..i + |part|] == part
  }

  lemma {:induction false} Peel(text: string, i: nat, first: string, rest: string)
    requires At(text, i, first + rest)
    ensures At(text, i, first) && At(text, i + |first|, rest)
  {
    var all := first + rest;
    assert text[i..i + |first|] == text[i..i + |all|][..|first|] == all[..|first|] == first;
    assert text[i + |first|..i + |first| + |rest|] == text[i..i + |all|][|first|..] == all[|first|..] == rest;
  }

  lemma {:induction false} Unpeel(text: string, i: nat, first: string, rest: string)
    requires At(text, i, first) && At(text, i + |first|, rest)
    ensures At(text, i, first + rest)
  {
    var n := i + |first|;
    assert text[i..n + |rest|] == text[i..n] + text[n..n + |rest|];
  }

  lemma {:induction false} CharsAt(text: string, i: nat, part: string, k: nat)
    requires At(text, i, part) && k < |part|
    ensures text[i + k] == part[k]
  {
    assert text[i..i + |part|][k] == text[i + k];
  }

  // A run of characters of one kind, with a first one of another kind after it.
  lemma {:induction false} RunStops(p: char -> bool, text: string, i: nat, run: string)
    requires At(text, i, run) && i + |run| < |text| && !p(text[i + |run|])
    requires forall k :: 0 <= k < |run| ==> p(run[k])
    ensures SkipWhile(p, text, i) == i + |run|
  {
    forall k | i <= k < i + |run|
      ensures p(text[k])
    {
      CharsAt(text, i, run, k - i);
    }
    SkipWhileIs(p, text, i, i + |run|);
  }

  // A marker in two halves: up to the name, and from the gap after it.
  function Front(p: Parts, rest: string): string {
    OPEN + (p.gap1 + (SECTION + (p.gap2 + (p.name + rest))))
  }

  function Back(p: Parts): string {
    p.gap3 + (IF + (p.condition + (QUOTE + (p.gap4 + CLOSE_COMMENT))))
  }

  ghost predicate FrontAt(text: string, i: nat, p: Parts, a: nat, b: nat, c: nat) {
    && At(text, i, OPEN) && At(text, i + |OPEN|, p.gap1) && a == i + |OPEN| + |p.gap1|
    && At(text, a, SECTION) && At(text, a + |SECTION|, p.gap2) && b == a + |SECTION| + |p.gap2|
    && At(text, b, p.name) && c == b + |p.name|
  }

  ghost predicate BackAt(text: string, p: Parts, c: nat, d: nat, e: nat, f: nat) {
    && At(text, c, p.gap3) && d == c + |p.gap3|
    && At(text, d, IF) && At(text, d + |IF|, p.condition) && e == d + |IF| + |p.condition|
    && At(text, e, QUOTE) && At(text, e + |QUOTE|, p.gap4) && f == e + |QUOTE| + |p.gap4|
    && At(text, f, CLOSE_COMMENT)
  }

  lemma {:induction false} FrontStands(text: string, i: nat, p: Parts, rest: string) returns (a: nat, b: nat, c: nat)
    requires At(text, i, Front(p, rest))
    ensures FrontAt(text, i, p, a, b, c) && At(text, c, rest) && c + |rest| == i + |Front(p, rest)|
  {
    hide At, OPEN, SECTION;
    var q3 := p.gap2 + (p.name + rest);
    Peel(text, i, OPEN, p.gap1 + (SECTION + q3));
    Peel(text, i + |OPEN|, p.gap1, SECTION + q3);
    a := i + |OPEN| + |p.gap1|;
    Peel(text, a, SECTION, q3);
    Peel(text, a + |SECTION|, p.gap2, p.name + rest);
    b := a + |SECTION| + |p.gap2|;
    Peel(text, b, p.name, rest);
    c := b + |p.name|;
  }

  lemma {:induction false} BackStands(text: string, c: nat, p: Parts) returns (d: nat, e: nat, f: nat)
    requires At(text, c, Back(p))
    ensures BackAt(text, p, c, d, e, f) && f + |CLOSE_COMMENT| == c + |Back(p)|
  {
    hide At, IF, CLOSE_COMMENT, QUOTE;
    var q3 := QUOTE + (p.gap4 + CLOSE_COMMENT);
    Peel(text, c, p.gap3, IF + (p.condition + q3));
    d := c + |p.gap3|;
    Peel(text, d, IF, p.condition + q3);
    Peel(text, d + |IF|, p.condition, q3);
    e := d + |IF| + |p.condition|;
    f := e + |QUOTE| + |p.gap4|;
    EndStands(text, e, p.gap4);
  }

  lemma {:induction false} EndStands(text: string, e: nat, gap: string)
    requires At(text, e, QUOTE + (gap + CLOSE_COMMENT))
    ensures At(text, e, QUOTE) && At(text, e + |QUOTE|, gap) && At(text, e + |QUOTE| + |gap|, CLOSE_COMMENT)
  {
    hide At, CLOSE_COMMENT, QUOTE;
    Peel(text, e, QUOTE, gap + CLOSE_COMMENT);
    Peel(text, e + |QUOTE|, gap, CLOSE_COMMENT);
  }

  lemma {:induction false} FrontWritten(text: string, i: nat, p: Parts, rest: string, a: nat, b: nat, c: nat)
    requires FrontAt(text, i, p, a, b, c) && At(text, c, rest)
    ensures At(text, i, Front(p, rest)) && c + |rest| == i + |Front(p, rest)|
  {
    hide At, OPEN, SECTION;
    var q3 := p.gap2 + (p.name + rest);
    Unpeel(text, b, p.name, rest);
    Unpeel(text, a + |SECTION|, p.gap2, p.name + rest);
    Unpeel(text, a, SECTION, q3);
    Unpeel(text, i + |OPEN|, p.gap1, SECTION + q3);
    Unpeel(text, i, OPEN, p.gap1 + (SECTION + q3));
  }

  lemma {:induction false} BackWritten(text: string, p: Parts, c: nat, d: nat, e: nat, f: nat)
    requires BackAt(text, p, c, d, e, f)
    ensures At(text, c, Back(p)) && f + |CLOSE_COMMENT| == c + |Back(p)|
  {
    hide At, IF, CLOSE_COMMENT, QUOTE;
    var q3 := QUOTE + (p.gap4 + CLOSE_COMMENT);
    Unpeel(text, e + |QUOTE|, p.gap4, CLOSE_COMMENT);
    Unpeel(text, e, QUOTE, p.gap4 + CLOSE_COMMENT);
    Unpeel(text, d + |IF|, p.condition, q3);
    Unpeel(text, d, IF, p.condition + q3);
    Unpeel(text, c, p.gap3, IF + (p.condition + q3));
  }

  lemma {:induction false} WrittenIsFrontAndBack(p: Parts)
    ensures Written(p) == Front(p, Back(p))
  {
    hide OPEN, SECTION, IF, CLOSE_COMMENT, QUOTE;
  }

  lemma {:induction false} StartsDifferently()
    ensures |SECTION| > 0 && |IF| > 0 && |CLOSE_COMMENT| > 0 && |QUOTE| == 1 && QUOTE[0] == '"'
    ensures !IsSpace(SECTION[0]) && !IsSpace(IF[0]) && !IsSpace(CLOSE_COMMENT[0])
  {
  }

  // The runs the pattern takes are the parts.
  lemma {:induction false} FrontRuns(text: string, i: nat, p: Parts, a: nat, b: nat, c: nat)
    requires FrontAt(text, i, p, a, b, c) && AreParts(p) && c < |text| && IsSpace(text[c])
    ensures SkipWhile(IsSpace, text, i + |OPEN|) == a && SkipWhile(IsSpace, text, a + |SECTION|) == b
    ensures SkipWhile(IsWordChar, text, b) == c
  {
    StartsDifferently();
    hide IsSpace, OPEN, SECTION;
    CharsAt(text, a, SECTION, 0);
    CharsAt(text, b, p.name, 0);
    AtFits(text, a, SECTION);
    AtFits(text, b, p.name);
    hide At, SkipWhile;
    RunStops(IsSpace, text, i + |OPEN|, p.gap1);
    RunStops(IsSpace, text, a + |SECTION|, p.gap2);
    NameRuns(text, b, p.name);
  }

  lemma {:induction false} NameRuns(text: string, b: nat, name: string)
    requires At(text, b, name) && IsName(name) && b + |name| < |text| && IsSpace(text[b + |name|])
    ensures SkipWhile(IsWordChar, text, b) == b + |name|
  {
    hide IsSpace, SkipWhile;
    RunStops(IsWordChar, text, b, name);
  }

  lemma {:induction false} BackRuns(text: string, p: Parts, c: nat, d: nat, e: nat, f: nat)
    requires BackAt(text, p, c, d, e, f) && AreParts(p)
    ensures c < |text| && IsSpace(text[c])
    ensures SkipWhile(IsSpace, text, c) == d
    ensures SkipWhile(IsNoQuote, text, d + |IF|) == e && SkipWhile(IsSpace, text, e + |QUOTE|) == f
  {
    StartsDifferently();
    hide IsSpace, IF, CLOSE_COMMENT, QUOTE;
    CharsAt(text, c, p.gap3, 0);
    CharsAt(text, d, IF, 0);
    CharsAt(text, e, QUOTE, 0);
    CharsAt(text, f, CLOSE_COMMENT, 0);
    AtFits(text, c, p.gap3);
    AtFits(text, d, IF);
    AtFits(text, e, QUOTE);
    AtFits(text, f, CLOSE_COMMENT);
    hide At, SkipWhile;
    RunStops(IsSpace, text, c, p.gap3);
    ConditionRuns(text, d + |IF|, p.condition);
    RunStops(IsSpace, text, e + |QUOTE|, p.gap4);
  }

  lemma {:induction false} ConditionRuns(text: string, d: nat, condition: string)
    requires At(text, d, condition) && IsCondition(condition)
    requires d + |condition| < |text| && text[d + |condition|] == '"'
    ensures SkipWhile(IsNoQuote, text, d) == d + |condition|
  {
    hide SkipWhile;
    RunStops(IsNoQuote, text, d, condition);
  }

  lemma {:induction false} AtFits(text: string, i: nat, part: string)
    requires At(text, i, part)
    ensures i + |part| <= |text| && text[i..i + |part|] == part
  {
  }

  lemma {:induction false} AtIsStartsAt(text: string, i: nat, part: string)
    ensures At(text, i, part) <==> StartsAt(text, i, part)
  {
  }

  // What the pattern reads where its six runs stop.
  lemma {:induction false} ReadsFrom(text: string, i: nat, a: nat, b: nat, c: nat, d: nat, e: nat, f: nat)
    requires StartsAt(text, i, OPEN) && SkipWhile(IsSpace, text, i + |OPEN|) == a
    requires StartsAt(text, a, SECTION) && SkipWhile(IsSpace, text, a + |SECTION|) == b
    requires SkipWhile(IsWordChar, text, b) == c && SkipWhile(IsSpace, text, c) == d && b < c < d
    requires StartsAt(text, d, IF) && SkipWhile(IsNoQuote, text, d + |IF|) == e && d + |IF| < e < |text|
    requires SkipWhile(IsSpace, text, e + |QUOTE|) == f && StartsAt(text, f, CLOSE_COMMENT)
    ensures MarkerAt(text, i) == Some(Marker(i, f + |CLOSE_COMMENT|, text[b..c], text[d + |IF|..e]))
  {
    hide IsSpace, SkipWhile, StartsAt, OPEN, SECTION, IF, CLOSE_COMMENT;
  }

  // A written marker is read with its name and its condition.
  lemma {:induction false} WrittenIsRead(text: string, i: nat, p: Parts)
    requires At(text, i, Written(p)) && AreParts(p)
    ensures MarkerAt(text, i) == Some(Marker(i, i + |Written(p)|, p.name, p.condition))
  {
    hide At, Written, IsBlank, IsSpace, MarkerAt, OPEN, SECTION, IF, CLOSE_COMMENT, QUOTE, Front, Back, SkipWhile,
         StartsAt;
    WrittenIsFrontAndBack(p);
    StartsDifferently();
    var a, b, c := FrontStands(text, i, p, Back(p));
    var d, e, f := BackStands(text, c, p);
    BackRuns(text, p, c, d, e, f);
    FrontRuns(text, i, p, a, b, c);
    AtIsStartsAt(text, i, OPEN);
    AtIsStartsAt(text, a, SECTION);
    AtIsStartsAt(text, d, IF);
    AtIsStartsAt(text, f, CLOSE_COMMENT);
    AtFits(text, b, p.name);
    AtFits(text, d + |IF|, p.condition);
    AtFits(text, e, QUOTE);
    ReadsFrom(text, i, a, b, c, d, e, f);
  }

  // Where the six runs of a marker stop, up to the condition and from there on.
  lemma {:induction false} FrontStops(text: string, i: nat) returns (a: nat, b: nat, c: nat, d: nat)
    requires MarkerAt(text, i).Some?
    ensures i + |OPEN| <= a && a + |SECTION| <= b < c < d && d + |IF| <= |text|
    ensures StartsAt(text, i, OPEN) && SkipWhile(IsSpace, text, i + |OPEN|) == a
    ensures StartsAt(text, a, SECTION) && SkipWhile(IsSpace, text, a + |SECTION|) == b
    ensures SkipWhile(IsWordChar, text, b) == c && SkipWhile(IsSpace, text, c) == d && StartsAt(text, d, IF)
  {
    hide IsSpace, IsWordChar, IsNoQuote, SkipWhile, OPEN, SECTION, IF, CLOSE_COMMENT;
    a := SkipWhile(IsSpace, text, i + |OPEN|);
    b := SkipWhile(IsSpace, text, a + |SECTION|);
    c := SkipWhile(IsWordChar, text, b);
    d := SkipWhile(IsSpace, text, c);
  }

  lemma {:induction false} BackStops(text: string, i: nat, a: nat, b: nat, c: nat, d: nat) returns (e: nat, f: nat)
    requires MarkerAt(text, i).Some? && i + |OPEN| <= a <= |text| && a + |SECTION| <= b <= c <= d <= |text|
    requires SkipWhile(IsSpace, text, i + |OPEN|) == a && SkipWhile(IsSpace, text, a + |SECTION|) == b
    requires SkipWhile(IsWordChar, text, b) == c && SkipWhile(IsSpace, text, c) == d && d + |IF| <= |text|
    ensures d + |IF| < e && e + |QUOTE| <= f <= |text| && SkipWhile(IsNoQuote, text, d + |IF|) == e
    ensures !IsNoQuote(text[e]) && SkipWhile(IsSpace, text, e + |QUOTE|) == f && StartsAt(text, f, CLOSE_COMMENT)
  {
    hide IsSpace, IsWordChar, IsNoQuote, SkipWhile, StartsAt, OPEN, SECTION, IF, CLOSE_COMMENT;
    e := SkipWhile(IsNoQuote, text, d + |IF|);
    f := SkipWhile(IsSpace, text, e + |QUOTE|);
  }

  // The parts between the places where the runs stop.
  function PartsOf(text: string, i: nat, a: nat, b: nat, c: nat, d: nat, e: nat, f: nat): Parts
    requires i + |OPEN| <= a && a + |SECTION| <= b <= c <= d && d + |IF| <= e && e + |QUOTE| <= f <= |text|
  {
    Parts(text[i + |OPEN|..a], text[a + |SECTION|..b], text[b..c], text[c..d], text[d + |IF|..e], text[e + |QUOTE|..f])
  }

  lemma {:induction false} PartsStand(text: string, i: nat, a: nat, b: nat, c: nat, d: nat, e: nat, f: nat)
    requires i + |OPEN| <= a && a + |SECTION| <= b <= c <= d && d + |IF| <= e && e + |QUOTE| <= f <= |text|
    requires At(text, i, OPEN) && At(text, a, SECTION) && At(text, d, IF) && At(text, e, QUOTE)
    requires At(text, f, CLOSE_COMMENT)
    ensures var p := PartsOf(text, i, a, b, c, d, e, f);
      FrontAt(text, i, p, a, b, c) && BackAt(text, p, c, d, e, f)
  {
    hide OPEN, SECTION, IF, QUOTE, CLOSE_COMMENT, At;
    SliceAt(text, i + |OPEN|, a);
    SliceAt(text, a + |SECTION|, b);
    SliceAt(text, b, c);
    SliceAt(text, c, d);
    SliceAt(text, d + |IF|, e);
    SliceAt(text, e + |QUOTE|, f);
  }

  lemma {:induction false} SliceAt(text: string, i: nat, j: nat)
    requires i <= j <= |text|
    ensures At(text, i, text[i..j])
  {
  }

  // What is read as a marker is written as one.
  lemma {:induction false} ReadIsWritten(text: string, i: nat) returns (p: Parts)
    requires MarkerAt(text, i).Some?
    ensures AreParts(p) && At(text, i, Written(p))
  {
    hide IsSpace, SkipWhile, OPEN, SECTION, IF, CLOSE_COMMENT, QUOTE, Front, Back, Written, At, MarkerAt, FrontAt,
         BackAt, PartsOf, StartsAt, IsNoQuote, IsWordChar, AreParts;
    StartsDifferently();
    var a, b, c, d := FrontStops(text, i);
    var e, f := BackStops(text, i, a, b, c, d);
    RunsAreParts(text, i, a, b, c, d, e, f);
    AtIsStartsAt(text, i, OPEN);
    AtIsStartsAt(text, a, SECTION);
    AtIsStartsAt(text, d, IF);
    AtIsStartsAt(text, f, CLOSE_COMMENT);
    QuoteAt(text, e);
    p := PartsOf(text, i, a, b, c, d, e, f);
    PartsStand(text, i, a, b, c, d, e, f);
    BackWritten(text, p, c, d, e, f);
    FrontWritten(text, i, p, Back(p), a, b, c);
    WrittenIsFrontAndBack(p);
  }

  lemma {:induction false} QuoteAt(text: string, e: nat)
    requires e < |text| && !IsNoQuote(text[e])
    ensures At(text, e, QUOTE)
  {
  }

  lemma {:induction false} RunsAreParts(text: string, i: nat, a: nat, b: nat, c: nat, d: nat, e: nat, f: nat)
    requires i + |OPEN| <= a && a + |SECTION| <= b < c < d && d + |IF| < e < f + 1 && e + |QUOTE| <= f <= |text|
    requires forall k :: i + |OPEN| <= k < a ==> IsSpace(text[k])
    requires forall k :: a + |SECTION| <= k < b ==> IsSpace(text[k])
    requires forall k :: b <= k < c ==> IsWordChar(text[k])
    requires forall k :: c <= k < d ==> IsSpace(text[k])
    requires forall k :: d + |IF| <= k < e ==> IsNoQuote(text[k])
    requires forall k :: e + |QUOTE| <= k < f ==> IsSpace(text[k])
    ensures AreParts(PartsOf(text, i, a, b, c, d, e, f))
  {
    hide IsSpace;
    RunIsSpace(text, i + |OPEN|, a);
    RunIsSpace(text, a + |SECTION|, b);
    RunIsSpace(text, c, d);
    RunIsSpace(text, e + |QUOTE|, f);
    var name, condition := text[b..c], text[d + |IF|..e];
    assert forall k :: 0 <= k < |name| ==> name[k] == text[b + k];
    assert forall k :: 0 <= k < |condition| ==> condition[k] == text[d + |IF| + k];
    hide IsBlank;
  }

  lemma {:induction false} RunIsSpace(text: string, i: nat, j: nat)
    requires i <= j <= |text| && forall k :: i <= k < j ==> IsSpace(text[k])
    ensures IsBlank(text[i..j])
  {
    hide IsSpace;
    var run := text[i..j];
    assert forall k :: 0 <= k < |run| ==> run[k] == text[i + k];
  }

  // A marker stands at a position exactly when the text goes on there with "<!--", "section:",
  // a name, "if=" and a condition in quotes, and "-->", with white space between them.
  lemma {:induction false} MarkerExactlyWhen(text: string, i: nat, m: Marker)
    ensures MarkerAt(text, i) == Some(m) <==>
      exists p: Parts :: AreParts(p) && At(text, i, Written(p))
        && m == Marker(i, i + |Written(p)|, p.name, p.condition)
  {
    hide MarkerAt, AreParts, At, Written;
    if p: Parts :| AreParts(p) && At(text, i, Written(p)) && m == Marker(i, i + |Written(p)|, p.name, p.condition) {
      WrittenIsRead(text, i, p);
    }
    if MarkerAt(text, i) == Some(m) {
      var p := ReadIsWritten(text, i);
      WrittenIsRead(text, i, p);
    }
  }

  // ---------- One list of markers ----------

  lemma {:induction false} SameFirst(text: string, a: seq<Marker>, b: seq<Marker>, n: nat, k: nat)
    requires AreMarkers(text, a, n) && AreMarkers(text, b, n) && n <= |text|
    requires k < |a| && k <= |b| && a[..k] == b[..k]
    ensures k < |b| && b[k].start <= a[k].start
  {
    hide MarkerAt, AreMarkers;
    var x := a[k].start;
    StartDetermines(text, a, n, k);
    StartFits(text, a, n, k);
    var j := MarkAround(text, b, n, x);
    StartIsOrdered(text, b, n, k, j);
    if j < k {
      SameAt(a, b, k, j);
      EndIsOrdered(text, a, n, j, k);
    }
  }

  lemma {:induction false} SameAt(a: seq<Marker>, b: seq<Marker>, k: nat, j: nat)
    requires j < k <= |a| && k <= |b| && a[..k] == b[..k]
    ensures a[j] == b[j]
  {
    assert a[..k][j] == b[..k][j];
  }

  lemma {:induction false} StartFits(text: string, marks: seq<Marker>, n: nat, k: nat)
    requires AreMarkers(text, marks, n) && k < |marks|
    ensures marks[k].start < marks[k].end <= n
  {
    hide MarkerAt;
  }

  lemma {:induction false} StartIsOrdered(text: string, marks: seq<Marker>, n: nat, j: nat, k: nat)
    requires AreMarkers(text, marks, n) && k < |marks|
    ensures j <= k ==> marks[j].start <= marks[k].start
  {
    hide MarkerAt;
  }

  lemma {:induction false} EndIsOrdered(text: string, marks: seq<Marker>, n: nat, j: nat, k: nat)
    requires AreMarkers(text, marks, n) && j < k < |marks|
    ensures marks[j].end <= marks[k].start
  {
    hide MarkerAt;
  }

  lemma {:induction false} MarkAround(text: string, marks: seq<Marker>, n: nat, x: nat) returns (j: nat)
    requires AreMarkers(text, marks, n) && x < n && MarkerAt(text, x).Some?
    ensures j < |marks| && marks[j].start <= x < marks[j].end
  {
    hide MarkerAt;
    j :| 0 <= j < |marks| && marks[j].start <= x < marks[j].end;
  }

  lemma {:induction false} SameFront(text: string, a: seq<Marker>, b: seq<Marker>, n: nat, k: nat)
    requires AreMarkers(text, a, n) && AreMarkers(text, b, n) && n <= |text| && k <= |a|
    ensures k <= |b| && a[..k] == b[..k]
  {
    hide MarkerAt, AreMarkers;
    if k > 0 {
      SameFront(text, a, b, n, k - 1);
      SameFirst(text, a, b, n, k - 1);
      SameFirst(text, b, a, n, k - 1);
      StartDetermines(text, a, n, k - 1);
      StartDetermines(text, b, n, k - 1);
      assert a[..k] == a[..k - 1] + [a[k - 1]] && b[..k] == b[..k - 1] + [b[k - 1]];
    }
  }

  lemma {:induction false} StartDetermines(text: string, marks: seq<Marker>, n: nat, k: nat)
    requires AreMarkers(text, marks, n) && k < |marks|
    ensures MarkerAt(text, marks[k].start) == Some(marks[k])
  {
    hide MarkerAt;
  }

  // The search has one result.
  lemma {:induction false} MarkersAreDetermined(text: string, a: seq<Marker>, b: seq<Marker>)
    requires AreMarkers(text, a, |text|) && AreMarkers(text, b, |text|)
    ensures a == b
  {
    hide AreMarkers;
    SameFront(text, a, b, |text|, |a|);
    SameFront(text, b, a, |text|, |b|);
    assert a[..|a|] == a && b[..|b|] == b;
  }
}
