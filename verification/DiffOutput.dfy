// generateUnifiedDiff as a whole (src/commands/agent.js): from two texts to hunks with
// headers, and what a reader of the output can rely on.
module DiffOutput {
  import opened DiffScript
  import opened DiffHunks
  import opened Strings

  // ---------- Texts and their lines ----------

  // The split text without the empty piece after a final newline.
  function Normalize(text: string): seq<Line> {
    var pieces := Split(text);
    var kept := if pieces[|pieces| - 1] == "" then pieces[..|pieces| - 1] else pieces;
    seq(|kept|, i requires 0 <= i < |kept| => Line(kept[i]))
  }

  // The text with a newline after its last line, if it has lines.
  function Terminate(text: string): string {
    if text == "" || text[|text| - 1] == '\n' then text else text + "\n"
  }

  function Unlines(lines: seq<Line>): string {
    if lines == [] then "" else lines[0].text + "\n" + Unlines(lines[1..])
  }

  function Wrap(pieces: seq<string>): (lines: seq<Line>)
    ensures |lines| == |pieces|
  {
    seq(|pieces|, i requires 0 <= i < |pieces| => Line(pieces[i]))
  }

  lemma {:induction false} SplitEnd(text: string)
    ensures var pieces := Split(text); pieces[|pieces| - 1] == "" <==> text == "" || text[|text| - 1] == '\n'
  {
    if text != "" {
      SplitEnd(text[1..]);
    }
  }

  lemma {:induction false} SplitNewline(text: string)
    ensures Split(text + "\n") == Split(text) + [""]
  {
    var longer := text + "\n";
    if text == "" {
      assert longer[1..] == "";
    } else {
      SplitNewline(text[1..]);
      assert longer[1..] == text[1..] + "\n" && longer[0] == text[0];
      SplitUnfold(text);
      SplitUnfold(longer);
      var rest := Split(text[1..]);
      assert (rest + [""])[1..] == rest[1..] + [""];
      hide Split;
    }
  }

  lemma {:induction false} UnlinesSplit(text: string)
    ensures Unlines(Wrap(Split(text))) == text + "\n"
  {
    var lines := Wrap(Split(text));
    if text != "" {
      var rest := Split(text[1..]);
      UnlinesSplit(text[1..]);
      if text[0] == '\n' {
        assert lines[1..] == Wrap(rest);
      } else {
        var r := Wrap(rest);
        assert lines[1..] == r[1..];
        assert Unlines(r) == r[0].text + ("\n" + Unlines(r[1..]));
        assert Unlines(lines) == ([text[0]] + r[0].text) + ("\n" + Unlines(r[1..]));
        assert Unlines(lines) == [text[0]] + Unlines(r);
      }
      assert text == [text[0]] + text[1..];
    } else {
      assert lines == [Line("")] && lines[1..] == [];
    }
  }

  lemma {:induction false} UnlinesPop(lines: seq<Line>)
    requires lines != [] && lines[|lines| - 1].text == ""
    ensures Unlines(lines) == Unlines(lines[..|lines| - 1]) + "\n"
  {
    if |lines| == 1 {
      assert lines[1..] == [];
    } else {
      UnlinesPop(lines[1..]);
      assert lines[1..][..|lines| - 2] == lines[..|lines| - 1][1..];
    }
  }

  // Putting the lines back together gives the text with its final newline.
  lemma {:induction false} UnlinesNormalize(text: string)
    ensures Unlines(Normalize(text)) == Terminate(text)
  {
    var pieces := Split(text);
    SplitEnd(text);
    UnlinesSplit(text);
    if pieces[|pieces| - 1] == "" {
      UnlinesPop(Wrap(pieces));
      assert Normalize(text) == Wrap(pieces)[..|pieces| - 1];
      var whole := Unlines(Normalize(text)) + "\n";
      assert whole == text + "\n";
      assert whole[..|whole| - 1] == Unlines(Normalize(text)) && (text + "\n")[..|text|] == text;
    } else {
      assert Normalize(text) == Wrap(pieces);
    }
  }

  ghost predicate IsOneLine(line: Line) {
    '\n' !in line.text
  }

  ghost predicate AreOneLine(lines: seq<Line>) {
    forall i :: 0 <= i < |lines| ==> IsOneLine(lines[i])
  }

  lemma {:induction false} SplitIsOneLine(text: string)
    ensures AreOneLine(Wrap(Split(text)))
  {
    if text != "" {
      SplitIsOneLine(text[1..]);
      SplitUnfold(text);
      var rest, lines := Wrap(Split(text[1..])), Wrap(Split(text));
      hide Split;
      forall i | 0 <= i < |lines|
        ensures IsOneLine(lines[i])
      {
        if text[0] != '\n' {
          assert IsOneLine(rest[0]);
          assert i > 0 ==> lines[i] == rest[i];
        } else {
          assert i > 0 ==> lines[i] == rest[i - 1];
        }
      }
    }
  }

  // A line holds no newline.
  lemma {:induction false} NormalizeIsOneLine(text: string)
    ensures AreOneLine(Normalize(text))
  {
    SplitIsOneLine(text);
    var all := Wrap(Split(text));
    assert forall i :: 0 <= i < |Normalize(text)| ==> Normalize(text)[i] == all[i];
    hide Split, IsOneLine;
  }

  // There is one way to cut a text into lines.
  lemma {:induction false} LinesAreDetermined(a: seq<Line>, b: seq<Line>)
    requires AreOneLine(a) && AreOneLine(b) && Unlines(a) == Unlines(b)
    ensures a == b
  {
    if a != [] && b != [] {
      var restA, restB := Unlines(a[1..]), Unlines(b[1..]);
      FirstLineEnds(a[0], restA, b[0], restB);
      LinesAreDetermined(a[1..], b[1..]);
      assert a == [a[0]] + a[1..] && b == [b[0]] + b[1..];
    }
  }

  lemma {:induction false} FirstLineEnds(a: Line, restA: string, b: Line, restB: string)
    requires IsOneLine(a) && IsOneLine(b) && a.text + "\n" + restA == b.text + "\n" + restB
    ensures a == b && restA == restB
  {
    var text, other := a.text + "\n" + restA, b.text + "\n" + restB;
    assert text[|a.text|] == '\n' && other[|b.text|] == '\n';
    assert forall k :: 0 <= k < |a.text| ==> text[k] == a.text[k];
    assert forall k :: 0 <= k < |b.text| ==> other[k] == b.text[k];
    assert |a.text| == |b.text|;
    assert text[..|a.text|] == a.text && other[..|b.text|] == b.text;
    assert text[|a.text| + 1..] == restA && other[|b.text| + 1..] == restB;
  }

  // The lines of a text are those without newlines that make it up, its last one completed.
  lemma {:induction false} LinesExactlyWhen(text: string, lines: seq<Line>)
    ensures lines == Normalize(text) <==> AreOneLine(lines) && Unlines(lines) == Terminate(text)
  {
    UnlinesNormalize(text);
    NormalizeIsOneLine(text);
    if AreOneLine(lines) && Unlines(lines) == Terminate(text) {
      LinesAreDetermined(lines, Normalize(text));
    }
    hide Normalize, Unlines, Terminate;
  }

  // Two texts have the same lines exactly when they agree up to a missing final newline.
  lemma {:induction false} SameLines(textA: string, textB: string)
    ensures Normalize(textA) == Normalize(textB) <==> Terminate(textA) == Terminate(textB)
  {
    UnlinesNormalize(textA);
    UnlinesNormalize(textB);
    NormalizeTerminated(textA);
    NormalizeTerminated(textB);
  }

  lemma {:induction false} NormalizeTerminated(text: string)
    ensures Normalize(Terminate(text)) == Normalize(text)
  {
    SplitEnd(text);
    SplitNewline(text);
    var pieces := Split(text);
    if Terminate(text) != text {
      assert (pieces + [""])[..|pieces|] == pieces;
    }
  }

  // ---------- Headers ----------

  datatype OutputHunk = OutputHunk(startA: nat, countA: nat, startB: nat, countB: nat, lines: seq<HunkLine>)

  datatype Diff =
    | NoDiff
    | Diff(labelA: string, labelB: string, hunks: seq<OutputHunk>)

  // The lines a hunk takes from the old text, and those it puts into the new one.
  function OldSide(lines: seq<HunkLine>): seq<Line> {
    if lines == [] then []
    else (if lines[0].mark == ' ' || lines[0].mark == '-' then [lines[0].text] else []) + OldSide(lines[1..])
  }

  function NewSide(lines: seq<HunkLine>): seq<Line> {
    if lines == [] then []
    else (if lines[0].mark == ' ' || lines[0].mark == '+' then [lines[0].text] else []) + NewSide(lines[1..])
  }

  lemma {:induction false} SidesOfRender(edits: seq<Edit>)
    ensures OldSide(RenderAll(edits)) == Old(edits) && NewSide(RenderAll(edits)) == New(edits)
  {
    if edits != [] {
      assert RenderAll(edits)[1..] == RenderAll(edits[1..]);
      SidesOfRender(edits[1..]);
    }
  }

  method CountMarks(lines: seq<HunkLine>) returns (countA: nat, countB: nat)
    ensures countA == |OldSide(lines)| && countB == |NewSide(lines)|
  {
    countA, countB := 0, 0;
    assert lines[0..] == lines;
    for i := 0 to |lines|
      invariant countA + |OldSide(lines[i..])| == |OldSide(lines)|
      invariant countB + |NewSide(lines[i..])| == |NewSide(lines)|
    {
      assert lines[i..][1..] == lines[i + 1..];
      if lines[i].mark == ' ' || lines[i].mark == '-' {
        countA := countA + 1;
      }
      if lines[i].mark == ' ' || lines[i].mark == '+' {
        countB := countB + 1;
      }
    }
  }

  ghost predicate IsLeading(lines: seq<HunkLine>, n: nat) {
    && n <= |lines|
    && (forall i :: 0 <= i < n ==> lines[i].mark == ' ')
    && (n < |lines| ==> lines[n].mark != ' ')
  }

  // The start written into a header: the recorded start less the leading context.
  function HeaderStart(start: nat, leading: nat): nat {
    if start >= leading + 1 then start - leading else 1
  }

  method WriteHunk(hunk: Hunk) returns (out: OutputHunk, ghost leading: nat)
    ensures out.lines == hunk.lines
    ensures out.countA == |OldSide(hunk.lines)| && out.countB == |NewSide(hunk.lines)|
    ensures IsLeading(hunk.lines, leading)
    ensures out.startA == HeaderStart(hunk.startA, leading) && out.startB == HeaderStart(hunk.startB, leading)
  {
    var countA, countB := CountMarks(hunk.lines);
    var n := 0;
    while n < |hunk.lines| && hunk.lines[n].mark == ' '
      invariant n <= |hunk.lines| && forall i :: 0 <= i < n ==> hunk.lines[i].mark == ' '
    {
      n := n + 1;
    }
    leading := n;
    out := OutputHunk(HeaderStart(hunk.startA, n), countA, HeaderStart(hunk.startB, n), countB, hunk.lines);
  }

  // The entry just before a hunk is a common line.
  lemma {:induction false} BeforeHunk(edits: seq<Edit>, spans: seq<Span>, firsts: seq<nat>, h: nat)
    requires AreSpans(edits, spans, firsts) && h < |spans| && spans[h].lo > 0
    ensures spans[h].lo <= |edits| && edits[spans[h].lo - 1].kind == Common
  {
    hide IsSpan;
    var k := spans[h].lo - 1;
    SpanBounds(edits, spans[h], firsts[h]);
    if Changed(edits, k) {
      assert InSpans(spans, k);
      var g :| 0 <= g < |spans| && spans[g].lo <= k < spans[g].hi;
      SpanBounds(edits, spans[g], firsts[g]);
      if g < h {
        SpanEndsQuietly(edits, spans[g], firsts[g]);
      }
    }
  }

  lemma {:induction false} SpanEndsQuietly(edits: seq<Edit>, s: Span, first: nat)
    requires IsSpan(edits, s, first) && s.hi < |edits|
    ensures !Changed(edits, s.hi - 1)
  {
  }

  // The start number of a hunk with `before` lines of its side ahead of it.
  function WrittenStart(before: nat): nat {
    if before < 3 then 1 else before - 2
  }

  // The start number the unified format asks for: that of the side's first line or, for a
  // side without lines, that of the line before it.
  function RightStart(before: nat, count: nat): nat {
    if count == 0 then before else before + 1
  }

  // A hunk without old lines is the whole script, of a text without lines.
  lemma {:induction false} SideIsEmptyExactlyWhen(edits: seq<Edit>, spans: seq<Span>, firsts: seq<nat>, h: nat,
      hunk: Hunk)
    requires AreSpans(edits, spans, firsts) && h < |spans| && IsHunk(edits, hunk, spans[h])
    ensures OldSide(hunk.lines) == [] <==> Old(edits) == []
    ensures NewSide(hunk.lines) == [] <==> New(edits) == []
  {
    var s := spans[h];
    SpanBounds(edits, s, firsts[h]);
    SidesOfRender(edits[s.lo..s.hi]);
    SliceSides(edits, s.lo, s.hi);
    SidesSplit(edits, s.lo);
    hide AreSpans, OldSide, NewSide;
    if s.lo == 0 && s.hi == |edits| {
      assert edits[s.lo..s.hi] == edits;
    } else {
      var c := QuietEntry(edits, s, firsts[h]);
      CommonIsOnBothSides(edits[s.lo..s.hi], c - s.lo);
      assert New(edits[s.lo..]) == New(edits[s.lo..s.hi]) + New(edits[s.hi..]);
    }
  }

  // A hunk that does not cover the whole script shows a common line.
  lemma {:induction false} QuietEntry(edits: seq<Edit>, s: Span, first: nat) returns (c: nat)
    requires IsSpan(edits, s, first) && (s.lo > 0 || s.hi < |edits|)
    ensures s.lo <= c < s.hi <= |edits| && edits[c].kind == Common
  {
    c := if s.lo > 0 then s.lo else s.hi - 1;
    assert !Changed(edits, c);
  }

  lemma {:induction false} CommonIsOnBothSides(edits: seq<Edit>, k: nat)
    requires k < |edits| && edits[k].kind == Common
    ensures Old(edits) != [] && New(edits) != []
  {
    if k > 0 {
      CommonIsOnBothSides(edits[1..], k - 1);
    }
  }

  // The header's start numbers are three too small (but never below 1) for every hunk that
  // does not begin with the script, because the leading context is subtracted from a start
  // that is already that of the first context line; and 1 instead of 0 for a text without
  // lines. They are right exactly for the hunk that begins with the script, of a text with
  // lines.
  lemma {:induction false} HeaderStartExact(edits: seq<Edit>, spans: seq<Span>, firsts: seq<nat>, h: nat, hunk: Hunk,
      leading: nat)
    requires Numbered(edits, 0, 0) && AreSpans(edits, spans, firsts) && h < |spans|
    requires IsHunk(edits, hunk, spans[h]) && IsLeading(hunk.lines, leading)
    ensures spans[h].lo <= |edits|
    ensures HeaderStart(hunk.startA, leading) == WrittenStart(|Old(edits[..spans[h].lo])|)
    ensures HeaderStart(hunk.startB, leading) == WrittenStart(|New(edits[..spans[h].lo])|)
    ensures HeaderStart(hunk.startA, leading) == RightStart(|Old(edits[..spans[h].lo])|, |OldSide(hunk.lines)|)
            <==> spans[h].lo == 0 && Old(edits) != []
    ensures HeaderStart(hunk.startB, leading) == RightStart(|New(edits[..spans[h].lo])|, |NewSide(hunk.lines)|)
            <==> spans[h].lo == 0 && New(edits) != []
  {
    var s, first := spans[h], firsts[h];
    assert IsSpan(edits, s, first);
    LeadingIs(edits, s, first, hunk, leading);
    NumberedAt(edits, 0, 0, s.lo);
    StepSides(edits, s.lo);
    SideIsEmptyExactlyWhen(edits, spans, firsts, h, hunk);
    hide OldSide, NewSide;
    if s.lo > 0 {
      BeforeHunk(edits, spans, firsts, h);
      StepSides(edits, s.lo - 1);
      SliceSides(edits, s.lo, |edits|);
      assert !Changed(edits, s.lo);
    } else {
      NothingBefore(edits);
    }
  }

  // A text without lines against one with a single line: the old side starts at 1 where the
  // format asks for 0.
  lemma {:induction false} EmptyTextStartsWrong(x: Line, hunk: Hunk, leading: nat)
    requires IsHunk([Edit(Add, 0, 1, x)], hunk, Span(0, 1)) && IsLeading(hunk.lines, leading)
    ensures HeaderStart(hunk.startA, leading) == 1 && OldSide(hunk.lines) == []
    ensures RightStart(0, |OldSide(hunk.lines)|) == 0
  {
  }

  lemma {:induction false} LeadingIs(edits: seq<Edit>, s: Span, first: nat, hunk: Hunk, leading: nat)
    requires IsSpan(edits, s, first) && IsHunk(edits, hunk, s) && IsLeading(hunk.lines, leading)
    ensures leading == first - s.lo
  {
    forall i | 0 <= i < |hunk.lines|
      ensures hunk.lines[i].mark == ' ' <==> !Changed(edits, s.lo + i)
    {
    }
    assert hunk.lines[first - s.lo].mark != ' ';
    assert leading < first - s.lo ==> !Changed(edits, s.lo + leading);
  }

  lemma {:induction false} StepSides(edits: seq<Edit>, k: nat)
    requires k < |edits|
    ensures |Old(edits[..k + 1])| == |Old(edits[..k])| + (if edits[k].kind == Add then 0 else 1)
    ensures |New(edits[..k + 1])| == |New(edits[..k])| + (if edits[k].kind == Remove then 0 else 1)
  {
    assert edits[..k + 1] == edits[..k] + [edits[k]];
    SidesConcat(edits[..k], [edits[k]]);
  }

  // ---------- Applying the hunks ----------

  // Hunk h finds its old side at offset offs[h] of `a`, at or after `from`.
  ghost predicate Fits(a: seq<Line>, from: nat, hunks: seq<seq<HunkLine>>, offs: seq<nat>)
    decreases hunks
  {
    && |offs| == |hunks|
    && if hunks == [] then from <= |a|
       else
         var end := offs[0] + |OldSide(hunks[0])|;
         from <= offs[0] && end <= |a| && a[offs[0]..end] == OldSide(hunks[0]) &&
         Fits(a, end, hunks[1..], offs[1..])
  }

  // Replaces the old side of every hunk by its new side and keeps the rest of `a`.
  ghost function Patch(a: seq<Line>, from: nat, hunks: seq<seq<HunkLine>>, offs: seq<nat>): seq<Line>
    requires Fits(a, from, hunks, offs)
    decreases hunks
  {
    if hunks == [] then a[from..]
    else
      var end := offs[0] + |OldSide(hunks[0])|;
      a[from..offs[0]] + NewSide(hunks[0]) + Patch(a, end, hunks[1..], offs[1..])
  }

  ghost function OffsetsOf(edits: seq<Edit>, spans: seq<Span>): (offs: seq<nat>)
    requires forall h :: 0 <= h < |spans| ==> spans[h].lo <= |edits|
    ensures |offs| == |spans|
  {
    seq(|spans|, h requires 0 <= h < |spans| => |Old(edits[..spans[h].lo])|)
  }

  function LinesOf(hunks: seq<OutputHunk>): (lines: seq<seq<HunkLine>>)
    ensures |lines| == |hunks|
    ensures forall h :: 0 <= h < |hunks| ==> lines[h] == hunks[h].lines
  {
    seq(|hunks|, h requires 0 <= h < |hunks| => hunks[h].lines)
  }

  // The script cut by hunk h: the quiet stretch since p, the hunk, the rest.
  ghost predicate Pending(edits: seq<Edit>, spans: seq<Span>, firsts: seq<nat>, h: nat, p: nat) {
    && AreSpans(edits, spans, firsts) && h <= |spans| && p <= |edits|
    && (h < |spans| ==> p <= spans[h].lo)
    && forall i :: p <= i < |edits| && Changed(edits, i) ==>
         exists g :: h <= g < |spans| && spans[g].lo <= i < spans[g].hi
  }

  lemma {:induction false} QuietUntilHunk(edits: seq<Edit>, spans: seq<Span>, firsts: seq<nat>, h: nat, p: nat)
    requires Pending(edits, spans, firsts, h, p)
    ensures h < |spans| ==> spans[h].lo < spans[h].hi <= |edits| && Quiet(edits, p, spans[h].lo)
    ensures h < |spans| ==> Pending(edits, spans, firsts, h + 1, spans[h].hi)
    ensures h == |spans| ==> Quiet(edits, p, |edits|)
  {
    hide IsSpan;
    if h < |spans| {
      SpanBounds(edits, spans[h], firsts[h]);
    }
  }

  lemma {:induction false} QuietSides(edits: seq<Edit>)
    requires forall i :: 0 <= i < |edits| ==> edits[i].kind == Common
    ensures Old(edits) == New(edits)
  {
    if edits != [] {
      QuietSides(edits[1..]);
    }
  }

  lemma {:induction false} QuietSlice(edits: seq<Edit>, p: nat, q: nat)
    requires p <= q <= |edits| && Quiet(edits, p, q)
    ensures Old(edits[p..q]) == New(edits[p..q])
  {
    forall i | 0 <= i < q - p
      ensures edits[p..q][i].kind == Common
    {
      assert !Changed(edits, p + i);
    }
    QuietSides(edits[p..q]);
  }

  // The sides of a slice sit at the offsets the sides of its prefix give.
  lemma {:induction false} SliceSides(edits: seq<Edit>, p: nat, q: nat)
    requires p <= q <= |edits|
    ensures |Old(edits[..p])| + |Old(edits[p..q])| == |Old(edits[..q])| <= |Old(edits)|
    ensures Old(edits)[|Old(edits[..p])|..|Old(edits[..q])|] == Old(edits[p..q])
    ensures New(edits[p..]) == New(edits[p..q]) + New(edits[q..])
  {
    assert edits[..q][..p] == edits[..p] && edits[..q][p..] == edits[p..q];
    SidesSplit(edits[..q], p);
    SidesSplit(edits, q);
    assert edits[p..][..q - p] == edits[p..q] && edits[p..][q - p..] == edits[q..];
    SidesSplit(edits[p..], q - p);
  }

  lemma {:induction false} PatchFrom(edits: seq<Edit>, lines: seq<seq<HunkLine>>, spans: seq<Span>,
      firsts: seq<nat>, offs: seq<nat>, h: nat, p: nat)
    requires Pending(edits, spans, firsts, h, p) && |lines| == |spans| == |offs|
    requires forall g :: 0 <= g < |spans| ==>
      spans[g].lo <= spans[g].hi <= |edits| && lines[g] == RenderAll(edits[spans[g].lo..spans[g].hi]) &&
      offs[g] == |Old(edits[..spans[g].lo])|
    ensures Fits(Old(edits), |Old(edits[..p])|, lines[h..], offs[h..])
    ensures Patch(Old(edits), |Old(edits[..p])|, lines[h..], offs[h..]) == New(edits[p..])
    decreases |spans| - h
  {
    hide Pending, Old, New, OldSide, NewSide, RenderAll;
    PendingBounds(edits, spans, firsts, h, p);
    QuietUntilHunk(edits, spans, firsts, h, p);
    if h == |spans| {
      SliceSides(edits, p, |edits|);
      QuietSlice(edits, p, |edits|);
      assert edits[..|edits|] == edits && edits[p..|edits|] == edits[p..];
    } else {
      var s := spans[h];
      SliceSides(edits, p, s.lo);
      SliceSides(edits, s.lo, s.hi);
      QuietSlice(edits, p, s.lo);
      SidesOfRender(edits[s.lo..s.hi]);
      assert lines[h..][1..] == lines[h + 1..] && offs[h..][1..] == offs[h + 1..];
      PatchFrom(edits, lines, spans, firsts, offs, h + 1, s.hi);
    }
  }

  lemma {:induction false} PendingBounds(edits: seq<Edit>, spans: seq<Span>, firsts: seq<nat>, h: nat, p: nat)
    requires Pending(edits, spans, firsts, h, p)
    ensures h <= |spans| && p <= |edits| && (h < |spans| ==> p <= spans[h].lo)
  {
  }

  // Applying the hunks to the old lines gives the new lines.
  lemma {:induction false} PatchRebuilds(edits: seq<Edit>, a: seq<Line>, b: seq<Line>, hunks: seq<OutputHunk>,
      spans: seq<Span>, firsts: seq<nat>)
    requires IsScript(edits, a, b) && AreSpans(edits, spans, firsts) && |hunks| == |spans|
    requires forall h :: 0 <= h < |spans| ==>
      spans[h].lo < spans[h].hi <= |edits| && hunks[h].lines == RenderAll(edits[spans[h].lo..spans[h].hi])
    ensures Fits(a, 0, LinesOf(hunks), OffsetsOf(edits, spans))
    ensures Patch(a, 0, LinesOf(hunks), OffsetsOf(edits, spans)) == b
  {
    hide AreSpans, Pending, RenderAll, Fits, Patch, Old, New;
    var lines, offs := LinesOf(hunks), OffsetsOf(edits, spans);
    StartPending(edits, spans, firsts);
    PatchFrom(edits, lines, spans, firsts, offs, 0, 0);
    NothingBefore(edits);
    assert lines[0..] == lines && offs[0..] == offs;
  }

  lemma {:induction false} NothingBefore(edits: seq<Edit>)
    ensures edits[..0] == [] && edits[0..] == edits && Old(edits[..0]) == []
  {
  }

  lemma {:induction false} StartPending(edits: seq<Edit>, spans: seq<Span>, firsts: seq<nat>)
    requires AreSpans(edits, spans, firsts)
    ensures Pending(edits, spans, firsts, 0, 0)
  {
    hide IsSpan;
    forall i | 0 <= i < |edits| && Changed(edits, i)
      ensures exists g :: 0 <= g < |spans| && spans[g].lo <= i < spans[g].hi
    {
      assert InSpans(spans, i);
    }
  }

  // ---------- The whole function ----------

  // What a script holds comes from one of its sides.
  lemma {:induction false} EntryComesFromSide(edits: seq<Edit>, k: nat)
    requires k < |edits|
    ensures edits[k].text in Old(edits) || edits[k].text in New(edits)
  {
    if k > 0 {
      EntryComesFromSide(edits[1..], k - 1);
    }
  }

  // Every line of a hunk is a line of one of the texts.
  ghost predicate ShowsLines(a: seq<Line>, b: seq<Line>, hunks: seq<OutputHunk>) {
    forall h, k :: 0 <= h < |hunks| && 0 <= k < |hunks[h].lines| ==>
      IsOneLine(hunks[h].lines[k].text) && (hunks[h].lines[k].text in a || hunks[h].lines[k].text in b)
  }

  lemma {:induction false} HunksShowLines(edits: seq<Edit>, a: seq<Line>, b: seq<Line>, hunks: seq<OutputHunk>,
      spans: seq<Span>)
    requires IsScript(edits, a, b) && AreOneLine(a) && AreOneLine(b) && |hunks| == |spans|
    requires forall h :: 0 <= h < |spans| ==> IsOutputHunk(edits, hunks[h], spans[h])
    ensures ShowsLines(a, b, hunks)
  {
    forall h, k | 0 <= h < |hunks| && 0 <= k < |hunks[h].lines|
      ensures IsOneLine(hunks[h].lines[k].text) && (hunks[h].lines[k].text in a || hunks[h].lines[k].text in b)
    {
      assert IsOutputHunk(edits, hunks[h], spans[h]);
      EntryComesFromSide(edits, spans[h].lo + k);
      assert hunks[h].lines[k] == Render(edits[spans[h].lo + k]);
    }
  }

  // A script between the lines of two texts that no other script beats.
  ghost predicate IsBestScript(script: seq<Edit>, a: seq<Line>, b: seq<Line>) {
    && IsScript(script, a, b)
    && forall other :: IsScript(other, a, b) ==>
         |script| - CommonCount(script) <= |other| - CommonCount(other)
  }

  ghost predicate IsOutputHunk(script: seq<Edit>, out: OutputHunk, s: Span) {
    && s.lo < s.hi <= |script|
    && out.lines == RenderAll(script[s.lo..s.hi])
    && out.countA == |Old(script[s.lo..s.hi])|
    && out.countB == |New(script[s.lo..s.hi])|
    && out.startA == WrittenStart(|Old(script[..s.lo])|)
    && out.startB == WrittenStart(|New(script[..s.lo])|)
  }

  ghost predicate IsRebuilt(a: seq<Line>, b: seq<Line>, hunks: seq<OutputHunk>) {
    exists offs :: Fits(a, 0, LinesOf(hunks), offs) && Patch(a, 0, LinesOf(hunks), offs) == b
  }

  method WriteHunks(script: seq<Edit>, hunks: seq<Hunk>, ghost spans: seq<Span>, ghost firsts: seq<nat>)
    returns (out: seq<OutputHunk>)
    requires |hunks| == |spans| && Numbered(script, 0, 0) && AreSpans(script, spans, firsts)
    requires forall h :: 0 <= h < |spans| ==> IsHunk(script, hunks[h], spans[h])
    ensures |out| == |spans|
    ensures forall h :: 0 <= h < |spans| ==> IsOutputHunk(script, out[h], spans[h])
  {
    hide AreSpans, Numbered;
    out := [];
    for h := 0 to |hunks|
      invariant |out| == h
      invariant forall g :: 0 <= g < h ==> IsOutputHunk(script, out[g], spans[g])
    {
      var written, leading := WriteHunk(hunks[h]);
      SidesOfRender(script[spans[h].lo..spans[h].hi]);
      HeaderStartExact(script, spans, firsts, h, hunks[h], leading);
      out := out + [written];
    }
  }

  method GenerateUnifiedDiff(textA: string, textB: string, labelA: string, labelB: string)
    returns (d: Diff, ghost script: seq<Edit>, ghost spans: seq<Span>, ghost firsts: seq<nat>)
    ensures d == NoDiff <==> Terminate(textA) == Terminate(textB)
    ensures d != NoDiff ==>
      && d.labelA == labelA && d.labelB == labelB
      && ShowsLines(Normalize(textA), Normalize(textB), d.hunks)
      && IsRebuilt(Normalize(textA), Normalize(textB), d.hunks)
      && IsBestScript(script, Normalize(textA), Normalize(textB))
      && Numbered(script, 0, 0) && AllChosen(script, Normalize(textA), Normalize(textB))
      && AreSpans(script, spans, firsts) && |d.hunks| == |spans|
      && forall h :: 0 <= h < |spans| ==> IsOutputHunk(script, d.hunks[h], spans[h])
  {
    hide AreSpans, IsHunk, IsOutputHunk, IsScript, Numbered, IsRebuilt, Normalize, Terminate, Lcs, ShowsLines,
         AreOneLine;
    script, spans, firsts := [], [], [];
    if textA == textB {
      return NoDiff, script, spans, firsts;
    }
    var linesA, linesB := Normalize(textA), Normalize(textB);
    var dp := FillTable(linesA, linesB);
    var edits := Backtrack(linesA, linesB, dp);
    var hunks;
    hunks, spans, firsts := GroupHunks(edits);
    script := edits;
    SameLines(textA, textB);
    UnchangedExactlyWhenEqual(edits, linesA, linesB);
    HunksExactlyWhenChanged(edits, spans, firsts);
    if |hunks| == 0 {
      return NoDiff, script, spans, firsts;
    }
    var out := WriteHunks(edits, hunks, spans, firsts);
    BestScript(edits, linesA, linesB);
    OutputRebuilds(edits, linesA, linesB, out, spans, firsts);
    NormalizeIsOneLine(textA);
    NormalizeIsOneLine(textB);
    HunksShowLines(edits, linesA, linesB, out, spans);
    d := Diff(labelA, labelB, out);
  }

  lemma {:induction false} BestScript(edits: seq<Edit>, a: seq<Line>, b: seq<Line>)
    requires IsScript(edits, a, b) && CommonCount(edits) == Lcs(a, b, |a|, |b|)
    ensures IsBestScript(edits, a, b)
  {
    forall other | IsScript(other, a, b)
      ensures |edits| - CommonCount(edits) <= |other| - CommonCount(other)
    {
      ScriptIsMinimal(edits, other, a, b);
    }
  }

  lemma {:induction false} OutputRebuilds(edits: seq<Edit>, a: seq<Line>, b: seq<Line>, out: seq<OutputHunk>,
      spans: seq<Span>, firsts: seq<nat>)
    requires IsScript(edits, a, b) && AreSpans(edits, spans, firsts) && |out| == |spans|
    requires forall h :: 0 <= h < |spans| ==> IsOutputHunk(edits, out[h], spans[h])
    ensures IsRebuilt(a, b, out)
  {
    hide AreSpans, IsScript;
    assert forall h :: 0 <= h < |spans| ==> IsOutputHunk(edits, out[h], spans[h]);
    PatchRebuilds(edits, a, b, out, spans, firsts);
  }

  lemma {:induction false} CommonExactlyWhenQuiet(edits: seq<Edit>)
    ensures CommonCount(edits) == |edits| <==> forall i :: 0 <= i < |edits| ==> edits[i].kind == Common
  {
    if edits != [] {
      ScriptSize(edits[1..]);
      CommonExactlyWhenQuiet(edits[1..]);
      assert forall i :: 0 < i < |edits| ==> edits[i] == edits[1..][i - 1];
    }
  }

  lemma {:induction false} HunksExactlyWhenChanged(edits: seq<Edit>, spans: seq<Span>, firsts: seq<nat>)
    requires AreSpans(edits, spans, firsts)
    ensures spans == [] <==> CommonCount(edits) == |edits|
  {
    CommonExactlyWhenQuiet(edits);
    hide CommonCount, Closes;
    if spans == [] {
      forall i | 0 <= i < |edits|
        ensures edits[i].kind == Common
      {
        assert Changed(edits, i) ==> InSpans(spans, i);
      }
    } else {
      assert IsSpan(edits, spans[0], firsts[0]);
    }
  }
}
