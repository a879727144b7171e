// The second half of generateUnifiedDiff (src/commands/agent.js): cutting the edit
// script into hunks, the hunk headers, and what applying the hunks does.
module DiffHunks {
  import opened DiffScript
  import opened Options

  const CONTEXT: nat := 3

  // A hunk line is its mark (' ', '-' or '+') followed by the text.
  datatype HunkLine = HunkLine(mark: char, text: Line)

  datatype Hunk = Hunk(startA: nat, startB: nat, lines: seq<HunkLine>)

  // The entries lo .. hi of the script.
  datatype Span = Span(lo: nat, hi: nat)

  function Render(e: Edit): HunkLine {
    HunkLine(match e.kind case Common => ' ' case Remove => '-' case Add => '+', e.text)
  }

  function RenderAll(edits: seq<Edit>): (lines: seq<HunkLine>)
    ensures |lines| == |edits|
    ensures forall i :: 0 <= i < |edits| ==> lines[i] == Render(edits[i])
  {
    seq(|edits|, i requires 0 <= i < |edits| => Render(edits[i]))
  }

  // ---------- Which entries a hunk shows ----------

  predicate Changed(edits: seq<Edit>, i: int) {
    0 <= i < |edits| && edits[i].kind != Common
  }

  ghost predicate Quiet(edits: seq<Edit>, from: int, to: int) {
    forall i :: from <= i < to ==> !Changed(edits, i)
  }

  // A common line in a hunk after which the next three entries hold no change.
  ghost predicate Closes(edits: seq<Edit>, i: int) {
    0 <= i < |edits| && !Changed(edits, i) && Quiet(edits, i + 1, i + 1 + CONTEXT)
  }

  // A hunk's slice: it opens three entries before its first change, or at the start of
  // the script, runs past every entry that does not close it, and ends with the first
  // that does, or with the script.
  ghost predicate IsSpan(edits: seq<Edit>, s: Span, first: nat) {
    && s.lo <= first < s.hi <= |edits|
    && Changed(edits, first) && Quiet(edits, s.lo, first)
    && s.lo == (if first >= CONTEXT then first - CONTEXT else 0)
    && (forall i :: first <= i < s.hi - 1 ==> !Closes(edits, i))
    && (s.hi == |edits| || Closes(edits, s.hi - 1))
  }

  // The slices are disjoint and in order, and together they hold every change.
  ghost predicate AreSpans(edits: seq<Edit>, spans: seq<Span>, firsts: seq<nat>) {
    && |firsts| == |spans|
    && (forall h :: 0 <= h < |spans| ==> IsSpan(edits, spans[h], firsts[h]))
    && (forall g, h :: 0 <= g < h < |spans| ==> spans[g].hi <= spans[h].lo)
    && (forall i :: Changed(edits, i) ==> InSpans(spans, i))
  }

  ghost predicate InSpans(spans: seq<Span>, i: int) {
    exists h :: 0 <= h < |spans| && spans[h].lo <= i < spans[h].hi
  }

  // A change at most three entries further on, or one entry back.
  ghost predicate NearChange(edits: seq<Edit>, i: int) {
    (exists c :: i <= c <= i + CONTEXT && Changed(edits, c)) || Changed(edits, i - 1)
  }

  // An entry is shown exactly when it is a change, one of the three entries before one,
  // or the single entry after one: the hunks carry three leading context lines but,
  // against the comment in the source, only one trailing line.
  lemma {:induction false} ShownExactlyNearChange(edits: seq<Edit>, spans: seq<Span>, firsts: seq<nat>, i: nat)
    requires AreSpans(edits, spans, firsts) && i < |edits|
    ensures InSpans(spans, i) <==> NearChange(edits, i)
  {
    hide IsSpan;
    if InSpans(spans, i) {
      var h :| 0 <= h < |spans| && spans[h].lo <= i < spans[h].hi;
      SpanIsNearChange(edits, spans[h], firsts[h], i);
    }
    if NearChange(edits, i) {
      var c :| i - 1 <= c <= i + CONTEXT && Changed(edits, c);
      assert InSpans(spans, c);
      var h :| 0 <= h < |spans| && spans[h].lo <= c < spans[h].hi;
      ChangeIsShown(edits, spans[h], firsts[h], i, c);
    }
  }

  lemma {:induction false} ChangeIsShown(edits: seq<Edit>, s: Span, first: nat, i: nat, c: nat)
    requires IsSpan(edits, s, first) && s.lo <= c < s.hi
    requires i - 1 <= c <= i + CONTEXT && Changed(edits, c) && i < |edits|
    ensures s.lo <= i < s.hi
  {
    assert first <= c;
  }

  lemma {:induction false} SpanIsNearChange(edits: seq<Edit>, s: Span, first: nat, i: nat)
    requires IsSpan(edits, s, first) && s.lo <= i < s.hi
    ensures NearChange(edits, i)
  {
    if i > first {
      if i < s.hi - 1 {
        assert !Closes(edits, i);
      } else {
        assert !Closes(edits, i - 1);
      }
    }
  }

  // ---------- Building the hunks ----------

  function TrailingContext(lines: seq<HunkLine>): (n: nat)
    ensures n <= |lines|
    ensures forall i :: |lines| - n <= i < |lines| ==> lines[i].mark == ' '
    ensures n < |lines| ==> lines[|lines| - n - 1].mark != ' '
  {
    if lines == [] || lines[|lines| - 1].mark != ' ' then 0
    else 1 + TrailingContext(lines[..|lines| - 1])
  }

  // Cuts trailing context down to three lines.
  method TrimTrailing(lines: seq<HunkLine>) returns (trimmed: seq<HunkLine>)
    ensures var n := TrailingContext(lines);
            trimmed == if n > CONTEXT then lines[..|lines| - n + CONTEXT] else lines
  {
    var trailingContext := 0;
    var trimIdx := |lines| - 1;
    assert lines[..|lines|] == lines;
    while trimIdx >= 0 && lines[trimIdx].mark == ' '
      invariant -1 <= trimIdx < |lines|
      invariant trailingContext == |lines| - 1 - trimIdx
      invariant TrailingContext(lines) == trailingContext + TrailingContext(lines[..trimIdx + 1])
    {
      assert lines[..trimIdx + 1][..trimIdx] == lines[..trimIdx];
      trailingContext := trailingContext + 1;
      trimIdx := trimIdx - 1;
    }
    return if trailingContext > CONTEXT then lines[..trimIdx + 1 + CONTEXT] else lines;
  }

  // The look-ahead: the next change within six entries, or -1.
  method NextChange(edits: seq<Edit>, k: nat) returns (next: int)
    requires k < |edits|
    ensures next == -1 ==> Quiet(edits, k + 1, k + 1 + 2 * CONTEXT)
    ensures next != -1 ==> k < next <= k + 2 * CONTEXT && Changed(edits, next) && Quiet(edits, k + 1, next)
  {
    var c := k + 1;
    while c < |edits| && c <= k + CONTEXT * 2
      invariant k < c && Quiet(edits, k + 1, c)
    {
      if edits[c].kind != Common {
        return c;
      }
      c := c + 1;
    }
    return -1;
  }

  ghost predicate IsHunk(edits: seq<Edit>, hunk: Hunk, s: Span) {
    && s.lo < s.hi <= |edits|
    && hunk.lines == RenderAll(edits[s.lo..s.hi])
    && hunk.startA == edits[s.lo].lineA && hunk.startB == edits[s.lo].lineB
  }

  // The closed hunks when the loop stands at entry k; everything from `free` on is still
  // outside of them.
  ghost predicate Closed(edits: seq<Edit>, hunks: seq<Hunk>, spans: seq<Span>, firsts: seq<nat>, free: nat) {
    && |hunks| == |spans| == |firsts| && free <= |edits|
    && (forall h :: 0 <= h < |spans| ==> IsSpan(edits, spans[h], firsts[h]) && IsHunk(edits, hunks[h], spans[h]))
    && (forall g, h :: 0 <= g < h < |spans| ==> spans[g].hi <= spans[h].lo)
    && (forall h :: 0 <= h < |spans| ==> spans[h].hi <= free)
    && (forall i :: 0 <= i < free && Changed(edits, i) ==> InSpans(spans, i))
  }

  // The hunk being built, which began at `lo` and has `first` as its first change.
  ghost predicate Open(edits: seq<Edit>, hunk: Hunk, lo: nat, first: nat, k: nat) {
    && lo <= first < k <= |edits|
    && Changed(edits, first) && Quiet(edits, lo, first)
    && lo == (if first >= CONTEXT then first - CONTEXT else 0)
    && (forall i :: first <= i < k ==> !Closes(edits, i))
    && IsHunk(edits, hunk, Span(lo, k))
  }

  lemma {:induction false} RenderStep(edits: seq<Edit>, lo: nat, k: nat)
    requires lo <= k < |edits|
    ensures RenderAll(edits[lo..k + 1]) == RenderAll(edits[lo..k]) + [Render(edits[k])]
  {
  }

  // A change at entry k opens a hunk with the context before it.
  method OpenHunk(edits: seq<Edit>, k: nat) returns (hunk: Hunk)
    requires Changed(edits, k) && Quiet(edits, k - CONTEXT, k)
    ensures Open(edits, hunk, if k >= CONTEXT then k - CONTEXT else 0, k, k + 1)
  {
    var startIdx: nat := if k >= CONTEXT then k - CONTEXT else 0;
    var lines: seq<HunkLine> := [];
    for c := startIdx to k
      invariant lines == RenderAll(edits[startIdx..c])
    {
      RenderStep(edits, startIdx, c);
      assert !Changed(edits, c);
      lines := lines + [HunkLine(' ', edits[c].text)];
    }
    RenderStep(edits, startIdx, k);
    lines := lines + [Render(edits[k])];
    hunk := Hunk(edits[startIdx].lineA, edits[startIdx].lineB, lines);
  }

  lemma {:induction false} OpenExtends(edits: seq<Edit>, hunk: Hunk, lo: nat, first: nat, k: nat)
    requires Open(edits, hunk, lo, first, k) && k < |edits| && !Closes(edits, k)
    ensures Open(edits, hunk.(lines := hunk.lines + [Render(edits[k])]), lo, first, k + 1)
  {
    RenderStep(edits, lo, k);
  }

  // The line that closes a hunk is its only trailing context line, so the trimming
  // that follows never removes anything.
  lemma {:induction false} ClosingIsTrimmed(edits: seq<Edit>, hunk: Hunk, lo: nat, first: nat, k: nat)
    requires Open(edits, hunk, lo, first, k) && k < |edits| && Closes(edits, k)
    ensures TrailingContext(hunk.lines + [Render(edits[k])]) == 1
    ensures IsSpan(edits, Span(lo, k + 1), first)
    ensures IsHunk(edits, hunk.(lines := hunk.lines + [Render(edits[k])]), Span(lo, k + 1))
  {
    hide Open, Closes, IsSpan, IsHunk, TrailingContext, Render;
    LastIsChange(edits, hunk, lo, first, k);
    OneAfterChange(hunk.lines, Render(edits[k]));
    ClosingIsSpan(edits, hunk, lo, first, k);
  }

  lemma {:induction false} ClosingIsSpan(edits: seq<Edit>, hunk: Hunk, lo: nat, first: nat, k: nat)
    requires Open(edits, hunk, lo, first, k) && k < |edits| && Closes(edits, k)
    ensures IsSpan(edits, Span(lo, k + 1), first)
    ensures IsHunk(edits, hunk.(lines := hunk.lines + [Render(edits[k])]), Span(lo, k + 1))
  {
    hide Closes, Quiet, RenderAll, Render;
    RenderStep(edits, lo, k);
  }

  // In an open hunk a common line is never followed by one that closes it.
  lemma {:induction false} LastIsChange(edits: seq<Edit>, hunk: Hunk, lo: nat, first: nat, k: nat)
    requires Open(edits, hunk, lo, first, k) && k < |edits| && Closes(edits, k)
    ensures hunk.lines != [] && hunk.lines[|hunk.lines| - 1].mark != ' ' && Render(edits[k]).mark == ' '
    ensures Changed(edits, first) && Quiet(edits, lo, first)
  {
    assert !Closes(edits, k - 1);
    assert Changed(edits, k - 1);
    assert hunk.lines[|hunk.lines| - 1] == Render(edits[k - 1]);
  }

  lemma {:induction false} OneAfterChange(lines: seq<HunkLine>, line: HunkLine)
    requires lines != [] && lines[|lines| - 1].mark != ' ' && line.mark == ' '
    ensures TrailingContext(lines + [line]) == 1
  {
    assert (lines + [line])[..|lines|] == lines;
  }

  // A hunk still open at the end of the script ends with a change.
  lemma {:induction false} FinalIsTrimmed(edits: seq<Edit>, hunk: Hunk, lo: nat, first: nat)
    requires Open(edits, hunk, lo, first, |edits|)
    ensures TrailingContext(hunk.lines) == 0
    ensures IsSpan(edits, Span(lo, |edits|), first) && IsHunk(edits, hunk, Span(lo, |edits|))
  {
    var k := |edits| - 1;
    assert !Closes(edits, k);
    assert hunk.lines[|hunk.lines| - 1] == Render(edits[k]);
  }

  lemma {:induction false} ClosedGrows(edits: seq<Edit>, hunks: seq<Hunk>, spans: seq<Span>, firsts: seq<nat>,
      free: nat, hunk: Hunk, s: Span, first: nat)
    requires Closed(edits, hunks, spans, firsts, free)
    requires IsSpan(edits, s, first) && IsHunk(edits, hunk, s)
    requires free <= s.lo && Quiet(edits, free, s.lo)
    ensures Closed(edits, hunks + [hunk], spans + [s], firsts + [first], s.hi)
  {
    hide IsSpan, IsHunk;
    var longer := spans + [s];
    SpanBounds(edits, s, first);
    forall i | 0 <= i < s.hi && Changed(edits, i)
      ensures InSpans(longer, i)
    {
      if i < free {
        var h :| 0 <= h < |spans| && spans[h].lo <= i < spans[h].hi;
        assert longer[h] == spans[h];
      } else {
        assert longer[|spans|] == s;
      }
    }
  }

  lemma {:induction false} SpanBounds(edits: seq<Edit>, s: Span, first: nat)
    requires IsSpan(edits, s, first)
    ensures s.lo < s.hi <= |edits|
    ensures s.hi == |edits| || Quiet(edits, s.hi, s.hi + CONTEXT)
  {
  }

  // What is known between two entries: with no hunk open nothing has changed since the
  // last one closed; with one open, nothing changed before it began.
  ghost predicate Grouping(edits: seq<Edit>, hunks: seq<Hunk>, spans: seq<Span>, firsts: seq<nat>, free: nat,
      current: Option<Hunk>, lo: nat, first: nat, k: nat) {
    && free <= k <= |edits|
    && Closed(edits, hunks, spans, firsts, free)
    && (free == 0 || free == |edits| || Quiet(edits, free, free + CONTEXT))
    && match current
       case None => Quiet(edits, free, k)
       case Some(hunk) => Open(edits, hunk, lo, first, k) && free <= lo && Quiet(edits, free, lo)
  }

  // A common line that closes the hunk: it is the only one after a change.
  lemma {:induction false} CloseStep(edits: seq<Edit>, hunks: seq<Hunk>, spans: seq<Span>, firsts: seq<nat>, free: nat,
      hunk: Hunk, lo: nat, first: nat, k: nat)
    requires k < |edits| && Closes(edits, k)
    requires Grouping(edits, hunks, spans, firsts, free, Some(hunk), lo, first, k)
    ensures var whole := hunk.(lines := hunk.lines + [Render(edits[k])]);
      && TrailingContext(whole.lines) == 1
      && Grouping(edits, hunks + [whole], spans + [Span(lo, k + 1)], firsts + [first], k + 1, None, lo, first, k + 1)
  {
    hide Closed, Open, Closes, IsSpan, IsHunk, Quiet, TrailingContext;
    ClosingIsTrimmed(edits, hunk, lo, first, k);
    ClosedGrows(edits, hunks, spans, firsts, free, hunk.(lines := hunk.lines + [Render(edits[k])]), Span(lo, k + 1),
        first);
    SpanBounds(edits, Span(lo, k + 1), first);
    QuietEmpty(edits, k + 1);
  }

  // Any other line of an open hunk.
  lemma {:induction false} ExtendStep(edits: seq<Edit>, hunks: seq<Hunk>, spans: seq<Span>, firsts: seq<nat>, free: nat,
      hunk: Hunk, lo: nat, first: nat, k: nat)
    requires k < |edits| && !Closes(edits, k)
    requires Grouping(edits, hunks, spans, firsts, free, Some(hunk), lo, first, k)
    ensures Grouping(edits, hunks, spans, firsts, free, Some(hunk.(lines := hunk.lines + [Render(edits[k])])), lo,
        first, k + 1)
  {
    hide Closed, Open, Closes, Quiet;
    OpenExtends(edits, hunk, lo, first, k);
  }

  // A change outside of a hunk.
  lemma {:induction false} OpenStep(edits: seq<Edit>, hunks: seq<Hunk>, spans: seq<Span>, firsts: seq<nat>, free: nat,
      lo: nat, first: nat, k: nat)
    requires k < |edits| && Changed(edits, k)
    requires Grouping(edits, hunks, spans, firsts, free, None, lo, first, k)
    ensures Quiet(edits, k - CONTEXT, k)
    ensures forall hunk :: Open(edits, hunk, if k >= CONTEXT then k - CONTEXT else 0, k, k + 1) ==>
      Grouping(edits, hunks, spans, firsts, free, Some(hunk), if k >= CONTEXT then k - CONTEXT else 0, k, k + 1)
  {
    hide Closed, Open;
    NewHunkIsClear(edits, free, k);
  }

  // A common line outside of a hunk.
  lemma {:induction false} SkipStep(edits: seq<Edit>, hunks: seq<Hunk>, spans: seq<Span>, firsts: seq<nat>, free: nat,
      lo: nat, first: nat, k: nat)
    requires k < |edits| && !Changed(edits, k)
    requires Grouping(edits, hunks, spans, firsts, free, None, lo, first, k)
    ensures Grouping(edits, hunks, spans, firsts, free, None, lo, first, k + 1)
  {
    hide Closed, Open, Quiet;
    QuietExtends(edits, free, k);
  }

  // The end of the script, with a hunk open: it ends with a change.
  lemma {:induction false} FinalStep(edits: seq<Edit>, hunks: seq<Hunk>, spans: seq<Span>, firsts: seq<nat>, free: nat,
      hunk: Hunk, lo: nat, first: nat)
    requires Grouping(edits, hunks, spans, firsts, free, Some(hunk), lo, first, |edits|)
    ensures TrailingContext(hunk.lines) == 0
    ensures Grouping(edits, hunks + [hunk], spans + [Span(lo, |edits|)], firsts + [first], |edits|, None, lo, first,
        |edits|)
  {
    hide Closed, Open, IsSpan, IsHunk, Quiet, TrailingContext;
    FinalIsTrimmed(edits, hunk, lo, first);
    ClosedGrows(edits, hunks, spans, firsts, free, hunk, Span(lo, |edits|), first);
    QuietEmpty(edits, |edits|);
  }

  method GroupHunks(edits: seq<Edit>) returns (hunks: seq<Hunk>, ghost spans: seq<Span>, ghost firsts: seq<nat>)
    ensures AreSpans(edits, spans, firsts) && |hunks| == |spans|
    ensures forall h :: 0 <= h < |spans| ==> IsHunk(edits, hunks[h], spans[h])
  {
    hide Grouping, Open, Closes, IsSpan, IsHunk, Quiet, TrailingContext;
    hunks, spans, firsts := [], [], [];
    var current: Option<Hunk> := None;
    ghost var lo: nat, first: nat, free: nat := 0, 0, 0;
    NothingGrouped(edits);
    for k := 0 to |edits|
      invariant Grouping(edits, hunks, spans, firsts, free, current, lo, first, k)
    {
      var edit := edits[k];
      if edit.kind != Common {
        ChangeDoesNotClose(edits, k);
        if current.None? {
          OpenStep(edits, hunks, spans, firsts, free, lo, first, k);
          lo, first := if k >= CONTEXT then k - CONTEXT else 0, k;
          var hunk := OpenHunk(edits, k);
          current := Some(hunk);
        } else {
          ExtendStep(edits, hunks, spans, firsts, free, current.value, lo, first, k);
          var mark := if edit.kind == Add then '+' else '-';
          current := Some(current.value.(lines := current.value.lines + [HunkLine(mark, edit.text)]));
        }
      } else if current.Some? {
        var hunk := current.value.(lines := current.value.lines + [HunkLine(' ', edit.text)]);
        var nextChangeIdx := NextChange(edits, k);
        LookAhead(edits, k, nextChangeIdx);
        if nextChangeIdx == -1 || nextChangeIdx > k + CONTEXT {
          CloseStep(edits, hunks, spans, firsts, free, current.value, lo, first, k);
          var lines := TrimTrailing(hunk.lines);
          hunks, spans, firsts := hunks + [hunk.(lines := lines)], spans + [Span(lo, k + 1)], firsts + [first];
          current, free := None, k + 1;
        } else {
          ExtendStep(edits, hunks, spans, firsts, free, current.value, lo, first, k);
          current := Some(hunk);
        }
      } else {
        SkipStep(edits, hunks, spans, firsts, free, lo, first, k);
      }
    }
    if current.Some? {
      FinalStep(edits, hunks, spans, firsts, free, current.value, lo, first);
      var lines := TrimTrailing(current.value.lines);
      hunks, spans, firsts := hunks + [current.value.(lines := lines)], spans + [Span(lo, |edits|)], firsts + [first];
      free := |edits|;
    }
    GroupingIsComplete(edits, hunks, spans, firsts, free, lo, first);
  }

  lemma {:induction false} GroupingIsComplete(edits: seq<Edit>, hunks: seq<Hunk>, spans: seq<Span>, firsts: seq<nat>,
      free: nat, lo: nat, first: nat)
    requires Grouping(edits, hunks, spans, firsts, free, None, lo, first, |edits|)
    ensures AreSpans(edits, spans, firsts) && |hunks| == |spans|
    ensures forall h :: 0 <= h < |spans| ==> IsHunk(edits, hunks[h], spans[h])
  {
    hide Closed, IsHunk, AreSpans;
    ClosedIsComplete(edits, hunks, spans, firsts, free);
  }

  lemma {:induction false} NothingGrouped(edits: seq<Edit>)
    ensures Grouping(edits, [], [], [], 0, None, 0, 0, 0)
  {
  }

  lemma {:induction false} ChangeDoesNotClose(edits: seq<Edit>, k: nat)
    requires Changed(edits, k)
    ensures !Closes(edits, k)
  {
  }

  lemma {:induction false} QuietEmpty(edits: seq<Edit>, k: nat)
    ensures Quiet(edits, k, k)
  {
  }

  lemma {:induction false} QuietExtends(edits: seq<Edit>, from: nat, k: nat)
    requires Quiet(edits, from, k) && !Changed(edits, k)
    ensures Quiet(edits, from, k + 1)
  {
  }

  // A change that opens a hunk lies at least three entries past the previous hunk.
  lemma {:induction false} NewHunkIsClear(edits: seq<Edit>, free: nat, k: nat)
    requires free <= k && Quiet(edits, free, k) && Changed(edits, k)
    requires free == 0 || free == |edits| || Quiet(edits, free, free + CONTEXT)
    ensures Quiet(edits, k - CONTEXT, k)
    ensures var lo := if k >= CONTEXT then k - CONTEXT else 0; free <= lo && Quiet(edits, free, lo)
  {
  }

  // The six-entry look-ahead decides exactly whether entry k closes the hunk.
  lemma {:induction false} LookAhead(edits: seq<Edit>, k: nat, next: int)
    requires k < |edits| && !Changed(edits, k)
    requires next == -1 ==> Quiet(edits, k + 1, k + 1 + 2 * CONTEXT)
    requires next != -1 ==> k < next && Changed(edits, next) && Quiet(edits, k + 1, next)
    ensures Closes(edits, k) <==> next == -1 || next > k + CONTEXT
  {
  }

  lemma {:induction false} ClosedIsComplete(edits: seq<Edit>, hunks: seq<Hunk>, spans: seq<Span>, firsts: seq<nat>,
      free: nat)
    requires Closed(edits, hunks, spans, firsts, free) && Quiet(edits, free, |edits|)
    ensures AreSpans(edits, spans, firsts) && |hunks| == |spans|
    ensures forall h :: 0 <= h < |spans| ==> IsHunk(edits, hunks[h], spans[h])
  {
    hide IsSpan, IsHunk;
  }
}
