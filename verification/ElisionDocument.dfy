// Conditional elision on documents as they are written (plugin.js,
// elideConditionalSections): plain text and sections between an opening marker and a closing
// tag. What is left, which names are reported and how much was saved is said in terms of the
// sections alone.
module ElisionDocument {
  import opened Options
  import opened Strings
  import opened ElisionText
  import opened ElisionMarkers
  import opened Elision

  // A section and the plain text up to the next one.
  datatype Block = Block(marker: Parts, body: string, after: string)

  function SectionText(b: Block): string {
    Written(b.marker) + (b.body + SECTION_CLOSE)
  }

  function DocumentText(head: string, blocks: seq<Block>): string
    decreases |blocks|
  {
    if blocks == [] then head
    else head + (SectionText(blocks[0]) + DocumentText(blocks[0].after, blocks[1..]))
  }

  // No comment begins in it.
  ghost predicate IsPlain(text: string) {
    forall i: nat :: !StartsAt(text, i, OPEN)
  }

  ghost predicate AreBlocks(blocks: seq<Block>) {
    forall k :: 0 <= k < |blocks| ==>
      AreParts(blocks[k].marker) && IsPlain(blocks[k].body) && IsPlain(blocks[k].after)
  }

  predicate Stays(b: Block, enrichment: Enrichment) {
    EvaluateCondition(b.marker.condition, enrichment)
  }

  // The document without the sections whose condition is false, and without a newline that
  // follows what is cut.
  function Remaining(head: string, blocks: seq<Block>, enrichment: Enrichment): string
    decreases |blocks|
  {
    if blocks == [] then head
    else
      var rest := Remaining(blocks[0].after, blocks[1..], enrichment);
      head + if Stays(blocks[0], enrichment) then SectionText(blocks[0]) + rest else DropNewline(rest)
  }

  function FalseNames(blocks: seq<Block>, enrichment: Enrichment): seq<string> {
    if blocks == [] then []
    else (if Stays(blocks[0], enrichment) then [] else [blocks[0].marker.name]) + FalseNames(blocks[1..], enrichment)
  }

  function Saved(blocks: seq<Block>, enrichment: Enrichment): nat {
    if blocks == [] then 0
    else (if Stays(blocks[0], enrichment) then 0 else CeilQuarter(|SectionText(blocks[0])|))
         + Saved(blocks[1..], enrichment)
  }

  // The markers of a document whose head begins at `at`.
  function MarksOf(head: string, blocks: seq<Block>, at: nat): (marks: seq<Marker>)
    ensures |marks| == |blocks|
    decreases |blocks|
  {
    if blocks == [] then []
    else
      var b, start := blocks[0], at + |head|;
      [Marker(start, start + |Written(b.marker)|, b.marker.name, b.marker.condition)]
      + MarksOf(b.after, blocks[1..], start + |SectionText(b)|)
  }

  // ---------- Where no marker begins ----------

  lemma {:induction false} OpenChars()
    ensures |OPEN| == 4 && OPEN[0] == '<' && forall k :: 1 <= k < 4 ==> OPEN[k] != '<'
    ensures |SECTION_CLOSE| == 17 && SECTION_CLOSE[0] == '<' && SECTION_CLOSE[..4] == OPEN
    ensures forall k :: 1 <= k < 17 ==> SECTION_CLOSE[k] != '<'
    ensures SECTION_CLOSE[4] == ' ' && SECTION_CLOSE[5] == '/' && SECTION[0] == 's' && |SECTION| > 0
  {
  }

  lemma {:induction false} OpenInPlain(text: string, i: nat, plain: string, p: nat)
    requires At(text, i, plain) && i <= p && p + 4 <= i + |plain|
    ensures StartsAt(text, p, OPEN) ==> StartsAt(plain, p - i, OPEN)
  {
    OpenChars();
    hide OPEN;
    var inside, outside := plain[p - i..p - i + 4], text[p..p + 4];
    forall k | 0 <= k < |inside|
      ensures inside[k] == outside[k]
    {
      CharsAt(text, i, plain, p - i + k);
    }
    assert inside == outside;
  }

  lemma {:induction false} OpenAcross(text: string, p: nat, end: nat)
    requires p < end < p + 4 && (end < |text| ==> text[end] == '<')
    ensures !StartsAt(text, p, OPEN)
  {
    OpenChars();
    hide OPEN;
    assert p + 4 <= |text| ==> text[p..p + 4][end - p] == text[end];
  }

  // A plain text that ends the document or is followed by a comment: none begins in it.
  lemma {:induction false} PlainIsQuiet(text: string, i: nat, plain: string, p: nat)
    requires At(text, i, plain) && IsPlain(plain) && i <= p < i + |plain|
    requires i + |plain| < |text| ==> text[i + |plain|] == '<'
    ensures !StartsAt(text, p, OPEN)
  {
    if p + 4 <= i + |plain| {
      OpenInPlain(text, i, plain, p);
    } else {
      OpenAcross(text, p, i + |plain|);
    }
    hide StartsAt, At;
  }

  lemma {:induction false} CloseStartsOpen(text: string, p: nat)
    requires StartsAt(text, p, SECTION_CLOSE)
    ensures StartsAt(text, p, OPEN)
  {
    OpenChars();
    hide OPEN, SECTION_CLOSE;
    assert text[p..p + 4] == text[p..p + |SECTION_CLOSE|][..4];
  }

  lemma {:induction false} NoOpenNoMarker(text: string, p: nat)
    requires !StartsAt(text, p, OPEN)
    ensures MarkerAt(text, p).None? && !StartsAt(text, p, SECTION_CLOSE)
  {
    hide OPEN, SECTION_CLOSE;
    if StartsAt(text, p, SECTION_CLOSE) {
      CloseStartsOpen(text, p);
    }
  }

  lemma {:induction false} CloseIsNoMarker(text: string, i: nat)
    requires i + 5 < |text| && text[i + 4] == ' ' && text[i + 5] == '/'
    ensures MarkerAt(text, i).None?
  {
    OpenChars();
    assert IsSpace(' ') && !IsSpace('/');
    hide IsSpace, OPEN, SECTION_CLOSE;
    SkipWhileIs(IsSpace, text, i + 4, i + 5);
    SlashIsNoSection(text, i + 5);
    hide SkipWhile, SECTION, StartsAt;
  }

  lemma {:induction false} InkIsNoMarker(text: string, p: nat)
    requires p < |text| && text[p] != '<'
    ensures MarkerAt(text, p).None?
  {
    OpenChars();
    assert p + 4 <= |text| ==> text[p..p + 4][0] == text[p];
    hide OPEN;
  }

  // Nor does one begin in a closing tag.
  lemma {:induction false} CloseIsQuiet(text: string, i: nat, p: nat)
    requires At(text, i, SECTION_CLOSE) && i <= p < i + |SECTION_CLOSE|
    ensures MarkerAt(text, p).None?
  {
    OpenChars();
    hide SECTION_CLOSE, OPEN, MarkerAt;
    CharsAt(text, i, SECTION_CLOSE, p - i);
    CharsAt(text, i, SECTION_CLOSE, 4);
    CharsAt(text, i, SECTION_CLOSE, 5);
    AtFits(text, i, SECTION_CLOSE);
    hide At;
    if p == i {
      CloseIsNoMarker(text, i);
    } else {
      InkIsNoMarker(text, p);
    }
  }

  lemma {:induction false} SlashIsNoSection(text: string, i: nat)
    requires i < |text| && text[i] == '/'
    ensures !StartsAt(text, i, SECTION)
  {
    assert i + |SECTION| <= |text| ==> text[i..i + |SECTION|][0] == text[i];
  }

  // ---------- The markers of a document ----------

  // The markers from a position on: in order, and around every position where one begins.
  ghost predicate AreMarkersFrom(text: string, marks: seq<Marker>, at: nat) {
    AreRead(text, marks, at) && AreApart(marks) && AreAll(text, marks, at)
  }

  ghost predicate AreRead(text: string, marks: seq<Marker>, at: nat) {
    forall k :: 0 <= k < |marks| ==>
      at <= marks[k].start < marks[k].end <= |text| && MarkerAt(text, marks[k].start) == Some(marks[k])
  }

  ghost predicate AreApart(marks: seq<Marker>) {
    forall k, l :: 0 <= k < l < |marks| ==> marks[k].end <= marks[l].start
  }

  ghost predicate AreAll(text: string, marks: seq<Marker>, at: nat) {
    forall p :: at <= p < |text| && MarkerAt(text, p).Some? ==>
      exists k :: 0 <= k < |marks| && marks[k].start <= p < marks[k].end
  }

  // Where the pieces of a document with at least one section stand.
  lemma {:induction false} PiecesStand(text: string, at: nat, head: string, blocks: seq<Block>)
    requires blocks != [] && At(text, at, DocumentText(head, blocks))
    ensures var b, start := blocks[0], at + |head|;
      var inner := start + |Written(b.marker)|;
      var close := inner + |b.body|;
      && At(text, at, head) && At(text, start, Written(b.marker)) && At(text, inner, b.body)
      && At(text, close, SECTION_CLOSE)
      && close + |SECTION_CLOSE| == start + |SectionText(b)|
      && At(text, start + |SectionText(b)|, DocumentText(b.after, blocks[1..]))
      && at + |DocumentText(head, blocks)|
         == start + |SectionText(b)| + |DocumentText(b.after, blocks[1..])|
  {
    hide At, Written, SECTION_CLOSE;
    var b := blocks[0];
    var rest := DocumentText(b.after, blocks[1..]);
    Peel(text, at, head, SectionText(b) + rest);
    Peel(text, at + |head|, SectionText(b), rest);
    Peel(text, at + |head|, Written(b.marker), b.body + SECTION_CLOSE);
    Peel(text, at + |head| + |Written(b.marker)|, b.body, SECTION_CLOSE);
  }

  lemma {:induction false} StartsWithOpen(text: string, i: nat, p: Parts)
    requires At(text, i, Written(p))
    ensures i < |text| && text[i] == '<' && |Written(p)| > 0
  {
    OpenChars();
    hide OPEN;
    CharsAt(text, i, Written(p), 0);
    AtFits(text, i, Written(p));
  }

  lemma {:induction false} PlainHasNoMarker(text: string, i: nat, plain: string)
    requires At(text, i, plain) && IsPlain(plain)
    requires i + |plain| < |text| ==> text[i + |plain|] == '<'
    ensures forall p :: i <= p < i + |plain| ==> MarkerAt(text, p).None? && !StartsAt(text, p, SECTION_CLOSE)
  {
    hide At, IsPlain, MarkerAt, StartsAt;
    forall p | i <= p < i + |plain|
      ensures MarkerAt(text, p).None? && !StartsAt(text, p, SECTION_CLOSE)
    {
      PlainIsQuiet(text, i, plain, p);
      NoOpenNoMarker(text, p);
    }
  }

  // A section holds no marker but its own.
  lemma {:induction false} SectionHasOneMarker(text: string, start: nat, b: Block)
    requires AreParts(b.marker) && IsPlain(b.body)
    requires At(text, start, Written(b.marker)) && At(text, start + |Written(b.marker)|, b.body)
    requires At(text, start + |Written(b.marker)| + |b.body|, SECTION_CLOSE)
    ensures var inner := start + |Written(b.marker)|;
      var close := inner + |b.body|;
      && start < inner && close + |SECTION_CLOSE| <= |text|
      && MarkerAt(text, start) == Some(Marker(start, inner, b.marker.name, b.marker.condition))
      && (forall p :: inner <= p < close + |SECTION_CLOSE| ==> MarkerAt(text, p).None?)
      && IndexOf(text, SECTION_CLOSE, inner) == close
  {
    hide MarkerAt, At, StartsAt, Written, SECTION_CLOSE, IsPlain, OPEN, AreParts, IndexOf;
    var inner := start + |Written(b.marker)|;
    var close := inner + |b.body|;
    WrittenIsRead(text, start, b.marker);
    StartsWithOpen(text, start, b.marker);
    CloseStands(text, close);
    PlainHasNoMarker(text, inner, b.body);
    forall p | close <= p < close + |SECTION_CLOSE|
      ensures MarkerAt(text, p).None?
    {
      CloseIsQuiet(text, close, p);
    }
    CloseIsFirst(text, inner, close);
  }

  lemma {:induction false} CloseStands(text: string, close: nat)
    requires At(text, close, SECTION_CLOSE)
    ensures StartsAt(text, close, SECTION_CLOSE) && close + |SECTION_CLOSE| <= |text|
    ensures close < |text| && text[close] == '<'
  {
    OpenChars();
    CharsAt(text, close, SECTION_CLOSE, 0);
    AtFits(text, close, SECTION_CLOSE);
    AtIsStartsAt(text, close, SECTION_CLOSE);
    hide At, StartsAt, SECTION_CLOSE;
  }

  lemma {:induction false} CloseIsFirst(text: string, from: nat, close: nat)
    requires from <= close && StartsAt(text, close, SECTION_CLOSE)
    requires forall p :: from <= p < close ==> !StartsAt(text, p, SECTION_CLOSE)
    ensures IndexOf(text, SECTION_CLOSE, from) == close
  {
    hide StartsAt, IndexOf, SECTION_CLOSE;
    var i := IndexOf(text, SECTION_CLOSE, from);
    assert i != -1 && i <= close;
  }

  lemma {:induction false} MarksAreMarkers(text: string, at: nat, head: string, blocks: seq<Block>)
    requires At(text, at, DocumentText(head, blocks)) && at + |DocumentText(head, blocks)| == |text|
    requires IsPlain(head) && AreBlocks(blocks)
    ensures AreMarkersFrom(text, MarksOf(head, blocks, at), at)
    decreases |blocks|
  {
    hide MarkerAt, StartsAt, At, Written, IsPlain, AreBlocks, SectionText, SECTION_CLOSE, AreMarkersFrom, AreParts;
    if blocks == [] {
      PlainHasNoMarker(text, at, head);
      QuietHasNoMarkers(text, at);
    } else {
      var b, start := blocks[0], at + |head|;
      var next := start + |SectionText(b)|;
      PiecesStand(text, at, head, blocks);
      hide DocumentText;
      BlocksUncons(blocks);
      SectionHasOneMarker(text, start, b);
      StartsWithOpen(text, start, b.marker);
      PlainHasNoMarker(text, at, head);
      MarksAreMarkers(text, next, b.after, blocks[1..]);
      AtFits(text, next, DocumentText(b.after, blocks[1..]));
      MarkersPrepend(text, at, start,
                     Marker(start, start + |Written(b.marker)|, b.marker.name, b.marker.condition), next,
                     MarksOf(b.after, blocks[1..], next));
    }
  }

  lemma {:induction false} QuietHasNoMarkers(text: string, at: nat)
    requires forall p :: at <= p < |text| ==> MarkerAt(text, p).None?
    ensures AreMarkersFrom(text, [], at)
  {
    hide MarkerAt;
  }

  lemma {:induction false} BlocksUncons(blocks: seq<Block>)
    requires AreBlocks(blocks) && blocks != []
    ensures AreParts(blocks[0].marker) && IsPlain(blocks[0].body) && IsPlain(blocks[0].after)
    ensures AreBlocks(blocks[1..])
  {
    hide AreParts, IsPlain;
  }

  lemma {:induction false} MarkersPrepend(text: string, at: nat, start: nat, m: Marker, next: nat, rest: seq<Marker>)
    requires at <= start < m.end <= next <= |text| && m.start == start && MarkerAt(text, start) == Some(m)
    requires AreMarkersFrom(text, rest, next)
    requires forall p :: at <= p < start ==> MarkerAt(text, p).None?
    requires forall p :: m.end <= p < next ==> MarkerAt(text, p).None?
    ensures AreMarkersFrom(text, [m] + rest, at)
  {
    hide MarkerAt, AreRead, AreApart, AreAll;
    ReadPrepend(text, at, m, next, rest);
    ApartPrepend(text, m, next, rest);
    forall p | at <= p < |text| && MarkerAt(text, p).Some?
      ensures var marks := [m] + rest; exists k :: 0 <= k < |marks| && marks[k].start <= p < marks[k].end
    {
      MarkerIsListed(text, at, m, next, rest, p);
    }
    AllMeans(text, [m] + rest, at);
  }

  lemma {:induction false} AllMeans(text: string, marks: seq<Marker>, at: nat)
    requires forall p :: at <= p < |text| && MarkerAt(text, p).Some? ==>
      exists k :: 0 <= k < |marks| && marks[k].start <= p < marks[k].end
    ensures AreAll(text, marks, at)
  {
    hide MarkerAt;
  }

  lemma {:induction false} ReadPrepend(text: string, at: nat, m: Marker, next: nat, rest: seq<Marker>)
    requires at <= m.start < m.end <= next <= |text| && MarkerAt(text, m.start) == Some(m) && AreRead(text, rest, next)
    ensures AreRead(text, [m] + rest, at)
  {
    hide MarkerAt;
  }

  lemma {:induction false} ApartPrepend(text: string, m: Marker, next: nat, rest: seq<Marker>)
    requires m.end <= next && AreRead(text, rest, next) && AreApart(rest)
    ensures AreApart([m] + rest)
  {
    hide MarkerAt;
  }

  lemma {:induction false} MarkerIsListed(text: string, at: nat, m: Marker, next: nat, rest: seq<Marker>, p: nat)
    requires at <= m.start < m.end <= next <= |text| && AreMarkersFrom(text, rest, next)
    requires forall q :: at <= q < m.start ==> MarkerAt(text, q).None?
    requires forall q :: m.end <= q < next ==> MarkerAt(text, q).None?
    requires at <= p < |text| && MarkerAt(text, p).Some?
    ensures var marks := [m] + rest; exists k :: 0 <= k < |marks| && marks[k].start <= p < marks[k].end
  {
    hide MarkerAt;
    var marks := [m] + rest;
    if p < m.end {
      assert marks[0] == m;
    } else {
      var k :| 0 <= k < |rest| && rest[k].start <= p < rest[k].end;
      assert marks[k + 1] == rest[k];
    }
  }

  // ---------- What the loop leaves ----------

  // From any position of the plain text before marker i.
  lemma {:induction false} WithoutFrom(text: string, marks: seq<Marker>, enrichment: Enrichment, i: nat, p: nat, q: nat)
    requires InOrder(text, marks) && i <= |marks| && p <= q <= StartOf(text, marks, i)
    requires AllEndInPlace(text, marks, enrichment, i)
    ensures Without(text, marks, enrichment, i, p) == text[p..q] + Without(text, marks, enrichment, i, q)
  {
    hide EvaluateCondition, SectionEnd, DropNewline;
    var at := StartOf(text, marks, i);
    assert text[p..at] == text[p..q] + text[q..at];
    assert i == |marks| ==> text[p..] == text[p..at] && text[q..] == text[q..at];
  }

  // Section i of a document, as the loop sees it.
  ghost predicate StandsAs(text: string, m: Marker, b: Block, start: nat, next: nat) {
    && m == Marker(start, start + |Written(b.marker)|, b.marker.name, b.marker.condition)
    && m.start < m.end <= next <= |text| && next == start + |SectionText(b)|
    && text[start..next] == SectionText(b) && SectionEnd(text, m) == next
    && IndexOf(text, SECTION_CLOSE, m.end) != -1
  }

  lemma {:induction false} BlockStands(text: string, at: nat, head: string, blocks: seq<Block>, m: Marker)
    requires blocks != [] && AreBlocks(blocks)
    requires At(text, at, DocumentText(head, blocks)) && at + |DocumentText(head, blocks)| == |text|
    requires m == MarksOf(head, blocks, at)[0]
    ensures var b, start := blocks[0], at + |head|;
      var next := start + |SectionText(b)|;
      && StandsAs(text, m, b, start, next) && text[at..start] == head
      && At(text, next, DocumentText(b.after, blocks[1..])) && next + |DocumentText(b.after, blocks[1..])| == |text|
      && AreBlocks(blocks[1..])
  {
    hide At, AreBlocks, AreParts, IsPlain, Written, MarkerAt, DocumentText, SECTION_CLOSE, IndexOf, SectionText,
         SectionEnd;
    var b, start := blocks[0], at + |head|;
    PiecesStand(text, at, head, blocks);
    BlocksUncons(blocks);
    SectionHasOneMarker(text, start, b);
    EndIsClose(text, m);
    SectionStands(text, start, b, start + |SectionText(b)|);
    AtFits(text, at, head);
  }

  lemma {:induction false} EndIsClose(text: string, m: Marker)
    requires m.end <= |text| && IndexOf(text, SECTION_CLOSE, m.end) != -1
    ensures SectionEnd(text, m) == IndexOf(text, SECTION_CLOSE, m.end) + |SECTION_CLOSE|
  {
    hide IndexOf, SECTION_CLOSE;
  }

  // The loop on a document whose markers from i on are those of its sections.
  lemma {:induction false} WithoutIs(text: string, marks: seq<Marker>, enrichment: Enrichment, i: nat,
      at: nat, head: string, blocks: seq<Block>)
    requires InOrder(text, marks) && i <= |marks| && marks[i..] == MarksOf(head, blocks, at)
    requires At(text, at, DocumentText(head, blocks)) && at + |DocumentText(head, blocks)| == |text|
    requires AreBlocks(blocks) && AllEndInPlace(text, marks, enrichment, i)
    ensures at <= StartOf(text, marks, i)
    ensures Without(text, marks, enrichment, i, at) == Remaining(head, blocks, enrichment)
    decreases |blocks|
  {
    hide EvaluateCondition, AreBlocks, SectionText, InOrder, Without, MarksOf, AllEndInPlace, SectionEnd, StandsAs;
    if blocks == [] {
      NoBlocksLeft(text, marks, i, at, head);
      WithoutStep(text, marks, enrichment, i, at);
    } else {
      var b, start := blocks[0], at + |head|;
      var next := start + |SectionText(b)|;
      MarksUncons(marks, i, head, blocks, at);
      BlockStands(text, at, head, blocks, marks[i]);
      StandsMeans(text, marks[i], b, start, next);
      WithoutStep(text, marks, enrichment, i, at);
      hide At, DocumentText, Written;
      WithoutIs(text, marks, enrichment, i + 1, next, b.after, blocks[1..]);
      if Stays(b, enrichment) {
        WithoutFrom(text, marks, enrichment, i + 1, start, next);
      }
    }
  }

  lemma {:induction false} StandsMeans(text: string, m: Marker, b: Block, start: nat, next: nat)
    requires StandsAs(text, m, b, start, next)
    ensures m.start == start && m.condition == b.marker.condition && m.name == b.marker.name
    ensures start < m.end <= next <= |text| && text[start..next] == SectionText(b) && SectionEnd(text, m) == next
  {
    hide SectionText, SectionEnd, Written;
  }

  lemma {:induction false} NoBlocksLeft(text: string, marks: seq<Marker>, i: nat, at: nat, head: string)
    requires i <= |marks| && marks[i..] == MarksOf(head, [], at)
    requires At(text, at, DocumentText(head, [])) && at + |DocumentText(head, [])| == |text|
    ensures i == |marks| && at <= |text| && text[at..] == head
  {
  }

  lemma {:induction false} SectionStands(text: string, start: nat, b: Block, next: nat)
    requires next == start + |SectionText(b)|
    requires At(text, start, Written(b.marker)) && At(text, start + |Written(b.marker)|, b.body)
    requires At(text, start + |Written(b.marker)| + |b.body|, SECTION_CLOSE)
    ensures next <= |text| && text[start..next] == SectionText(b)
  {
    hide At, Written, SECTION_CLOSE;
    Unpeel(text, start + |Written(b.marker)|, b.body, SECTION_CLOSE);
    Unpeel(text, start, Written(b.marker), b.body + SECTION_CLOSE);
    AtFits(text, start, SectionText(b));
  }

  lemma {:induction false} MarksUncons(marks: seq<Marker>, i: nat, head: string, blocks: seq<Block>, at: nat)
    requires i <= |marks| && blocks != [] && marks[i..] == MarksOf(head, blocks, at)
    ensures var b, start := blocks[0], at + |head|;
      && i < |marks|
      && marks[i] == Marker(start, start + |Written(b.marker)|, b.marker.name, b.marker.condition)
      && marks[i + 1..] == MarksOf(b.after, blocks[1..], start + |SectionText(b)|)
  {
    hide Written, SectionText;
    assert marks[i] == marks[i..][0] && marks[i + 1..] == marks[i..][1..];
  }

  lemma {:induction false} NamesAre(marks: seq<Marker>, enrichment: Enrichment, i: nat, at: nat, head: string,
      blocks: seq<Block>)
    requires i <= |marks| && marks[i..] == MarksOf(head, blocks, at)
    ensures ElidedNames(marks, enrichment, i) == FalseNames(blocks, enrichment)
    decreases |blocks|
  {
    hide EvaluateCondition, MarksOf, ElidedNames, Written, SectionText;
    NamesStep(marks, enrichment, i);
    if blocks == [] {
      NoMarksLeft(marks, i, at, head);
    } else {
      MarksUncons(marks, i, head, blocks, at);
      NamesAre(marks, enrichment, i + 1, at + |head| + |SectionText(blocks[0])|, blocks[0].after, blocks[1..]);
    }
  }

  lemma {:induction false} NoMarksLeft(marks: seq<Marker>, i: nat, at: nat, head: string)
    requires i <= |marks| && marks[i..] == MarksOf(head, [], at)
    ensures i == |marks|
  {
  }

  // A section is cut where it stood in the document.
  lemma {:induction false} EndStays(text: string, marks: seq<Marker>, enrichment: Enrichment, i: nat)
    requires InOrder(text, marks) && i < |marks|
    requires IndexOf(text, SECTION_CLOSE, marks[i].end) != -1
    requires SectionEnd(text, marks[i]) <= StartOf(text, marks, i + 1)
    ensures marks[i].end <= |Elided(text, marks, enrichment, i + 1)|
    ensures SectionEnd(Elided(text, marks, enrichment, i + 1), marks[i]) == SectionEnd(text, marks[i])
  {
    var rest, n := Elided(text, marks, enrichment, i + 1), StartOf(text, marks, i + 1);
    PrefixFits(text, marks, enrichment, i);
    hide EvaluateCondition, Elided, IndexOf, SECTION_CLOSE;
    IndexOfSamePrefix(text, rest, SECTION_CLOSE, marks[i].end, n);
  }

  // Every section from i on is closed before the next marker.
  ghost predicate AllClose(text: string, marks: seq<Marker>, i: nat)
    requires InOrder(text, marks)
  {
    forall j :: i <= j < |marks| ==> IndexOf(text, SECTION_CLOSE, marks[j].end) != -1
                                     && SectionEnd(text, marks[j]) <= StartOf(text, marks, j + 1)
  }

  lemma {:induction false} CutLength(text: string, marks: seq<Marker>, enrichment: Enrichment, i: nat)
    requires InOrder(text, marks) && i < |marks| && AllClose(text, marks, i)
    ensures AllClose(text, marks, i + 1)
    ensures marks[i].end <= |Elided(text, marks, enrichment, i + 1)|
    ensures SectionEnd(Elided(text, marks, enrichment, i + 1), marks[i]) == SectionEnd(text, marks[i])
  {
    hide Elided, IndexOf, SectionEnd, SECTION_CLOSE, EvaluateCondition;
    EndStays(text, marks, enrichment, i);
  }

  lemma {:induction false} TokensAre(text: string, marks: seq<Marker>, enrichment: Enrichment, i: nat, at: nat,
      head: string, blocks: seq<Block>)
    requires InOrder(text, marks) && i <= |marks| && marks[i..] == MarksOf(head, blocks, at)
    requires At(text, at, DocumentText(head, blocks)) && at + |DocumentText(head, blocks)| == |text|
    requires AreBlocks(blocks) && AllClose(text, marks, i)
    ensures Tokens(text, marks, enrichment, i) == Saved(blocks, enrichment)
    decreases |blocks|
  {
    hide EvaluateCondition, AreBlocks, SectionText, InOrder, Tokens, MarksOf, AllClose, SectionEnd, StandsAs,
         CeilQuarter, Elided, At, DocumentText, Written;
    TokensStep(text, marks, enrichment, i);
    if blocks == [] {
      NoBlocksLeft(text, marks, i, at, head);
    } else {
      var b, start := blocks[0], at + |head|;
      var next := start + |SectionText(b)|;
      MarksUncons(marks, i, head, blocks, at);
      BlockStands(text, at, head, blocks, marks[i]);
      StandsMeans(text, marks[i], b, start, next);
      CutLength(text, marks, enrichment, i);
      TokensAre(text, marks, enrichment, i + 1, next, b.after, blocks[1..]);
    }
  }

  lemma {:induction false} CloseIsThere(text: string, m: Marker, b: Block, start: nat, next: nat)
    requires StandsAs(text, m, b, start, next)
    ensures IndexOf(text, SECTION_CLOSE, m.end) != -1
  {
    hide SectionText, SectionEnd, Written, IndexOf, SECTION_CLOSE;
  }

  lemma {:induction false} SectionsEndInPlace(text: string, marks: seq<Marker>, enrichment: Enrichment, i: nat, at: nat,
      head: string, blocks: seq<Block>)
    requires InOrder(text, marks) && i <= |marks| && marks[i..] == MarksOf(head, blocks, at)
    requires At(text, at, DocumentText(head, blocks)) && at + |DocumentText(head, blocks)| == |text|
    requires AreBlocks(blocks)
    ensures AllEndInPlace(text, marks, enrichment, i)
    ensures at <= StartOf(text, marks, i)
    ensures AllClose(text, marks, i)
    decreases |blocks|
  {
    hide EvaluateCondition, AreBlocks, SectionText, InOrder, MarksOf, SectionEnd, StandsAs, IndexOf, SECTION_CLOSE;
    if blocks == [] {
      NoBlocksLeft(text, marks, i, at, head);
    } else {
      var b, start := blocks[0], at + |head|;
      var next := start + |SectionText(b)|;
      MarksUncons(marks, i, head, blocks, at);
      BlockStands(text, at, head, blocks, marks[i]);
      StandsMeans(text, marks[i], b, start, next);
      CloseIsThere(text, marks[i], b, start, next);
      hide At, DocumentText, Written;
      SectionsEndInPlace(text, marks, enrichment, i + 1, next, b.after, blocks[1..]);
    }
  }

  // ---------- The whole function ----------

  // What a document of sections is turned into.
  predicate IsElided(r: Elision, head: string, blocks: seq<Block>, enrichment: Enrichment) {
    && r.text == Remaining(head, blocks, enrichment)
    && r.elidedNames == FalseNames(blocks, enrichment) && r.sectionsElided == |FalseNames(blocks, enrichment)|
    && r.tokensSaved == Saved(blocks, enrichment)
  }

  lemma {:induction false} DocumentMarks(head: string, blocks: seq<Block>, marks: seq<Marker>)
    requires IsPlain(head) && AreBlocks(blocks)
    requires AreMarkers(DocumentText(head, blocks), marks, |DocumentText(head, blocks)|)
    ensures marks == MarksOf(head, blocks, 0)
  {
    var text := DocumentText(head, blocks);
    assert text[0..|text|] == text;
    hide MarkerAt, DocumentText, MarksOf, IsPlain, AreBlocks;
    MarksAreMarkers(text, 0, head, blocks);
    MarkersFromStart(text, MarksOf(head, blocks, 0));
    hide AreMarkers;
    MarkersAreDetermined(text, marks, MarksOf(head, blocks, 0));
  }

  lemma {:induction false} MarkersFromStart(text: string, marks: seq<Marker>)
    requires AreMarkersFrom(text, marks, 0)
    ensures AreMarkers(text, marks, |text|)
  {
    hide MarkerAt;
  }

  // The result on a document of plain text and sections: exactly the sections whose condition
  // is false are gone, with a newline after each; their names are reported in order, and a
  // quarter of their characters, rounded up, is counted as saved.
  lemma {:induction false} DocumentElision(head: string, blocks: seq<Block>, enrichment: Enrichment,
      marks: seq<Marker>, r: Elision)
    requires IsPlain(head) && AreBlocks(blocks)
    requires AreMarkers(DocumentText(head, blocks), marks, |DocumentText(head, blocks)|)
    requires InOrder(DocumentText(head, blocks), marks)
    requires r.text == Elided(DocumentText(head, blocks), marks, enrichment, 0)
    requires r.elidedNames == ElidedNames(marks, enrichment, 0) && r.sectionsElided == |r.elidedNames|
    requires r.tokensSaved == Tokens(DocumentText(head, blocks), marks, enrichment, 0)
    ensures IsElided(r, head, blocks, enrichment)
  {
    var text := DocumentText(head, blocks);
    assert text[0..|text|] == text && marks[0..] == marks;
    DocumentMarks(head, blocks, marks);
    hide MarkerAt, DocumentText, MarksOf, IsPlain, AreBlocks, AreMarkers, InOrder, Elided, ElidedNames, Tokens,
         EvaluateCondition, Remaining, FalseNames, Saved, Without, AllClose;
    SectionsEndInPlace(text, marks, enrichment, 0, 0, head, blocks);
    DocumentIsFlat(text, marks, enrichment);
    FlatElision(text, marks, enrichment);
    WithoutIs(text, marks, enrichment, 0, 0, head, blocks);
    NamesAre(marks, enrichment, 0, 0, head, blocks);
    TokensAre(text, marks, enrichment, 0, 0, head, blocks);
  }

  lemma {:induction false} DocumentIsFlat(text: string, marks: seq<Marker>, enrichment: Enrichment)
    requires InOrder(text, marks)
    requires AllClose(text, marks, 0)
    ensures IsFlat(text, marks, enrichment)
  {
    hide IndexOf, SECTION_CLOSE, EvaluateCondition;
  }
}
