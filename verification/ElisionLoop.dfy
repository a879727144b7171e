// elideConditionalSections (plugin.js) in its own form: the markers are collected first, then
// the loop goes through them from the last to the first and cuts the text as it goes.
module ElisionLoop {
  import opened Options
  import opened ElisionText
  import opened Elision
  import opened ElisionDocument

  // A quarter of the characters cut, each section rounded up, its newline not counted.
  ghost predicate IsEstimate(tokens: nat, removed: int, sections: nat) {
    removed - sections <= 4 * tokens <= removed + 3 * sections
  }

  // One turn of the loop: the section goes, and a newline right after it.
  method CutSection(text: string, m: Marker) returns (shorter: string, removed: nat)
    requires m.start <= m.end <= |text|
    ensures shorter == Cut(text, m)
    ensures removed == SectionEnd(text, m) - m.start
    ensures 0 <= |text| - |shorter| - removed <= 1
  {
    var closeIndex := IndexOf(text, SECTION_CLOSE, m.end);
    var sectionEnd: nat := if closeIndex == -1 then |text| else closeIndex + |SECTION_CLOSE|;
    removed := sectionEnd - m.start;
    var afterSection := text[sectionEnd..];
    var trailing := if afterSection != "" && afterSection[0] == '\n' then 1 else 0;
    assert afterSection[trailing..] == DropNewline(afterSection);
    shorter := text[..m.start] + afterSection[trailing..];
  }

  method ElideConditionalSections(text: string, enrichment: Option<Enrichment>) returns (r: Elision)
    ensures text == "" || enrichment.None? ==> r == Elision(text, 0, [], 0)
    ensures enrichment.Some? ==>
      exists marks :: AreMarkers(text, marks, |text|) && InOrder(text, marks) &&
        r.text == Elided(text, marks, enrichment.value, 0) &&
        r.elidedNames == ElidedNames(marks, enrichment.value, 0) &&
        r.tokensSaved == Tokens(text, marks, enrichment.value, 0)
    ensures enrichment.Some? ==>
      forall head, blocks {:trigger DocumentText(head, blocks)} ::
        text == DocumentText(head, blocks) && IsPlain(head) && AreBlocks(blocks) ==>
          IsElided(r, head, blocks, enrichment.value)
    ensures r.sectionsElided == |r.elidedNames|
    ensures IsEstimate(r.tokensSaved, |text| - |r.text|, r.sectionsElided)
  {
    hide EvaluateCondition, AreMarkers, InOrder, IsDone, CeilQuarter, Cut, SectionEnd, Elided, ElidedNames, Tokens,
         IsEstimate, DocumentText, IsPlain, AreBlocks, IsElided;
    if text == "" || enrichment.None? {
      EmptyText(enrichment);
      if enrichment.Some? {
        ElidesDocuments("", [], enrichment.value, Elision("", 0, [], 0));
      }
      return Elision(text, 0, [], 0);
    }
    var e := enrichment.value;
    var matches := CollectMarkers(text);
    MarkersInOrder(text, matches);
    NothingDone(text, matches, e);
    var result: string, elidedNames: seq<string>, tokensSaved: nat := text, [], 0;
    var i: nat := |matches|;
    while i > 0
      invariant i <= |matches|
      invariant IsDone(text, matches, e, i, Elision(result, |elidedNames|, elidedNames, tokensSaved))
    {
      i := i - 1;
      var m := matches[i];
      ghost var before := Elision(result, |elidedNames|, elidedNames, tokensSaved);
      KeepStep(text, matches, e, i, before);
      if !EvaluateCondition(m.condition, e) {
        var shorter, removed := CutSection(result, m);
        CutStep(text, matches, e, i, before, shorter, removed);
        tokensSaved := tokensSaved + CeilQuarter(removed);
        result := shorter;
        elidedNames := [m.name] + elidedNames;
      }
    }
    r := Elision(result, |elidedNames|, elidedNames, tokensSaved);
    DoneMeans(text, matches, e, r);
    ElidesDocuments(text, matches, e, r);
  }

  // Whatever sections the text is written as, the result is what they say.
  lemma {:induction false} ElidesDocuments(text: string, marks: seq<Marker>, enrichment: Enrichment, r: Elision)
    requires AreMarkers(text, marks, |text|) && InOrder(text, marks)
    requires r.text == Elided(text, marks, enrichment, 0)
    requires r.elidedNames == ElidedNames(marks, enrichment, 0) && r.sectionsElided == |r.elidedNames|
    requires r.tokensSaved == Tokens(text, marks, enrichment, 0)
    ensures forall head, blocks {:trigger DocumentText(head, blocks)} ::
              text == DocumentText(head, blocks) && IsPlain(head) && AreBlocks(blocks) ==>
                IsElided(r, head, blocks, enrichment)
  {
    hide AreMarkers, InOrder, Elided, ElidedNames, Tokens, IsPlain, AreBlocks, IsElided, DocumentText;
    forall head, blocks {:trigger DocumentText(head, blocks)}
      | text == DocumentText(head, blocks) && IsPlain(head) && AreBlocks(blocks)
      ensures IsElided(r, head, blocks, enrichment)
    {
      DocumentElision(head, blocks, enrichment, marks, r);
    }
  }

  // What the loop has when the markers from i on have been dealt with.
  ghost predicate IsDone(text: string, marks: seq<Marker>, enrichment: Enrichment, i: nat, r: Elision)
    requires InOrder(text, marks) && i <= |marks|
  {
    && r.text == Elided(text, marks, enrichment, i)
    && r.elidedNames == ElidedNames(marks, enrichment, i) && r.sectionsElided == |r.elidedNames|
    && r.tokensSaved == Tokens(text, marks, enrichment, i)
    && IsEstimate(r.tokensSaved, |text| - |r.text|, r.sectionsElided)
  }

  lemma {:induction false} NothingDone(text: string, marks: seq<Marker>, enrichment: Enrichment)
    requires InOrder(text, marks)
    ensures IsDone(text, marks, enrichment, |marks|, Elision(text, 0, [], 0))
  {
    hide InOrder, EvaluateCondition;
    ElidedStep(text, marks, enrichment, |marks|);
    TokensStep(text, marks, enrichment, |marks|);
    NamesStep(marks, enrichment, |marks|);
    NothingEstimated(|text|);
  }

  lemma {:induction false} KeepStep(text: string, marks: seq<Marker>, enrichment: Enrichment, i: nat, r: Elision)
    requires InOrder(text, marks) && i < |marks| && IsDone(text, marks, enrichment, i + 1, r)
    ensures marks[i].start <= marks[i].end <= |r.text|
    ensures EvaluateCondition(marks[i].condition, enrichment) ==> IsDone(text, marks, enrichment, i, r)
  {
    MarkerFits(text, marks, i);
    hide InOrder, EvaluateCondition, Elided, ElidedNames, Tokens, IsEstimate;
    ElidedStep(text, marks, enrichment, i);
    TokensStep(text, marks, enrichment, i);
    NamesStep(marks, enrichment, i);
  }

  lemma {:induction false} CutStep(text: string, marks: seq<Marker>, enrichment: Enrichment, i: nat, r: Elision,
      shorter: string, removed: nat)
    requires InOrder(text, marks) && i < |marks| && IsDone(text, marks, enrichment, i + 1, r)
    requires !EvaluateCondition(marks[i].condition, enrichment)
    requires marks[i].start <= marks[i].end <= |r.text| && shorter == Cut(r.text, marks[i])
    requires removed == SectionEnd(r.text, marks[i]) - marks[i].start
    requires 0 <= |r.text| - |shorter| - removed <= 1
    ensures IsDone(text, marks, enrichment, i,
                   Elision(shorter, r.sectionsElided + 1, [marks[i].name] + r.elidedNames,
                           r.tokensSaved + CeilQuarter(removed)))
  {
    hide InOrder, EvaluateCondition, Elided, ElidedNames, Tokens, IsEstimate, CeilQuarter, Cut, SectionEnd;
    ElidedStep(text, marks, enrichment, i);
    TokensStep(text, marks, enrichment, i);
    NamesStep(marks, enrichment, i);
    EstimateGrows(r.tokensSaved, |text| - |r.text|, r.sectionsElided, removed, |r.text| - |shorter| - removed);
  }

  lemma {:induction false} DoneMeans(text: string, marks: seq<Marker>, enrichment: Enrichment, r: Elision)
    requires InOrder(text, marks) && IsDone(text, marks, enrichment, 0, r)
    ensures r.text == Elided(text, marks, enrichment, 0) && r.elidedNames == ElidedNames(marks, enrichment, 0)
    ensures r.tokensSaved == Tokens(text, marks, enrichment, 0) && r.sectionsElided == |r.elidedNames|
    ensures IsEstimate(r.tokensSaved, |text| - |r.text|, r.sectionsElided)
  {
  }

  lemma {:induction false} NothingEstimated(n: nat)
    ensures IsEstimate(0, n - n, 0)
  {
  }

  lemma {:induction false} EstimateGrows(tokens: nat, removed: int, sections: nat, length: nat, newline: nat)
    requires IsEstimate(tokens, removed, sections) && newline <= 1
    ensures IsEstimate(tokens + CeilQuarter(length), removed + length + newline, sections + 1)
  {
  }

  lemma {:induction false} MarkerFits(text: string, marks: seq<Marker>, i: nat)
    requires InOrder(text, marks) && i < |marks|
    ensures marks[i].start < marks[i].end <= |text|
  {
  }

  lemma {:induction false} MarkersInOrder(text: string, marks: seq<Marker>)
    requires AreMarkers(text, marks, |text|)
    ensures InOrder(text, marks)
  {
    hide MarkerAt;
  }

  lemma {:induction false} EmptyText(enrichment: Option<Enrichment>)
    ensures AreMarkers("", [], |""|) && InOrder("", [])
    ensures enrichment.Some? ==> Elided("", [], enrichment.value, 0) == "" && ElidedNames([], enrichment.value, 0) == []
    ensures enrichment.Some? ==> Tokens("", [], enrichment.value, 0) == 0
    ensures IsEstimate(0, 0, 0)
  {
    assert forall p: nat :: p < 0 ==> MarkerAt("", p).None?;
  }
}
