// The patterns elideConditionalSections (plugin.js) searches for: the opening marker of a
// conditional section, read by a regular expression whose every part matches in only one
// way, and plain substring search.
module ElisionText {
  import opened Options
  import opened Strings

  predicate IsWordChar(c: char) { !IsSpace(c) }
  predicate IsNoQuote(c: char) { c != '"' }

  // A marker occupies text[start..end].
  datatype Marker = Marker(start: nat, end: nat, name: string, condition: string)

  const OPEN := "<!--"
  const SECTION := "section:"
  const IF := "if=\""
  const CLOSE_COMMENT := "-->"
  const SECTION_CLOSE := "<!-- /section -->"

  // <!--\s*section:\s*(\S+)\s+if="([^"]+)"\s*-->  at position i.
  function MarkerAt(text: string, i: nat): (m: Option<Marker>)
    ensures m.Some? ==> m.value.start == i && i + |OPEN| < m.value.end <= |text|
  {
    if !StartsAt(text, i, OPEN) then None
    else
      var a := SkipWhile(IsSpace, text, i + |OPEN|);
      if !StartsAt(text, a, SECTION) then None
      else
        var b := SkipWhile(IsSpace, text, a + |SECTION|);
        var c := SkipWhile(IsWordChar, text, b);
        var d := SkipWhile(IsSpace, text, c);
        if b == c || c == d || !StartsAt(text, d, IF) then None
        else
          var e := SkipWhile(IsNoQuote, text, d + |IF|);
          if e == d + |IF| || e == |text| then None
          else
            var f := SkipWhile(IsSpace, text, e + 1);
            if !StartsAt(text, f, CLOSE_COMMENT) then None
            else Some(Marker(i, f + |CLOSE_COMMENT|, text[b..c], text[d + |IF|..e]))
  }

  // The next match of a global expression: the leftmost one from `from` on.
  function NextMarker(text: string, from: nat): (m: Option<Marker>)
    requires from <= |text|
    ensures m.Some? ==> from <= m.value.start && m.value.start + |OPEN| < m.value.end <= |text|
    ensures m.Some? ==> MarkerAt(text, m.value.start) == m
    ensures forall j :: from <= j < (if m.Some? then m.value.start else |text|) ==> MarkerAt(text, j).None?
    decreases |text| - from
  {
    if from == |text| then None
    else if MarkerAt(text, from).Some? then MarkerAt(text, from)
    else NextMarker(text, from + 1)
  }

  // In order and without overlap, and nothing between two of them matches.
  ghost predicate AreMarkers(text: string, marks: seq<Marker>, upTo: nat) {
    && (forall i :: 0 <= i < |marks| ==>
          marks[i].start < marks[i].end <= upTo && MarkerAt(text, marks[i].start) == Some(marks[i]))
    && (forall i, j :: 0 <= i < j < |marks| ==> marks[i].end <= marks[j].start)
    && forall p :: 0 <= p < upTo && MarkerAt(text, p).Some? ==>
         exists i :: 0 <= i < |marks| && marks[i].start <= p < marks[i].end
  }

  method CollectMarkers(text: string) returns (marks: seq<Marker>)
    ensures AreMarkers(text, marks, |text|)
  {
    hide MarkerAt;
    marks := [];
    var lastIndex := 0;
    while true
      invariant lastIndex <= |text| && AreMarkers(text, marks, lastIndex)
      decreases |text| - lastIndex
    {
      var m := NextMarker(text, lastIndex);
      if m.None? {
        return;
      }
      MarkerFound(text, marks, lastIndex, m.value);
      marks := marks + [m.value];
      lastIndex := m.value.end;
    }
  }

  lemma {:induction false} MarkerFound(text: string, marks: seq<Marker>, from: nat, m: Marker)
    requires AreMarkers(text, marks, from) && from <= m.start < m.end
    requires MarkerAt(text, m.start) == Some(m)
    requires forall j :: from <= j < m.start ==> MarkerAt(text, j).None?
    ensures AreMarkers(text, marks + [m], m.end)
  {
    hide MarkerAt;
    var longer := marks + [m];
    forall p | 0 <= p < m.end && MarkerAt(text, p).Some?
      ensures exists i :: 0 <= i < |longer| && longer[i].start <= p < longer[i].end
    {
      if p < from {
        var i :| 0 <= i < |marks| && marks[i].start <= p < marks[i].end;
        assert longer[i] == marks[i];
      } else {
        assert longer[|marks|] == m;
      }
    }
  }

  // JavaScript's indexOf: the first occurrence at or after `from`, or -1.
  function IndexOf(text: string, part: string, from: nat): (i: int)
    ensures i == -1 ==> forall j :: from <= j ==> !StartsAt(text, j, part)
    ensures i != -1 ==> from <= i && StartsAt(text, i, part)
    ensures i != -1 ==> forall j :: from <= j < i ==> !StartsAt(text, j, part)
    decreases |text| - from
  {
    if from + |part| > |text| then -1
    else if StartsAt(text, from, part) then from
    else IndexOf(text, part, from + 1)
  }

  // The first occurrence depends only on the text up to its end.
  lemma {:induction false} IndexOfSamePrefix(text: string, other: string, part: string, from: nat, n: nat)
    requires n <= |text| && n <= |other| && text[..n] == other[..n]
    requires IndexOf(text, part, from) != -1 && IndexOf(text, part, from) + |part| <= n
    ensures IndexOf(other, part, from) == IndexOf(text, part, from)
  {
    var i := IndexOf(text, part, from);
    forall j | from <= j <= i
      ensures StartsAt(other, j, part) <==> StartsAt(text, j, part)
    {
      assert text[j..j + |part|] == text[..n][j..j + |part|];
      assert other[j..j + |part|] == other[..n][j..j + |part|];
    }
  }
}
