// What parseIntentMd finds in any document: the labelled values and the sections (plugin.js).
module IntentSearching {
  import opened Options
  import opened Strings
  import opened Decimals
  import opened Scanning
  import opened IntentFormat
  import opened IntentReading

  // ---------- Labels and sections ----------

  // The label stands at position i and is followed by a value: all of a run of such characters,
  // after white space or none.
  ghost predicate LabelAt(text: string, title: string, p: char -> bool, i: nat, gap: string, value: string) {
    && StartsAt(text, i, title + gap + value) && IsBlank(gap)
    && value != "" && (forall j :: 0 <= j < |value| ==> p(value[j]))
    && (i + |title + gap + value| < |text| ==> !p(text[i + |title + gap + value|]))
  }

  ghost predicate IsLabelled(text: string, title: string, p: char -> bool, i: nat, value: string) {
    exists gap :: LabelAt(text, title, p, i, gap, value)
  }

  ghost predicate HasLabel(text: string, title: string, p: char -> bool, i: nat) {
    exists value :: IsLabelled(text, title, p, i, value)
  }

  ghost predicate IsInk(p: char -> bool) {
    forall c :: p(c) ==> !IsSpace(c)
  }

  lemma {:induction false} StartsAtRest(text: string, i: nat, part: string, rest: string)
    ensures StartsAt(text, i, part) && text[i + |part|..] == rest <==> i <= |text| && text[i..] == part + rest
  {
    if StartsAt(text, i, part) && text[i + |part|..] == rest {
      assert text[i..] == text[i..i + |part|] + text[i + |part|..];
    }
    if i <= |text| && text[i..] == part + rest {
      assert text[i..i + |part|] == text[i..][..|part|];
      assert text[i + |part|..] == text[i..][|part|..];
    }
  }

  lemma {:induction false} ValueReads(text: string, title: string, p: char -> bool, i: nat, gap: string, value: string)
    requires IsInk(p) && LabelAt(text, title, p, i, gap, value)
    ensures ValueAfter(text, title, p, i) == Some(value)
  {
    var n := i + |title + gap + value|;
    var rest := text[n..];
    assert rest != "" ==> rest[0] == text[n];
    StartsAtRest(text, i, title + gap + value, rest);
    Regrouped(title, gap, value, rest);
    StartsAtRest(text, i, title, gap + (value + rest));
    hide StartsAt, IsSpace, DropSpaces;
    assert p(value[0]);
    DropSpacesIs(gap, value + rest);
    RunOf(p, value, rest);
  }

  lemma {:induction false} Regrouped(a: string, b: string, c: string, d: string)
    ensures a + b + c + d == a + (b + (c + d))
  {
  }

  lemma {:induction false} ValueCuts(text: string, title: string, p: char -> bool, i: nat) returns (gap: string)
    requires ValueAfter(text, title, p, i).Some?
    ensures LabelAt(text, title, p, i, gap, ValueAfter(text, title, p, i).value)
  {
    var tail := text[i + |title|..];
    gap := DropSpacesCuts(tail);
    var s := DropSpaces(tail);
    var n := SkipWhile(p, s, 0);
    var value, rest := s[..n], s[n..];
    assert s == value + rest;
    StartsAtRest(text, i, title, tail);
    Regrouped(title, gap, value, rest);
    StartsAtRest(text, i, title + gap + value, rest);
    hide StartsAt, IsSpace, DropSpaces;
    assert rest != "" ==> rest[0] == s[n] && rest[0] == text[i + |title + gap + value|];
  }

  lemma {:induction false} ValueExactlyWhen(text: string, title: string, p: char -> bool, i: nat, value: string)
    requires IsInk(p)
    ensures ValueAfter(text, title, p, i) == Some(value) <==> IsLabelled(text, title, p, i, value)
  {
    hide LabelAt;
    if ValueAfter(text, title, p, i).Some? {
      var gap := ValueCuts(text, title, p, i);
    }
    forall gap | LabelAt(text, title, p, i, gap, value)
      ensures ValueAfter(text, title, p, i) == Some(value)
    {
      ValueReads(text, title, p, i, gap, value);
    }
  }

  // No label with a value from i to k.
  ghost predicate NoLabel(text: string, title: string, p: char -> bool, i: nat, k: nat) {
    forall j: nat :: i <= j < k ==> !HasLabel(text, title, p, j)
  }

  ghost predicate FirstLabel(text: string, title: string, p: char -> bool, i: nat, k: nat, value: string) {
    i <= k && IsLabelled(text, title, p, k, value) && NoLabel(text, title, p, i, k)
  }

  lemma {:induction false} HasValue(text: string, title: string, p: char -> bool, i: nat)
    requires IsInk(p)
    ensures HasLabel(text, title, p, i) <==> ValueAfter(text, title, p, i).Some?
  {
    hide IsLabelled, IsInk, ValueAfter;
    if ValueAfter(text, title, p, i).Some? {
      ValueExactlyWhen(text, title, p, i, ValueAfter(text, title, p, i).value);
    }
    forall v | IsLabelled(text, title, p, i, v)
      ensures ValueAfter(text, title, p, i).Some?
    {
      ValueExactlyWhen(text, title, p, i, v);
    }
  }

  lemma {:induction false} LabelFinds(text: string, title: string, p: char -> bool, i: nat) returns (k: nat)
    requires i <= |text| && IsInk(p)
    ensures LabelValue(text, title, p, i).Some? ==>
              FirstLabel(text, title, p, i, k, LabelValue(text, title, p, i).value)
    ensures LabelValue(text, title, p, i).None? ==> NoLabel(text, title, p, i, |text| + 1)
    decreases |text| - i
  {
    hide IsLabelled, IsInk, ValueAfter, HasLabel;
    HasValue(text, title, p, i);
    k := i;
    if ValueAfter(text, title, p, i).Some? {
      ValueExactlyWhen(text, title, p, i, ValueAfter(text, title, p, i).value);
    } else if i < |text| {
      k := LabelFinds(text, title, p, i + 1);
    }
  }

  lemma {:induction false} FirstIsOnly(
    text: string, title: string, p: char -> bool, i: nat, k: nat, v: string, m: nat, w: string)
    requires IsInk(p) && FirstLabel(text, title, p, i, k, v) && FirstLabel(text, title, p, i, m, w)
    ensures v == w
  {
    hide IsLabelled, IsInk, ValueAfter;
    assert HasLabel(text, title, p, k) && HasLabel(text, title, p, m);
    hide HasLabel;
    ValueExactlyWhen(text, title, p, k, v);
    ValueExactlyWhen(text, title, p, k, w);
  }

  // The value after the first label that has one.
  lemma {:induction false} LabelExactlyWhen(text: string, title: string, p: char -> bool, value: string)
    requires IsInk(p)
    ensures LabelValue(text, title, p, 0) == Some(value) <==> exists k: nat :: FirstLabel(text, title, p, 0, k, value)
  {
    var m := LabelFinds(text, title, p, 0);
    forall k: nat | FirstLabel(text, title, p, 0, k, value)
      ensures LabelValue(text, title, p, 0) == Some(value)
    {
      LabelIsInside(text, title, p, k, value);
      assert HasLabel(text, title, p, k);
      hide IsLabelled, IsInk, LabelValue;
      if LabelValue(text, title, p, 0).Some? {
        FirstIsOnly(text, title, p, 0, k, value, m, LabelValue(text, title, p, 0).value);
      }
    }
  }

  lemma {:induction false} LabelIsInside(text: string, title: string, p: char -> bool, i: nat, value: string)
    requires IsLabelled(text, title, p, i, value)
    ensures i < |text|
  {
  }

  lemma {:induction false} LabelsAreInk()
    ensures IsInk(IsDigit) && IsInk(IsVisible)
  {
  }

  // ---------- Sections ----------

  ghost predicate IsFirst(text: string, part: string, i: nat, n: nat) {
    i <= n && StartsAt(text, n, part) && StartsLate(text, part, i, n)
  }

  lemma {:induction false} FindExactlyWhen(text: string, part: string, i: nat, n: nat)
    requires i <= |text|
    ensures Find(text, part, i) == Some(n) <==> IsFirst(text, part, i, n)
    decreases |text| - i
  {
    if !StartsAt(text, i, part) && i < |text| {
      FindExactlyWhen(text, part, i + 1, n);
    }
  }

  lemma {:induction false} FirstInRest(text: string, part: string, n: nat, j: nat)
    requires n <= |text|
    ensures IsFirst(text[n..], part, 0, j) <==> IsFirst(text, part, n, n + j)
  {
    forall k: nat
      ensures StartsAt(text[n..], k, part) <==> StartsAt(text, n + k, part)
    {
      if k + |part| <= |text| - n {
        assert text[n..][k..k + |part|] == text[n + k..n + k + |part|];
      }
    }
    hide StartsAt;
    if IsFirst(text[n..], part, 0, j) {
      forall k: nat | n <= k < n + j
        ensures !StartsAt(text, k, part)
      {
        assert !StartsAt(text[n..], k - n, part);
      }
    }
  }

  // The trimmed text between the first opening tag and the first closing tag after it.
  ghost predicate SectionParts(content: string, tag: string, i: nat, j: nat, text: string) {
    var start := i + |tag| + 2;
    && IsFirst(content, "<" + tag + ">", 0, i) && start <= |content|
    && IsFirst(content, "</" + tag + ">", start, j) && j <= |content|
    && text == Trim(content[start..j])
  }

  lemma {:induction false} FirstIsInside(text: string, part: string, i: nat, n: nat)
    requires IsFirst(text, part, i, n)
    ensures i <= n && n + |part| <= |text|
  {
  }

  lemma {:induction false} SectionReads(content: string, tag: string, i: nat, j: nat, text: string)
    requires SectionParts(content, tag, i, j, text)
    ensures Section(content, tag) == Some(text)
  {
    hide Trim, Find, IsFirst;
    var start := i + |tag| + 2;
    FindExactlyWhen(content, OpenTag(tag), 0, i);
    FirstIsInside(content, CloseTag(tag), start, j);
    FirstInRest(content, CloseTag(tag), start, j - start);
    FindExactlyWhen(content[start..], CloseTag(tag), 0, j - start);
    assert content[start..][..j - start] == content[start..j];
  }

  lemma {:induction false} SectionExactlyWhen(content: string, tag: string, text: string)
    ensures Section(content, tag) == Some(text) <==> exists i: nat, j: nat :: SectionParts(content, tag, i, j, text)
  {
    hide Trim, Find, IsFirst;
    if Section(content, tag) == Some(text) {
      var i := Find(content, OpenTag(tag), 0).value;
      var start := i + |tag| + 2;
      var j := Find(content[start..], CloseTag(tag), 0).value;
      FindExactlyWhen(content, OpenTag(tag), 0, i);
      FindExactlyWhen(content[start..], CloseTag(tag), 0, j);
      FirstIsInside(content[start..], CloseTag(tag), 0, j);
      FirstInRest(content, CloseTag(tag), start, j);
      assert content[start..][..j] == content[start..start + j];
      assert SectionParts(content, tag, i, start + j, text);
    }
    forall i: nat, j: nat | SectionParts(content, tag, i, j, text)
      ensures Section(content, tag) == Some(text)
    {
      SectionReads(content, tag, i, j, text);
    }
  }
}
