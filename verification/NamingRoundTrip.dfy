// When a name written in a convention can be read back: the words it is taken apart into,
// and the convention it is recognised as (plugin.js, advisory-guardrails.js).
module NamingRoundTrip {
  import opened Naming

  // ---------- Where a name is cut ----------

  // Between the character before s and s itself there is a cut.
  predicate IsCut(before: char, s: string) {
    && s != "" && IsUp(s[0])
    && (IsLowDig(before) || (IsUp(before) && |s| >= 2 && IsLow(s[1])))
  }

  predicate IsFirstCut(before: char, s: string) {
    s != "" && IsUp(s[0]) && IsLowDig(before)
  }

  predicate IsSecondCut(before: char, s: string) {
    s != "" && IsUp(s[0]) && IsUp(before) && |s| >= 2 && IsLow(s[1])
  }

  function Spaced(before: char, s: string): string
    decreases |s|
  {
    if s == "" then "" else (if IsCut(before, s) then " " else "") + [s[0]] + Spaced(s[0], s[1..])
  }

  function FirstSpaced(before: char, s: string): string
    decreases |s|
  {
    if s == "" then "" else (if IsFirstCut(before, s) then " " else "") + [s[0]] + FirstSpaced(s[0], s[1..])
  }

  function SecondSpaced(before: char, s: string): string
    decreases |s|
  {
    if s == "" then "" else (if IsSecondCut(before, s) then " " else "") + [s[0]] + SecondSpaced(s[0], s[1..])
  }

  lemma {:induction false} FirstPassCuts(before: char, s: string)
    requires !IsFirstCut(before, s)
    ensures SplitBeforeCapital(s) == FirstSpaced(before, s)
    decreases |s|
  {
    if |s| >= 2 && IsLowDig(s[0]) && IsUp(s[1]) {
      FirstPassCuts(s[1], s[2..]);
      assert s[1..][1..] == s[2..];
      assert [s[0], ' ', s[1]] + FirstSpaced(s[1], s[2..]) == [s[0]] + (" " + [s[1]] + FirstSpaced(s[1], s[2..]));
    } else if s != "" {
      FirstPassCuts(s[0], s[1..]);
    }
  }

  // Capitals followed by a capital are never cut.
  lemma {:induction false} CapitalsUncut(before: char, s: string, n: nat)
    requires n < |s| && forall i :: 0 <= i <= n ==> IsUp(s[i])
    ensures SecondSpaced(before, s) == s[..n] + SecondSpaced(if n == 0 then before else s[n - 1], s[n..])
    decreases n
  {
    if n == 0 {
      assert s[0..] == s;
    } else {
      CapitalsUncut(s[0], s[1..], n - 1);
      assert s[1..][n - 1..] == s[n..];
      assert s[..n] == [s[0]] + s[1..][..n - 1];
    }
  }

  lemma {:induction false} SecondPassCuts(before: char, s: string)
    requires !IsSecondCut(before, s)
    ensures SplitLastCapital(s) == SecondSpaced(before, s)
    decreases |s|
  {
    if s != "" {
      var n := Capitals(s);
      if 2 <= n < |s| && IsLow(s[n]) {
        LastCapitalCut(before, s, n);
      } else {
        if |s| >= 3 && IsUp(s[0]) && IsUp(s[1]) && IsLow(s[2]) {
          TwoCapitals(s);
        }
        SecondPassCuts(s[0], s[1..]);
      }
    }
  }

  lemma {:induction false} TwoCapitals(s: string)
    requires |s| >= 3 && IsUp(s[0]) && IsUp(s[1]) && IsLow(s[2])
    ensures Capitals(s) == 2
  {
    assert s[1..][1..] == s[2..] && s[1..][0] == s[1] && s[2..][0] == s[2];
    assert Capitals(s[2..]) == 0;
    assert Capitals(s[1..]) == 1;
  }

  lemma {:induction false} LastCapitalCut(before: char, s: string, n: nat)
    requires 2 <= n < |s| && (forall i :: 0 <= i < n ==> IsUp(s[i])) && IsLow(s[n]) && n == Capitals(s)
    requires !IsSecondCut(before, s)
    ensures SplitLastCapital(s) == SecondSpaced(before, s)
    decreases |s|, 0
  {
    var low, tail := s[n], s[n + 1..];
    SecondPassCuts(low, tail);
    CapitalsUncut(before, s, n - 1);
    assert s[n - 1..] == [s[n - 1]] + ([low] + tail);
    SecondCons(s[n - 2], s[n - 1], [low] + tail);
    SecondCons(s[n - 1], low, tail);
    SplitUnfolds(s, n);
    hide SecondSpaced, SplitLastCapital;
    FourParts(s[..n - 1], s[n - 1], low, SecondSpaced(low, tail));
  }

  lemma {:induction false} SplitUnfolds(s: string, n: nat)
    requires 2 <= n < |s| && n == Capitals(s) && IsLow(s[n])
    ensures SplitLastCapital(s) == s[..n - 1] + " " + [s[n - 1], s[n]] + SplitLastCapital(s[n + 1..])
  {
  }

  lemma {:induction false} FourParts(a: string, c: char, d: char, rest: string)
    ensures a + " " + [c, d] + rest == a + (" " + [c] + ([d] + rest))
    ensures "" + [d] + rest == [d] + rest
  {
  }

  lemma {:induction false} SecondCons(before: char, c: char, rest: string)
    ensures SecondSpaced(before, [c] + rest)
            == (if IsSecondCut(before, [c] + rest) then " " else "") + [c] + SecondSpaced(c, rest)
  {
    assert ([c] + rest)[1..] == rest;
  }

  lemma {:induction false} FirstHead(before: char, s: string)
    ensures FirstSpaced(before, s) != "" && IsLow(FirstSpaced(before, s)[0]) <==> s != "" && IsLow(s[0])
  {
  }

  // The two passes together make exactly the cuts.
  lemma {:induction false} PassesCompose(before: char, s: string)
    ensures SecondSpaced(before, FirstSpaced(before, s)) == Spaced(before, s)
    decreases |s|
  {
    if s != "" {
      hide SecondSpaced;
      var c := s[0];
      var rest := FirstSpaced(c, s[1..]);
      PassesCompose(c, s[1..]);
      FirstHead(c, s[1..]);
      SecondCons(before, c, rest);
      hide FirstSpaced, Spaced;
      CutIsOneOfTwo(before, s, rest);
      if IsFirstCut(before, s) {
        FirstCons(before, s);
        SecondCons(' ', c, rest);
        SecondCons(before, ' ', [c] + rest);
        assert [' '] + ([c] + rest) == " " + [c] + rest;
      } else {
        FirstCons(before, s);
      }
      SpacedCons(before, s);
    } else {
      assert SecondSpaced(before, "") == "";
    }
  }

  lemma {:induction false} FirstCons(before: char, s: string)
    requires s != ""
    ensures FirstSpaced(before, s)
            == if IsFirstCut(before, s) then " " + [s[0]] + FirstSpaced(s[0], s[1..])
               else [s[0]] + FirstSpaced(s[0], s[1..])
  {
  }

  lemma {:induction false} SpacedCons(before: char, s: string)
    requires s != ""
    ensures Spaced(before, s)
            == if IsCut(before, s) then " " + [s[0]] + Spaced(s[0], s[1..]) else [s[0]] + Spaced(s[0], s[1..])
  {
  }

  // A cut is one of the first pass or one of the second, which sees the same next letter.
  lemma {:induction false} CutIsOneOfTwo(before: char, s: string, rest: string)
    requires s != ""
    requires rest != "" && IsLow(rest[0]) <==> |s| >= 2 && IsLow(s[1])
    ensures IsCut(before, s) <==> IsFirstCut(before, s) || IsSecondCut(before, [s[0]] + rest)
    ensures !IsSecondCut(' ', [s[0]] + rest) && !IsSecondCut(before, [' '] + ([s[0]] + rest))
  {
  }

  lemma {:induction false} SplitWordsCuts(name: string)
    ensures SplitWords(name) == Fields(LowerAll(Spaced(' ', Separate(name))))
  {
    var s := Separate(name);
    FirstPassCuts(' ', s);
    SecondPassCuts(' ', FirstSpaced(' ', s));
    PassesCompose(' ', s);
    hide SplitBeforeCapital, SplitLastCapital, FirstSpaced, SecondSpaced, Spaced;
  }

  // ---------- Words ----------

  // Lower-case letters, at least one, and then digits.
  predicate IsWord(w: string) {
    && w != "" && IsLow(w[0])
    && (forall i :: 0 <= i < |w| ==> IsLowDig(w[i]))
    && (forall i :: 0 <= i < |w| - 1 && IsDig(w[i]) ==> IsDig(w[i + 1]))
  }

  predicate AreWords(words: seq<string>) {
    words != [] && forall i :: 0 <= i < |words| ==> IsWord(words[i])
  }

  // It starts with two letters.
  predicate IsLong(w: string) { |w| >= 2 && IsLow(w[1]) }

  // When both are capitalised, there is a cut between a and b.
  predicate Separates(a: string, b: string) { |a| >= 2 || IsLong(b) }

  predicate AllSeparate(words: seq<string>) {
    forall i :: 0 <= i < |words| - 1 ==> Separates(words[i], words[i + 1])
  }

  // Capitalised words after the cuts, in lower case.
  function Glued(words: seq<string>): string
    requires words != []
  {
    if |words| == 1 then words[0]
    else words[0] + (if Separates(words[0], words[1]) then " " else "") + Glued(words[1..])
  }

  lemma {:induction false} LowerAppend(a: string, b: string)
    ensures LowerAll(a + b) == LowerAll(a) + LowerAll(b)
  {
    if a == "" {
      assert a + b == b;
    } else {
      LowerAppend(a[1..], b);
      assert (a + b)[1..] == a[1..] + b;
    }
  }

  lemma {:induction false} LowerKeeps(s: string)
    requires forall i :: 0 <= i < |s| ==> IsLowDig(s[i]) || s[i] == ' '
    ensures LowerAll(s) == s
  {
    if s != "" {
      LowerKeeps(s[1..]);
    }
  }

  function LastOf(before: char, s: string): char {
    if s == "" then before else s[|s| - 1]
  }

  lemma {:induction false} ConsTail(s: string, rest: string)
    requires s != ""
    ensures [s[0]] + (s[1..] + rest) == s + rest && (s + rest)[1..] == s[1..] + rest && (s + rest)[0] == s[0]
  {
  }

  lemma {:induction false} SmallIsUncut(before: char, s: string)
    requires s != "" && IsLowDig(s[0])
    ensures Spaced(before, s) == [s[0]] + Spaced(s[0], s[1..])
  {
    SpacedCons(before, s);
    hide Spaced;
  }

  // Nothing is cut in front of a small letter or a digit.
  lemma {:induction false} TailUncut(before: char, tail: string, rest: string)
    requires forall i :: 0 <= i < |tail| ==> IsLowDig(tail[i])
    ensures Spaced(before, tail + rest) == tail + Spaced(LastOf(before, tail), rest)
    decreases |tail|
  {
    hide Spaced, IsLowDig;
    if tail == "" {
      assert tail + rest == rest && tail + Spaced(before, rest) == Spaced(before, rest);
    } else {
      TailUncut(tail[0], tail[1..], rest);
      ConsTail(tail, rest);
      SmallIsUncut(before, tail + rest);
      ConsTail(tail, Spaced(LastOf(before, tail), rest));
    }
  }

  lemma {:induction false} CapitalizedHead(words: seq<string>)
    requires AreWords(words)
    ensures var s := CapitalizedAll(words);
            s != "" && IsUp(s[0]) && ((|s| >= 2 && IsLow(s[1])) <==> IsLong(words[0]))
  {
    var w := words[0];
    assert IsWord(w);
    if |w| == 1 && |words| > 1 {
      assert IsWord(words[1]);
      assert CapitalizedAll(words[1..])[0] == Upper(words[1][0]);
    }
  }

  function LastCapitalized(w: string): char
    requires w != ""
  {
    LastOf(Upper(w[0]), w[1..])
  }

  lemma {:induction false} LowerWord(w: string)
    requires IsWord(w)
    ensures [Lower(Upper(w[0]))] + LowerAll(w[1..]) == w
  {
    LowerKeeps(w[1..]);
    hide LowerAll;
  }

  // One capitalised word, whatever follows it.
  lemma {:induction false} OneCapitalized(before: char, w: string, rest: string)
    requires IsWord(w)
    ensures LowerAll(Spaced(before, Capitalized(w) + rest))
            == (if IsCut(before, Capitalized(w) + rest) then " " else "")
               + (w + LowerAll(Spaced(LastCapitalized(w), rest)))
  {
    var c, tail := Upper(w[0]), w[1..];
    var s, more := Capitalized(w) + rest, Spaced(LastCapitalized(w), rest);
    ConsTail(Capitalized(w), rest);
    SpacedCons(before, s);
    TailUncut(c, tail, rest);
    LowerWord(w);
    LowerPieces(IsCut(before, s), c, tail, more);
    hide Spaced, LowerAll, IsCut, IsWord, Upper, Lower, LastCapitalized;
    ConsTail(w, LowerAll(more));
    Regroup(Lower(c), LowerAll(tail), LowerAll(more));
  }

  lemma {:induction false} Regroup(c: char, a: string, b: string)
    ensures [c] + (a + b) == [c] + a + b
    ensures " " + [c] + (a + b) == " " + ([c] + a + b)
    ensures "" + [c] + (a + b) == "" + ([c] + a + b)
  {
  }

  lemma {:induction false} CutAfterWord(w: string, words: seq<string>)
    requires IsWord(w) && AreWords(words)
    ensures IsCut(LastCapitalized(w), CapitalizedAll(words)) <==> Separates(w, words[0])
  {
    CapitalizedHead(words);
    hide CapitalizedAll, AreWords;
  }

  lemma {:induction false} WordsTail(words: seq<string>)
    requires AreWords(words)
    ensures IsWord(words[0]) && (|words| > 1 ==> AreWords(words[1..]) && words[1..][0] == words[1])
  {
    hide IsWord;
    assert forall i :: 0 <= i < |words| - 1 ==> words[1..][i] == words[i + 1];
  }

  lemma {:induction false} CapitalizedCuts(before: char, words: seq<string>)
    requires AreWords(words)
    ensures LowerAll(Spaced(before, CapitalizedAll(words)))
            == (if IsCut(before, CapitalizedAll(words)) then " " else "") + Glued(words)
    decreases |words|
  {
    WordsTail(words);
    hide Spaced, LowerAll, IsCut, IsWord, AreWords, Capitalized, LastCapitalized, Separates;
    var w, more := words[0], words[1..];
    OneCapitalized(before, w, CapitalizedAll(more));
    if |words| == 1 {
      assert more == [] && CapitalizedAll(more) == "";
      SpacedEmpty(LastCapitalized(w));
      assert w + "" == w;
    } else {
      CapitalizedCuts(LastCapitalized(w), more);
      CutAfterWord(w, more);
      var gap := if Separates(w, words[1]) then " " else "";
      assert w + (gap + Glued(more)) == w + gap + Glued(more);
    }
  }

  lemma {:induction false} SpacedEmpty(before: char)
    ensures Spaced(before, "") == "" && LowerAll("") == ""
  {
  }

  lemma {:induction false} LowerPieces(cut: bool, c: char, tail: string, rest: string)
    ensures LowerAll((if cut then " " else "") + [c] + (tail + rest))
            == (if cut then " " else "") + [Lower(c)] + (LowerAll(tail) + LowerAll(rest))
  {
    var body := tail + rest;
    LowerAppend(tail, rest);
    assert ([c] + body)[1..] == body;
    assert " " + [c] + body == [' '] + ([c] + body);
    assert ([' '] + ([c] + body))[1..] == [c] + body;
    assert "" + [c] + body == [c] + body;
  }

  // ---------- Fields ----------

  predicate HasNoSpace(w: string) {
    forall i :: 0 <= i < |w| ==> !Strings.IsSpace(w[i])
  }

  lemma {:induction false} NextSpaceAfter(w: string, rest: string)
    requires HasNoSpace(w)
    ensures NextSpace(w + rest) == |w| + NextSpace(rest)
  {
    if w == "" {
      assert w + rest == rest;
    } else {
      NextSpaceAfter(w[1..], rest);
      assert (w + rest)[1..] == w[1..] + rest;
    }
  }

  lemma {:induction false} FieldThenSpace(w: string, rest: string)
    requires w != "" && HasNoSpace(w)
    ensures Fields(w) == [w]
    ensures Fields(w + " " + rest) == [w] + Fields(rest)
  {
    NextSpaceAfter(w, "");
    assert w + "" == w && w[|w|..] == "";
    var s := w + " " + rest;
    assert s == w + (" " + rest);
    NextSpaceAfter(w, " " + rest);
    assert s[|w|..] == " " + rest && (" " + rest)[1..] == rest && s[..|w|] == w;
  }

  // Without a space between them the word and the next field are one.
  lemma {:induction false} FieldsMerge(w: string, rest: string)
    requires w != "" && HasNoSpace(w) && rest != "" && !Strings.IsSpace(rest[0])
    ensures |Fields(w + rest)| == |Fields(rest)|
  {
    var n := NextSpace(rest);
    NextSpaceAfter(w, rest);
    assert (w + rest)[|w| + n..] == rest[n..];
  }

  lemma {:induction false} WordHasNoSpace(w: string)
    requires IsWord(w)
    ensures HasNoSpace(w)
  {
  }

  lemma {:induction false} GluedHead(words: seq<string>)
    requires AreWords(words)
    ensures Glued(words) != "" && !Strings.IsSpace(Glued(words)[0])
  {
    assert IsWord(words[0]);
  }

  // The words come back exactly when there is a cut between any two of them.
  lemma {:induction false} FieldsOfGlued(words: seq<string>)
    requires AreWords(words)
    ensures |Fields(Glued(words))| <= |words|
    ensures Fields(Glued(words)) == words <==> AllSeparate(words)
    ensures !AllSeparate(words) ==> |Fields(Glued(words))| < |words|
    decreases |words|
  {
    var w := words[0];
    assert IsWord(w);
    WordHasNoSpace(w);
    if |words| == 1 {
      FieldThenSpace(w, "");
    } else {
      var more := words[1..];
      WordsTail(words);
      FieldsOfGlued(more);
      GluedHead(more);
      AllSeparateTail(words);
      hide AllSeparate, Fields, IsWord, AreWords;
      assert words == [w] + more;
      if Separates(w, more[0]) {
        FieldThenSpace(w, Glued(more));
      } else {
        FieldsMerge(w, Glued(more));
        assert w + "" + Glued(more) == w + Glued(more);
      }
    }
  }

  lemma {:induction false} AllSeparateTail(words: seq<string>)
    requires |words| >= 2
    ensures AllSeparate(words) <==> Separates(words[0], words[1]) && AllSeparate(words[1..])
  {
    var more := words[1..];
    assert forall i :: 0 <= i < |more| ==> more[i] == words[i + 1];
    if AllSeparate(more) && Separates(words[0], words[1]) {
      forall i | 0 <= i < |words| - 1
        ensures Separates(words[i], words[i + 1])
      {
        if i > 0 {
          assert Separates(more[i - 1], more[i]);
        }
      }
    }
  }

  // ---------- Reading a name back ----------

  lemma {:induction false} SeparateKeeps(s: string)
    requires forall i :: 0 <= i < |s| ==> s[i] != '-' && s[i] != '_'
    ensures Separate(s) == s
  {
    if s != "" {
      SeparateKeeps(s[1..]);
    }
  }

  lemma {:induction false} CapitalizedIsAlnum(words: seq<string>)
    requires words == [] || AreWords(words)
    ensures All(IsAlnum, CapitalizedAll(words))
  {
    if words != [] {
      var more := words[1..];
      assert forall i :: 0 <= i < |more| ==> more[i] == words[i + 1];
      CapitalizedIsAlnum(more);
      assert IsWord(words[0]);
    }
  }

  // PascalCase: a single letter must not be followed by a word that starts with only one.
  lemma {:induction false} PascalReadsBackExactlyWhen(words: seq<string>)
    requires AreWords(words)
    ensures SplitWords(Render(words, Pascal)) == words <==> AllSeparate(words)
  {
    var s := CapitalizedAll(words);
    CapitalizedIsAlnum(words);
    SeparateKeeps(s);
    SplitWordsCuts(s);
    CapitalizedCuts(' ', words);
    assert "" + Glued(words) == Glued(words);
    FieldsOfGlued(words);
    hide SplitWords, Spaced, Glued, AllSeparate, CapitalizedAll, Fields;
  }

  lemma {:induction false} CamelCuts(w: string, more: seq<string>)
    requires IsWord(w) && AreWords(more)
    ensures LowerAll(Spaced(' ', w + CapitalizedAll(more))) == w + " " + Glued(more)
  {
    var last, rest := w[|w| - 1], CapitalizedAll(more);
    assert IsLowDig(last);
    TailUncut(' ', w, rest);
    LowerKeeps(w);
    CapitalizedHead(more);
    CapitalizedCuts(last, more);
    hide Spaced, Glued, CapitalizedAll, LowerAll, AreWords;
    LowerAppend(w, Spaced(last, rest));
    assert IsCut(last, rest);
    hide IsWord, IsCut;
    assert w + (" " + Glued(more)) == w + " " + Glued(more);
  }

  lemma {:induction false} WordIsAlnum(w: string)
    requires IsWord(w)
    ensures All(IsAlnum, w) && HasNoSpace(w)
  {
  }

  // camelCase: the same, from the second word on.
  lemma {:induction false} CamelReadsBackExactlyWhen(words: seq<string>)
    requires AreWords(words) && |words| >= 2
    ensures SplitWords(Render(words, Camel)) == words <==> AllSeparate(words[1..])
  {
    WordsTail(words);
    var w, more := words[0], words[1..];
    var s := w + CapitalizedAll(more);
    WordIsAlnum(w);
    CapitalizedIsAlnum(more);
    SeparateKeeps(s);
    hide SplitWords, Spaced, Glued, AllSeparate, CapitalizedAll, Fields, IsWord, AreWords, HasNoSpace, LowerAll,
         Separate;
    SplitWordsCuts(s);
    CamelCuts(w, more);
    FieldsOfGlued(more);
    FieldThenSpace(w, Glued(more));
    assert words == [w] + more;
  }
}
