// What the naming guardrail can rely on: a suggested name is recognised as the convention it
// was written in, and stands for the same words (plugin.js, advisory-guardrails.js).
module NamingAdvice {
  import opened Naming
  import opened NamingRoundTrip

  // ---------- The three conventions with separators ----------

  predicate IsPlainText(s: string) {
    forall i :: 0 <= i < |s| ==> IsAlnum(s[i])
  }

  predicate ArePlain(words: seq<string>) {
    forall i :: 0 <= i < |words| ==> words[i] != "" && IsPlainText(words[i])
  }

  lemma {:induction false} SeparateAppend(a: string, b: string)
    ensures Separate(a + b) == Separate(a) + Separate(b)
  {
    if a == "" {
      assert a + b == b;
    } else {
      SeparateAppend(a[1..], b);
      ConsTail(a, b);
      ConsTail(Separate(a), Separate(b));
    }
  }

  // Separating joined words gives the words joined by spaces.
  lemma {:induction false} SeparateJoined(words: seq<string>, separator: char)
    requires ArePlain(words) && (separator == '-' || separator == '_')
    ensures Separate(JoinWith(words, separator)) == JoinWith(words, ' ')
  {
    if words != [] {
      assert IsPlainText(words[0]);
      SeparateKeeps(words[0]);
      if |words| > 1 {
        var rest := JoinWith(words[1..], separator);
        assert ArePlain(words[1..]) by {
          assert forall i :: 0 <= i < |words| - 1 ==> words[1..][i] == words[i + 1];
        }
        SeparateJoined(words[1..], separator);
        SeparateAppend(words[0] + [separator], rest);
        SeparateAppend(words[0], [separator]);
        assert [separator][1..] == "";
        assert Separate([separator]) == " ";
      }
    }
  }

  lemma {:induction false} FieldsOfJoined(words: seq<string>)
    requires ArePlain(words)
    ensures Fields(JoinWith(words, ' ')) == words
  {
    if words != [] {
      assert IsPlainText(words[0]);
      assert HasNoSpace(words[0]);
      if |words| == 1 {
        FieldThenSpace(words[0], "");
      } else {
        assert ArePlain(words[1..]) by {
          assert forall i :: 0 <= i < |words| - 1 ==> words[1..][i] == words[i + 1];
        }
        FieldsOfJoined(words[1..]);
        FieldThenSpace(words[0], JoinWith(words[1..], ' '));
        hide Fields;
        assert words == [words[0]] + words[1..];
      }
    }
  }

  // No capital follows a small letter or a digit, or precedes a small letter.
  predicate IsEven(s: string) {
    forall i :: 0 <= i < |s| - 1 ==>
      (IsUp(s[i + 1]) ==> !IsLowDig(s[i])) && (IsUp(s[i]) ==> !IsLow(s[i + 1]))
  }

  lemma {:induction false} EvenIsUncut(before: char, s: string)
    requires IsEven(s) && !IsLowDig(before)
    ensures Spaced(before, s) == s
  {
    EvenIsUncutAfter(before, s);
  }

  lemma {:induction false} EvenIsUncutAfter(before: char, s: string)
    requires IsEven(s) && (s != "" && IsUp(s[0]) ==> !IsLowDig(before))
    ensures Spaced(before, s) == s
    decreases |s|
  {
    if s != "" {
      assert IsEven(s[1..]) by {
        assert forall i :: 0 <= i < |s| - 1 ==> s[1..][i] == s[i + 1];
      }
      if |s| > 1 {
        assert s[0 + 1] == s[1..][0];
      }
      EvenIsUncutAfter(s[0], s[1..]);
      SpacedCons(before, s);
      assert s == [s[0]] + s[1..];
    }
  }

  lemma {:induction false} JoinedIsSmall(words: seq<string>)
    requires forall i :: 0 <= i < |words| ==> IsWord(words[i])
    ensures forall i :: 0 <= i < |JoinWith(words, ' ')| ==>
              IsLowDig(JoinWith(words, ' ')[i]) || JoinWith(words, ' ')[i] == ' '
  {
    if |words| > 1 {
      assert forall i :: 0 <= i < |words| - 1 ==> words[1..][i] == words[i + 1];
      JoinedIsSmall(words[1..]);
      assert IsWord(words[0]);
    } else if |words| == 1 {
      assert IsWord(words[0]);
    }
  }

  lemma {:induction false} WordsArePlain(words: seq<string>)
    requires AreWords(words)
    ensures ArePlain(words)
  {
    forall i | 0 <= i < |words|
      ensures words[i] != "" && IsPlainText(words[i])
    {
      assert IsWord(words[i]);
    }
  }

  // kebab-case and snake_case names always read back as their words.
  lemma {:induction false} LowerConventionsReadBack(words: seq<string>, convention: Convention)
    requires AreWords(words) && (convention == Kebab || convention == Snake)
    ensures SplitWords(Render(words, convention)) == words
  {
    hide SplitWords, Spaced, Separate, LowerAll, Fields, JoinWith, IsWord, ArePlain, IsEven;
    var separator := if convention == Kebab then '-' else '_';
    WordsArePlain(words);
    SeparateJoined(words, separator);
    SplitWordsCuts(JoinWith(words, separator));
    JoinedIsSmall(words);
    SmallIsEven(JoinWith(words, ' '));
    EvenIsUncut(' ', JoinWith(words, ' '));
    LowerKeeps(JoinWith(words, ' '));
    FieldsOfJoined(words);
  }

  lemma {:induction false} SmallIsEven(s: string)
    requires forall i :: 0 <= i < |s| ==> IsLowDig(s[i]) || s[i] == ' '
    ensures IsEven(s)
  {
    forall i | 0 <= i < |s|
      ensures !IsUp(s[i])
    {
      assert IsLowDig(s[i]) || s[i] == ' ';
    }
  }

  // ---------- UPPER_SNAKE_CASE ----------

  lemma {:induction false} UpperPointwise(w: string)
    ensures |UpperAll(w)| == |w| && forall i :: 0 <= i < |w| ==> UpperAll(w)[i] == Upper(w[i])
  {
    if w != "" {
      var rest := UpperAll(w[1..]);
      UpperPointwise(w[1..]);
      assert UpperAll(w) == [Upper(w[0])] + rest;
      assert forall i :: 0 < i < |w| ==> w[i] == w[1..][i - 1];
    }
  }

  lemma {:induction false} LowerUpper(w: string)
    requires IsWord(w) || forall i :: 0 <= i < |w| ==> IsLowDig(w[i])
    ensures LowerAll(UpperAll(w)) == w
  {
    if w != "" {
      LowerUpper(w[1..]);
      assert UpperAll(w)[1..] == UpperAll(w[1..]);
    }
  }

  lemma {:induction false} EvenUpper(w: string, u: string)
    requires IsWord(w) && |u| == |w| && forall i :: 0 <= i < |w| ==> u[i] == Upper(w[i])
    ensures IsEven(u) && (forall i :: 0 <= i < |u| ==> IsUpDig(u[i])) && IsUp(u[0])
  {
    forall i | 0 <= i < |u|
      ensures IsUpDig(u[i]) && (IsDig(u[i]) <==> IsDig(w[i]))
    {
      assert IsLowDig(w[i]);
    }
    forall i | 0 <= i < |u| - 1
      ensures (IsUp(u[i + 1]) ==> !IsLowDig(u[i])) && (IsUp(u[i]) ==> !IsLow(u[i + 1]))
    {
      assert IsDig(w[i]) ==> IsDig(w[i + 1]);
      assert IsUpDig(u[i]) && IsUpDig(u[i + 1]);
    }
  }

  lemma {:induction false} UpperWordIsEven(w: string)
    requires IsWord(w)
    ensures UpperAll(w) != "" && IsEven(UpperAll(w))
    ensures forall i :: 0 <= i < |UpperAll(w)| ==> IsUpDig(UpperAll(w)[i])
    ensures IsUp(UpperAll(w)[0])
  {
    hide UpperAll;
    UpperPointwise(w);
    EvenUpper(w, UpperAll(w));
  }

  lemma {:induction false} UpperJoined(words: seq<string>)
    requires AreWords(words)
    ensures IsEven(JoinWith(UpperWords(words), ' '))
    ensures LowerAll(JoinWith(UpperWords(words), ' ')) == JoinWith(words, ' ')
    ensures ArePlain(UpperWords(words)) && |UpperWords(words)| == |words|
  {
    var w := UpperAll(words[0]);
    WordsTail(words);
    UpperWordIsEven(words[0]);
    LowerUpper(words[0]);
    assert IsPlainText(w);
    if |words| > 1 {
      var more := words[1..];
      UpperJoined(more);
      var rest := JoinWith(UpperWords(more), ' ');
      assert UpperWords(words) == [w] + UpperWords(more) && UpperWords(words)[1..] == UpperWords(more);
      LowerAppend(w + " ", rest);
      LowerAppend(w, " ");
      LowerKeeps(" ");
      hide LowerAll, UpperAll, IsPlainText;
      EvenJoins(w, rest);
      PlainCons(w, UpperWords(more));
    } else {
      assert UpperWords(words) == [w];
    }
  }

  lemma {:induction false} PlainCons(w: string, words: seq<string>)
    requires w != "" && IsPlainText(w) && ArePlain(words)
    ensures ArePlain([w] + words)
  {
  }

  lemma {:induction false} EvenJoins(a: string, b: string)
    requires IsEven(a) && IsEven(b)
    ensures IsEven(a + " " + b)
  {
  }

  lemma {:induction false} UpperReadsBack(words: seq<string>)
    requires AreWords(words)
    ensures SplitWords(Render(words, UpperSnake)) == words
  {
    var s, t := JoinWith(UpperWords(words), '_'), JoinWith(UpperWords(words), ' ');
    UpperJoined(words);
    SeparateJoined(UpperWords(words), '_');
    SplitWordsCuts(s);
    EvenIsUncut(' ', t);
    WordsArePlain(words);
    FieldsOfJoined(words);
    hide SplitWords, Spaced, Separate, LowerAll, Fields, JoinWith;
  }

  // ---------- Recognising the convention ----------

  lemma {:induction false} JoinedIsSeparated(p: char -> bool, words: seq<string>, separator: char)
    requires words != [] && !p(separator)
    requires forall i :: 0 <= i < |words| ==> words[i] != "" && All(p, words[i])
    ensures IsSeparated(p, separator, JoinWith(words, separator))
    ensures JoinWith(words, separator) != "" && JoinWith(words, separator)[0] == words[0][0]
    ensures |words| > 1 ==> separator in JoinWith(words, separator)
  {
    assert All(p, words[0]);
    if |words| > 1 {
      var more := words[1..];
      assert forall i :: 0 <= i < |more| ==> more[i] == words[i + 1];
      JoinedIsSeparated(p, more, separator);
      assert words[1] != "" && All(p, words[1]);
      assert more[0][0] != separator;
      SeparatedJoins(p, separator, words[0], JoinWith(more, separator));
    }
  }

  lemma {:induction false} SeparatedJoins(p: char -> bool, separator: char, a: string, b: string)
    requires a != "" && All(p, a) && !p(separator)
    requires b != "" && b[0] != separator && IsSeparated(p, separator, b)
    ensures IsSeparated(p, separator, a + [separator] + b) && separator in a + [separator] + b
    ensures (a + [separator] + b)[0] == a[0]
  {
    var s := a + [separator] + b;
    assert s[|a|] == separator;
    forall i | 0 <= i < |s|
      ensures p(s[i]) || s[i] == separator
      ensures s[i] == separator ==> i + 1 < |s| && s[i + 1] != separator
    {
      if i < |a| {
        assert p(a[i]);
      } else if i > |a| {
        assert s[i] == b[i - |a| - 1];
        if i + 1 < |s| {
          assert s[i + 1] == b[i - |a|];
        }
      }
    }
  }

  lemma {:induction false} WordIsLower(words: seq<string>)
    requires AreWords(words)
    ensures forall i :: 0 <= i < |words| ==> words[i] != "" && All(IsLowDig, words[i])
    ensures IsLow(words[0][0])
  {
    forall i | 0 <= i < |words|
      ensures words[i] != "" && All(IsLowDig, words[i])
    {
      assert IsWord(words[i]);
    }
    assert IsWord(words[0]);
  }

  lemma {:induction false} UpperWordsAreUpper(words: seq<string>)
    requires AreWords(words)
    ensures |UpperWords(words)| == |words| && IsUp(UpperWords(words)[0][0])
    ensures forall i :: 0 <= i < |words| ==> UpperWords(words)[i] != "" && All(IsUpDig, UpperWords(words)[i])
  {
    WordsTail(words);
    UpperWordIsEven(words[0]);
    hide IsWord, AreWords, UpperAll;
    if |words| > 1 {
      UpperWordsAreUpper(words[1..]);
    }
  }

  // The separator gives a joined name away: it is in none of the earlier classes.
  lemma {:induction false} SeparatedClass(s: string, separator: char)
    requires s != "" && separator in s && (separator == '-' || separator == '_')
    ensures !All(IsAlnum, s) && !All(IsLowDig, s) && !All(IsUpDig, s)
    ensures !IsSeparated(IsLowDig, if separator == '-' then '_' else '-', s)
  {
    var i :| 0 <= i < |s| && s[i] == separator;
    assert !IsAlnum(s[i]) && !IsLowDig(s[i]) && !IsUpDig(s[i]);
  }

  lemma {:induction false} JoinedIsRecognised(words: seq<string>, convention: Convention)
    requires AreWords(words) && |words| >= 2 && convention in {Kebab, Snake, UpperSnake}
    ensures Classify(Render(words, convention)) == Follows(convention)
  {
    WordIsLower(words);
    UpperWordsAreUpper(words);
    var s := Render(words, convention);
    hide JoinWith, UpperWords, AreWords;
    if convention == Kebab {
      JoinedIsSeparated(IsLowDig, words, '-');
      SeparatedClass(s, '-');
    } else if convention == Snake {
      JoinedIsSeparated(IsLowDig, words, '_');
      SeparatedClass(s, '_');
    } else {
      JoinedIsSeparated(IsUpDig, UpperWords(words), '_');
      SeparatedClass(s, '_');
    }
    hide IsSeparated, All, Has;
  }

  lemma {:induction false} CamelIsRecognised(words: seq<string>)
    requires AreWords(words) && |words| >= 2
    ensures Classify(Render(words, Camel)) == Follows(Camel)
  {
    WordsTail(words);
    var w, more := words[0], words[1..];
    var s := w + CapitalizedAll(more);
    WordIsAlnum(w);
    CapitalizedIsAlnum(more);
    CapitalizedHead(more);
    assert All(IsAlnum, s) && IsLow(s[0]);
    assert IsUp(s[|w|]) && !IsLowDig(s[|w|]) && !IsUpDig(s[0]);
  }

  // Some word starts with two letters.
  ghost predicate HasLong(words: seq<string>) {
    exists i :: 0 <= i < |words| && IsLong(words[i])
  }

  lemma {:induction false} SmallLetterExactlyWhen(words: seq<string>)
    requires AreWords(words)
    ensures Has(IsLow, CapitalizedAll(words), 1) <==> HasLong(words)
    decreases |words|
  {
    WordsTail(words);
    var w, more := words[0], words[1..];
    var c, rest := Capitalized(w), CapitalizedAll(more);
    SmallInWord(w);
    assert HasLong(words) <==> IsLong(w) || HasLong(more) by {
      HasLongTail(words);
    }
    if more == [] {
      assert c + rest == c;
    } else {
      SmallLetterExactlyWhen(more);
      CapitalizedHead(more);
      assert !IsLow(rest[0]);
      hide IsWord, IsLong, AreWords, HasLong, CapitalizedAll, Capitalized;
      SmallInEither(c, rest);
    }
  }

  lemma {:induction false} HasLongTail(words: seq<string>)
    requires words != []
    ensures HasLong(words) <==> IsLong(words[0]) || HasLong(words[1..])
  {
    var more := words[1..];
    assert forall i :: 0 <= i < |more| ==> more[i] == words[i + 1];
    if HasLong(words) {
      var i :| 0 <= i < |words| && IsLong(words[i]);
      assert i > 0 ==> IsLong(more[i - 1]);
    }
  }

  // Letters come first, so a small letter after the first character means two letters.
  lemma {:induction false} SmallInWord(w: string)
    requires IsWord(w)
    ensures Has(IsLow, Capitalized(w), 1) <==> IsLong(w)
  {
    var c := Capitalized(w);
    assert |c| == |w| && forall i :: 1 <= i < |w| ==> c[i] == w[i];
    if IsLong(w) {
      assert IsLow(c[1]);
    } else if |w| >= 2 {
      forall i: nat | 1 <= i < |w|
        ensures IsDig(w[i])
      {
        DigitsFollow(w, i);
      }
    }
  }

  lemma {:induction false} DigitsFollow(w: string, i: nat)
    requires IsWord(w) && |w| >= 2 && IsDig(w[1]) && 1 <= i < |w|
    ensures IsDig(w[i])
  {
    if i > 1 {
      DigitsFollow(w, i - 1);
    }
  }

  lemma {:induction false} SmallInEither(a: string, b: string)
    requires a != "" && b != "" && !IsLow(b[0])
    ensures Has(IsLow, a + b, 1) <==> Has(IsLow, a, 1) || Has(IsLow, b, 1)
  {
    var s := a + b;
    if Has(IsLow, s, 1) {
      var i :| 1 <= i < |s| && IsLow(s[i]);
      if i >= |a| {
        assert b[i - |a|] == s[i];
      } else {
        assert a[i] == s[i];
      }
    }
    if Has(IsLow, a, 1) {
      var i :| 1 <= i < |a| && IsLow(a[i]);
      assert s[i] == a[i];
    }
    if Has(IsLow, b, 1) {
      var i :| 1 <= i < |b| && IsLow(b[i]);
      assert s[i + |a|] == b[i];
    }
  }

  // PascalCase is recognised exactly when some word starts with two letters; otherwise the
  // name looks like a single word in capitals.
  lemma {:induction false} PascalIsRecognisedExactlyWhen(words: seq<string>)
    requires AreWords(words)
    ensures Classify(Render(words, Pascal)) == Follows(Pascal) <==> HasLong(words)
  {
    hide CapitalizedAll, AreWords, HasLong, Classify;
    CapitalizedIsAlnum(words);
    CapitalizedHead(words);
    SmallLetterExactlyWhen(words);
    CapitalizedClass(CapitalizedAll(words));
  }

  lemma {:induction false} CapitalizedClass(s: string)
    requires s != "" && IsUp(s[0]) && All(IsAlnum, s)
    ensures Classify(s) == Follows(Pascal) <==> Has(IsLow, s, 1)
  {
    if Has(IsLow, s, 1) {
      var i :| 1 <= i < |s| && IsLow(s[i]);
      assert !IsUpDig(s[i]);
      hide Has, IsSeparated;
    } else {
      AllUpDig(s);
      hide Has, All, IsSeparated;
    }
  }

  lemma {:induction false} AllUpDig(s: string)
    requires s != "" && IsUp(s[0]) && All(IsAlnum, s) && !Has(IsLow, s, 1)
    ensures All(IsUpDig, s)
  {
    forall i | 0 <= i < |s|
      ensures IsUpDig(s[i])
    {
      assert IsAlnum(s[i]);
      assert i >= 1 ==> !IsLow(s[i]);
    }
  }

  // ---------- The promise ----------

  lemma {:induction false} LongWordsSeparate(words: seq<string>)
    requires AreWords(words) && forall i :: 0 <= i < |words| ==> IsLong(words[i])
    ensures AllSeparate(words) && HasLong(words)
  {
    assert IsLong(words[0]);
  }

  // A suggested name is recognised as its convention and stands for the words of the
  // original, so it never calls for another suggestion.
  lemma {:induction false} SuggestionIsStable(name: string, convention: Convention)
    requires AreWords(SplitWords(name)) && |SplitWords(name)| >= 2
    requires forall i :: 0 <= i < |SplitWords(name)| ==> IsLong(SplitWords(name)[i])
    ensures Classify(ToConvention(name, convention)) == Follows(convention)
    ensures SplitWords(ToConvention(name, convention)) == SplitWords(name)
    ensures forall other :: ToConvention(ToConvention(name, convention), other) == ToConvention(name, other)
  {
    hide SplitWords, Classify, Render, AllSeparate, HasLong, IsLong;
    var words := SplitWords(name);
    LongWordsSeparate(words);
    match convention
    case Kebab =>
      LowerConventionsReadBack(words, Kebab);
      JoinedIsRecognised(words, Kebab);
    case Snake =>
      LowerConventionsReadBack(words, Snake);
      JoinedIsRecognised(words, Snake);
    case UpperSnake =>
      UpperReadsBack(words);
      JoinedIsRecognised(words, UpperSnake);
    case Camel =>
      CamelReadsBackExactlyWhen(words);
      CamelIsRecognised(words);
      AllSeparateTail(words);
    case Pascal =>
      PascalReadsBackExactlyWhen(words);
      PascalIsRecognisedExactlyWhen(words);
  }
}
