// Compacting the lessons store (src/commands/lessons.js): what the pass computes, and why
// repeating it changes nothing.
module Lessons {
  import opened Options
  import opened SeqFacts
  import opened TextOrder
  import opened Decimals
  import opened Strings

  datatype Severity = Low | Medium | High | Critical | Unranked(name: string)

  // A missing text is empty. The id and the title stand for the fields the pass only copies.
  datatype Lesson = Lesson(
    id: string, title: string, rootCause: string, rule: string, date: string,
    severity: Option<Severity>, compactedFrom: Option<nat>)

  datatype RootKey = RootKey(text: string)

  function Front<T>(s: seq<T>): seq<T>
    requires s != []
  {
    s[..|s| - 1]
  }

  function Last<T>(s: seq<T>): T
    requires s != []
  {
    s[|s| - 1]
  }

  // ---------- Grouping ----------

  function KeyOf(l: Lesson): RootKey {
    RootKey(Trim(LowerAll(l.rootCause)))
  }

  // The groups are kept in a plain object, where these two names are already taken: the pass
  // fails with a type error when a root cause is one of them.
  predicate IsTaken(k: RootKey) {
    k.text == "constructor" || k.text == "__proto__"
  }

  function Group(lessons: seq<Lesson>, k: RootKey): seq<Lesson> {
    if lessons == [] then []
    else Group(Front(lessons), k) + (if KeyOf(Last(lessons)) == k then [Last(lessons)] else [])
  }

  // A property name that counts as an array index, and its value: such properties come first,
  // by value, whenever an object is enumerated.
  predicate IsIndex(k: RootKey) {
    && k.text != ""
    && IsDigits(k.text)
    && (k.text[0] == '0' ==> |k.text| == 1)
    && ValueOf(k.text) < MAX_INDEX
  }

  const MAX_INDEX := 0xFFFF_FFFF

  // Adding a property keeps the index properties in front, in increasing order.
  function Place(keys: seq<RootKey>, k: RootKey): seq<RootKey> {
    if !IsIndex(k) || keys == [] then keys + [k]
    else if Comes(Last(keys), k) then keys + [k]
    else Place(Front(keys), k) + [Last(keys)]
  }

  // a may stand before b.
  predicate Comes(a: RootKey, b: RootKey) {
    IsIndex(b) ==> IsIndex(a) && ValueOf(a.text) <= ValueOf(b.text)
  }

  // The groups in the order in which they are enumerated.
  function Keys(lessons: seq<Lesson>): seq<RootKey> {
    if lessons == [] then []
    else if KeyOf(Last(lessons)) in Keys(Front(lessons)) then Keys(Front(lessons))
    else Place(Keys(Front(lessons)), KeyOf(Last(lessons)))
  }

  // ---------- Merging one group ----------

  // The first of the lessons with the latest date: the sort is stable.
  function Latest(group: seq<Lesson>): Lesson
    requires group != []
  {
    if |group| == 1 then group[0]
    else
      var best := Latest(Front(group));
      if Before(best.date, Last(group).date) then Last(group) else best
  }

  // The distinct prevention rules, in order of first appearance.
  function Rules(group: seq<Lesson>): seq<string> {
    if group == [] then []
    else
      var rules := Rules(Front(group));
      if Last(group).rule != "" && Last(group).rule !in rules then rules + [Last(group).rule] else rules
  }

  function JoinRules(rules: seq<string>): string {
    if rules == [] then ""
    else if |rules| == 1 then rules[0]
    else JoinRules(Front(rules)) + " | " + Last(rules)
  }

  function Rank(s: Severity): nat {
    match s
    case Low => 1
    case Medium => 2
    case High => 3
    case Critical => 4
    case Unranked(_) => 0
  }

  function SeverityOf(l: Lesson): Severity {
    if l.severity.Some? then l.severity.value else Low
  }

  function Highest(group: seq<Lesson>, start: Severity): Severity {
    if group == [] then start
    else
      var high := Highest(Front(group), start);
      if Rank(SeverityOf(Last(group))) > Rank(high) then SeverityOf(Last(group)) else high
  }

  function Merged(group: seq<Lesson>): Lesson
    requires group != []
  {
    if |group| == 1 then group[0]
    else
      var kept := Latest(group);
      kept.(rule := if |Rules(group)| > 1 then JoinRules(Rules(group)) else kept.rule,
            severity := Some(Highest(group, SeverityOf(kept))),
            compactedFrom := Some(|group|))
  }

  function MergeAll(lessons: seq<Lesson>, keys: seq<RootKey>): seq<Lesson>
    requires forall i :: 0 <= i < |keys| ==> Group(lessons, keys[i]) != []
  {
    if keys == [] then [] else MergeAll(lessons, Front(keys)) + [Merged(Group(lessons, Last(keys)))]
  }

  function Compacted(lessons: seq<Lesson>): seq<Lesson> {
    KeysHaveGroups(lessons);
    MergeAll(lessons, Keys(lessons))
  }

  // ---------- Groups and keys ----------

  lemma {:induction false} PlaceKeepsElements(keys: seq<RootKey>, k: RootKey)
    ensures |Place(keys, k)| == |keys| + 1
    ensures multiset(Place(keys, k)) == multiset(keys) + multiset{k}
  {
    hide IsIndex, Comes;
    if IsIndex(k) && keys != [] && !Comes(Last(keys), k) {
      PlaceKeepsElements(Front(keys), k);
      assert keys == Front(keys) + [Last(keys)];
    }
  }

  lemma {:induction false} SameElements(a: seq<RootKey>, b: seq<RootKey>, x: RootKey)
    requires multiset(a) == multiset(b)
    ensures x in a <==> x in b
  {
    assert x in a <==> x in multiset(a);
  }

  lemma {:induction false} PlaceMembers(keys: seq<RootKey>, k: RootKey, x: RootKey)
    ensures x in Place(keys, k) <==> x in keys || x == k
  {
    PlaceKeepsElements(keys, k);
    SameElements(Place(keys, k), keys + [k], x);
  }

  lemma {:induction false} DistinctByCount(keys: seq<RootKey>)
    requires forall x :: multiset(keys)[x] <= 1
    ensures Distinct(keys)
  {
    if keys != [] {
      var front, last := Front(keys), Last(keys);
      assert keys == front + [last];
      assert multiset(keys) == multiset(front) + multiset{last};
      forall x
        ensures multiset(front)[x] <= 1
      {
        assert multiset(keys)[x] <= 1;
      }
      DistinctByCount(front);
      assert multiset(keys)[last] == multiset(front)[last] + 1;
      assert last !in multiset(front);
      assert last !in front;
    }
  }

  lemma {:induction false} PlaceIsDistinct(keys: seq<RootKey>, k: RootKey)
    requires Distinct(keys) && k !in keys
    ensures Distinct(Place(keys, k))
  {
    PlaceKeepsElements(keys, k);
    forall x
      ensures multiset(Place(keys, k))[x] <= 1
    {
      DistinctMultiset(keys, x);
    }
    DistinctByCount(Place(keys, k));
  }

  lemma {:induction false} KeysAreDistinct(lessons: seq<Lesson>)
    ensures Distinct(Keys(lessons))
  {
    hide Place, KeyOf;
    if lessons != [] {
      KeysAreDistinct(Front(lessons));
      if KeyOf(Last(lessons)) !in Keys(Front(lessons)) {
        PlaceIsDistinct(Keys(Front(lessons)), KeyOf(Last(lessons)));
      }
    }
  }

  // A key is enumerated exactly when its group has a lesson.
  lemma {:induction false} KeyHasGroup(lessons: seq<Lesson>, k: RootKey)
    ensures k in Keys(lessons) <==> Group(lessons, k) != []
  {
    hide Place, KeyOf;
    if lessons != [] {
      KeyHasGroup(Front(lessons), k);
      PlaceMembers(Keys(Front(lessons)), KeyOf(Last(lessons)), k);
    }
  }

  lemma {:induction false} KeysHaveGroups(lessons: seq<Lesson>)
    ensures forall i :: 0 <= i < |Keys(lessons)| ==> Group(lessons, Keys(lessons)[i]) != []
  {
    forall i | 0 <= i < |Keys(lessons)|
      ensures Group(lessons, Keys(lessons)[i]) != []
    {
      KeyHasGroup(lessons, Keys(lessons)[i]);
    }
  }

  lemma {:induction false} GroupMembers(lessons: seq<Lesson>, k: RootKey)
    ensures forall i :: 0 <= i < |Group(lessons, k)| ==>
              Group(lessons, k)[i] in lessons && KeyOf(Group(lessons, k)[i]) == k
    ensures forall l :: l in lessons && KeyOf(l) == k ==> l in Group(lessons, k)
  {
    hide KeyOf;
    if lessons != [] {
      GroupMembers(Front(lessons), k);
      assert lessons == Front(lessons) + [Last(lessons)];
    }
  }

  lemma {:induction false} MergeAllAt(lessons: seq<Lesson>, keys: seq<RootKey>, i: nat)
    requires i < |keys| && forall j :: 0 <= j < |keys| ==> Group(lessons, keys[j]) != []
    ensures |MergeAll(lessons, keys)| == |keys|
    ensures MergeAll(lessons, keys)[i] == Merged(Group(lessons, keys[i]))
  {
    MergeAllSize(lessons, Front(keys));
    if i < |keys| - 1 {
      MergeAllAt(lessons, Front(keys), i);
    }
  }

  lemma {:induction false} MergeAllSize(lessons: seq<Lesson>, keys: seq<RootKey>)
    requires forall j :: 0 <= j < |keys| ==> Group(lessons, keys[j]) != []
    ensures |MergeAll(lessons, keys)| == |keys|
  {
    if keys != [] {
      MergeAllSize(lessons, Front(keys));
    }
  }

  // ---------- What is kept of a group ----------

  lemma {:induction false} LatestIsLatest(group: seq<Lesson>, i: nat)
    requires i < |group|
    ensures Latest(group) in group
    ensures !Before(Latest(group).date, group[i].date)
  {
    hide Before;
    if |group| == 1 {
      BeforeIsIrreflexive(group[0].date);
    } else {
      var front, last := Front(group), Last(group);
      var best := Latest(front);
      BeforeIsIrreflexive(last.date);
      LatestIsLatest(front, if i < |front| then i else 0);
      if Before(best.date, last.date) && i < |front| {
        BeforeIsAsymmetric(best.date, last.date);
        NotBeforeIsTransitive(group[i].date, best.date, last.date);
      }
    }
  }

  // Among equally late lessons it is the first one in the store.
  lemma {:induction false} LatestIsFirst(group: seq<Lesson>)
    requires group != []
    ensures exists j :: 0 <= j < |group| && group[j] == Latest(group)
                        && forall i :: 0 <= i < j ==> Before(group[i].date, group[j].date)
  {
    hide Before;
    if |group| == 1 {
      assert group[0] == Latest(group);
    } else {
      var front, last := Front(group), Last(group);
      var best := Latest(front);
      if Before(best.date, last.date) {
        forall i | 0 <= i < |front|
          ensures Before(front[i].date, last.date)
        {
          LatestIsLatest(front, i);
          BeforeIsLinear(front[i].date, best.date, last.date);
        }
        assert group[|front|] == Latest(group);
      } else {
        LatestIsFirst(front);
        var j :| 0 <= j < |front| && front[j] == best
                 && forall i :: 0 <= i < j ==> Before(front[i].date, front[j].date);
        assert group[j] == Latest(group);
      }
    }
  }

  lemma {:induction false} HighestIsHighest(group: seq<Lesson>, start: Severity)
    ensures forall i :: 0 <= i < |group| ==> Rank(SeverityOf(group[i])) <= Rank(Highest(group, start))
    ensures Rank(start) <= Rank(Highest(group, start))
    ensures Highest(group, start) == start
            || exists i :: 0 <= i < |group| && SeverityOf(group[i]) == Highest(group, start)
  {
    hide Rank, SeverityOf;
    if group != [] {
      HighestIsHighest(Front(group), start);
      if Highest(group, start) != start {
        if Highest(group, start) == SeverityOf(Last(group)) {
          assert SeverityOf(group[|group| - 1]) == Highest(group, start);
        } else {
          var i :| 0 <= i < |group| - 1 && SeverityOf(Front(group)[i]) == Highest(Front(group), start);
          assert SeverityOf(group[i]) == Highest(group, start);
        }
      }
    }
  }

  lemma {:induction false} RulesAreTheRules(group: seq<Lesson>, r: string)
    ensures r in Rules(group) <==> r != "" && exists i :: 0 <= i < |group| && group[i].rule == r
    ensures Distinct(Rules(group))
  {
    if group != [] {
      var front, last := Front(group), Last(group);
      RulesAreTheRules(front, r);
      if exists i :: 0 <= i < |front| && front[i].rule == r {
        var i :| 0 <= i < |front| && front[i].rule == r;
        assert group[i].rule == r;
      }
      if exists i :: 0 <= i < |group| && group[i].rule == r {
        var i :| 0 <= i < |group| && group[i].rule == r;
        assert i < |front| ==> front[i].rule == r;
        assert i == |front| ==> last.rule == r;
      }
      assert group[|front|].rule == last.rule;
    }
  }

  // ---------- What the parts of a lesson mean ----------

  lemma {:induction false} LowerKeepsSpace(s: string)
    ensures IsBlank(s) ==> IsBlank(LowerAll(s))
    ensures IsTrimmed(s) ==> IsTrimmed(LowerAll(s))
  {
    hide Lower, IsSpace;
    forall i | 0 <= i < |s|
      ensures IsSpace(LowerAll(s)[i]) == IsSpace(s[i])
    {
      LowerExactly(s[i]);
    }
  }

  // Two lessons have one root cause when their causes agree in lower case and without the
  // white space around them.
  lemma {:induction false} KeyIsLowerCore(l: Lesson, before: string, core: string, after: string)
    requires l.rootCause == before + core + after && IsBlank(before) && IsBlank(after)
    requires core == "" || IsTrimmed(core)
    ensures KeyOf(l) == RootKey(LowerAll(core))
  {
    LowerKeepsSpace(before);
    LowerKeepsSpace(core);
    LowerKeepsSpace(after);
    hide Lower, IsSpace, Trim;
    var lowered := LowerAll(l.rootCause);
    assert lowered == LowerAll(before) + LowerAll(core) + LowerAll(after);
    if core == "" {
      BlankIsTrimmedAway(lowered);
    } else {
      TrimBetween(LowerAll(before), LowerAll(core), LowerAll(after));
    }
    assert KeyOf(l) == RootKey(Trim(lowered));
  }

  // The severities, from the highest; a lesson without one counts as low.
  lemma {:induction false} RankOrder(name: string, l: Lesson)
    ensures Rank(Critical) > Rank(High) > Rank(Medium) > Rank(Low) > Rank(Unranked(name))
    ensures l.severity.None? ==> SeverityOf(l) == Low
    ensures l.severity.Some? ==> SeverityOf(l) == l.severity.value
  {
  }

  // Everything else is that of the latest lesson, whose severity stays unless another ranks
  // higher.
  lemma {:induction false} MergedIsLatest(group: seq<Lesson>)
    requires |group| >= 2
    ensures var kept, m := Latest(group), Merged(group);
      && m == kept.(rule := m.rule, severity := m.severity, compactedFrom := Some(|group|))
      && (Rank(SeverityOf(m)) == Rank(SeverityOf(kept)) ==> m.severity == Some(SeverityOf(kept)))
      && (|Rules(group)| <= 1 ==> m.rule == kept.rule)
  {
    HighestStays(group, SeverityOf(Latest(group)));
    hide Rules, JoinRules, Latest, Highest, Rank, Before;
  }

  lemma {:induction false} HighestStays(group: seq<Lesson>, start: Severity)
    ensures Rank(Highest(group, start)) >= Rank(start)
    ensures Rank(Highest(group, start)) == Rank(start) ==> Highest(group, start) == start
  {
    hide Rank;
    if group != [] {
      HighestStays(Front(group), start);
    }
  }

  // ---------- Order ----------

  // The rules of the lessons, in order, up to the first appearance of each.
  lemma {:induction false} RulesGrow(group: seq<Lesson>, l: Lesson)
    ensures Rules(group + [l])
            == Rules(group) + if l.rule == "" || exists i :: 0 <= i < |group| && group[i].rule == l.rule then []
                              else [l.rule]
  {
    assert Front(group + [l]) == group && Last(group + [l]) == l;
    RulesAreTheRules(group, l.rule);
    hide Rules;
    assert Rules(group) + [] == Rules(group);
  }

  lemma {:induction false} RulesJoinWithBar(a: seq<string>, b: seq<string>)
    requires a != [] && b != []
    ensures JoinRules([a[0]]) == a[0]
    ensures JoinRules(a + b) == JoinRules(a) + " | " + JoinRules(b)
    decreases |b|
  {
    if |b| == 1 {
      assert Front(a + b) == a && Last(a + b) == b[0];
    } else {
      assert Front(a + b) == a + Front(b) && Last(a + b) == Last(b);
      RulesJoinWithBar(a, Front(b));
    }
  }

  // The root causes in order of first appearance.
  function FirstKeys(lessons: seq<Lesson>): seq<RootKey> {
    if lessons == [] then []
    else
      var before := FirstKeys(Front(lessons));
      if KeyOf(Last(lessons)) in before then before else before + [KeyOf(Last(lessons))]
  }

  function Plain(keys: seq<RootKey>): seq<RootKey> {
    if keys == [] then []
    else Plain(Front(keys)) + if IsIndex(Last(keys)) then [] else [Last(keys)]
  }

  lemma {:induction false} PlainAppend(keys: seq<RootKey>, k: RootKey)
    ensures Plain(keys + [k]) == Plain(keys) + if IsIndex(k) then [] else [k]
  {
    assert Front(keys + [k]) == keys;
  }

  lemma {:induction false} PlainPlace(keys: seq<RootKey>, k: RootKey)
    ensures Plain(Place(keys, k)) == Plain(keys) + if IsIndex(k) then [] else [k]
  {
    hide IsIndex, Comes;
    PlainAppend(keys, k);
    if IsIndex(k) && keys != [] && !Comes(Last(keys), k) {
      PlainPlace(Front(keys), k);
      PlainAppend(Place(Front(keys), k), Last(keys));
    }
  }

  lemma {:induction false} FirstKeysMembers(lessons: seq<Lesson>, k: RootKey)
    ensures k in FirstKeys(lessons) <==> k in Keys(lessons)
  {
    hide KeyOf, Place;
    if lessons != [] {
      FirstKeysMembers(Front(lessons), k);
      FirstKeysMembers(Front(lessons), KeyOf(Last(lessons)));
      PlaceMembers(Keys(Front(lessons)), KeyOf(Last(lessons)), k);
    }
  }

  // The groups come in order of first appearance, except for those whose root cause reads as
  // an array index; these come first.
  lemma {:induction false} PlainKeysInOrder(lessons: seq<Lesson>)
    ensures Plain(Keys(lessons)) == Plain(FirstKeys(lessons))
  {
    hide KeyOf, Place, IsIndex, Plain;
    if lessons != [] {
      var k := KeyOf(Last(lessons));
      PlainKeysInOrder(Front(lessons));
      FirstKeysMembers(Front(lessons), k);
      PlainPlace(Keys(Front(lessons)), k);
      PlainAppend(FirstKeys(Front(lessons)), k);
    }
  }

  // ---------- Index properties ----------

  lemma {:induction false} DecimalStarts(n: nat)
    ensures Decimal(n)[0] == '0' <==> n == 0
    ensures n < 10 <==> |Decimal(n)| == 1
  {
    if n >= 10 {
      DecimalStarts(n / 10);
      assert Decimal(n)[0] == Decimal(n / 10)[0];
    }
  }

  lemma {:induction false} DecimalOfValue(digits: string)
    requires digits != "" && IsDigits(digits) && (digits[0] == '0' ==> |digits| == 1)
    ensures ValueOf(digits) >= 0 && Decimal(ValueOf(digits)) == digits
  {
    var front, last := digits[..|digits| - 1], digits[|digits| - 1];
    assert IsDigit(last) && digits == front + [last];
    assert IsDigits(front);
    var d := last as int - '0' as int;
    if front == "" {
      assert ValueOf(front) == 0;
    } else {
      assert front[0] == digits[0];
      DecimalOfValue(front);
      DecimalStarts(ValueOf(front));
      assert ValueOf(front) > 0;
    }
  }

  // An array index is a number below 2^32 - 1 in decimal notation.
  lemma {:induction false} IndexExactlyWhen(k: RootKey)
    ensures IsIndex(k) <==> exists n: nat :: n < 0xFFFF_FFFF && k.text == Decimal(n)
  {
    if IsIndex(k) {
      DecimalOfValue(k.text);
    }
    forall n: nat | n < 0xFFFF_FFFF && k.text == Decimal(n)
      ensures IsIndex(k)
    {
      DecimalValue(n);
      DecimalStarts(n);
    }
  }
}
