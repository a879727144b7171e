// The compaction pass of the lessons store (src/commands/lessons.js, cmdLessonsCompact):
// what the compacted store holds, that nothing is miscounted, that a second pass is
// without effect, and the pass itself.
module LessonCompaction {
  import opened Options
  import opened SeqFacts
  import opened TextOrder
  import opened Decimals
  import opened Strings
  import opened Lessons

  // ---------- What the compacted store holds ----------

  // Exactly one lesson for each normalised root cause that occurs.
  lemma {:induction false} OnePerRootCause(lessons: seq<Lesson>, i: nat)
    requires i < |Keys(lessons)|
    ensures |Compacted(lessons)| == |Keys(lessons)| && Distinct(Keys(lessons))
    ensures KeyOf(Compacted(lessons)[i]) == Keys(lessons)[i]
    ensures Group(lessons, Keys(lessons)[i]) != []
    ensures Compacted(lessons)[i] == Merged(Group(lessons, Keys(lessons)[i]))
  {
    hide KeyOf, Merged, Keys, Group;
    KeysAreDistinct(lessons);
    KeysHaveGroups(lessons);
    MergeAllAt(lessons, Keys(lessons), i);
    MergedKeepsKey(lessons, Keys(lessons)[i]);
  }

  lemma {:induction false} EveryRootCauseIsKept(lessons: seq<Lesson>, l: Lesson)
    requires l in lessons
    ensures exists i :: 0 <= i < |Compacted(lessons)| && KeyOf(Compacted(lessons)[i]) == KeyOf(l)
  {
    hide KeyOf, Keys, Group, Compacted;
    GroupMembers(lessons, KeyOf(l));
    assert Group(lessons, KeyOf(l)) != [];
    KeyHasGroup(lessons, KeyOf(l));
    var i :| 0 <= i < |Keys(lessons)| && Keys(lessons)[i] == KeyOf(l);
    OnePerRootCause(lessons, i);
  }

  lemma {:induction false} MergedKeepsKey(lessons: seq<Lesson>, k: RootKey)
    requires Group(lessons, k) != []
    ensures KeyOf(Merged(Group(lessons, k))) == k
  {
    var group := Group(lessons, k);
    GroupMembers(lessons, k);
    LatestIsLatest(group, 0);
    hide Rules, JoinRules, Highest, Group, Latest;
    assert group[0] in lessons && KeyOf(group[0]) == k;
    var i :| 0 <= i < |group| && group[i] == Latest(group);
    assert KeyOf(group[i]) == k;
  }

  // A merged group keeps its latest lesson, with the highest severity of the group.
  lemma {:induction false} LatestAndHighestAreKept(group: seq<Lesson>, i: nat)
    requires i < |group| && |group| >= 2
    ensures !Before(Merged(group).date, group[i].date)
    ensures Rank(SeverityOf(group[i])) <= Rank(SeverityOf(Merged(group)))
    ensures exists j :: 0 <= j < |group| && SeverityOf(group[j]) == SeverityOf(Merged(group))
    ensures exists j :: 0 <= j < |group| && group[j].id == Merged(group).id && group[j].date == Merged(group).date
                        && group[j].rootCause == Merged(group).rootCause && group[j].title == Merged(group).title
  {
    hide Rank, Before, Rules, JoinRules, Latest, Highest;
    LatestIsLatest(group, i);
    HighestIsHighest(group, SeverityOf(Latest(group)));
    var j :| 0 <= j < |group| && group[j] == Latest(group);
    assert group[j].id == Merged(group).id && group[j].date == Merged(group).date
           && group[j].rootCause == Merged(group).rootCause && group[j].title == Merged(group).title;
    var high := Highest(group, SeverityOf(Latest(group)));
    assert SeverityOf(Merged(group)) == high;
    if high == SeverityOf(Latest(group)) {
      assert SeverityOf(group[j]) == high;
    }
  }

  // Its rule is every distinct rule of the group in one text, except when the group has a
  // single rule and the lesson kept is one without: then that rule is lost.
  lemma {:induction false} RulesAreKeptExactlyWhen(group: seq<Lesson>)
    requires |group| >= 2
    ensures Merged(group).rule == JoinRules(Rules(group)) <==> Latest(group).rule != "" || |Rules(group)| != 1
  {
    hide Before, Rank, Highest, Latest, Rules;
    LatestIsLatest(group, 0);
    var i :| 0 <= i < |group| && group[i] == Latest(group);
    RulesAreTheRules(group, group[i].rule);
    if |Rules(group)| == 1 {
      RulesAreTheRules(group, Rules(group)[0]);
    }
  }

  // ---------- Counting ----------

  // How many captured lessons one stands for.
  function Weight(l: Lesson): nat {
    if l.compactedFrom.Some? then l.compactedFrom.value else 1
  }

  function TotalWeight(lessons: seq<Lesson>): nat {
    if lessons == [] then 0 else TotalWeight(Front(lessons)) + Weight(Last(lessons))
  }

  function SumWeights(lessons: seq<Lesson>, keys: seq<RootKey>): nat {
    if keys == [] then 0 else SumWeights(lessons, Front(keys)) + TotalWeight(Group(lessons, Last(keys)))
  }

  lemma {:induction false} GroupWeight(lessons: seq<Lesson>, k: RootKey)
    requires lessons != []
    ensures TotalWeight(Group(lessons, k))
            == TotalWeight(Group(Front(lessons), k)) + (if KeyOf(Last(lessons)) == k then Weight(Last(lessons)) else 0)
  {
    hide KeyOf, Weight;
    var group := Group(Front(lessons), k);
    assert Front(group + [Last(lessons)]) == group && group + [] == group;
  }

  // A lesson more adds its weight to the group of its key, and to no other.
  lemma {:induction false} OneMore(lessons: seq<Lesson>, keys: seq<RootKey>)
    requires lessons != [] && Distinct(keys)
    ensures SumWeights(lessons, keys)
            == SumWeights(Front(lessons), keys) + (if KeyOf(Last(lessons)) in keys then Weight(Last(lessons)) else 0)
  {
    hide KeyOf, Weight, TotalWeight, Group;
    if keys != [] {
      OneMore(lessons, Front(keys));
      GroupWeight(lessons, Last(keys));
      assert keys == Front(keys) + [Last(keys)];
    }
  }

  lemma {:induction false} NoWeights(keys: seq<RootKey>)
    ensures SumWeights([], keys) == 0
  {
    if keys != [] {
      NoWeights(Front(keys));
    }
  }

  lemma {:induction false} WeightsAddUp(lessons: seq<Lesson>, keys: seq<RootKey>)
    requires Distinct(keys) && forall l :: l in lessons ==> KeyOf(l) in keys
    ensures SumWeights(lessons, keys) == TotalWeight(lessons)
  {
    hide KeyOf, Weight;
    if lessons == [] {
      NoWeights(keys);
    } else {
      assert lessons == Front(lessons) + [Last(lessons)];
      WeightsAddUp(Front(lessons), keys);
      OneMore(lessons, keys);
    }
  }

  // What compaction leaves behind, or nothing.
  predicate WasCompacted(l: Lesson) { l.compactedFrom.Some? }

  predicate Recorded(lessons: seq<Lesson>) {
    forall i :: 0 <= i < |lessons| && WasCompacted(lessons[i]) ==> lessons[i].compactedFrom.value >= 2
  }

  predicate IsRaw(lessons: seq<Lesson>) {
    forall i :: 0 <= i < |lessons| ==> !WasCompacted(lessons[i])
  }

  lemma {:induction false} WeightAtLeastSize(group: seq<Lesson>)
    requires Recorded(group)
    ensures TotalWeight(group) >= |group|
    ensures TotalWeight(group) == |group| <==> IsRaw(group)
  {
    if group != [] {
      WeightAtLeastSize(Front(group));
      if !IsRaw(Front(group)) {
        var i :| 0 <= i < |group| - 1 && WasCompacted(Front(group)[i]);
        assert WasCompacted(group[i]);
      } else if !WasCompacted(Last(group)) {
        assert IsRaw(group);
      } else {
        assert WasCompacted(group[|group| - 1]);
      }
    }
  }

  predicate KeepsWeight(group: seq<Lesson>) {
    |group| == 1 || IsRaw(group)
  }

  lemma {:induction false} MergedWeight(group: seq<Lesson>)
    requires group != [] && Recorded(group)
    ensures Weight(Merged(group)) <= TotalWeight(group)
    ensures Weight(Merged(group)) == TotalWeight(group) <==> KeepsWeight(group)
  {
    hide Latest, Rules, JoinRules, Highest;
    WeightAtLeastSize(group);
    if |group| == 1 {
      assert Front(group) == [];
    }
  }

  lemma {:induction false} MergedWeights(lessons: seq<Lesson>, keys: seq<RootKey>)
    requires Recorded(lessons) && forall i :: 0 <= i < |keys| ==> Group(lessons, keys[i]) != []
    ensures TotalWeight(MergeAll(lessons, keys)) <= SumWeights(lessons, keys)
    ensures TotalWeight(MergeAll(lessons, keys)) == SumWeights(lessons, keys)
            <==> forall i :: 0 <= i < |keys| ==> KeepsWeight(Group(lessons, keys[i]))
  {
    hide Weight, Merged, Group, KeepsWeight;
    if keys != [] {
      var front, group := Front(keys), Group(lessons, Last(keys));
      MergedWeights(lessons, front);
      GroupIsRecorded(lessons, Last(keys));
      MergedWeight(group);
      assert Front(MergeAll(lessons, front) + [Merged(group)]) == MergeAll(lessons, front);
      assert keys == front + [Last(keys)];
    }
  }

  lemma {:induction false} GroupIsRecorded(lessons: seq<Lesson>, k: RootKey)
    requires Recorded(lessons)
    ensures Recorded(Group(lessons, k))
  {
    hide KeyOf, Group;
    GroupMembers(lessons, k);
    forall i | 0 <= i < |Group(lessons, k)| && WasCompacted(Group(lessons, k)[i])
      ensures Group(lessons, k)[i].compactedFrom.value >= 2
    {
      assert Group(lessons, k)[i] in lessons;
    }
  }

  // A lesson that already stands for several is merged with another one.
  ghost predicate MergesAgain(lessons: seq<Lesson>) {
    exists i :: 0 <= i < |lessons| && WasCompacted(lessons[i]) && |Group(lessons, KeyOf(lessons[i]))| >= 2
  }

  lemma {:induction false} GroupsKeepWeight(lessons: seq<Lesson>)
    ensures MergesAgain(lessons)
            <==> exists i :: 0 <= i < |Keys(lessons)| && !KeepsWeight(Group(lessons, Keys(lessons)[i]))
  {
    hide KeyOf, Keys, Group;
    KeysHaveGroups(lessons);
    AllKeysListed(lessons);
    if MergesAgain(lessons) {
      var i :| 0 <= i < |lessons| && WasCompacted(lessons[i]) && |Group(lessons, KeyOf(lessons[i]))| >= 2;
      var k := KeyOf(lessons[i]);
      GroupMembers(lessons, k);
      assert lessons[i] in Group(lessons, k);
      assert k in Keys(lessons);
      var j :| 0 <= j < |Keys(lessons)| && Keys(lessons)[j] == k;
      assert !KeepsWeight(Group(lessons, Keys(lessons)[j]));
    }
    if i :| 0 <= i < |Keys(lessons)| && !KeepsWeight(Group(lessons, Keys(lessons)[i])) {
      var k := Keys(lessons)[i];
      GroupMembers(lessons, k);
      var j :| 0 <= j < |Group(lessons, k)| && WasCompacted(Group(lessons, k)[j]);
      var m :| 0 <= m < |lessons| && lessons[m] == Group(lessons, k)[j];
      assert Group(lessons, Keys(lessons)[i]) != [];
      assert KeyOf(lessons[m]) == k && WasCompacted(lessons[m]) && |Group(lessons, KeyOf(lessons[m]))| >= 2;
    }
  }

  // The recorded sizes still add up after a pass exactly when none of the lessons it merges
  // was itself the result of an earlier pass.
  lemma {:induction false} SizesAreKeptExactlyWhen(lessons: seq<Lesson>)
    requires Recorded(lessons)
    ensures TotalWeight(Compacted(lessons)) <= TotalWeight(lessons)
    ensures TotalWeight(Compacted(lessons)) == TotalWeight(lessons) <==> !MergesAgain(lessons)
  {
    hide KeyOf, Keys, Group, MergeAll, KeepsWeight, MergesAgain;
    KeysAreDistinct(lessons);
    KeysHaveGroups(lessons);
    AllKeysListed(lessons);
    MergedWeights(lessons, Keys(lessons));
    WeightsAddUp(lessons, Keys(lessons));
    GroupsKeepWeight(lessons);
  }

  // In particular, those of a first pass add up to the number of lessons it saw.
  lemma {:induction false} SizesSumToCount(lessons: seq<Lesson>)
    requires IsRaw(lessons)
    ensures TotalWeight(Compacted(lessons)) == |lessons|
  {
    hide Compacted, KeyOf, Group;
    WeightAtLeastSize(lessons);
    SizesAreKeptExactlyWhen(lessons);
  }

  lemma {:induction false} AllKeysListed(lessons: seq<Lesson>)
    ensures forall l :: l in lessons ==> KeyOf(l) in Keys(lessons)
  {
    hide KeyOf, Keys, Group;
    forall l | l in lessons
      ensures KeyOf(l) in Keys(lessons)
    {
      GroupMembers(lessons, KeyOf(l));
      assert l in Group(lessons, KeyOf(l));
      KeyHasGroup(lessons, KeyOf(l));
    }
  }

  // ---------- A second pass ----------

  // Index properties first, in increasing order.
  ghost predicate Arranged(keys: seq<RootKey>) {
    forall i, j :: 0 <= i < j < |keys| ==> Comes(keys[i], keys[j])
  }

  lemma {:induction false} ComesAround(a: RootKey, b: RootKey, c: RootKey)
    requires Comes(a, b) && Comes(b, c)
    ensures Comes(a, c)
  {
    hide IsIndex, ValueOf;
  }

  lemma {:induction false} PlaceArranges(keys: seq<RootKey>, k: RootKey)
    requires Arranged(keys)
    ensures Arranged(Place(keys, k))
  {
    hide IsIndex, ValueOf;
    var placed := Place(keys, k);
    if keys != [] {
      if !IsIndex(k) || Comes(Last(keys), k) {
        forall i | 0 <= i < |keys|
          ensures Comes(placed[i], k)
        {
          if i < |keys| - 1 && IsIndex(k) {
            ComesAround(keys[i], Last(keys), k);
          }
        }
      } else {
        PlaceArranges(Front(keys), k);
        forall i | 0 <= i < |placed| - 1
          ensures Comes(placed[i], Last(keys))
        {
          PlaceMembers(Front(keys), k, placed[i]);
          assert placed[i] in Place(Front(keys), k);
        }
      }
    }
  }

  lemma {:induction false} KeysAreArranged(lessons: seq<Lesson>)
    ensures Arranged(Keys(lessons))
  {
    hide KeyOf, Place, Comes;
    if lessons != [] {
      KeysAreArranged(Front(lessons));
      PlaceArranges(Keys(Front(lessons)), KeyOf(Last(lessons)));
    }
  }

  // A group whose root cause is a number comes after those with smaller numbers only.
  lemma {:induction false} NumbersComeFirst(lessons: seq<Lesson>, i: nat, j: nat, n: nat) returns (m: nat)
    requires i < j < |Keys(lessons)| && n < 0xFFFF_FFFF && Keys(lessons)[j].text == Decimal(n)
    ensures m < n && Keys(lessons)[i].text == Decimal(m)
  {
    hide Keys, IsIndex, Decimal, ValueOf;
    var a, b := Keys(lessons)[i], Keys(lessons)[j];
    KeysAreArranged(lessons);
    KeysAreDistinct(lessons);
    assert Comes(a, b) && a != b;
    IndexExactlyWhen(a);
    IndexExactlyWhen(b);
    m :| m < 0xFFFF_FFFF && a.text == Decimal(m);
    DecimalValue(m);
    DecimalValue(n);
  }

  // One lesson per key, already in enumeration order.
  ghost predicate Settled(lessons: seq<Lesson>, keys: seq<RootKey>) {
    && |keys| == |lessons| && Distinct(keys) && Arranged(keys)
    && forall i :: 0 <= i < |lessons| ==> KeyOf(lessons[i]) == keys[i]
  }

  lemma {:induction false} SettledKeys(lessons: seq<Lesson>, keys: seq<RootKey>)
    requires Settled(lessons, keys)
    ensures Keys(lessons) == keys
  {
    hide KeyOf, IsIndex, ValueOf;
    if lessons != [] {
      var front := Front(keys);
      assert keys == front + [Last(keys)];
      SettledKeys(Front(lessons), front);
      assert KeyOf(Last(lessons)) == Last(keys);
      if front != [] {
        assert Comes(front[|front| - 1], keys[|keys| - 1]);
      }
      assert Place(front, Last(keys)) == front + [Last(keys)];
    }
  }

  lemma {:induction false} SettledGroup(lessons: seq<Lesson>, keys: seq<RootKey>, i: nat)
    requires Settled(lessons, keys) && i < |keys|
    ensures Group(lessons, keys[i]) == [lessons[i]]
  {
    hide KeyOf, Arranged;
    var front := Front(lessons);
    assert Settled(front, Front(keys)) by {
      ArrangedFront(keys);
    }
    assert KeyOf(Last(lessons)) == keys[|keys| - 1];
    if i < |front| {
      SettledGroup(front, Front(keys), i);
    } else {
      ForeignGroup(front, keys[i]);
    }
  }

  lemma {:induction false} ArrangedFront(keys: seq<RootKey>)
    requires keys != [] && Arranged(keys)
    ensures Arranged(Front(keys))
  {
  }

  lemma {:induction false} ForeignGroup(lessons: seq<Lesson>, k: RootKey)
    requires forall i :: 0 <= i < |lessons| ==> KeyOf(lessons[i]) != k
    ensures Group(lessons, k) == []
  {
    hide KeyOf;
    if lessons != [] {
      ForeignGroup(Front(lessons), k);
      assert KeyOf(lessons[|lessons| - 1]) != k;
    }
  }

  lemma {:induction false} CompactedIsSettled(lessons: seq<Lesson>)
    ensures Settled(Compacted(lessons), Keys(lessons))
  {
    hide KeyOf, Keys, Compacted, Group, Merged, Comes;
    KeysAreDistinct(lessons);
    KeysAreArranged(lessons);
    CompactedSize(lessons);
    forall i | 0 <= i < |Keys(lessons)|
      ensures KeyOf(Compacted(lessons)[i]) == Keys(lessons)[i]
    {
      OnePerRootCause(lessons, i);
    }
  }

  lemma {:induction false} CompactedSize(lessons: seq<Lesson>)
    ensures |Compacted(lessons)| == |Keys(lessons)|
  {
    hide Keys, MergeAll, Group;
    KeysHaveGroups(lessons);
    MergeAllSize(lessons, Keys(lessons));
  }

  // Compacting twice is compacting once.
  lemma {:induction false} CompactionIsIdempotent(lessons: seq<Lesson>)
    ensures Compacted(Compacted(lessons)) == Compacted(lessons)
  {
    hide KeyOf, Keys, Compacted, Group, Comes, Rules, JoinRules, Highest, Latest;
    var once := Compacted(lessons);
    CompactedIsSettled(lessons);
    SettledKeys(once, Keys(lessons));
    CompactedSize(once);
    forall i | 0 <= i < |once|
      ensures Compacted(once)[i] == once[i]
    {
      SettledGroup(once, Keys(lessons), i);
      OnePerRootCause(once, i);
    }
  }

  // ---------- The pass ----------

  datatype Outcome =
    | BelowThreshold
    | Failed
    | Written(store: seq<Lesson>, groupsMerged: nat)

  // A threshold that is not a number is never above the count.
  predicate IsBelow(lessons: seq<Lesson>, threshold: Option<int>) {
    threshold.Some? && |lessons| < threshold.value
  }

  ghost predicate HasTakenKey(lessons: seq<Lesson>) {
    exists i :: 0 <= i < |lessons| && IsTaken(KeyOf(lessons[i]))
  }

  // The store after the command; a pass that fails has written nothing.
  ghost function StoreAfter(lessons: seq<Lesson>, threshold: Option<int>): seq<Lesson> {
    if IsBelow(lessons, threshold) || HasTakenKey(lessons) then lessons else Compacted(lessons)
  }

  function CountMerged(lessons: seq<Lesson>, keys: seq<RootKey>): nat {
    if keys == [] then 0
    else CountMerged(lessons, Front(keys)) + (if |Group(lessons, Last(keys))| == 1 then 0 else 1)
  }

  function MergedKeys(lessons: seq<Lesson>, keys: seq<RootKey>): set<RootKey> {
    set k | k in keys && |Group(lessons, k)| >= 2
  }

  lemma {:induction false} OneMoreKey(lessons: seq<Lesson>, keys: seq<RootKey>, k: RootKey)
    requires k !in keys
    ensures |MergedKeys(lessons, keys + [k])|
            == |MergedKeys(lessons, keys)| + if |Group(lessons, k)| >= 2 then 1 else 0
  {
    var before := MergedKeys(lessons, keys);
    assert k !in before;
    if |Group(lessons, k)| >= 2 {
      assert MergedKeys(lessons, keys + [k]) == before + {k};
    } else {
      assert MergedKeys(lessons, keys + [k]) == before;
    }
  }

  // The groups counted are those of two lessons or more.
  lemma {:induction false} CountsTheMerged(lessons: seq<Lesson>, keys: seq<RootKey>)
    requires Distinct(keys) && forall k :: k in keys ==> Group(lessons, k) != []
    ensures CountMerged(lessons, keys) == |MergedKeys(lessons, keys)|
  {
    hide Group;
    if keys == [] {
      assert MergedKeys(lessons, keys) == {};
    } else {
      var front, last := Front(keys), Last(keys);
      assert keys == front + [last];
      assert last in keys && last !in front;
      hide MergedKeys;
      CountsTheMerged(lessons, front);
      OneMoreKey(lessons, front, last);
    }
  }

  // Running the command again changes nothing.
  lemma {:induction false} RepeatChangesNothing(lessons: seq<Lesson>, threshold: Option<int>)
    ensures StoreAfter(StoreAfter(lessons, threshold), threshold) == StoreAfter(lessons, threshold)
  {
    hide Compacted, KeyOf, IsTaken;
    CompactionIsIdempotent(lessons);
  }

  lemma {:induction false} TakenExactlyWhen(lessons: seq<Lesson>)
    ensures HasTakenKey(lessons)
            <==> exists l :: l in lessons && Trim(LowerAll(l.rootCause)) in ["constructor", "__proto__"]
  {
    if HasTakenKey(lessons) {
      var i :| 0 <= i < |lessons| && IsTaken(KeyOf(lessons[i]));
      assert lessons[i] in lessons;
    }
    hide Trim, LowerAll;
  }

  method MergeRules(group: seq<Lesson>) returns (mergedRules: seq<string>)
    ensures mergedRules == Rules(group)
  {
    var seenRules: set<string> := {};
    mergedRules := [];
    for i := 0 to |group|
      invariant mergedRules == Rules(group[..i])
      invariant seenRules == set r | r in mergedRules
    {
      assert Front(group[..i + 1]) == group[..i];
      var rule := group[i].rule;
      if rule != "" && rule !in seenRules {
        seenRules := seenRules + {rule};
        mergedRules := mergedRules + [rule];
      }
    }
    assert group[..|group|] == group;
  }

  method HighestSeverity(group: seq<Lesson>, start: Severity) returns (highest: Severity)
    ensures highest == Highest(group, start)
  {
    highest := start;
    for i := 0 to |group|
      invariant highest == Highest(group[..i], start)
    {
      assert Front(group[..i + 1]) == group[..i];
      if Rank(SeverityOf(group[i])) > Rank(highest) {
        highest := SeverityOf(group[i]);
      }
    }
    assert group[..|group|] == group;
  }

  method MergeGroup(group: seq<Lesson>) returns (kept: Lesson)
    requires |group| >= 2
    ensures kept == Merged(group)
  {
    hide Rules, Highest, Latest, JoinRules, Before, Rank;
    kept := Latest(group);
    var mergedRules := MergeRules(group);
    var highest := HighestSeverity(group, SeverityOf(kept));
    if |mergedRules| > 1 {
      kept := kept.(rule := JoinRules(mergedRules));
    }
    kept := kept.(severity := Some(highest));
    kept := kept.(compactedFrom := Some(|group|));
  }

  method GroupByRootCause(lessons: seq<Lesson>)
    returns (failed: bool, order: seq<RootKey>, groups: map<RootKey, seq<Lesson>>)
    ensures failed <==> HasTakenKey(lessons)
    ensures !failed ==> order == Keys(lessons)
    ensures !failed ==> forall k :: k in order ==> k in groups && groups[k] == Group(lessons, k)
  {
    hide KeyOf, Place, IsTaken;
    failed, order, groups := false, [], map[];
    for i := 0 to |lessons|
      invariant !failed && forall j :: 0 <= j < i ==> !IsTaken(KeyOf(lessons[j]))
      invariant order == Keys(lessons[..i])
      invariant forall k :: k in order <==> k in groups
      invariant forall k :: k in groups ==> groups[k] == Group(lessons[..i], k)
    {
      assert Front(lessons[..i + 1]) == lessons[..i];
      var key := KeyOf(lessons[i]);
      if IsTaken(key) {
        failed := true;
        return;
      }
      KeyHasGroup(lessons[..i], key);
      if key !in groups {
        forall k
          ensures k in Place(order, key) <==> k in order || k == key
        {
          PlaceMembers(order, key, k);
        }
        order := Place(order, key);
        groups := groups[key := []];
      }
      groups := groups[key := groups[key] + [lessons[i]]];
    }
    assert lessons[..|lessons|] == lessons;
  }

  // cmdLessonsCompact, up to writing the store
  method Compact(lessons: seq<Lesson>, threshold: Option<int>) returns (outcome: Outcome)
    ensures outcome.BelowThreshold? <==> threshold.Some? && |lessons| < threshold.value
    ensures outcome.Failed? <==> !outcome.BelowThreshold? && HasTakenKey(lessons)
    ensures outcome.Written? ==> outcome.store == Compacted(lessons) == StoreAfter(lessons, threshold)
    ensures outcome.Written? ==> outcome.groupsMerged == CountMerged(lessons, Keys(lessons))
  {
    hide KeyOf, Group, Keys, IsTaken;
    if threshold.Some? && |lessons| < threshold.value {
      return BelowThreshold;
    }
    var failed, order, groups := GroupByRootCause(lessons);
    if failed {
      return Failed;
    }
    KeysHaveGroups(lessons);
    var result, groupsMerged := [], 0;
    for i := 0 to |order|
      invariant result == MergeAll(lessons, order[..i])
      invariant groupsMerged == CountMerged(lessons, order[..i])
    {
      assert Front(order[..i + 1]) == order[..i];
      var group := groups[order[i]];
      assert order[i] in order;
      if |group| == 1 {
        result := result + [group[0]];
      } else {
        groupsMerged := groupsMerged + 1;
        var kept := MergeGroup(group);
        result := result + [kept];
      }
    }
    assert order[..|order|] == order;
    return Written(result, groupsMerged);
  }
}
