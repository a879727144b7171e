// Facts about sequences that several components share: duplicate-free
// sequences, their sets of elements, and the pigeonhole principle.
module SeqFacts {

  predicate Distinct<T(==)>(s: seq<T>) {
    forall i, j :: 0 <= i < j < |s| ==> s[i] != s[j]
  }

  function Elements<T(!new)>(s: seq<T>): (e: set<T>)
    ensures forall x :: x in e <==> x in s
  {
    set x | x in s
  }

  lemma {:induction false} ElementsAppend<T(!new)>(s: seq<T>, x: T)
    ensures Elements(s + [x]) == Elements(s) + {x}
  {
  }

  lemma {:induction false} DistinctPrepend<T(!new)>(first: T, rest: seq<T>)
    requires Distinct(rest) && first !in rest
    ensures Distinct([first] + rest)
  {
  }

  // A sequence has as many elements as it has positions exactly when it
  // repeats nothing.
  lemma {:induction false} DistinctSize<T(!new)>(s: seq<T>)
    ensures |Elements(s)| <= |s|
    ensures Distinct(s) <==> |Elements(s)| == |s|
  {
    if s != [] {
      var init, last := s[..|s| - 1], s[|s| - 1];
      DistinctSize(init);
      assert s == init + [last];
      ElementsAppend(init, last);
      if last in init {
        assert Elements(s) == Elements(init);
        assert !Distinct(s);
      } else {
        assert Distinct(s) <==> Distinct(init);
      }
    }
  }

  lemma {:induction false} SubsetSize<T>(a: set<T>, b: set<T>)
    requires a <= b
    ensures |a| <= |b|
    ensures |a| == |b| ==> a == b
  {
    assert b == a + (b - a);
    assert |b| == |a| + |b - a|;
  }

  // A sequence longer than the set it draws from repeats an element.
  lemma {:induction false} Pigeonhole<T(!new)>(s: seq<T>, universe: set<T>) returns (i: nat, j: nat)
    requires Elements(s) <= universe && |universe| < |s|
    ensures i < j < |s| && s[i] == s[j]
  {
    DistinctSize(s);
    SubsetSize(Elements(s), universe);
    i, j :| 0 <= i < j < |s| && s[i] == s[j];
  }

  lemma {:induction false} DistinctMultiset<T(!new)>(s: seq<T>, x: T)
    requires Distinct(s)
    ensures multiset(s)[x] == if x in s then 1 else 0
  {
    if s != [] {
      var init, last := s[..|s| - 1], s[|s| - 1];
      assert s == init + [last];
      DistinctMultiset(init, x);
    }
  }

  // Duplicate-free sequences of the same elements are permutations of each other.
  lemma {:induction false} SameElementsPermute<T(!new)>(a: seq<T>, b: seq<T>)
    requires Distinct(a) && Distinct(b) && Elements(a) == Elements(b)
    ensures multiset(a) == multiset(b)
  {
    forall x
      ensures multiset(a)[x] == multiset(b)[x]
    {
      DistinctMultiset(a, x);
      DistinctMultiset(b, x);
      assert x in Elements(a) <==> x in Elements(b);
    }
  }
}
