// The phase scheduler of the decision engine (plugin.js, resolvePhaseDependencies):
// Kahn's algorithm over mutable adjacency and in-degree maps, a wave assignment
// over the resulting order, and a final self-check.
module PhaseScheduler {
  import opened SeqFacts

  // A phase number such as "12" or "12.1", compared as text.
  datatype Number = Number(text: string)

  datatype Phase = Phase(number: Number, dependsOn: seq<Number>)

  datatype Problem =
    | CycleDetected(remaining: seq<Number>)
    | NotBefore(number: Number, dependency: Number)

  datatype Schedule = Schedule(
    orderedPhases: seq<Phase>,
    waves: map<Number, nat>,
    valid: bool,
    errors: seq<Problem>)

  // ---------- What a schedule should be ----------

  function NumbersOf(phases: seq<Phase>): (numbers: seq<Number>)
    ensures |numbers| == |phases|
    ensures forall i :: 0 <= i < |phases| ==> numbers[i] == phases[i].number
  {
    seq(|phases|, i requires 0 <= i < |phases| => phases[i].number)
  }

  function Known(phases: seq<Phase>): (known: set<Number>)
    ensures forall n :: n in known <==> exists p :: p in phases && p.number == n
  {
    set p | p in phases :: p.number
  }

  ghost predicate Depends(phases: seq<Phase>, n: Number, d: Number) {
    exists p :: p in phases && p.number == n && d in p.dependsOn
  }

  // walk[0] depends on walk[1], which depends on walk[2], and so on.
  ghost predicate IsWalk(phases: seq<Phase>, walk: seq<Number>) {
    forall i :: 0 <= i < |walk| - 1 ==> Depends(phases, walk[i], walk[i + 1])
  }

  ghost predicate IsCycle(phases: seq<Phase>, walk: seq<Number>) {
    |walk| >= 2 && walk[0] == walk[|walk| - 1] && IsWalk(phases, walk)
  }

  ghost predicate HasCycle(phases: seq<Phase>) {
    exists walk :: IsCycle(phases, walk)
  }

  ghost predicate WaitsFor(phases: seq<Phase>, n: Number, u: set<Number>) {
    exists d :: d in u && Depends(phases, n, d)
  }

  // Every member of u waits for another member of u.
  ghost predicate Stuck(phases: seq<Phase>, u: set<Number>) {
    && u <= Known(phases)
    && forall n {:trigger WaitsFor(phases, n, u)} :: n in u ==> WaitsFor(phases, n, u)
  }

  // The known numbers that precede their dependents, each listed once.
  ghost predicate IsPrefixOrder(phases: seq<Phase>, order: seq<Number>) {
    && Distinct(order)
    && Elements(order) <= Known(phases)
    && forall i, d :: 0 <= i < |order| && Depends(phases, order[i], d) && d in Known(phases)
                      ==> d in order[..i]
  }

  function WaveBelow(waves: map<Number, nat>, d: Number): nat {
    if d in waves then waves[d] else 1
  }

  // One plus the largest wave among the dependencies, unknown ones counting as
  // wave 1; wave 1 for a phase without dependencies.
  ghost predicate IsWave(waves: map<Number, nat>, deps: seq<Number>, w: nat) {
    && (forall d :: d in deps ==> WaveBelow(waves, d) < w)
    && (if deps == [] then w == 1 else exists d :: d in deps && w == WaveBelow(waves, d) + 1)
  }

  ghost predicate WavesCorrect(phases: seq<Phase>, waves: map<Number, nat>) {
    && waves.Keys == Known(phases)
    && forall p {:trigger IsWave(waves, p.dependsOn, waves[p.number])} ::
        p in phases ==> IsWave(waves, p.dependsOn, waves[p.number])
  }

  // Where in the order the last dependency of n stands; -1 if none does.
  ghost function LastDependency(phases: seq<Phase>, order: seq<Number>, n: Number): (at: int)
    ensures -1 <= at < |order|
  {
    if order == [] then -1
    else if Depends(phases, n, order[|order| - 1]) then |order| - 1
    else LastDependency(phases, order[..|order| - 1], n)
  }

  // The first position of a number in a list, or its length.
  function PositionOf(numbers: seq<Number>, n: Number): (at: nat)
    ensures at <= |numbers|
    ensures at < |numbers| ==> numbers[at] == n
    ensures n in numbers ==> at < |numbers|
  {
    if numbers == [] || numbers[0] == n then 0 else 1 + PositionOf(numbers[1..], n)
  }

  // a goes before b: its last dependency comes earlier or, if the two became ready together,
  // it stands earlier in the input.
  ghost predicate ReadyBefore(phases: seq<Phase>, order: seq<Number>, a: Number, b: Number) {
    var lastA, lastB := LastDependency(phases, order, a), LastDependency(phases, order, b);
    lastA < lastB || (lastA == lastB && PositionOf(NumbersOf(phases), a) < PositionOf(NumbersOf(phases), b))
  }

  // First ready, first served.
  ghost predicate IsFifo(phases: seq<Phase>, order: seq<Number>, listed: seq<Number>) {
    forall i, j :: 0 <= i < j < |listed| ==> ReadyBefore(phases, order, listed[i], listed[j])
  }

  // ---------- Order and cycles ----------

  lemma {:induction false} WalkDescends(phases: seq<Phase>, order: seq<Number>, walk: seq<Number>, top: nat)
    requires IsPrefixOrder(phases, order) && IsWalk(phases, walk) && walk != []
    requires top < |order| && order[top] == walk[0]
    requires forall n :: n in walk ==> n in Known(phases)
    ensures exists k :: 0 <= k <= top && order[k] == walk[|walk| - 1] && k + |walk| - 1 <= top
  {
    if |walk| == 1 {
      assert order[top] == walk[|walk| - 1];
    } else {
      assert Depends(phases, walk[0], walk[1]);
      assert walk[1] in walk;
      assert Depends(phases, order[top], walk[1]);
      assert walk[1] in order[..top];
      var next :| 0 <= next < top && order[next] == walk[1];
      var rest := walk[1..];
      forall i | 0 <= i < |rest| - 1
        ensures Depends(phases, rest[i], rest[i + 1])
      {
        assert Depends(phases, walk[i + 1], walk[i + 2]);
      }
      WalkDescends(phases, order, rest, next);
      var k :| 0 <= k <= next && order[k] == rest[|rest| - 1] && k + |rest| - 1 <= next;
      assert order[k] == walk[|walk| - 1];
    }
  }

  lemma {:induction false} WalkIsKnown(phases: seq<Phase>, walk: seq<Number>, n: Number)
    requires IsCycle(phases, walk) && n in walk
    ensures n in Known(phases)
  {
    var i :| 0 <= i < |walk| && walk[i] == n;
    if i == |walk| - 1 {
      assert Depends(phases, walk[0], walk[1]);
    } else {
      assert Depends(phases, walk[i], walk[i + 1]);
    }
  }

  // An order that covers every phase rules cycles out.
  lemma {:induction false} OrderMeansAcyclic(phases: seq<Phase>, order: seq<Number>)
    requires IsPrefixOrder(phases, order) && Elements(order) == Known(phases)
    ensures !HasCycle(phases)
  {
    if walk :| IsCycle(phases, walk) {
      forall n | n in walk ensures n in Known(phases) {
        WalkIsKnown(phases, walk, n);
      }
      assert walk[0] in Elements(order);
      var top :| 0 <= top < |order| && order[top] == walk[0];
      WalkDescends(phases, order, walk, top);
    }
  }

  // From any member of a stuck set there is a walk of any length inside it.
  lemma {:induction false} StuckWalk(phases: seq<Phase>, u: set<Number>, n: Number, steps: nat)
    returns (walk: seq<Number>)
    requires Stuck(phases, u) && n in u
    ensures |walk| == steps + 1 && walk[0] == n && IsWalk(phases, walk) && Elements(walk) <= u
    decreases steps
  {
    if steps == 0 {
      walk := [n];
    } else {
      assert WaitsFor(phases, n, u);
      var d :| d in u && Depends(phases, n, d);
      var rest := StuckWalk(phases, u, d, steps - 1);
      walk := [n] + rest;
      forall i | 0 <= i < |walk| - 1
        ensures Depends(phases, walk[i], walk[i + 1])
      {
        if i > 0 {
          assert Depends(phases, rest[i - 1], rest[i]);
        }
      }
    }
  }

  lemma {:induction false} StuckHasCycle(phases: seq<Phase>, u: set<Number>)
    requires Stuck(phases, u) && u != {}
    ensures HasCycle(phases)
  {
    var n :| n in u;
    var walk := StuckWalk(phases, u, n, |u|);
    var i, j := Pigeonhole(walk, u);
    var cycle := walk[i..j + 1];
    forall k | 0 <= k < |cycle| - 1
      ensures Depends(phases, cycle[k], cycle[k + 1])
    {
      assert Depends(phases, walk[i + k], walk[i + k + 1]);
    }
    assert IsCycle(phases, cycle);
  }

  // A phase that has been ordered is in no stuck set.
  lemma {:induction false} OrderedIsNotStuck(phases: seq<Phase>, order: seq<Number>, u: set<Number>, k: nat)
    requires IsPrefixOrder(phases, order) && Stuck(phases, u) && k < |order|
    ensures order[k] !in u
    decreases k
  {
    if order[k] in u {
      assert WaitsFor(phases, order[k], u);
      var d :| d in u && Depends(phases, order[k], d);
      assert d in order[..k];
      var j :| 0 <= j < k && order[j] == d;
      OrderedIsNotStuck(phases, order, u, j);
    }
  }

  // ---------- Waves and dependency chains ----------

  // chain[0] is needed by chain[1], and so on up to n; only chain[0] can be unknown.
  ghost predicate IsChainTo(phases: seq<Phase>, chain: seq<Number>, n: Number) {
    && chain != [] && chain[|chain| - 1] == n
    && forall i :: 0 <= i < |chain| - 1 ==> Depends(phases, chain[i + 1], chain[i])
  }

  lemma {:induction false} ChainFitsWave(phases: seq<Phase>, waves: map<Number, nat>, chain: seq<Number>, n: Number)
    requires WavesCorrect(phases, waves) && IsChainTo(phases, chain, n)
    ensures |chain| <= WaveBelow(waves, n)
    decreases |chain|
  {
    if |chain| > 1 {
      var d := chain[|chain| - 2];
      assert Depends(phases, chain[|chain| - 2 + 1], d);
      var shorter := chain[..|chain| - 1];
      forall i | 0 <= i < |shorter| - 1
        ensures Depends(phases, shorter[i + 1], shorter[i])
      {
        assert Depends(phases, chain[i + 1], chain[i]);
      }
      ChainFitsWave(phases, waves, shorter, d);
      var p :| p in phases && p.number == n && d in p.dependsOn;
      assert IsWave(waves, p.dependsOn, waves[n]);
    } else if n in waves {
      var p :| p in phases && p.number == n;
      assert IsWave(waves, p.dependsOn, waves[n]);
    }
  }

  lemma {:induction false} WaveHasChain(phases: seq<Phase>, waves: map<Number, nat>, n: Number)
    returns (chain: seq<Number>)
    requires WavesCorrect(phases, waves)
    ensures IsChainTo(phases, chain, n) && |chain| == WaveBelow(waves, n)
    decreases WaveBelow(waves, n)
  {
    chain := [n];
    if n in waves {
      var p :| p in phases && p.number == n;
      assert IsWave(waves, p.dependsOn, waves[n]);
      if p.dependsOn != [] {
        var d :| d in p.dependsOn && waves[n] == WaveBelow(waves, d) + 1;
        var below := WaveHasChain(phases, waves, d);
        chain := below + [n];
        forall i | 0 <= i < |chain| - 1
          ensures Depends(phases, chain[i + 1], chain[i])
        {
          if i + 1 < |below| {
            assert Depends(phases, below[i + 1], below[i]);
          }
        }
      }
    }
  }

  // The wave of a phase is the length of the longest dependency chain that ends in it.
  lemma {:induction false} WaveIsLongestChain(phases: seq<Phase>, waves: map<Number, nat>, n: Number)
    requires WavesCorrect(phases, waves) && n in Known(phases)
    ensures forall chain :: IsChainTo(phases, chain, n) ==> |chain| <= waves[n]
    ensures exists chain :: IsChainTo(phases, chain, n) && |chain| == waves[n]
  {
    forall chain | IsChainTo(phases, chain, n)
      ensures |chain| <= waves[n]
    {
      ChainFitsWave(phases, waves, chain, n);
    }
    var chain := WaveHasChain(phases, waves, n);
  }

  // Two phases of one wave never depend on each other, directly or through others.
  lemma {:induction false} DependencyLowersWave(phases: seq<Phase>, waves: map<Number, nat>, walk: seq<Number>)
    requires WavesCorrect(phases, waves) && IsWalk(phases, walk) && |walk| >= 2
    ensures WaveBelow(waves, walk[|walk| - 1]) < WaveBelow(waves, walk[0])
    decreases |walk|
  {
    assert Depends(phases, walk[0], walk[1]);
    var p :| p in phases && p.number == walk[0] && walk[1] in p.dependsOn;
    assert IsWave(waves, p.dependsOn, waves[walk[0]]);
    if |walk| > 2 {
      var rest := walk[1..];
      forall i | 0 <= i < |rest| - 1
        ensures Depends(phases, rest[i], rest[i + 1])
      {
        assert Depends(phases, walk[i + 1], walk[i + 2]);
      }
      DependencyLowersWave(phases, waves, rest);
    }
  }

  // ---------- The dependency graph ----------

  datatype Edge = Edge(source: Number, target: Number)

  // One edge for every known entry of a depends_on list, in order and with repeats.
  ghost function EdgesInto(known: set<Number>, target: Number, deps: seq<Number>): seq<Edge> {
    if deps == [] then []
    else
      var init, d := deps[..|deps| - 1], deps[|deps| - 1];
      EdgesInto(known, target, init) + (if d in known then [Edge(d, target)] else [])
  }

  ghost function EdgesAmong(known: set<Number>, phases: seq<Phase>): seq<Edge> {
    if phases == [] then []
    else
      var init, p := phases[..|phases| - 1], phases[|phases| - 1];
      EdgesAmong(known, init) + EdgesInto(known, p.number, p.dependsOn)
  }

  ghost function EdgesOf(phases: seq<Phase>): seq<Edge> {
    EdgesAmong(Known(phases), phases)
  }

  // The edges into n whose source has not been dequeued yet.
  ghost function Indegree(edges: seq<Edge>, n: Number, done: set<Number>): nat {
    if edges == [] then 0
    else
      var e := edges[|edges| - 1];
      Indegree(edges[..|edges| - 1], n, done) + (if e.target == n && e.source !in done then 1 else 0)
  }

  ghost function Targets(edges: seq<Edge>, source: Number): seq<Number> {
    if edges == [] then []
    else
      var e := edges[|edges| - 1];
      Targets(edges[..|edges| - 1], source) + (if e.source == source then [e.target] else [])
  }

  lemma {:induction false} EdgesIntoMembers(known: set<Number>, target: Number, deps: seq<Number>, e: Edge)
    ensures e in EdgesInto(known, target, deps)
            <==> e.target == target && e.source in known && e.source in deps
  {
    if deps != [] {
      var init := deps[..|deps| - 1];
      EdgesIntoMembers(known, target, init, e);
      assert deps == init + [deps[|deps| - 1]];
    }
  }

  lemma {:induction false} EdgesAmongMembers(known: set<Number>, phases: seq<Phase>, e: Edge)
    ensures e in EdgesAmong(known, phases)
            <==> e.source in known && Depends(phases, e.target, e.source)
  {
    if phases != [] {
      var init, p := phases[..|phases| - 1], phases[|phases| - 1];
      EdgesAmongMembers(known, init, e);
      EdgesIntoMembers(known, p.number, p.dependsOn, e);
      assert phases == init + [p];
      assert Depends(phases, e.target, e.source) <==>
             Depends(init, e.target, e.source) || (p.number == e.target && e.source in p.dependsOn);
    }
  }

  // Dequeuing c takes from n's in-degree exactly the edges from c to n.
  lemma {:induction false} IndegreeWithout(edges: seq<Edge>, n: Number, done: set<Number>, c: Number)
    requires c !in done
    ensures Indegree(edges, n, done) == Indegree(edges, n, done + {c}) + multiset(Targets(edges, c))[n]
  {
    if edges != [] {
      IndegreeWithout(edges[..|edges| - 1], n, done, c);
    }
  }

  lemma {:induction false} IndegreeZero(edges: seq<Edge>, n: Number, done: set<Number>)
    ensures Indegree(edges, n, done) == 0
            <==> forall e :: e in edges && e.target == n ==> e.source in done
  {
    if edges != [] {
      var init, last := edges[..|edges| - 1], edges[|edges| - 1];
      IndegreeZero(init, n, done);
      assert edges == init + [last];
    }
  }

  // The same statement in terms of the phases.
  lemma {:induction false} ReadyWhenZero(phases: seq<Phase>, n: Number, done: set<Number>)
    ensures Indegree(EdgesOf(phases), n, done) == 0
            <==> forall d :: d in Known(phases) && Depends(phases, n, d) ==> d in done
  {
    var edges := EdgesOf(phases);
    IndegreeZero(edges, n, done);
    forall d
      ensures Edge(d, n) in edges <==> d in Known(phases) && Depends(phases, n, d)
    {
      EdgesAmongMembers(Known(phases), phases, Edge(d, n));
    }
    if forall d :: d in Known(phases) && Depends(phases, n, d) ==> d in done {
      forall e | e in edges && e.target == n
        ensures e.source in done
      {
        assert e == Edge(e.source, n);
      }
    }
  }

  // The adjacency and in-degree maps of a list of edges.
  ghost predicate IsGraph(known: set<Number>, edges: seq<Edge>,
      adj: map<Number, seq<Number>>, inDegree: map<Number, nat>, done: set<Number>) {
    && adj.Keys == known
    && inDegree.Keys == known
    && (forall n :: n in adj ==> adj[n] == Targets(edges, n))
    && (forall n :: n in inDegree ==> inDegree[n] == Indegree(edges, n, done))
  }

  lemma {:induction false} GraphAddEdge(known: set<Number>, edges: seq<Edge>,
      adj: map<Number, seq<Number>>, inDegree: map<Number, nat>, e: Edge)
    requires IsGraph(known, edges, adj, inDegree, {})
    requires e.source in known && e.target in known
    ensures IsGraph(known, edges + [e], adj[e.source := adj[e.source] + [e.target]],
                    inDegree[e.target := inDegree[e.target] + 1], {})
  {
    var longer := edges + [e];
    assert longer[..|longer| - 1] == edges;
    assert forall n :: Targets(longer, n) == Targets(edges, n) + (if e.source == n then [e.target] else []);
    assert forall n :: Indegree(longer, n, {}) == Indegree(edges, n, {}) + (if e.target == n then 1 else 0);
  }

  // Registers every phase number in the three maps; `keys` is their insertion order.
  method IndexPhases(phases: seq<Phase>)
    returns (keys: seq<Number>, adj: map<Number, seq<Number>>, inDegree: map<Number, nat>,
             phaseByNum: map<Number, Phase>)
    ensures Distinct(keys) && Elements(keys) == Known(phases)
    ensures Distinct(NumbersOf(phases)) ==> keys == NumbersOf(phases)
    ensures IsGraph(Known(phases), [], adj, inDegree, {})
    ensures IsIndex(Known(phases), phases, phaseByNum)
  {
    hide IsGraph, IsIndex;
    keys, adj, inDegree, phaseByNum := [], map[], map[], map[];
    ghost var known: set<Number> := {};
    NothingIndexed(phases);
    for i := 0 to |phases|
      invariant known == Known(phases[..i])
      invariant Distinct(keys) && Elements(keys) == known
      invariant Distinct(NumbersOf(phases)) ==> keys == NumbersOf(phases)[..i]
      invariant IsGraph(known, [], adj, inDegree, {})
      invariant IsIndex(known, phases, phaseByNum)
    {
      var num := phases[i].number;
      KnownAppend(phases, i);
      GraphKeys(known, [], adj, inDegree, {});
      GraphAddNode(known, adj, inDegree, num);
      NumbersStep(phases, i);
      if num !in adj {
        ElementsAppend(keys, num);
        keys := keys + [num];
      }
      adj := adj[num := []];
      inDegree := inDegree[num := 0];
      IndexAdd(known, phases, phaseByNum, i);
      phaseByNum := phaseByNum[num := phases[i]];
      known := known + {num};
    }
    assert phases[..|phases|] == phases;
  }

  lemma {:induction false} NumbersStep(phases: seq<Phase>, i: nat)
    requires i < |phases|
    ensures NumbersOf(phases)[..i + 1] == NumbersOf(phases)[..i] + [phases[i].number]
    ensures Distinct(NumbersOf(phases)) ==> phases[i].number !in Known(phases[..i])
  {
    var numbers := NumbersOf(phases);
    assert forall k :: 0 <= k < i ==> phases[..i][k].number == numbers[k];
  }

  lemma {:induction false} KnownAppend(phases: seq<Phase>, i: nat)
    requires i < |phases|
    ensures Known(phases[..i + 1]) == Known(phases[..i]) + {phases[i].number}
  {
    assert phases[..i + 1] == phases[..i] + [phases[i]];
  }

  ghost predicate IsIndex(known: set<Number>, phases: seq<Phase>, phaseByNum: map<Number, Phase>) {
    && phaseByNum.Keys == known
    && forall n :: n in phaseByNum ==> phaseByNum[n] in phases && phaseByNum[n].number == n
  }

  lemma {:induction false} NothingIndexed(phases: seq<Phase>)
    ensures IsGraph({}, [], map[], map[], {}) && IsIndex({}, phases, map[])
  {
  }

  lemma {:induction false} GraphKeys(known: set<Number>, edges: seq<Edge>,
      adj: map<Number, seq<Number>>, inDegree: map<Number, nat>, done: set<Number>)
    requires IsGraph(known, edges, adj, inDegree, done)
    ensures adj.Keys == known && inDegree.Keys == known
  {
  }

  lemma {:induction false} GraphAddNode(known: set<Number>, adj: map<Number, seq<Number>>, inDegree: map<Number, nat>,
      n: Number)
    requires IsGraph(known, [], adj, inDegree, {})
    ensures IsGraph(known + {n}, [], adj[n := []], inDegree[n := 0], {})
  {
  }

  lemma {:induction false} IndexAdd(known: set<Number>, phases: seq<Phase>, phaseByNum: map<Number, Phase>, i: nat)
    requires IsIndex(known, phases, phaseByNum) && i < |phases|
    ensures IsIndex(known + {phases[i].number}, phases, phaseByNum[phases[i].number := phases[i]])
  {
  }

  // Adds one edge per known dependency of one phase.
  method AddDependencies(known: set<Number>, num: Number, deps: seq<Number>, ghost before: seq<Edge>,
      adj0: map<Number, seq<Number>>, inDegree0: map<Number, nat>)
    returns (adj: map<Number, seq<Number>>, inDegree: map<Number, nat>)
    requires IsGraph(known, before, adj0, inDegree0, {}) && num in known
    ensures IsGraph(known, before + EdgesInto(known, num, deps), adj, inDegree, {})
  {
    hide IsGraph;
    adj, inDegree := adj0, inDegree0;
    assert before + EdgesInto(known, num, deps[..0]) == before;
    for j := 0 to |deps|
      invariant IsGraph(known, before + EdgesInto(known, num, deps[..j]), adj, inDegree, {})
    {
      var dep := deps[j];
      ghost var edges := before + EdgesInto(known, num, deps[..j]);
      assert deps[..j + 1][..j] == deps[..j];
      GraphKeys(known, edges, adj, inDegree, {});
      if dep in adj {
        GraphAddEdge(known, edges, adj, inDegree, Edge(dep, num));
        adj := adj[dep := adj[dep] + [num]];
        inDegree := inDegree[num := inDegree[num] + 1];
        assert before + EdgesInto(known, num, deps[..j + 1]) == edges + [Edge(dep, num)];
      } else {
        assert before + EdgesInto(known, num, deps[..j + 1]) == edges;
      }
    }
    assert deps[..|deps|] == deps;
  }

  method BuildGraph(phases: seq<Phase>)
    returns (keys: seq<Number>, adj: map<Number, seq<Number>>, inDegree: map<Number, nat>,
             phaseByNum: map<Number, Phase>)
    ensures Distinct(keys) && Elements(keys) == Known(phases)
    ensures Distinct(NumbersOf(phases)) ==> keys == NumbersOf(phases)
    ensures IsGraph(Known(phases), EdgesOf(phases), adj, inDegree, {})
    ensures IsIndex(Known(phases), phases, phaseByNum)
  {
    hide IsGraph, IsIndex;
    keys, adj, inDegree, phaseByNum := IndexPhases(phases);
    assert phases[..0] == [];
    for i := 0 to |phases|
      invariant IsGraph(Known(phases), EdgesAmong(Known(phases), phases[..i]), adj, inDegree, {})
    {
      assert phases[..i + 1][..i] == phases[..i];
      adj, inDegree := AddDependencies(Known(phases), phases[i].number, phases[i].dependsOn,
        EdgesAmong(Known(phases), phases[..i]), adj, inDegree);
    }
    assert phases[..|phases|] == phases;
  }

  // ---------- Kahn's algorithm ----------

  // The level of n: one more than the largest level among its known dependencies.
  ghost predicate IsLevel(phases: seq<Phase>, level: map<Number, nat>, n: Number)
    requires n in level
  {
    && (forall d :: d in Known(phases) && Depends(phases, n, d) ==> d in level && level[d] < level[n])
    && (level[n] == 1 ||
        exists d :: d in Known(phases) && Depends(phases, n, d) && d in level && level[n] == level[d] + 1)
    && level[n] >= 1
  }

  ghost predicate SortedByLevel(level: map<Number, nat>, order: seq<Number>) {
    && level.Keys == Elements(order)
    && forall i, j :: 0 <= i < j < |order| ==> level[order[i]] <= level[order[j]]
  }

  ghost predicate LevelsHold(phases: seq<Phase>, level: map<Number, nat>) {
    forall n {:trigger IsLevel(phases, level, n)} :: n in level ==> IsLevel(phases, level, n)
  }

  // `seen` is the dequeued list followed by the queue: the phases whose in-degree is zero.
  ghost predicate IsReadyList(known: set<Number>, seen: seq<Number>, inDegree: map<Number, nat>) {
    && Distinct(seen)
    && inDegree.Keys == known
    && forall n :: n in seen <==> n in inDegree && inDegree[n] == 0
  }

  // The queue never runs more than one level ahead of the last dequeued phase.
  ghost predicate LevelsBounded(level: map<Number, nat>, seen: seq<Number>, top: nat) {
    && SortedByLevel(level, seen)
    && forall n :: n in level ==> level[n] <= top + 1
  }

  // Dequeuing the front of the queue: its known dependencies have all been dequeued.
  lemma {:induction false} DequeueReady(phases: seq<Phase>, ordered: seq<Number>, current: Number)
    requires IsPrefixOrder(phases, ordered) && current in Known(phases) && current !in ordered
    requires Indegree(EdgesOf(phases), current, Elements(ordered)) == 0
    ensures IsPrefixOrder(phases, ordered + [current])
  {
    var longer := ordered + [current];
    ReadyWhenZero(phases, current, Elements(ordered));
    forall i, d | 0 <= i < |longer| && Depends(phases, longer[i], d) && d in Known(phases)
      ensures d in longer[..i]
    {
      if i < |ordered| {
        assert Depends(phases, ordered[i], d);
        assert longer[..i] == ordered[..i];
      } else {
        assert longer[..i] == ordered;
      }
    }
  }

  // The phases that wait for `current` are exactly the targets the loop visits.
  lemma {:induction false} TargetsMembers(edges: seq<Edge>, source: Number, n: Number)
    ensures n in Targets(edges, source) <==> Edge(source, n) in edges
  {
    if edges != [] {
      TargetsMembers(edges[..|edges| - 1], source, n);
      assert edges == edges[..|edges| - 1] + [edges[|edges| - 1]];
    }
  }

  lemma {:induction false} NeighborDepends(phases: seq<Phase>, current: Number, n: Number)
    requires n in Targets(EdgesOf(phases), current)
    ensures current in Known(phases) && Depends(phases, n, current) && n in Known(phases)
  {
    TargetsMembers(EdgesOf(phases), current, n);
    EdgesAmongMembers(Known(phases), phases, Edge(current, n));
  }

  // Appending a phase whose in-degree has just reached zero keeps the list, its order
  // by level and the levels themselves.
  lemma {:induction false} ReleaseListed(known: set<Number>, seen: seq<Number>, inDegree: map<Number, nat>, n: Number)
    requires IsReadyList(known, seen, inDegree) && n in known && inDegree[n] != 0
    ensures IsReadyList(known, seen + [n], inDegree[n := 0])
  {
  }

  lemma {:induction false} ReleaseSorted(level: map<Number, nat>, seen: seq<Number>, top: nat, n: Number)
    requires LevelsBounded(level, seen, top) && n !in seen
    ensures LevelsBounded(level[n := top + 1], seen + [n], top)
  {
    ElementsAppend(seen, n);
  }

  lemma {:induction false} ReleaseLevel(phases: seq<Phase>, level: map<Number, nat>, ordered: seq<Number>,
      queue: seq<Number>, n: Number)
    requires LevelsHold(phases, level) && SortedByLevel(level, ordered + queue)
    requires n !in level && ordered != [] && Depends(phases, n, ordered[|ordered| - 1])
    requires ordered[|ordered| - 1] in Known(phases)
    requires forall d :: d in Known(phases) && Depends(phases, n, d) ==> d in ordered
    ensures LevelsHold(phases, level[n := level[ordered[|ordered| - 1]] + 1])
  {
    var level' := level[n := level[ordered[|ordered| - 1]] + 1];
    var seen := ordered + queue;
    forall d | d in Known(phases) && Depends(phases, n, d)
      ensures d in level && level[d] <= level[ordered[|ordered| - 1]]
    {
      var i :| 0 <= i < |ordered| && ordered[i] == d;
      assert seen[i] == d && seen[|ordered| - 1] == ordered[|ordered| - 1];
    }
    forall x | x in level'
      ensures IsLevel(phases, level', x)
    {
      if x != n {
        assert IsLevel(phases, level, x);
      }
    }
  }

  ghost predicate DegreesMatch(phases: seq<Phase>, ordered: seq<Number>, rest: seq<Number>,
      inDegree: map<Number, nat>) {
    forall n :: n in inDegree ==>
      inDegree[n] == Indegree(EdgesOf(phases), n, Elements(ordered)) + multiset(rest)[n]
  }

  // The state of the main loop while the adjacency list of the last dequeued phase is
  // being visited; `rest` is the part still to come.
  ghost predicate Releasing(phases: seq<Phase>, ordered: seq<Number>, rest: seq<Number>,
      inDegree: map<Number, nat>, queue: seq<Number>, level: map<Number, nat>) {
    && ordered != []
    && IsReadyList(Known(phases), ordered + queue, inDegree)
    && DegreesMatch(phases, ordered, rest, inDegree)
    && LevelsHold(phases, level)
    && ordered[|ordered| - 1] in level
    && LevelsBounded(level, ordered + queue, level[ordered[|ordered| - 1]])
  }

  lemma {:induction false} VisitKeepsDegrees(phases: seq<Phase>, ordered: seq<Number>, rest: seq<Number>,
      inDegree: map<Number, nat>)
    requires rest != [] && rest[0] in inDegree && DegreesMatch(phases, ordered, rest, inDegree)
    ensures inDegree[rest[0]] >= 1
    ensures DegreesMatch(phases, ordered, rest[1..], inDegree[rest[0] := inDegree[rest[0]] - 1])
    ensures inDegree[rest[0]] == 1 ==> forall d :: d in Known(phases) && Depends(phases, rest[0], d) ==> d in ordered
  {
    assert rest == [rest[0]] + rest[1..];
    ReadyWhenZero(phases, rest[0], Elements(ordered));
  }

  // Visiting one entry; the in-degree it lowers is never zero beforehand.
  lemma {:induction false} VisitReleases(phases: seq<Phase>, ordered: seq<Number>, rest: seq<Number>,
      inDegree: map<Number, nat>, queue: seq<Number>, level: map<Number, nat>)
    requires Releasing(phases, ordered, rest, inDegree, queue, level)
    requires rest != [] && rest[0] in inDegree && inDegree[rest[0]] == 1
    requires ordered[|ordered| - 1] in Known(phases) && Depends(phases, rest[0], ordered[|ordered| - 1])
    ensures Releasing(phases, ordered, rest[1..], inDegree[rest[0] := 0], queue + [rest[0]],
                      level[rest[0] := level[ordered[|ordered| - 1]] + 1])
  {
    var n, current := rest[0], ordered[|ordered| - 1];
    VisitKeepsDegrees(phases, ordered, rest, inDegree);
    assert ordered + (queue + [n]) == ordered + queue + [n];
    ReleaseListed(Known(phases), ordered + queue, inDegree, n);
    ReleaseSorted(level, ordered + queue, level[current], n);
    ReleaseLevel(phases, level, ordered, queue, n);
  }

  lemma {:induction false} VisitWaits(phases: seq<Phase>, ordered: seq<Number>, rest: seq<Number>,
      inDegree: map<Number, nat>, queue: seq<Number>, level: map<Number, nat>)
    requires Releasing(phases, ordered, rest, inDegree, queue, level)
    requires rest != [] && rest[0] in inDegree && inDegree[rest[0]] > 1
    ensures Releasing(phases, ordered, rest[1..], inDegree[rest[0] := inDegree[rest[0]] - 1], queue, level)
  {
    hide LevelsHold, LevelsBounded;
    VisitKeepsDegrees(phases, ordered, rest, inDegree);
  }

  lemma {:induction false} Visit(phases: seq<Phase>, ordered: seq<Number>, rest: seq<Number>,
      inDegree: map<Number, nat>, queue: seq<Number>, level: map<Number, nat>)
    requires Releasing(phases, ordered, rest, inDegree, queue, level)
    requires rest != [] && rest[0] in Targets(EdgesOf(phases), ordered[|ordered| - 1])
    ensures ordered[|ordered| - 1] in level
    ensures rest[0] in inDegree && inDegree[rest[0]] >= 1
    ensures inDegree[rest[0]] > 1 ==>
      Releasing(phases, ordered, rest[1..], inDegree[rest[0] := inDegree[rest[0]] - 1], queue, level)
    ensures inDegree[rest[0]] == 1 ==>
      Releasing(phases, ordered, rest[1..], inDegree[rest[0] := 0], queue + [rest[0]],
                level[rest[0] := level[ordered[|ordered| - 1]] + 1])
  {
    NeighborDepends(phases, ordered[|ordered| - 1], rest[0]);
    VisitKeepsDegrees(phases, ordered, rest, inDegree);
    if inDegree[rest[0]] == 1 {
      VisitReleases(phases, ordered, rest, inDegree, queue, level);
    } else {
      VisitWaits(phases, ordered, rest, inDegree, queue, level);
    }
  }

  // ---------- First ready, first served ----------

  // `listed` is in order; what became ready last comes before what is still to be visited.
  ghost predicate FifoSoFar(phases: seq<Phase>, ordered: seq<Number>, listed: seq<Number>, rest: seq<Number>) {
    && IsFifo(phases, ordered, listed)
    && (forall x, y :: x in listed && y in rest && LastDependency(phases, ordered, x) == |ordered| - 1 ==>
          PositionOf(NumbersOf(phases), x) <= PositionOf(NumbersOf(phases), y))
    && InInputOrder(phases, rest)
  }

  ghost predicate InInputOrder(phases: seq<Phase>, listed: seq<Number>) {
    forall i, j :: 0 <= i < j < |listed| ==>
      PositionOf(NumbersOf(phases), listed[i]) <= PositionOf(NumbersOf(phases), listed[j])
  }

  lemma {:induction false} SamePosition(phases: seq<Phase>, a: Number, b: Number)
    requires a in Known(phases) && PositionOf(NumbersOf(phases), a) == PositionOf(NumbersOf(phases), b)
    ensures a == b
  {
    NumbersAreKnown(phases);
    assert a in NumbersOf(phases);
  }

  // The next entry to be visited joins the list if it is ready.
  lemma {:induction false} VisitIsFifo(phases: seq<Phase>, ordered: seq<Number>, listed: seq<Number>, rest: seq<Number>)
    requires FifoSoFar(phases, ordered, listed, rest) && rest != []
    ensures FifoSoFar(phases, ordered, listed, rest[1..])
    ensures ordered != [] && Depends(phases, rest[0], ordered[|ordered| - 1]) && rest[0] in Known(phases)
            && rest[0] !in listed ==>
      FifoSoFar(phases, ordered, listed + [rest[0]], rest[1..])
  {
    var n, longer := rest[0], listed + [rest[0]];
    hide PositionOf;
    assert forall y :: y in rest[1..] ==> y in rest;
    assert forall k :: 0 <= k < |rest| - 1 ==> rest[1..][k] == rest[k + 1];
    if ordered != [] && Depends(phases, n, ordered[|ordered| - 1]) && n in Known(phases) && n !in listed {
      assert LastDependency(phases, ordered, n) == |ordered| - 1;
      hide LastDependency;
      forall i | 0 <= i < |listed|
        ensures ReadyBefore(phases, ordered, listed[i], n)
      {
        assert listed[i] in listed && n in rest;
        if PositionOf(NumbersOf(phases), listed[i]) == PositionOf(NumbersOf(phases), n) {
          SamePosition(phases, n, listed[i]);
        }
      }
      hide ReadyBefore;
    }
  }

  // Dequeuing a phase on which nothing listed depends changes no last dependency.
  lemma {:induction false} DequeueIsFifo(phases: seq<Phase>, ordered: seq<Number>, listed: seq<Number>, current: Number)
    requires FifoSoFar(phases, ordered, listed, [])
    requires forall x :: x in listed ==> !Depends(phases, x, current)
    requires InInputOrder(phases, Targets(EdgesOf(phases), current))
    ensures FifoSoFar(phases, ordered + [current], listed, Targets(EdgesOf(phases), current))
  {
    var longer := ordered + [current];
    forall x | x in listed
      ensures LastDependency(phases, longer, x) == LastDependency(phases, ordered, x) < |ordered|
    {
      assert longer[..|longer| - 1] == ordered;
    }
    hide LastDependency, PositionOf, Targets;
  }

  // Nothing that is listed waits for what has not been dequeued.
  lemma {:induction false} ListedDoNotWait(phases: seq<Phase>, ordered: seq<Number>, queue: seq<Number>,
      inDegree: map<Number, nat>, level: map<Number, nat>, top: nat, current: Number)
    requires Running(phases, ordered, inDegree, queue, level, top) && current in Known(phases) && current !in ordered
    ensures forall x :: x in ordered + queue ==> !Depends(phases, x, current)
  {
    hide LevelsHold, LevelsBounded;
    forall x | x in ordered + queue
      ensures !Depends(phases, x, current)
    {
      assert inDegree[x] == 0;
      ReadyWhenZero(phases, x, Elements(ordered));
    }
  }

  lemma {:induction false} TargetsConcat(a: seq<Edge>, b: seq<Edge>, source: Number)
    ensures Targets(a + b, source) == Targets(a, source) + Targets(b, source)
  {
    if b == [] {
      assert a + b == a;
    } else {
      assert (a + b)[..|a + b| - 1] == a + b[..|b| - 1];
      TargetsConcat(a, b[..|b| - 1], source);
    }
  }

  lemma {:induction false} TargetsOfOne(known: set<Number>, target: Number, deps: seq<Number>, source: Number)
    ensures forall n :: n in Targets(EdgesInto(known, target, deps), source) ==> n == target
  {
    if deps != [] {
      var init := deps[..|deps| - 1];
      TargetsOfOne(known, target, init, source);
      TargetsConcat(EdgesInto(known, target, init),
                    if deps[|deps| - 1] in known then [Edge(deps[|deps| - 1], target)] else [], source);
      assert Targets([Edge(deps[|deps| - 1], target)], source)
             == Targets([], source) + (if deps[|deps| - 1] == source then [target] else []);
    }
  }

  // The adjacency lists stand in the order of the input.
  lemma {:induction false} TargetsInOrder(known: set<Number>, phases: seq<Phase>, k: nat, source: Number)
    requires k <= |phases| && Distinct(NumbersOf(phases))
    ensures InInputOrder(phases, Targets(EdgesAmong(known, phases[..k]), source))
    ensures forall n :: n in Targets(EdgesAmong(known, phases[..k]), source) ==> n in NumbersOf(phases)[..k]
  {
    hide PositionOf, Distinct;
    if k > 0 {
      var front, p := phases[..k - 1], phases[k - 1];
      assert phases[..k][..k - 1] == front && phases[..k][k - 1] == p;
      TargetsInOrder(known, phases, k - 1, source);
      TargetsOfOne(known, p.number, p.dependsOn, source);
      TargetsConcat(EdgesAmong(known, front), EdgesInto(known, p.number, p.dependsOn), source);
      var before, later := Targets(EdgesAmong(known, front), source),
                         Targets(EdgesInto(known, p.number, p.dependsOn), source);
      hide Targets, EdgesAmong, EdgesInto;
      assert NumbersOf(phases)[..k] == NumbersOf(phases)[..k - 1] + [p.number];
      forall i, j | 0 <= i < j < |before + later|
        ensures PositionOf(NumbersOf(phases), (before + later)[i]) <= PositionOf(NumbersOf(phases), (before + later)[j])
      {
        if j >= |before| {
          var n := (before + later)[i];
          assert (before + later)[j] in later;
          PositionAt(NumbersOf(phases), k - 1);
          if i < |before| {
            assert n in before;
            var m :| 0 <= m < k - 1 && NumbersOf(phases)[m] == n;
            PositionAt(NumbersOf(phases), m);
          } else {
            assert n in later;
          }
        }
      }
    }
  }

  lemma {:induction false} PositionAt(numbers: seq<Number>, k: nat)
    requires k < |numbers| && Distinct(numbers)
    ensures PositionOf(numbers, numbers[k]) == k
  {
    assert numbers[k] in numbers;
    assert numbers[PositionOf(numbers, numbers[k])] == numbers[k];
    hide PositionOf;
  }

  lemma {:induction false} ListedIsReady(phases: seq<Phase>, ordered: seq<Number>, rest: seq<Number>,
      inDegree: map<Number, nat>, queue: seq<Number>, level: map<Number, nat>, n: Number)
    requires Releasing(phases, ordered, rest, inDegree, queue, level) && n in inDegree && inDegree[n] != 0
    ensures n !in ordered + queue
  {
  }

  // Lowers the in-degree of everything that depends on the phase just dequeued, and
  // queues what reaches zero.
  method Release(ghost phases: seq<Phase>, ghost ordered: seq<Number>, neighbors: seq<Number>,
      inDegree0: map<Number, nat>, queue0: seq<Number>, ghost level0: map<Number, nat>)
    returns (inDegree: map<Number, nat>, queue: seq<Number>, ghost level: map<Number, nat>)
    requires Releasing(phases, ordered, neighbors, inDegree0, queue0, level0)
    requires neighbors == Targets(EdgesOf(phases), ordered[|ordered| - 1])
    ensures Releasing(phases, ordered, [], inDegree, queue, level)
    ensures FifoSoFar(phases, ordered, ordered + queue0, neighbors) ==>
      FifoSoFar(phases, ordered, ordered + queue, [])
  {
    hide Releasing, FifoSoFar;
    inDegree, queue, level := inDegree0, queue0, level0;
    assert neighbors[0..] == neighbors;
    for k := 0 to |neighbors|
      invariant Releasing(phases, ordered, neighbors[k..], inDegree, queue, level)
      invariant FifoSoFar(phases, ordered, ordered + queue0, neighbors) ==>
        FifoSoFar(phases, ordered, ordered + queue, neighbors[k..])
    {
      var neighbor := neighbors[k];
      assert neighbors[k..][0] == neighbor && neighbors[k..][1..] == neighbors[k + 1..];
      Visit(phases, ordered, neighbors[k..], inDegree, queue, level);
      NeighborDepends(phases, ordered[|ordered| - 1], neighbor);
      if FifoSoFar(phases, ordered, ordered + queue, neighbors[k..]) {
        VisitIsFifo(phases, ordered, ordered + queue, neighbors[k..]);
        ListedIsReady(phases, ordered, neighbors[k..], inDegree, queue, level, neighbor);
        assert ordered + queue + [neighbor] == ordered + (queue + [neighbor]);
      }
      var newDegree: nat :=
        (if neighbor in inDegree && inDegree[neighbor] != 0 then inDegree[neighbor] else 1) - 1;
      inDegree := inDegree[neighbor := newDegree];
      if newDegree == 0 {
        queue := queue + [neighbor];
        level := level[neighbor := level[ordered[|ordered| - 1]] + 1];
      }
    }
  }

  // The state of the main loop between two dequeues; `top` is the level of the last
  // dequeued phase.
  ghost predicate Running(phases: seq<Phase>, ordered: seq<Number>, inDegree: map<Number, nat>,
      queue: seq<Number>, level: map<Number, nat>, top: nat) {
    && IsReadyList(Known(phases), ordered + queue, inDegree)
    && DegreesMatch(phases, ordered, [], inDegree)
    && LevelsHold(phases, level)
    && LevelsBounded(level, ordered + queue, top)
    && if ordered == [] then top == 0
       else ordered[|ordered| - 1] in level && level[ordered[|ordered| - 1]] == top
  }

  // Dequeuing the front of the queue opens its adjacency list.
  lemma {:induction false} DequeueKeeps(phases: seq<Phase>, ordered: seq<Number>, inDegree: map<Number, nat>,
      queue: seq<Number>, level: map<Number, nat>, top: nat)
    requires Running(phases, ordered, inDegree, queue, level, top)
    requires queue != [] && queue[0] !in ordered
    ensures Releasing(phases, ordered + [queue[0]], Targets(EdgesOf(phases), queue[0]), inDegree, queue[1..], level)
  {
    hide IsReadyList, DegreesMatch, LevelsHold, LevelsBounded;
    DequeueKeepsDegrees(phases, ordered, inDegree, queue[0]);
    LevelRises(level, ordered, queue, top);
    assert ordered + [queue[0]] + queue[1..] == ordered + queue;
  }

  lemma {:induction false} ReleasedIsRunning(phases: seq<Phase>, ordered: seq<Number>, inDegree: map<Number, nat>,
      queue: seq<Number>, level: map<Number, nat>)
    requires Releasing(phases, ordered, [], inDegree, queue, level)
    ensures ordered != [] && ordered[|ordered| - 1] in level
    ensures Running(phases, ordered, inDegree, queue, level, level[ordered[|ordered| - 1]])
  {
    hide IsReadyList, DegreesMatch, LevelsHold, LevelsBounded;
  }

  lemma {:induction false} FrontIsReady(phases: seq<Phase>, ordered: seq<Number>, inDegree: map<Number, nat>,
      queue: seq<Number>, level: map<Number, nat>, top: nat)
    requires Running(phases, ordered, inDegree, queue, level, top)
    requires queue != [] && IsPrefixOrder(phases, ordered)
    ensures queue[0] !in ordered && queue[0] in Known(phases)
    ensures IsPrefixOrder(phases, ordered + [queue[0]])
  {
    hide IsPrefixOrder, LevelsHold, LevelsBounded;
    FrontIsNew(ordered, queue);
    assert queue[0] in ordered + queue;
    DequeueReady(phases, ordered, queue[0]);
  }

  lemma {:induction false} FrontIsNew(ordered: seq<Number>, queue: seq<Number>)
    requires queue != [] && Distinct(ordered + queue)
    ensures queue[0] !in ordered
  {
    var seen := ordered + queue;
    forall i | 0 <= i < |ordered|
      ensures ordered[i] != queue[0]
    {
      assert seen[i] == ordered[i] && seen[|ordered|] == queue[0];
    }
  }

  lemma {:induction false} DequeueKeepsDegrees(phases: seq<Phase>, ordered: seq<Number>, inDegree: map<Number, nat>,
      current: Number)
    requires DegreesMatch(phases, ordered, [], inDegree) && current !in ordered
    ensures DegreesMatch(phases, ordered + [current], Targets(EdgesOf(phases), current), inDegree)
  {
    ElementsAppend(ordered, current);
    forall n | n in inDegree
      ensures inDegree[n] == Indegree(EdgesOf(phases), n, Elements(ordered + [current]))
                             + multiset(Targets(EdgesOf(phases), current))[n]
    {
      IndegreeWithout(EdgesOf(phases), n, Elements(ordered), current);
    }
  }

  lemma {:induction false} LevelRises(level: map<Number, nat>, ordered: seq<Number>, queue: seq<Number>, top: nat)
    requires queue != [] && LevelsBounded(level, ordered + queue, top)
    requires ordered != [] ==> ordered[|ordered| - 1] in level && level[ordered[|ordered| - 1]] == top
    requires ordered == [] ==> top == 0
    ensures queue[0] in level && LevelsBounded(level, ordered + queue, level[queue[0]])
  {
    var seen := ordered + queue;
    assert seen[|ordered|] == queue[0];
    if ordered != [] {
      assert seen[|ordered| - 1] == ordered[|ordered| - 1];
    }
  }

  // The main loop.
  method Sort(ghost phases: seq<Phase>, keys: seq<Number>, adj: map<Number, seq<Number>>,
      inDegree0: map<Number, nat>)
    returns (ordered: seq<Number>, ghost level: map<Number, nat>)
    requires Elements(keys) == Known(phases) && Distinct(keys)
    requires IsGraph(Known(phases), EdgesOf(phases), adj, inDegree0, {})
    ensures IsPrefixOrder(phases, ordered)
    ensures Stuck(phases, Known(phases) - Elements(ordered))
    ensures SortedByLevel(level, ordered) && LevelsHold(phases, level)
    ensures keys == NumbersOf(phases) ==> IsFifo(phases, ordered, ordered)
  {
    hide IsPrefixOrder, Running, Releasing, Stuck, SortedByLevel, LevelsHold, FifoSoFar, InInputOrder, IsFifo,
         InKeyOrder, Distinct;
    var inDegree := inDegree0;
    var queue := InitialQueue(keys, inDegree);
    ordered := [];
    level := map n | n in Elements(queue) :: 1;
    ghost var top: nat := 0;
    InitialState(phases, queue, inDegree, level);
    if keys == NumbersOf(phases) {
      InitialIsFifo(phases, queue);
    }
    while queue != []
      invariant IsPrefixOrder(phases, ordered)
      invariant Running(phases, ordered, inDegree, queue, level, top)
      invariant keys == NumbersOf(phases) ==> FifoSoFar(phases, ordered, ordered + queue, [])
      decreases Known(phases) - Elements(ordered)
    {
      FrontIsReady(phases, ordered, inDegree, queue, level, top);
      DequeueKeeps(phases, ordered, inDegree, queue, level, top);
      var current := queue[0];
      if keys == NumbersOf(phases) {
        NextIsFifo(phases, ordered, queue, inDegree, level, top);
      }
      queue := queue[1..];
      ElementsAppend(ordered, current);
      ordered := ordered + [current];
      inDegree, queue, level := Release(phases, ordered, adj[current], inDegree, queue, level);
      ReleasedIsRunning(phases, ordered, inDegree, queue, level);
      top := level[current];
    }
    DrainedIsStuck(phases, ordered, inDegree, level, top);
    if keys == NumbersOf(phases) {
      assert ordered + queue == ordered;
      FifoIsKept(phases, ordered);
    }
  }

  // Dequeuing the front of the queue opens its adjacency list, which is in the order of the
  // input.
  lemma {:induction false} NextIsFifo(phases: seq<Phase>, ordered: seq<Number>, queue: seq<Number>,
      inDegree: map<Number, nat>, level: map<Number, nat>, top: nat)
    requires Running(phases, ordered, inDegree, queue, level, top)
    requires queue != [] && queue[0] in Known(phases) && queue[0] !in ordered
    requires FifoSoFar(phases, ordered, ordered + queue, []) && Distinct(NumbersOf(phases))
    ensures FifoSoFar(phases, ordered + [queue[0]], ordered + [queue[0]] + queue[1..],
                      Targets(EdgesOf(phases), queue[0]))
  {
    hide Running, FifoSoFar, InInputOrder, Targets, Distinct, EdgesAmong;
    ListedDoNotWait(phases, ordered, queue, inDegree, level, top, queue[0]);
    TargetsInOrder(Known(phases), phases, |phases|, queue[0]);
    assert phases[..|phases|] == phases;
    DequeueIsFifo(phases, ordered, ordered + queue, queue[0]);
    assert ordered + [queue[0]] + queue[1..] == ordered + queue;
  }

  lemma {:induction false} FifoIsKept(phases: seq<Phase>, ordered: seq<Number>)
    requires FifoSoFar(phases, ordered, ordered, [])
    ensures IsFifo(phases, ordered, ordered)
  {
  }

  lemma {:induction false} InitialIsFifo(phases: seq<Phase>, queue: seq<Number>)
    requires InKeyOrder(NumbersOf(phases), queue)
    ensures FifoSoFar(phases, [], [] + queue, [])
  {
    assert [] + queue == queue;
    hide PositionOf;
  }

  ghost predicate InKeyOrder(keys: seq<Number>, queue: seq<Number>) {
    forall i, j :: 0 <= i < j < |queue| ==> PositionOf(keys, queue[i]) < PositionOf(keys, queue[j])
  }

  method InitialQueue(keys: seq<Number>, inDegree: map<Number, nat>) returns (queue: seq<Number>)
    requires Elements(keys) == inDegree.Keys && Distinct(keys)
    ensures IsReadyList(inDegree.Keys, queue, inDegree)
    ensures InKeyOrder(keys, queue)
  {
    hide PositionOf;
    queue := [];
    for i := 0 to |keys|
      invariant Distinct(queue)
      invariant forall n :: n in queue <==> n in keys[..i] && inDegree[n] == 0
      invariant forall k :: 0 <= k < |queue| ==> PositionOf(keys, queue[k]) < i
      invariant forall k, l :: 0 <= k < l < |queue| ==> PositionOf(keys, queue[k]) < PositionOf(keys, queue[l])
    {
      assert keys[..i + 1] == keys[..i] + [keys[i]];
      PositionAt(keys, i);
      if inDegree[keys[i]] == 0 {
        queue := queue + [keys[i]];
      }
    }
    assert keys[..|keys|] == keys;
  }

  lemma {:induction false} InitialState(phases: seq<Phase>, queue: seq<Number>, inDegree: map<Number, nat>,
      level: map<Number, nat>)
    requires inDegree.Keys == Known(phases) && IsReadyList(Known(phases), queue, inDegree)
    requires forall n :: n in inDegree ==> inDegree[n] == Indegree(EdgesOf(phases), n, {})
    requires level == map n | n in Elements(queue) :: 1
    ensures IsPrefixOrder(phases, [])
    ensures Running(phases, [], inDegree, queue, level, 0)
  {
    forall n | n in level
      ensures IsLevel(phases, level, n)
    {
      ReadyWhenZero(phases, n, {});
    }
    assert [] + queue == queue;
    assert Elements<Number>([]) == {};
  }

  // When the queue is empty, everything left waits for something left.
  lemma {:induction false} DrainedIsStuck(phases: seq<Phase>, ordered: seq<Number>, inDegree: map<Number, nat>,
      level: map<Number, nat>, top: nat)
    requires Running(phases, ordered, inDegree, [], level, top)
    ensures Stuck(phases, Known(phases) - Elements(ordered))
    ensures SortedByLevel(level, ordered) && LevelsHold(phases, level)
  {
    hide LevelsHold;
    assert ordered + [] == ordered;
    var rest := Known(phases) - Elements(ordered);
    forall n | n in rest
      ensures WaitsFor(phases, n, rest)
    {
      ReadyWhenZero(phases, n, Elements(ordered));
    }
  }

  // ---------- Waves and the self-check ----------

  // The wave of one phase, from the waves assigned so far.
  method WaveOf(waves: map<Number, nat>, deps: seq<Number>) returns (wave: nat)
    requires forall d :: d in waves ==> waves[d] >= 1
    ensures IsWave(waves, deps, wave) && wave >= 1
  {
    wave := 1;
    ghost var highest := if deps == [] then Number("") else deps[0];
    for j := 0 to |deps|
      invariant wave >= 1 && (j == 0 ==> wave == 1)
      invariant forall d :: d in deps[..j] ==> WaveBelow(waves, d) < wave
      invariant j > 0 ==> highest in deps[..j] && wave == WaveBelow(waves, highest) + 1
    {
      var dep := deps[j];
      assert deps[..j + 1] == deps[..j] + [dep];
      var depWave := if dep in waves && waves[dep] != 0 then waves[dep] else 1;
      if wave < depWave + 1 {
        wave := depWave + 1;
        highest := dep;
      }
    }
    assert deps[..|deps|] == deps;
  }

  // Waves assigned to a prefix of the order stay right when the next phase gets its own.
  lemma {:induction false} LaterWaveKeeps(waves: map<Number, nat>, deps: seq<Number>, w: nat, n: Number, v: nat)
    requires IsWave(waves, deps, w) && n !in deps
    ensures IsWave(waves[n := v], deps, w)
  {
    var waves' := waves[n := v];
    assert forall d :: d in deps ==> WaveBelow(waves', d) == WaveBelow(waves, d);
  }

  // Position `i` of the order comes after every dependency that is known.
  lemma {:induction false} NotYetOrdered(phases: seq<Phase>, ordered: seq<Number>, i: nat, j: nat, p: Phase)
    requires IsPrefixOrder(phases, ordered) && i <= j < |ordered|
    requires p in phases && p.number == ordered[i]
    ensures ordered[j] !in p.dependsOn
  {
    if ordered[j] in p.dependsOn {
      assert ordered[j] in Elements(ordered);
      assert Depends(phases, ordered[i], ordered[j]);
    }
  }

  // The waves assigned to some of the phases agree with their dependencies.
  ghost predicate WavesSoFar(phaseByNum: map<Number, Phase>, waves: map<Number, nat>) {
    && waves.Keys <= phaseByNum.Keys
    && (forall n :: n in waves ==> waves[n] >= 1)
    && forall n {:trigger phaseByNum[n]} :: n in waves ==> IsWave(waves, phaseByNum[n].dependsOn, waves[n])
  }

  lemma {:induction false} NextWave(phases: seq<Phase>, ordered: seq<Number>, i: nat, phaseByNum: map<Number, Phase>,
      waves: map<Number, nat>, wave: nat)
    requires IsPrefixOrder(phases, ordered) && i < |ordered|
    requires IsIndex(Known(phases), phases, phaseByNum) && ordered[i] in phaseByNum
    requires waves.Keys == Elements(ordered[..i]) && WavesSoFar(phaseByNum, waves)
    requires IsWave(waves, phaseByNum[ordered[i]].dependsOn, wave) && wave >= 1
    ensures WavesSoFar(phaseByNum, waves[ordered[i] := wave])
  {
    hide IsWave, IsPrefixOrder;
    var num := ordered[i];
    OrderIsDistinct(phases, ordered);
    NotYetOrdered(phases, ordered, i, i, phaseByNum[num]);
    LaterWaveKeeps(waves, phaseByNum[num].dependsOn, wave, num, wave);
    forall n | n in waves
      ensures n != num && IsWave(waves[num := wave], phaseByNum[n].dependsOn, waves[n])
    {
      var k :| 0 <= k < i && ordered[k] == n;
      NotYetOrdered(phases, ordered, k, i, phaseByNum[n]);
      LaterWaveKeeps(waves, phaseByNum[n].dependsOn, waves[n], num, wave);
    }
  }

  method AssignWaves(ghost phases: seq<Phase>, ordered: seq<Number>, phaseByNum: map<Number, Phase>)
    returns (waves: map<Number, nat>)
    requires IsPrefixOrder(phases, ordered) && Elements(ordered) == Known(phases)
    requires IsIndex(Known(phases), phases, phaseByNum)
    ensures waves.Keys == Known(phases) && WavesSoFar(phaseByNum, waves)
  {
    hide WavesSoFar, IsPrefixOrder, IsWave;
    waves := map[];
    NoWavesYet(phaseByNum);
    for i := 0 to |ordered|
      invariant waves.Keys == Elements(ordered[..i])
      invariant WavesSoFar(phaseByNum, waves)
    {
      var num := ordered[i];
      assert num in Elements(ordered);
      WavesArePositive(phaseByNum, waves);
      var wave := WaveOf(waves, phaseByNum[num].dependsOn);
      NextWave(phases, ordered, i, phaseByNum, waves, wave);
      waves := waves[num := wave];
      assert ordered[..i + 1] == ordered[..i] + [num];
      ElementsAppend(ordered[..i], num);
    }
    assert ordered[..|ordered|] == ordered;
  }

  lemma {:induction false} NoWavesYet(phaseByNum: map<Number, Phase>)
    ensures WavesSoFar(phaseByNum, map[])
  {
  }

  lemma {:induction false} WavesArePositive(phaseByNum: map<Number, Phase>, waves: map<Number, nat>)
    requires WavesSoFar(phaseByNum, waves)
    ensures forall n :: n in waves ==> waves[n] >= 1
  {
  }

  // JavaScript's indexOf: the first position, or -1.
  method IndexOf(s: seq<Number>, x: Number) returns (at: int)
    ensures at == -1 <==> x !in s
    ensures at != -1 ==> 0 <= at < |s| && s[at] == x && x !in s[..at]
  {
    for k := 0 to |s|
      invariant x !in s[..k]
    {
      if s[k] == x {
        return k;
      }
      assert s[..k + 1] == s[..k] + [s[k]];
    }
    assert s[..|s|] == s;
    return -1;
  }

  // The self-check: on an order the sort has produced it never finds anything.
  method VerifyOrder(ghost phases: seq<Phase>, ordered: seq<Number>, phaseByNum: map<Number, Phase>)
    returns (errors: seq<Problem>)
    requires IsPrefixOrder(phases, ordered) && Elements(ordered) == Known(phases)
    requires IsIndex(Known(phases), phases, phaseByNum)
    ensures errors == []
  {
    errors := [];
    for i := 0 to |ordered|
      invariant errors == []
    {
      var num := ordered[i];
      assert num in Elements(ordered);
      var deps := phaseByNum[num].dependsOn;
      for j := 0 to |deps|
        invariant errors == []
      {
        var depIdx := IndexOf(ordered, deps[j]);
        var numIdx := IndexOf(ordered, num);
        var problem := NotBefore(num, deps[j]);
        if depIdx >= numIdx {
          NotYetOrdered(phases, ordered, numIdx, depIdx, phaseByNum[num]);
          errors := errors + [problem];
        }
      }
    }
  }

  // ---------- The whole function ----------

  // What resolvePhaseDependencies promises of a successful schedule.
  ghost predicate IsGoodSchedule(phases: seq<Phase>, r: Schedule) {
    && multiset(r.orderedPhases) == multiset(phases)
    && IsPrefixOrder(phases, NumbersOf(r.orderedPhases))
    && IsFifo(phases, NumbersOf(r.orderedPhases), NumbersOf(r.orderedPhases))
    && WavesCorrect(phases, r.waves)
    && r.errors == []
  }

  // The largest set of phases that wait for each other: what a failed run reports.
  ghost predicate IsBlocked(phases: seq<Phase>, remaining: set<Number>) {
    && Stuck(phases, remaining)
    && forall u :: Stuck(phases, u) ==> u <= remaining
  }

  // The numbers that are not in `done`, in the order of the list and as often as there.
  function Outside(numbers: seq<Number>, done: set<Number>): seq<Number> {
    if numbers == [] then []
    else (if numbers[0] in done then [] else [numbers[0]]) + Outside(numbers[1..], done)
  }

  lemma {:induction false} OutsideElements(numbers: seq<Number>, done: set<Number>)
    ensures Elements(Outside(numbers, done)) == Elements(numbers) - done
  {
    if numbers != [] {
      OutsideElements(numbers[1..], done);
      assert numbers == [numbers[0]] + numbers[1..];
      assert Elements(numbers) == {numbers[0]} + Elements(numbers[1..]);
    }
  }

  // One number more at the end of the list.
  lemma {:induction false} OutsideAppend(numbers: seq<Number>, n: Number, done: set<Number>)
    ensures Outside(numbers + [n], done) == Outside(numbers, done) + if n in done then [] else [n]
  {
    if numbers == [] {
      assert [n][1..] == [];
    } else {
      assert (numbers + [n])[1..] == numbers[1..] + [n];
      OutsideAppend(numbers[1..], n, done);
    }
  }

  // Phases are reported by their numbers; those outside the order come in input order.
  method Remaining(phases: seq<Phase>, ordered: seq<Number>) returns (remaining: seq<Number>)
    ensures remaining == Outside(NumbersOf(phases), Elements(ordered))
  {
    remaining := [];
    for i := 0 to |phases|
      invariant remaining == Outside(NumbersOf(phases)[..i], Elements(ordered))
    {
      assert NumbersOf(phases)[..i + 1] == NumbersOf(phases)[..i] + [phases[i].number];
      OutsideAppend(NumbersOf(phases)[..i], phases[i].number, Elements(ordered));
      if phases[i].number !in ordered {
        remaining := remaining + [phases[i].number];
      }
    }
    assert NumbersOf(phases)[..|phases|] == NumbersOf(phases);
  }

  // What is left of the phases is what belongs to the blocked ones.
  lemma {:induction false} RemainingIsBlocked(phases: seq<Phase>, ordered: seq<Number>, remaining: seq<Number>)
    requires IsPrefixOrder(phases, ordered) && Stuck(phases, Known(phases) - Elements(ordered))
    requires remaining == Outside(NumbersOf(phases), Elements(ordered))
    ensures IsBlocked(phases, Elements(remaining))
    ensures remaining == Outside(NumbersOf(phases), Known(phases) - Elements(remaining))
  {
    hide IsPrefixOrder, Stuck, IsBlocked;
    NumbersAreKnown(phases);
    LeftoverIsBlocked(phases, ordered);
    OutsideElements(NumbersOf(phases), Elements(ordered));
    OutsideSame(NumbersOf(phases), Elements(ordered), Known(phases) - Elements(remaining));
  }

  lemma {:induction false} OutsideSame(numbers: seq<Number>, done: set<Number>, other: set<Number>)
    requires forall n :: n in numbers ==> (n in done <==> n in other)
    ensures Outside(numbers, done) == Outside(numbers, other)
  {
    if numbers != [] {
      assert numbers[0] in numbers;
      OutsideSame(numbers[1..], done, other);
    }
  }

  method PhasesInOrder(ghost phases: seq<Phase>, ordered: seq<Number>, phaseByNum: map<Number, Phase>)
    returns (result: seq<Phase>)
    requires forall n :: n in ordered ==> n in phaseByNum
    requires IsIndex(Known(phases), phases, phaseByNum)
    ensures NumbersOf(result) == ordered && Elements(result) <= Elements(phases)
  {
    result := [];
    for i := 0 to |ordered|
      invariant NumbersOf(result) == ordered[..i] && Elements(result) <= Elements(phases)
    {
      assert ordered[i] in ordered;
      ElementsAppend(result, phaseByNum[ordered[i]]);
      result := result + [phaseByNum[ordered[i]]];
    }
  }

  lemma {:induction false} NumbersAreKnown(phases: seq<Phase>)
    ensures Elements(NumbersOf(phases)) == Known(phases)
  {
    var numbers := NumbersOf(phases);
    forall n | n in Known(phases)
      ensures n in numbers
    {
      var i :| 0 <= i < |phases| && phases[i].number == n;
      assert numbers[i] == n;
    }
  }

  // The length test succeeds exactly for distinct numbers without a cycle.
  lemma {:induction false} LengthTest(phases: seq<Phase>, ordered: seq<Number>)
    requires IsPrefixOrder(phases, ordered) && Stuck(phases, Known(phases) - Elements(ordered))
    ensures |ordered| == |phases| <==> Distinct(NumbersOf(phases)) && !HasCycle(phases)
    ensures |ordered| == |phases| ==> Elements(ordered) == Known(phases)
  {
    hide Stuck, HasCycle;
    DistinctSize(ordered);
    NumbersAreKnown(phases);
    DistinctSize(NumbersOf(phases));
    SubsetSize(Elements(ordered), Known(phases));
    if |ordered| == |phases| {
      OrderMeansAcyclic(phases, ordered);
    } else if Distinct(NumbersOf(phases)) {
      var rest := Known(phases) - Elements(ordered);
      assert Known(phases) == Elements(ordered) + rest;
      StuckHasCycle(phases, Known(phases) - Elements(ordered));
    }
  }

  lemma {:induction false} LeftoverIsBlocked(phases: seq<Phase>, ordered: seq<Number>)
    requires IsPrefixOrder(phases, ordered) && Stuck(phases, Known(phases) - Elements(ordered))
    ensures IsBlocked(phases, Known(phases) - Elements(ordered))
  {
    forall u | Stuck(phases, u)
      ensures u <= Known(phases) - Elements(ordered)
    {
      forall k | 0 <= k < |ordered|
        ensures ordered[k] !in u
      {
        OrderedIsNotStuck(phases, ordered, u, k);
      }
    }
  }

  // With distinct numbers, looking a phase up by its number finds that phase.
  lemma {:induction false} LookupFinds(phases: seq<Phase>, phaseByNum: map<Number, Phase>, p: Phase)
    requires Distinct(NumbersOf(phases)) && IsIndex(Known(phases), phases, phaseByNum) && p in phases
    ensures p.number in phaseByNum && phaseByNum[p.number] == p
  {
    var numbers := NumbersOf(phases);
    var i :| 0 <= i < |phases| && phases[i] == p;
    assert p.number in Known(phases);
    var j :| 0 <= j < |phases| && phases[j] == phaseByNum[p.number];
    assert numbers[i] == numbers[j];
  }

  lemma {:induction false} ScheduleIsPermutation(phases: seq<Phase>, result: seq<Phase>)
    requires Distinct(NumbersOf(phases)) && Distinct(NumbersOf(result))
    requires |result| == |phases| && Elements(result) <= Elements(phases)
    ensures multiset(result) == multiset(phases)
  {
    forall i, j | 0 <= i < j < |result|
      ensures result[i] != result[j]
    {
      assert NumbersOf(result)[i] != NumbersOf(result)[j];
    }
    forall i, j | 0 <= i < j < |phases|
      ensures phases[i] != phases[j]
    {
      assert NumbersOf(phases)[i] != NumbersOf(phases)[j];
    }
    DistinctSize(result);
    DistinctSize(phases);
    SubsetSize(Elements(result), Elements(phases));
    SameElementsPermute(result, phases);
  }

  lemma {:induction false} WavesAreCorrect(phases: seq<Phase>, phaseByNum: map<Number, Phase>, waves: map<Number, nat>)
    requires Distinct(NumbersOf(phases)) && IsIndex(Known(phases), phases, phaseByNum)
    requires waves.Keys == Known(phases) && WavesSoFar(phaseByNum, waves)
    ensures WavesCorrect(phases, waves)
  {
    hide IsWave;
    forall p | p in phases
      ensures IsWave(waves, p.dependsOn, waves[p.number])
    {
      LookupFinds(phases, phaseByNum, p);
    }
  }

  // When every dependency is known, the levels of the queue are the waves.
  lemma {:induction false} LevelIsWave(phases: seq<Phase>, order: seq<Number>,
      level: map<Number, nat>, waves: map<Number, nat>, i: nat)
    requires IsPrefixOrder(phases, order) && i < |order|
    requires WavesCorrect(phases, waves) && Distinct(NumbersOf(phases))
    requires level.Keys == Elements(order) && LevelsHold(phases, level)
    requires forall p, d :: p in phases && d in p.dependsOn ==> d in Known(phases)
    ensures order[i] in waves && level[order[i]] == waves[order[i]]
    decreases i
  {
    var n := order[i];
    assert n in Elements(order) && n in Known(phases);
    var p :| p in phases && p.number == n;
    assert IsLevel(phases, level, n) && IsWave(waves, p.dependsOn, waves[n]);
    forall d | d in Known(phases) && Depends(phases, n, d)
      ensures d in level && d in waves && level[d] == waves[d]
    {
      assert d in order[..i];
      var j :| 0 <= j < i && order[j] == d;
      LevelIsWave(phases, order, level, waves, j);
    }
    LevelFromDependencies(phases, level, waves, p);
  }

  lemma {:induction false} DependsOfOne(phases: seq<Phase>, p: Phase, d: Number)
    requires p in phases && Distinct(NumbersOf(phases))
    ensures Depends(phases, p.number, d) <==> d in p.dependsOn
  {
    if q :| q in phases && q.number == p.number && d in q.dependsOn {
      var i :| 0 <= i < |phases| && phases[i] == p;
      var j :| 0 <= j < |phases| && phases[j] == q;
      assert NumbersOf(phases)[i] == NumbersOf(phases)[j];
    }
  }

  lemma {:induction false} LevelFromDependencies(phases: seq<Phase>, level: map<Number, nat>, waves: map<Number, nat>,
      p: Phase)
    requires p in phases && Distinct(NumbersOf(phases)) && p.number in level && p.number in waves
    requires IsLevel(phases, level, p.number) && IsWave(waves, p.dependsOn, waves[p.number])
    requires forall d :: d in p.dependsOn ==> d in Known(phases)
    requires forall d :: d in Known(phases) && Depends(phases, p.number, d) ==>
      d in level && d in waves && level[d] == waves[d]
    ensures level[p.number] == waves[p.number]
  {
    var n := p.number;
    forall d
      ensures Depends(phases, n, d) <==> d in p.dependsOn
    {
      DependsOfOne(phases, p, d);
    }
    hide Distinct;
    if p.dependsOn != [] {
      var d :| d in p.dependsOn && waves[n] == WaveBelow(waves, d) + 1;
      assert Depends(phases, n, d) && level[d] < level[n];
      var e :| e in Known(phases) && Depends(phases, n, e) && (level[n] == 1 || level[n] == level[e] + 1);
      assert WaveBelow(waves, e) < waves[n];
    }
  }

  lemma {:induction false} WavesFollowTheOrder(phases: seq<Phase>, order: seq<Number>, level: map<Number, nat>,
      waves: map<Number, nat>)
    requires IsPrefixOrder(phases, order) && Elements(order) == Known(phases)
    requires WavesCorrect(phases, waves) && Distinct(NumbersOf(phases))
    requires SortedByLevel(level, order) && LevelsHold(phases, level)
    requires forall p, d :: p in phases && d in p.dependsOn ==> d in Known(phases)
    ensures SortedByLevel(waves, order)
  {
    hide WavesCorrect, IsPrefixOrder, LevelsHold;
    forall i, j | 0 <= i < j < |order|
      ensures order[i] in waves && order[j] in waves && waves[order[i]] <= waves[order[j]]
    {
      LevelIsWave(phases, order, level, waves, i);
      LevelIsWave(phases, order, level, waves, j);
    }
    WavesCoverPhases(phases, waves);
  }

  lemma {:induction false} WavesCoverPhases(phases: seq<Phase>, waves: map<Number, nat>)
    requires WavesCorrect(phases, waves)
    ensures waves.Keys == Known(phases)
  {
  }

  // The last dependency stands where it stands in any longer order that goes on after it.
  lemma {:induction false} LastStays(phases: seq<Phase>, order: seq<Number>, n: Number, k: nat)
    requires k <= |order|
    requires forall j :: k <= j < |order| ==> !Depends(phases, n, order[j])
    ensures LastDependency(phases, order, n) == LastDependency(phases, order[..k], n)
    decreases |order|
  {
    if k < |order| {
      LastStays(phases, order[..|order| - 1], n, k);
      assert order[..|order| - 1][..k] == order[..k];
    } else {
      assert order[..k] == order;
    }
  }

  // Dependencies first, and first ready first served: that leaves a single order of the
  // phases.
  lemma {:induction false} OrderIsDetermined(phases: seq<Phase>, order: seq<Number>, other: seq<Number>)
    requires IsPrefixOrder(phases, order) && IsFifo(phases, order, order)
    requires IsPrefixOrder(phases, other) && IsFifo(phases, other, other)
    requires Elements(order) == Elements(other)
    ensures order == other
  {
    hide IsPrefixOrder, IsFifo;
    OrdersAgree(phases, order, other, |order|);
    OrdersAgree(phases, other, order, |other|);
    assert order[..|order|] == order && other[..|other|] == other;
  }

  lemma {:induction false} OrdersAgree(phases: seq<Phase>, order: seq<Number>, other: seq<Number>, k: nat)
    requires IsPrefixOrder(phases, order) && IsFifo(phases, order, order)
    requires IsPrefixOrder(phases, other) && IsFifo(phases, other, other)
    requires Elements(order) == Elements(other) && k <= |order|
    ensures k <= |other| && order[..k] == other[..k]
  {
    DistinctSize(order);
    DistinctSize(other);
    if k > 0 {
      OrdersAgree(phases, order, other, k - 1);
      var a, b := order[k - 1], other[k - 1];
      if a != b {
        var i := LaterPosition(order, other, k - 1);
        var j := LaterPosition(other, order, k - 1);
        assert ReadyBefore(phases, other, other[k - 1], other[i]);
        assert ReadyBefore(phases, order, order[k - 1], order[j]);
        SameLast(phases, order, other, k - 1, j, k - 1);
        SameLast(phases, order, other, k - 1, k - 1, i);
      }
      assert order[..k] == order[..k - 1] + [a] && other[..k] == other[..k - 1] + [b];
    }
  }

  // An element of one order after a common front stands after that front in the other.
  lemma {:induction false} LaterPosition(order: seq<Number>, other: seq<Number>, k: nat) returns (i: nat)
    requires Distinct(order) && Elements(order) == Elements(other)
    requires k < |order| && k < |other| && order[..k] == other[..k] && order[k] != other[k]
    ensures k < i < |other| && other[i] == order[k]
  {
    assert order[k] in Elements(other);
    i :| 0 <= i < |other| && other[i] == order[k];
    assert forall m :: 0 <= m < k ==> order[m] == order[..k][m] == other[..k][m] == other[m];
  }

  // Where two orders have a common front, what depends on the front alone was ready at the
  // same time.
  lemma {:induction false} SameLast(phases: seq<Phase>, order: seq<Number>, other: seq<Number>, k: nat, i: nat, j: nat)
    requires IsPrefixOrder(phases, order) && IsPrefixOrder(phases, other)
    requires k < |order| && k < |other| && order[..k] == other[..k] && Elements(order) == Elements(other)
    requires i < |order| && j < |other| && order[i] == other[j] && k <= i && k <= j && (i == k || j == k)
    ensures LastDependency(phases, order, order[i]) == LastDependency(phases, other, order[i])
  {
    forall l | k <= l < |order|
      ensures !Depends(phases, order[i], order[l])
    {
      OnlyOnFront(phases, order, other, k, i, j, order[l]);
    }
    forall l | k <= l < |other|
      ensures !Depends(phases, order[i], other[l])
    {
      OnlyOnFront(phases, order, other, k, i, j, other[l]);
    }
    LastStays(phases, order, order[i], k);
    LastStays(phases, other, order[i], k);
  }

  lemma {:induction false} OnlyOnFront(
    phases: seq<Phase>, order: seq<Number>, other: seq<Number>, k: nat, i: nat, j: nat, d: Number)
    requires IsPrefixOrder(phases, order) && IsPrefixOrder(phases, other)
    requires k < |order| && k < |other| && order[..k] == other[..k] && Elements(order) == Elements(other)
    requires i < |order| && j < |other| && order[i] == other[j] && (i == k || j == k)
    requires d in order[k..] || d in other[k..]
    ensures !Depends(phases, order[i], d)
  {
    if Depends(phases, order[i], d) {
      assert d in Elements(order) && d in Known(phases);
      assert d in order[..i] && d in other[..j];
      assert d in order[..k];
      FrontIsApart(order, k, d);
      FrontIsApart(other, k, d);
    }
  }

  lemma {:induction false} FrontIsApart(order: seq<Number>, k: nat, d: Number)
    requires Distinct(order) && k <= |order| && d in order[..k]
    ensures d !in order[k..]
  {
  }

  ghost predicate AllDependenciesKnown(phases: seq<Phase>) {
    forall p, d :: p in phases && d in p.dependsOn ==> d in Known(phases)
  }

  method ResolvePhaseDependencies(phases: seq<Phase>) returns (r: Schedule)
    ensures r.valid <==> Distinct(NumbersOf(phases)) && !HasCycle(phases)
    ensures r.valid ==> IsGoodSchedule(phases, r)
    ensures r.valid && AllDependenciesKnown(phases) ==> SortedByLevel(r.waves, NumbersOf(r.orderedPhases))
    ensures !r.valid ==> r.orderedPhases == [] && r.waves == map[]
    ensures !r.valid ==> exists remaining ::
      && r.errors == [CycleDetected(remaining)] && IsBlocked(phases, Elements(remaining))
      && remaining == Outside(NumbersOf(phases), Known(phases) - Elements(remaining))
  {
    hide HasCycle, IsPrefixOrder, WavesCorrect, IsBlocked, Stuck, SortedByLevel, LevelsHold, WavesSoFar, IsFifo;
    var keys, adj, inDegree, phaseByNum := BuildGraph(phases);
    var ordered, level := Sort(phases, keys, adj, inDegree);
    LengthTest(phases, ordered);
    if |ordered| != |phases| {
      var remaining := Remaining(phases, ordered);
      RemainingIsBlocked(phases, ordered, remaining);
      return Schedule([], map[], false, [CycleDetected(remaining)]);
    }
    var waves := AssignWaves(phases, ordered, phaseByNum);
    var errors := VerifyOrder(phases, ordered, phaseByNum);
    var orderedPhases := PhasesInOrder(phases, ordered, phaseByNum);
    r := Schedule(orderedPhases, waves, |errors| == 0, errors);
    OrderIsDistinct(phases, ordered);
    ScheduleIsPermutation(phases, orderedPhases);
    WavesAreCorrect(phases, phaseByNum, waves);
    if AllDependenciesKnown(phases) {
      WavesFollowTheOrder(phases, ordered, level, waves);
    }
  }

  lemma {:induction false} OrderIsDistinct(phases: seq<Phase>, ordered: seq<Number>)
    requires IsPrefixOrder(phases, ordered)
    ensures Distinct(ordered)
  {
  }
}
