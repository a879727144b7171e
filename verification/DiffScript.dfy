// The unified diff of src/commands/agent.js (generateUnifiedDiff): a longest-common-
// subsequence table, a script read off it backwards, and hunks cut out of the script.

// Lines of text and the script between two lists of them.
module DiffScript {

  datatype Line = Line(text: string)

  datatype Kind = Common | Remove | Add

  // lineA and lineB count the lines of either side up to and including this entry.
  datatype Edit = Edit(kind: Kind, lineA: nat, lineB: nat, text: Line)

  // The entries' old side: what the script reads.
  function Old(edits: seq<Edit>): seq<Line> {
    if edits == [] then []
    else (if edits[0].kind == Add then [] else [edits[0].text]) + Old(edits[1..])
  }

  // The entries' new side: what the script writes.
  function New(edits: seq<Edit>): seq<Line> {
    if edits == [] then []
    else (if edits[0].kind == Remove then [] else [edits[0].text]) + New(edits[1..])
  }

  function CommonCount(edits: seq<Edit>): nat {
    if edits == [] then 0
    else (if edits[0].kind == Common then 1 else 0) + CommonCount(edits[1..])
  }

  // A script from a to b.
  ghost predicate IsScript(edits: seq<Edit>, a: seq<Line>, b: seq<Line>) {
    Old(edits) == a && New(edits) == b
  }

  lemma {:induction false} SidesPrepend(e: Edit, rest: seq<Edit>)
    ensures Old([e] + rest) == (if e.kind == Add then [] else [e.text]) + Old(rest)
    ensures New([e] + rest) == (if e.kind == Remove then [] else [e.text]) + New(rest)
    ensures CommonCount([e] + rest) == (if e.kind == Common then 1 else 0) + CommonCount(rest)
  {
    assert ([e] + rest)[1..] == rest;
  }

  lemma {:induction false} ConcatAssociates(x: seq<Line>, y: seq<Line>, z: seq<Line>)
    ensures x + y + z == x + (y + z)
  {
  }

  lemma {:induction false} OldConcat(x: seq<Edit>, y: seq<Edit>)
    ensures Old(x + y) == Old(x) + Old(y)
  {
    if x == [] {
      assert x + y == y;
    } else {
      assert (x + y)[0] == x[0] && (x + y)[1..] == x[1..] + y;
      OldConcat(x[1..], y);
      ConcatAssociates(if x[0].kind == Add then [] else [x[0].text], Old(x[1..]), Old(y));
    }
  }

  lemma {:induction false} NewConcat(x: seq<Edit>, y: seq<Edit>)
    ensures New(x + y) == New(x) + New(y)
  {
    if x == [] {
      assert x + y == y;
    } else {
      assert (x + y)[0] == x[0] && (x + y)[1..] == x[1..] + y;
      NewConcat(x[1..], y);
      ConcatAssociates(if x[0].kind == Remove then [] else [x[0].text], New(x[1..]), New(y));
    }
  }

  lemma {:induction false} CountConcat(x: seq<Edit>, y: seq<Edit>)
    ensures CommonCount(x + y) == CommonCount(x) + CommonCount(y)
  {
    if x == [] {
      assert x + y == y;
    } else {
      assert (x + y)[0] == x[0] && (x + y)[1..] == x[1..] + y;
      CountConcat(x[1..], y);
    }
  }

  lemma {:induction false} SidesConcat(x: seq<Edit>, y: seq<Edit>)
    ensures Old(x + y) == Old(x) + Old(y)
    ensures New(x + y) == New(x) + New(y)
    ensures CommonCount(x + y) == CommonCount(x) + CommonCount(y)
  {
    OldConcat(x, y);
    NewConcat(x, y);
    CountConcat(x, y);
  }

  lemma {:induction false} SidesSplit(edits: seq<Edit>, k: nat)
    requires k <= |edits|
    ensures Old(edits) == Old(edits[..k]) + Old(edits[k..])
    ensures New(edits) == New(edits[..k]) + New(edits[k..])
    ensures CommonCount(edits) == CommonCount(edits[..k]) + CommonCount(edits[k..])
  {
    assert edits == edits[..k] + edits[k..];
    SidesConcat(edits[..k], edits[k..]);
  }

  // Every entry is common, removed or added.
  lemma {:induction false} ScriptSize(edits: seq<Edit>)
    ensures |Old(edits)| + |New(edits)| == |edits| + CommonCount(edits)
    ensures CommonCount(edits) <= |Old(edits)| && CommonCount(edits) <= |New(edits)|
    ensures CommonCount(edits) <= |edits|
  {
    if edits != [] {
      ScriptSize(edits[1..]);
    }
  }

  // ---------- Longest common subsequences ----------

  // c occurs in the first n lines of s at the strictly increasing positions `at`.
  ghost predicate Embeds(c: seq<Line>, s: seq<Line>, n: nat, at: seq<nat>) {
    && |at| == |c| && n <= |s|
    && (forall k :: 0 <= k < |at| ==> at[k] < n && s[at[k]] == c[k])
    && forall k, l :: 0 <= k < l < |at| ==> at[k] < at[l]
  }

  ghost predicate IsCommonSubsequence(c: seq<Line>, a: seq<Line>, b: seq<Line>) {
    (exists f :: Embeds(c, a, |a|, f)) && (exists g :: Embeds(c, b, |b|, g))
  }

  // The value the table is meant to hold for the first i lines of a and j lines of b.
  function Lcs(a: seq<Line>, b: seq<Line>, i: nat, j: nat): nat
    requires i <= |a| && j <= |b|
  {
    if i == 0 || j == 0 then 0
    else if a[i - 1] == b[j - 1] then Lcs(a, b, i - 1, j - 1) + 1
    else if Lcs(a, b, i - 1, j) >= Lcs(a, b, i, j - 1) then Lcs(a, b, i - 1, j)
    else Lcs(a, b, i, j - 1)
  }

  lemma {:induction false} EmbedsShorter(c: seq<Line>, s: seq<Line>, n: nat, at: seq<nat>, m: nat)
    requires Embeds(c, s, n, at) && c != []
    requires at[|at| - 1] <= m <= n
    ensures Embeds(c[..|c| - 1], s, m, at[..|at| - 1])
  {
  }

  lemma {:induction false} LcsBounds(a: seq<Line>, b: seq<Line>, i: nat, j: nat,
      c: seq<Line>, f: seq<nat>, g: seq<nat>)
    requires Embeds(c, a, i, f) && Embeds(c, b, j, g)
    ensures |c| <= Lcs(a, b, i, j)
    decreases i + j
  {
    if c != [] {
      var last := |c| - 1;
      assert f[last] < i && g[last] < j;
      if a[i - 1] == b[j - 1] {
        EmbedsShorter(c, a, i, f, i - 1);
        EmbedsShorter(c, b, j, g, j - 1);
        LcsBounds(a, b, i - 1, j - 1, c[..last], f[..last], g[..last]);
      } else if f[last] < i - 1 {
        assert Embeds(c, a, i - 1, f);
        LcsBounds(a, b, i - 1, j, c, f, g);
      } else {
        assert Embeds(c, b, j - 1, g);
        LcsBounds(a, b, i, j - 1, c, f, g);
      }
    }
  }

  lemma {:induction false} EmbedsLonger(c: seq<Line>, s: seq<Line>, at: seq<nat>, t: seq<Line>)
    requires Embeds(c, s, |s|, at) && s <= t
    ensures Embeds(c, t, |s|, at) && Embeds(c, t, |t|, at)
  {
  }

  // The lines a script keeps, with the positions they have on either side.
  lemma {:induction false} KeptLines(edits: seq<Edit>) returns (c: seq<Line>, f: seq<nat>, g: seq<nat>)
    ensures |c| == CommonCount(edits)
    ensures Embeds(c, Old(edits), |Old(edits)|, f) && Embeds(c, New(edits), |New(edits)|, g)
  {
    if edits == [] {
      c, f, g := [], [], [];
    } else {
      var init, last := edits[..|edits| - 1], edits[|edits| - 1];
      assert edits == init + [last];
      SidesConcat(init, [last]);
      assert CommonCount([last]) == (if last.kind == Common then 1 else 0);
      c, f, g := KeptLines(init);
      assert Old([last]) == (if last.kind == Add then [] else [last.text]);
      assert New([last]) == (if last.kind == Remove then [] else [last.text]);
      hide Old, New, CommonCount;
      EmbedsLonger(c, Old(init), f, Old(edits));
      EmbedsLonger(c, New(init), g, New(edits));
      if last.kind == Common {
        c, f, g := c + [last.text], f + [|Old(init)|], g + [|New(init)|];
      }
    }
  }

  // No script keeps more lines than the longest common subsequence has.
  lemma {:induction false} ScriptBound(edits: seq<Edit>, a: seq<Line>, b: seq<Line>)
    requires IsScript(edits, a, b)
    ensures CommonCount(edits) <= Lcs(a, b, |a|, |b|)
  {
    var c, f, g := KeptLines(edits);
    LcsBounds(a, b, |a|, |b|, c, f, g);
  }

  // ---------- The table and the backtracking ----------

  ghost predicate IsTable(dp: array2<nat>, a: seq<Line>, b: seq<Line>)
    reads dp
  {
    && dp.Length0 == |a| + 1 && dp.Length1 == |b| + 1
    && forall i, j :: 0 <= i <= |a| && 0 <= j <= |b| ==> dp[i, j] == Lcs(a, b, i, j)
  }

  // One cell, from its three neighbours.
  lemma {:induction false} LcsCell(a: seq<Line>, b: seq<Line>, i: nat, j: nat)
    requires 0 < i <= |a| && 0 < j <= |b|
    ensures Lcs(a, b, i, j) ==
      if a[i - 1] == b[j - 1] then Lcs(a, b, i - 1, j - 1) + 1
      else if Lcs(a, b, i - 1, j) >= Lcs(a, b, i, j - 1) then Lcs(a, b, i - 1, j) else Lcs(a, b, i, j - 1)
  {
  }

  lemma {:induction false} LcsEdge(a: seq<Line>, b: seq<Line>, i: nat, j: nat)
    requires i <= |a| && j <= |b| && (i == 0 || j == 0)
    ensures Lcs(a, b, i, j) == 0
  {
  }

  method FillRow(a: seq<Line>, b: seq<Line>, dp: array2<nat>, i: nat)
    requires dp.Length0 == |a| + 1 && dp.Length1 == |b| + 1 && 0 < i <= |a|
    requires forall x, y :: 0 <= x < i && 0 <= y <= |b| ==> dp[x, y] == Lcs(a, b, x, y)
    requires dp[i, 0] == 0
    modifies dp
    ensures forall y :: 0 <= y <= |b| ==> dp[i, y] == Lcs(a, b, i, y)
    ensures forall x, y :: 0 <= x <= |a| && 0 <= y <= |b| && x != i ==> dp[x, y] == old(dp[x, y])
  {
    hide Lcs;
    LcsEdge(a, b, i, 0);
    for j := 1 to |b| + 1
      invariant forall y :: 0 <= y < j ==> dp[i, y] == Lcs(a, b, i, y)
      invariant forall x, y :: 0 <= x <= |a| && 0 <= y <= |b| && x != i ==> dp[x, y] == old(dp[x, y])
    {
      LcsCell(a, b, i, j);
      if a[i - 1] == b[j - 1] {
        dp[i, j] := dp[i - 1, j - 1] + 1;
      } else {
        dp[i, j] := if dp[i - 1, j] >= dp[i, j - 1] then dp[i - 1, j] else dp[i, j - 1];
      }
    }
  }

  method FillTable(a: seq<Line>, b: seq<Line>) returns (dp: array2<nat>)
    ensures IsTable(dp, a, b) && fresh(dp)
  {
    hide Lcs;
    dp := new nat[|a| + 1, |b| + 1]((i, j) => 0);
    forall y | 0 <= y <= |b|
      ensures Lcs(a, b, 0, y) == 0
    {
      LcsEdge(a, b, 0, y);
    }
    for i := 1 to |a| + 1
      invariant forall x, y :: 0 <= x < i && 0 <= y <= |b| ==> dp[x, y] == Lcs(a, b, x, y)
      invariant forall x :: i <= x <= |a| ==> dp[x, 0] == 0
    {
      FillRow(a, b, dp, i);
    }
  }

  // Entry k carries the number of lines either side has been advanced by.
  ghost predicate Numbered(edits: seq<Edit>, i: nat, j: nat)
    decreases edits
  {
    edits == [] ||
    (var e := edits[0];
     var i', j' := i + (if e.kind == Add then 0 else 1), j + (if e.kind == Remove then 0 else 1);
     e.lineA == i' && e.lineB == j' && Numbered(edits[1..], i', j'))
  }

  lemma {:induction false} NumberedAt(edits: seq<Edit>, i: nat, j: nat, k: nat)
    requires Numbered(edits, i, j) && k < |edits|
    ensures edits[k].lineA == i + |Old(edits[..k + 1])|
    ensures edits[k].lineB == j + |New(edits[..k + 1])|
    decreases k
  {
    var e := edits[0];
    assert edits[..k + 1][0] == e && edits[..k + 1][1..] == edits[1..][..k];
    if k > 0 {
      NumberedAt(edits[1..], e.lineA, e.lineB, k - 1);
    }
  }

  // What the walk has produced when it stands at (i, j): a script for the two tails that
  // loses nothing the table promises.
  ghost predicate IsTail(edits: seq<Edit>, a: seq<Line>, b: seq<Line>, i: nat, j: nat) {
    && i <= |a| && j <= |b|
    && IsScript(edits, a[i..], b[j..])
    && CommonCount(edits) + Lcs(a, b, i, j) == Lcs(a, b, |a|, |b|)
    && Numbered(edits, i, j)
  }

  lemma {:induction false} NumberedPrepend(e: Edit, edits: seq<Edit>, i: nat, j: nat)
    requires e.lineA == i + (if e.kind == Add then 0 else 1)
    requires e.lineB == j + (if e.kind == Remove then 0 else 1)
    requires Numbered(edits, e.lineA, e.lineB)
    ensures Numbered([e] + edits, i, j)
  {
    assert ([e] + edits)[1..] == edits;
  }

  lemma {:induction false} TailGrows(e: Edit, edits: seq<Edit>, a: seq<Line>, b: seq<Line>, i: nat, j: nat, i': nat,
      j': nat)
    requires IsTail(edits, a, b, i, j) && i' <= i && j' <= j
    requires e.lineA == i && e.lineB == j
    requires i' == (if e.kind == Add then i else i - 1) && j' == (if e.kind == Remove then j else j - 1)
    requires e.kind != Add ==> e.text == a[i']
    requires e.kind != Remove ==> e.text == b[j']
    requires Lcs(a, b, i, j) == Lcs(a, b, i', j') + (if e.kind == Common then 1 else 0)
    ensures IsTail([e] + edits, a, b, i', j')
  {
    hide Old, New, CommonCount, Numbered, Lcs;
    SidesPrepend(e, edits);
    NumberedPrepend(e, edits, i', j');
    if e.kind != Add {
      assert a[i'..] == [a[i']] + a[i..];
    }
    if e.kind != Remove {
      assert b[j'..] == [b[j']] + b[j..];
    }
  }

  // What the walk takes at lines (lineA, lineB): a common line whenever it can; otherwise it
  // gives up whichever line costs nothing, an added one if both do.
  ghost predicate IsChosen(e: Edit, a: seq<Line>, b: seq<Line>) {
    && e.lineA <= |a| && e.lineB <= |b|
    && var equal := e.lineA > 0 && e.lineB > 0 && a[e.lineA - 1] == b[e.lineB - 1];
       match e.kind
       case Common => equal
       case Add =>
         && e.lineB > 0 && !equal
         && (e.lineA == 0 || Lcs(a, b, e.lineA, e.lineB - 1) >= Lcs(a, b, e.lineA - 1, e.lineB))
       case Remove =>
         && e.lineA > 0 && !equal
         && (e.lineB == 0 || Lcs(a, b, e.lineA, e.lineB - 1) < Lcs(a, b, e.lineA - 1, e.lineB))
  }

  ghost predicate AllChosen(edits: seq<Edit>, a: seq<Line>, b: seq<Line>) {
    forall k :: 0 <= k < |edits| ==> IsChosen(edits[k], a, b)
  }

  lemma {:induction false} ChosenPrepend(e: Edit, edits: seq<Edit>, a: seq<Line>, b: seq<Line>)
    requires IsChosen(e, a, b) && AllChosen(edits, a, b)
    ensures AllChosen([e] + edits, a, b)
  {
    hide IsChosen;
  }

  // Walks the table backwards from its last corner.
  method Backtrack(a: seq<Line>, b: seq<Line>, dp: array2<nat>) returns (edits: seq<Edit>)
    requires IsTable(dp, a, b)
    ensures IsScript(edits, a, b)
    ensures CommonCount(edits) == Lcs(a, b, |a|, |b|)
    ensures Numbered(edits, 0, 0) && AllChosen(edits, a, b)
  {
    hide Lcs, IsTail, Old, New, CommonCount, Numbered, AllChosen;
    edits := [];
    var i: nat, j: nat := |a|, |b|;
    NothingWalked(a, b);
    while i > 0 || j > 0
      invariant i <= |a| && j <= |b|
      invariant IsTail(edits, a, b, i, j) && AllChosen(edits, a, b)
      decreases i + j
    {
      if i > 0 && j > 0 {
        LcsCell(a, b, i, j);
      } else {
        LcsEdge(a, b, i, j);
        LcsEdge(a, b, if i > 0 then i - 1 else 0, if j > 0 then j - 1 else 0);
      }
      if i > 0 && j > 0 && a[i - 1] == b[j - 1] {
        TailGrows(Edit(Common, i, j, a[i - 1]), edits, a, b, i, j, i - 1, j - 1);
        ChosenPrepend(Edit(Common, i, j, a[i - 1]), edits, a, b);
        edits := [Edit(Common, i, j, a[i - 1])] + edits;
        i, j := i - 1, j - 1;
      } else if j > 0 && (i == 0 || dp[i, j - 1] >= dp[i - 1, j]) {
        TailGrows(Edit(Add, i, j, b[j - 1]), edits, a, b, i, j, i, j - 1);
        ChosenPrepend(Edit(Add, i, j, b[j - 1]), edits, a, b);
        edits := [Edit(Add, i, j, b[j - 1])] + edits;
        j := j - 1;
      } else {
        TailGrows(Edit(Remove, i, j, a[i - 1]), edits, a, b, i, j, i - 1, j);
        ChosenPrepend(Edit(Remove, i, j, a[i - 1]), edits, a, b);
        edits := [Edit(Remove, i, j, a[i - 1])] + edits;
        i := i - 1;
      }
    }
    EverythingWalked(edits, a, b);
  }

  lemma {:induction false} NothingWalked(a: seq<Line>, b: seq<Line>)
    ensures IsTail([], a, b, |a|, |b|) && AllChosen([], a, b)
  {
  }

  lemma {:induction false} EverythingWalked(edits: seq<Edit>, a: seq<Line>, b: seq<Line>)
    requires IsTail(edits, a, b, 0, 0)
    ensures IsScript(edits, a, b) && CommonCount(edits) == Lcs(a, b, |a|, |b|) && Numbered(edits, 0, 0)
  {
    assert a[0..] == a && b[0..] == b;
  }

  lemma {:induction false} NumberedFront(edits: seq<Edit>, i: nat, j: nat)
    requires edits != [] && Numbered(edits, i, j)
    ensures Numbered(edits[..|edits| - 1], i, j)
    decreases edits
  {
    if |edits| > 1 {
      NumberedFront(edits[1..], edits[0].lineA, edits[0].lineB);
      assert edits[..|edits| - 1][1..] == edits[1..][..|edits| - 2];
    }
  }

  // The last entry stands at the last lines of both sides; without it the sides are shorter.
  lemma {:induction false} LastEntry(edits: seq<Edit>)
    requires edits != [] && Numbered(edits, 0, 0)
    ensures var front, e := edits[..|edits| - 1], edits[|edits| - 1];
            && e.lineA == |Old(edits)| && e.lineB == |New(edits)| && Numbered(front, 0, 0)
            && Old(edits) == Old(front) + (if e.kind == Add then [] else [e.text])
            && New(edits) == New(front) + (if e.kind == Remove then [] else [e.text])
  {
    var front, e := edits[..|edits| - 1], edits[|edits| - 1];
    NumberedAt(edits, 0, 0, |edits| - 1);
    NumberedFront(edits, 0, 0);
    assert edits[..|edits|] == edits && edits == front + [e];
    SidesConcat(front, [e]);
    SidesPrepend(e, []);
    assert [e] + [] == [e];
    hide Numbered;
  }

  lemma {:induction false} OneIsChosen(e: Edit, f: Edit, a: seq<Line>, b: seq<Line>)
    requires IsChosen(e, a, b) && IsChosen(f, a, b) && e.lineA == f.lineA && e.lineB == f.lineB
    ensures e.kind == f.kind
  {
    hide Lcs;
  }

  // Those choices leave no freedom: there is only one such script.
  lemma {:induction false} ScriptIsDetermined(edits: seq<Edit>, other: seq<Edit>, a: seq<Line>, b: seq<Line>)
    requires Numbered(edits, 0, 0) && AllChosen(edits, a, b)
    requires Numbered(other, 0, 0) && AllChosen(other, a, b)
    requires Old(edits) == Old(other) && New(edits) == New(other)
    ensures edits == other
    decreases |edits|
  {
    hide Lcs, IsChosen, Numbered;
    if edits == [] || other == [] {
      ScriptSize(edits);
      ScriptSize(other);
    } else {
      var e, f := edits[|edits| - 1], other[|other| - 1];
      LastEntry(edits);
      LastEntry(other);
      OneIsChosen(e, f, a, b);
      hide Old, New;
      SameFront(Old(edits[..|edits| - 1]), Old(other[..|other| - 1]), e.text, f.text, e.kind == Add);
      SameFront(New(edits[..|edits| - 1]), New(other[..|other| - 1]), e.text, f.text, e.kind == Remove);
      ScriptIsDetermined(edits[..|edits| - 1], other[..|other| - 1], a, b);
      assert edits == edits[..|edits| - 1] + [e] && other == other[..|other| - 1] + [f];
    }
  }

  lemma {:induction false} SameFront(x: seq<Line>, y: seq<Line>, s: Line, t: Line, skip: bool)
    requires x + (if skip then [] else [s]) == y + (if skip then [] else [t])
    ensures x == y && (skip || s == t)
  {
    if skip {
      assert x + [] == x && y + [] == y;
    } else {
      assert |x| == |y|;
      assert (x + [s])[..|x|] == x && (y + [t])[..|y|] == y;
      assert (x + [s])[|x|] == s && (y + [t])[|y|] == t;
    }
  }

  // An added line directly before a removed one is never a matter of taste: the other way
  // round would lose a common line.
  lemma {:induction false} RemovalsComeFirst(edits: seq<Edit>, a: seq<Line>, b: seq<Line>, k: nat)
    requires Numbered(edits, 0, 0) && AllChosen(edits, a, b) && k + 1 < |edits|
    requires edits[k].kind == Add && edits[k + 1].kind == Remove
    ensures edits[k + 1].lineA <= |a| && 0 < edits[k + 1].lineB <= |b| && edits[k + 1].lineA > 0
    ensures Lcs(a, b, edits[k + 1].lineA, edits[k + 1].lineB - 1)
            < Lcs(a, b, edits[k + 1].lineA - 1, edits[k + 1].lineB)
  {
    hide Lcs, Numbered, Old, New, IsChosen;
    var e, f := edits[k], edits[k + 1];
    assert IsChosen(e, a, b) && IsChosen(f, a, b);
    NumberedAt(edits, 0, 0, k);
    NumberedAt(edits, 0, 0, k + 1);
    assert edits[..k + 2] == edits[..k + 1] + [f];
    SidesConcat(edits[..k + 1], [f]);
    OneEntry(f);
    ChosenMeans(e, a, b);
    ChosenMeans(f, a, b);
  }

  lemma {:induction false} OneEntry(e: Edit)
    ensures Old([e]) == (if e.kind == Add then [] else [e.text])
    ensures New([e]) == (if e.kind == Remove then [] else [e.text])
  {
    SidesPrepend(e, []);
    assert [e] + [] == [e];
  }

  lemma {:induction false} ChosenMeans(e: Edit, a: seq<Line>, b: seq<Line>)
    requires IsChosen(e, a, b)
    ensures e.lineA <= |a| && e.lineB <= |b|
    ensures e.kind == Add ==> e.lineB > 0
    ensures e.kind == Remove && e.lineB > 0 ==>
      e.lineA > 0 && Lcs(a, b, e.lineA, e.lineB - 1) < Lcs(a, b, e.lineA - 1, e.lineB)
  {
    hide Lcs;
  }

  // The table's last entry is the length of a longest common subsequence.
  lemma {:induction false} LcsIsLongest(edits: seq<Edit>, a: seq<Line>, b: seq<Line>)
    requires IsScript(edits, a, b) && CommonCount(edits) == Lcs(a, b, |a|, |b|)
    ensures exists c :: IsCommonSubsequence(c, a, b) && |c| == Lcs(a, b, |a|, |b|)
    ensures forall c :: IsCommonSubsequence(c, a, b) ==> |c| <= Lcs(a, b, |a|, |b|)
  {
    var c, f, g := KeptLines(edits);
    assert IsCommonSubsequence(c, a, b);
    forall c | IsCommonSubsequence(c, a, b)
      ensures |c| <= Lcs(a, b, |a|, |b|)
    {
      var f :| Embeds(c, a, |a|, f);
      var g :| Embeds(c, b, |b|, g);
      LcsBounds(a, b, |a|, |b|, c, f, g);
    }
  }

  // No script between the two lists has fewer additions and removals.
  lemma {:induction false} ScriptIsMinimal(edits: seq<Edit>, other: seq<Edit>, a: seq<Line>, b: seq<Line>)
    requires IsScript(edits, a, b) && CommonCount(edits) == Lcs(a, b, |a|, |b|)
    requires IsScript(other, a, b)
    ensures |edits| - CommonCount(edits) <= |other| - CommonCount(other)
  {
    ScriptSize(edits);
    ScriptSize(other);
    ScriptBound(other, a, b);
  }

  // A minimal script between equal lists has no changes, and only such a script.
  lemma {:induction false} UnchangedExactlyWhenEqual(edits: seq<Edit>, a: seq<Line>, b: seq<Line>)
    requires IsScript(edits, a, b) && CommonCount(edits) == Lcs(a, b, |a|, |b|)
    ensures a == b <==> CommonCount(edits) == |edits|
  {
    ScriptSize(edits);
    if a == b {
      var at: seq<nat> := seq(|a|, i requires 0 <= i < |a| => i);
      LcsBounds(a, b, |a|, |b|, a, at, at);
    } else if CommonCount(edits) == |edits| {
      AllCommonSides(edits);
    }
  }

  lemma {:induction false} AllCommonSides(edits: seq<Edit>)
    requires CommonCount(edits) == |edits|
    ensures Old(edits) == New(edits)
    ensures forall k :: 0 <= k < |edits| ==> edits[k].kind == Common
  {
    if edits != [] {
      ScriptSize(edits[1..]);
      AllCommonSides(edits[1..]);
    }
  }
}
