// Conditional elision (plugin.js, elideConditionalSections and evaluateElisionCondition):
// markers are located on the original text, then false sections are cut out from last to
// first of a text that shrinks.
module Elision {
  import opened ElisionText

  // ---------- Conditions ----------

  datatype Value =
    | Undefined
    | Null
    | NaN
    | Bool(b: bool)
    | Num(n: int)
    | Str(s: string)
    | Obj(fields: map<string, Value>)

  type Enrichment = map<string, Value>

  // JavaScript's Boolean(v).
  predicate Truthy(v: Value) {
    match v
    case Undefined => false
    case Null => false
    case NaN => false
    case Bool(b) => b
    case Num(n) => n != 0
    case Str(s) => s != ""
    case Obj(_) => true
  }

  // The strings "true" and "false" count as the booleans.
  predicate Holds(v: Value) {
    if v == Str("true") then true
    else if v == Str("false") then false
    else Truthy(v)
  }

  function Field(fields: map<string, Value>, key: string): Value {
    if key in fields then fields[key] else Undefined
  }

  const PROTO := "__proto__"

  // The same for a property that may be inherited: every object inherits `__proto__`, whose
  // value is an object without a `value`. What else it inherits are functions, which count as
  // true, just as a missing property does here.
  function Property(fields: map<string, Value>, key: string): Value {
    if key in fields then fields[key] else if key == PROTO then Obj(map[]) else Undefined
  }

  predicate EvaluateCondition(key: string, enrichment: Enrichment) {
    if key == "" then true
    else if key in enrichment then Holds(enrichment[key])
    else
      var decisions := Field(enrichment, "decisions");
      if decisions.Obj? then
        var decision := Property(decisions.fields, key);
        if decision != Undefined && decision != Null then
          Holds(if decision.Obj? then Field(decision.fields, "value") else decision)
        else true
      else true
  }

  // The values that count as false.
  lemma {:induction false} FalseValues(v: Value)
    ensures !Holds(v) <==> v in {Undefined, Null, NaN, Bool(false), Num(0), Str(""), Str("false")}
  {
    assert "true" != "" && "false" != "";
  }

  // v is what is known about a key: its own value or, failing that, the decision taken on it.
  ghost predicate IsKnownAs(key: string, enrichment: Enrichment, v: Value) {
    if key in enrichment then v == enrichment[key]
    else
      && "decisions" in enrichment && enrichment["decisions"].Obj?
      && var decision := Property(enrichment["decisions"].fields, key);
         decision !in {Undefined, Null} && v == if decision.Obj? then Field(decision.fields, "value") else decision
  }

  // A section goes exactly when its condition has a name about which something is known that
  // counts as false; without a name, or with nothing known, it stays.
  lemma {:induction false} FalseExactlyWhenKnown(key: string, enrichment: Enrichment)
    ensures !EvaluateCondition(key, enrichment) <==>
      key != "" && exists v :: IsKnownAs(key, enrichment, v) && !Holds(v)
  {
    if key != "" && !EvaluateCondition(key, enrichment) {
      if key in enrichment {
        assert IsKnownAs(key, enrichment, enrichment[key]);
      } else {
        var decision := Property(enrichment["decisions"].fields, key);
        var v := if decision.Obj? then Field(decision.fields, "value") else decision;
        assert IsKnownAs(key, enrichment, v);
      }
    }
  }

  // Nothing has to be decided on a name for its section to go: `__proto__` is inherited.
  lemma {:induction false} ProtoNeedsNoDecision(enrichment: Enrichment)
    requires PROTO !in enrichment && "decisions" in enrichment && enrichment["decisions"].Obj?
    requires PROTO !in enrichment["decisions"].fields
    ensures !EvaluateCondition(PROTO, enrichment)
  {
    assert PROTO != "";
    assert Property(enrichment["decisions"].fields, PROTO) == Obj(map[]);
  }

  // ---------- Cutting one section ----------

  function DropNewline(text: string): string {
    if text != "" && text[0] == '\n' then text[1..] else text
  }

  // Where the section opened by m ends in the current text.
  function SectionEnd(text: string, m: Marker): (end: nat)
    requires m.end <= |text|
    ensures m.end <= end <= |text|
  {
    var close := IndexOf(text, SECTION_CLOSE, m.end);
    if close == -1 then |text| else close + |SECTION_CLOSE|
  }

  function Cut(text: string, m: Marker): string
    requires m.start <= m.end <= |text|
  {
    text[..m.start] + DropNewline(text[SectionEnd(text, m)..])
  }

  function CeilQuarter(n: nat): nat {
    (n + 3) / 4
  }

  // ---------- The loop ----------

  ghost predicate InOrder(text: string, marks: seq<Marker>) {
    && (forall i :: 0 <= i < |marks| ==> marks[i].start < marks[i].end <= |text|)
    && forall i, j :: 0 <= i < j < |marks| ==> marks[i].end <= marks[j].start
  }

  // Where marker i starts; past the last marker, the end of the text.
  function StartOf(text: string, marks: seq<Marker>, i: nat): nat {
    if i < |marks| then marks[i].start else |text|
  }

  // The text after the markers from i on have been dealt with. What lies before marker i is
  // exactly as in the original, so an index taken on the original still fits.
  function Elided(text: string, marks: seq<Marker>, enrichment: Enrichment, i: nat): (result: string)
    requires InOrder(text, marks) && i <= |marks|
    ensures StartOf(text, marks, i) <= |text| && StartOf(text, marks, i) <= |result|
    ensures result[..StartOf(text, marks, i)] == text[..StartOf(text, marks, i)]
    decreases |marks| - i
  {
    if i == |marks| then text
    else
      var rest := Elided(text, marks, enrichment, i + 1);
      assert rest[..marks[i].start] == rest[..StartOf(text, marks, i + 1)][..marks[i].start];
      assert text[..marks[i].start] == text[..StartOf(text, marks, i + 1)][..marks[i].start];
      if EvaluateCondition(marks[i].condition, enrichment) then rest else Cut(rest, marks[i])
  }

  // The names of the false sections from i on, in document order.
  function ElidedNames(marks: seq<Marker>, enrichment: Enrichment, i: nat): seq<string>
    requires i <= |marks|
    decreases |marks| - i
  {
    if i == |marks| then []
    else
      (if EvaluateCondition(marks[i].condition, enrichment) then [] else [marks[i].name]) +
      ElidedNames(marks, enrichment, i + 1)
  }

  // What the false sections from i on save: a quarter of each section's characters, rounded up.
  function Tokens(text: string, marks: seq<Marker>, enrichment: Enrichment, i: nat): nat
    requires InOrder(text, marks) && i <= |marks|
    decreases |marks| - i
  {
    if i == |marks| then 0
    else
      var later, rest := Tokens(text, marks, enrichment, i + 1), Elided(text, marks, enrichment, i + 1);
      if EvaluateCondition(marks[i].condition, enrichment) then later
      else
        PrefixFits(text, marks, enrichment, i);
        CeilQuarter(SectionEnd(rest, marks[i]) - marks[i].start) + later
  }

  datatype Elision = Elision(text: string, sectionsElided: nat, elidedNames: seq<string>, tokensSaved: nat)

  lemma {:induction false} TokensStep(text: string, marks: seq<Marker>, enrichment: Enrichment, i: nat)
    requires InOrder(text, marks) && i <= |marks|
    ensures i == |marks| ==> Tokens(text, marks, enrichment, i) == 0
    ensures i < |marks| && EvaluateCondition(marks[i].condition, enrichment) ==>
      Tokens(text, marks, enrichment, i) == Tokens(text, marks, enrichment, i + 1)
    ensures i < |marks| ==> marks[i].end <= |Elided(text, marks, enrichment, i + 1)|
    ensures i < |marks| && !EvaluateCondition(marks[i].condition, enrichment) ==>
      Tokens(text, marks, enrichment, i)
      == CeilQuarter(SectionEnd(Elided(text, marks, enrichment, i + 1), marks[i]) - marks[i].start)
         + Tokens(text, marks, enrichment, i + 1)
  {
    hide EvaluateCondition, SectionEnd, CeilQuarter;
    if i < |marks| {
      PrefixFits(text, marks, enrichment, i);
    }
  }

  lemma {:induction false} NamesStep(marks: seq<Marker>, enrichment: Enrichment, i: nat)
    requires i <= |marks|
    ensures i == |marks| ==> ElidedNames(marks, enrichment, i) == []
    ensures i < |marks| && EvaluateCondition(marks[i].condition, enrichment) ==>
      ElidedNames(marks, enrichment, i) == ElidedNames(marks, enrichment, i + 1)
    ensures i < |marks| && !EvaluateCondition(marks[i].condition, enrichment) ==>
      ElidedNames(marks, enrichment, i) == [marks[i].name] + ElidedNames(marks, enrichment, i + 1)
  {
    hide EvaluateCondition;
  }

  // The marker about to be processed still lies where it was found.
  lemma {:induction false} PrefixFits(text: string, marks: seq<Marker>, enrichment: Enrichment, i: nat)
    requires InOrder(text, marks) && i < |marks|
    ensures var rest := Elided(text, marks, enrichment, i + 1);
      marks[i].end <= |rest| && rest[..marks[i].end] == text[..marks[i].end]
  {
    var rest := Elided(text, marks, enrichment, i + 1);
    var n := StartOf(text, marks, i + 1);
    assert rest[..n][..marks[i].end] == rest[..marks[i].end];
    assert text[..n][..marks[i].end] == text[..marks[i].end];
  }

  // ---------- Flat documents ----------

  // Every false section but the last is closed before the next conditional marker.
  ghost predicate IsFlat(text: string, marks: seq<Marker>, enrichment: Enrichment) {
    InOrder(text, marks) &&
    forall i :: 0 <= i < |marks| - 1 && !EvaluateCondition(marks[i].condition, enrichment) ==>
      var close := IndexOf(text, SECTION_CLOSE, marks[i].end);
      close != -1 && close + |SECTION_CLOSE| <= marks[i + 1].start
  }

  // The document read forwards from position p: copied up to each false section, which is
  // skipped with its closing tag and, if a newline follows in what is left, that newline.
  function Without(text: string, marks: seq<Marker>, enrichment: Enrichment, i: nat, p: nat): string
    requires InOrder(text, marks) && i <= |marks| && p <= StartOf(text, marks, i)
    requires forall j :: i <= j < |marks| && !EvaluateCondition(marks[j].condition, enrichment) ==>
      SectionEnd(text, marks[j]) <= StartOf(text, marks, j + 1)
    decreases |marks| - i
  {
    if i == |marks| then text[p..]
    else if EvaluateCondition(marks[i].condition, enrichment) then
      text[p..marks[i].start] + Without(text, marks, enrichment, i + 1, marks[i].start)
    else
      text[p..marks[i].start] +
      DropNewline(Without(text, marks, enrichment, i + 1, SectionEnd(text, marks[i])))
  }

  lemma {:induction false} FlatEnds(text: string, marks: seq<Marker>, enrichment: Enrichment, i: nat)
    requires IsFlat(text, marks, enrichment) && i < |marks|
    requires !EvaluateCondition(marks[i].condition, enrichment)
    ensures SectionEnd(text, marks[i]) <= StartOf(text, marks, i + 1)
  {
  }

  ghost predicate AllEndInPlace(text: string, marks: seq<Marker>, enrichment: Enrichment, i: nat)
    requires InOrder(text, marks)
  {
    forall j :: i <= j < |marks| && !EvaluateCondition(marks[j].condition, enrichment) ==>
      SectionEnd(text, marks[j]) <= StartOf(text, marks, j + 1)
  }

  // Cutting a section whose end lies before n from a text that agrees with the original
  // up to n.
  lemma {:induction false} CutInPlace(text: string, rest: string, m: Marker, tail: string)
    requires m.start <= m.end <= |text|
    requires IndexOf(text, SECTION_CLOSE, m.end) != -1
    requires rest == text[..SectionEnd(text, m)] + tail
    ensures m.end <= |rest| && Cut(rest, m) == text[..m.start] + DropNewline(tail)
  {
    hide IndexOf;
    var n := SectionEnd(text, m);
    assert rest[..n] == text[..n];
    IndexOfSamePrefix(text, rest, SECTION_CLOSE, m.end, n);
    assert rest[n..] == tail;
    assert rest[..m.start] == text[..m.start];
  }

  lemma {:induction false} FlatFrom(text: string, marks: seq<Marker>, enrichment: Enrichment, i: nat, p: nat)
    requires IsFlat(text, marks, enrichment) && i <= |marks| && p <= StartOf(text, marks, i)
    requires AllEndInPlace(text, marks, enrichment, i)
    ensures Elided(text, marks, enrichment, i) == text[..p] + Without(text, marks, enrichment, i, p)
    decreases |marks| - i
  {
    hide EvaluateCondition, SectionEnd, Elided, Without, Cut, DropNewline;
    ElidedStep(text, marks, enrichment, i);
    WithoutStep(text, marks, enrichment, i, p);
    if i == |marks| {
      assert text == text[..p] + text[p..];
    } else {
      var m := marks[i];
      if EvaluateCondition(m.condition, enrichment) {
        FlatFrom(text, marks, enrichment, i + 1, m.start);
        Glue(text, p, m.start, Without(text, marks, enrichment, i + 1, m.start));
      } else {
        var n := SectionEnd(text, m);
        FlatFrom(text, marks, enrichment, i + 1, n);
        var tail := Without(text, marks, enrichment, i + 1, n);
        CutFlat(text, marks, enrichment, i, tail);
        Glue(text, p, m.start, DropNewline(tail));
      }
    }
  }

  lemma {:induction false} Glue(text: string, p: nat, q: nat, tail: string)
    requires p <= q <= |text|
    ensures text[..p] + (text[p..q] + tail) == text[..q] + tail
  {
    assert text[..q] == text[..p] + text[p..q];
  }

  lemma {:induction false} ElidedStep(text: string, marks: seq<Marker>, enrichment: Enrichment, i: nat)
    requires InOrder(text, marks) && i <= |marks|
    ensures i == |marks| ==> Elided(text, marks, enrichment, i) == text
    ensures i < |marks| && EvaluateCondition(marks[i].condition, enrichment) ==>
      Elided(text, marks, enrichment, i) == Elided(text, marks, enrichment, i + 1)
    ensures i < |marks| ==> marks[i].end <= |Elided(text, marks, enrichment, i + 1)|
    ensures i < |marks| && !EvaluateCondition(marks[i].condition, enrichment) ==>
      Elided(text, marks, enrichment, i) == Cut(Elided(text, marks, enrichment, i + 1), marks[i])
  {
    hide EvaluateCondition, SectionEnd;
    if i < |marks| {
      PrefixFits(text, marks, enrichment, i);
    }
  }

  lemma {:induction false} WithoutStep(text: string, marks: seq<Marker>, enrichment: Enrichment, i: nat, p: nat)
    requires InOrder(text, marks) && i <= |marks| && p <= StartOf(text, marks, i)
    requires AllEndInPlace(text, marks, enrichment, i)
    ensures i == |marks| ==> Without(text, marks, enrichment, i, p) == text[p..]
    ensures i < |marks| ==> AllEndInPlace(text, marks, enrichment, i + 1)
    ensures i < |marks| && EvaluateCondition(marks[i].condition, enrichment) ==>
      Without(text, marks, enrichment, i, p) ==
        text[p..marks[i].start] + Without(text, marks, enrichment, i + 1, marks[i].start)
    ensures i < |marks| && !EvaluateCondition(marks[i].condition, enrichment) ==>
      && SectionEnd(text, marks[i]) <= StartOf(text, marks, i + 1)
      && Without(text, marks, enrichment, i, p) ==
           text[p..marks[i].start] + DropNewline(Without(text, marks, enrichment, i + 1, SectionEnd(text, marks[i])))
  {
    hide EvaluateCondition, SectionEnd;
  }

  lemma {:induction false} CutFlat(text: string, marks: seq<Marker>, enrichment: Enrichment, i: nat, tail: string)
    requires IsFlat(text, marks, enrichment) && i < |marks|
    requires !EvaluateCondition(marks[i].condition, enrichment)
    requires marks[i].end <= |Elided(text, marks, enrichment, i + 1)|
    requires Elided(text, marks, enrichment, i + 1) == text[..SectionEnd(text, marks[i])] + tail
    ensures Cut(Elided(text, marks, enrichment, i + 1), marks[i]) == text[..marks[i].start] + DropNewline(tail)
  {
    var m, rest := marks[i], Elided(text, marks, enrichment, i + 1);
    hide EvaluateCondition, Elided;
    if IndexOf(text, SECTION_CLOSE, m.end) == -1 {
      assert i == |marks| - 1;
      ElidedStep(text, marks, enrichment, i + 1);
      assert tail == "";
    } else {
      CutInPlace(text, rest, m, tail);
    }
  }

  // On a flat document the reverse loop removes exactly the false sections, each with its
  // closing tag and one newline after it.
  lemma {:induction false} FlatElision(text: string, marks: seq<Marker>, enrichment: Enrichment)
    requires IsFlat(text, marks, enrichment)
    ensures AllEndInPlace(text, marks, enrichment, 0)
    ensures Elided(text, marks, enrichment, 0) == Without(text, marks, enrichment, 0, 0)
  {
    forall j | 0 <= j < |marks| && !EvaluateCondition(marks[j].condition, enrichment)
      ensures SectionEnd(text, marks[j]) <= StartOf(text, marks, j + 1)
    {
      FlatEnds(text, marks, enrichment, j);
    }
    FlatFrom(text, marks, enrichment, 0, 0);
    assert text[..0] == "";
  }

  // With every condition true the text is returned as it came.
  lemma {:induction false} NothingFalseNothingCut(text: string, marks: seq<Marker>, enrichment: Enrichment, i: nat)
    requires InOrder(text, marks) && i <= |marks|
    ensures ElidedNames(marks, enrichment, i) == [] ==> Elided(text, marks, enrichment, i) == text
    decreases |marks| - i
  {
    if i < |marks| {
      NothingFalseNothingCut(text, marks, enrichment, i + 1);
    }
  }
}
