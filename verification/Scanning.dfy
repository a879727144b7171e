// Reading text from left to right and searching it, as the regular expressions of the
// markdown parsers do.
module Scanning {
  import opened Options
  import opened Strings

  // ---------- Searching ----------

  // The first position from i on at which part occurs.
  function Find(text: string, part: string, i: nat): (r: Option<nat>)
    requires i <= |text|
    ensures r.Some? ==> i <= r.value && StartsAt(text, r.value, part)
    decreases |text| - i
  {
    if StartsAt(text, i, part) then Some(i)
    else if i == |text| then None
    else Find(text, part, i + 1)
  }

  ghost predicate Lacks(s: string, part: string) {
    forall i: nat :: i <= |s| ==> !StartsAt(s, i, part)
  }

  // Nothing starts before position n.
  ghost predicate StartsLate(text: string, part: string, i: nat, n: nat) {
    forall k: nat :: i <= k < n ==> !StartsAt(text, k, part)
  }

  lemma {:induction false} FindIs(text: string, part: string, i: nat, n: nat)
    requires i <= n <= |text| && StartsAt(text, n, part) && StartsLate(text, part, i, n)
    ensures Find(text, part, i) == Some(n)
    decreases n - i
  {
    if i < n {
      assert !StartsAt(text, i, part);
      FindIs(text, part, i + 1, n);
    }
  }

  lemma {:induction false} FindNothing(text: string, part: string, i: nat)
    requires i <= |text| && Lacks(text, part)
    ensures Find(text, part, i) == None
    decreases |text| - i
  {
    if i < |text| {
      FindNothing(text, part, i + 1);
    }
  }

  lemma {:induction false} OccurrenceHasChar(s: string, i: nat, part: string, j: nat)
    requires j < |part|
    ensures StartsAt(s, i, part) ==> i + j < |s| && s[i + j] == part[j]
  {
    if StartsAt(s, i, part) {
      assert s[i..i + |part|][j] == s[i + j];
    }
  }

  lemma {:induction false} LacksByChar(s: string, part: string, j: nat)
    requires j < |part| && part[j] !in s
    ensures Lacks(s, part)
  {
    forall i: nat | i <= |s|
      ensures !StartsAt(s, i, part)
    {
      OccurrenceHasChar(s, i, part, j);
    }
  }

  // An occurrence does not reach across a character that is not part of it.
  lemma {:induction false} StartsOnOneSide(a: string, c: char, b: string, part: string, i: nat)
    requires part != "" && c !in part && StartsAt(a + [c] + b, i, part)
    ensures (i + |part| <= |a| && StartsAt(a, i, part)) || (i > |a| && StartsAt(b, i - |a| - 1, part))
  {
    var s := a + [c] + b;
    if i <= |a| {
      if |a| - i < |part| {
        OccurrenceHasChar(s, i, part, |a| - i);
      }
    }
    if i + |part| <= |a| {
      assert s[i..i + |part|] == a[i..i + |part|];
    } else if i > |a| {
      assert s[i..i + |part|] == b[i - |a| - 1..i - |a| - 1 + |part|];
    }
  }

  lemma {:induction false} LacksAround(a: string, c: char, b: string, part: string)
    requires part != "" && c !in part && Lacks(a, part) && Lacks(b, part)
    ensures Lacks(a + [c] + b, part)
  {
    forall i: nat | i <= |a + [c] + b|
      ensures !StartsAt(a + [c] + b, i, part)
    {
      if StartsAt(a + [c] + b, i, part) {
        StartsOnOneSide(a, c, b, part, i);
      }
    }
  }

  lemma {:induction false} LacksNothing(part: string)
    requires part != ""
    ensures Lacks("", part)
  {
  }

  lemma {:induction false} LacksJoined(lines: seq<string>, part: string)
    requires part != "" && '\n' !in part && forall k :: 0 <= k < |lines| ==> Lacks(lines[k], part)
    ensures Lacks(Join(lines), part)
  {
    hide Lacks;
    if lines == [] {
      LacksNothing(part);
    } else if |lines| > 1 {
      LacksJoined(lines[1..], part);
      LacksAround(lines[0], '\n', Join(lines[1..]), part);
    }
  }

  // In front of what begins on a line of its own the first occurrence is that line.
  lemma {:induction false} FindAtLine(before: string, part: string, after: string)
    requires part != "" && '\n' !in part && Lacks(before, part)
    ensures Find(before + "\n" + part + after, part, 0) == Some(|before| + 1)
  {
    var text := before + "\n" + part + after;
    var n := |before| + 1;
    assert text[n..n + |part|] == part;
    var rest := part + after;
    assert text == before + ['\n'] + rest;
    forall k: nat | 0 <= k < n
      ensures !StartsAt(text, k, part)
    {
      if StartsAt(text, k, part) {
        StartsOnOneSide(before, '\n', rest, part, k);
      }
    }
    FindIs(text, part, 0, n);
  }

  // ---------- Joining ----------

  lemma {:induction false} JoinAppend(a: seq<string>, b: seq<string>)
    requires a != [] && b != []
    ensures Join(a + b) == Join(a) + "\n" + Join(b)
  {
    if |a| == 1 {
      assert (a + b)[1..] == b;
    } else {
      JoinAppend(a[1..], b);
      assert (a + b)[1..] == a[1..] + b;
      Regroup(a[0], Join(a[1..]), Join(b));
    }
  }

  lemma {:induction false} Regroup(a: string, b: string, c: string)
    ensures a + "\n" + (b + "\n" + c) == a + "\n" + b + "\n" + c
  {
  }

  // ---------- Scanning ----------

  function DropSpaces(s: string): string {
    s[SkipWhile(IsSpace, s, 0)..]
  }

  lemma {:induction false} DropSpacesOf(n: nat, rest: string)
    requires rest != "" && !IsSpace(rest[0])
    ensures DropSpaces(Spaces(n) + rest) == rest
  {
    var s := Spaces(n) + rest;
    assert s[n] == rest[0];
    SkipWhileIs(IsSpace, s, 0, n);
    assert s[n..] == rest;
  }

  // What follows a literal, if s starts with it.
  function After(s: string, literal: string): Option<string> {
    if literal <= s then Some(s[|literal|..]) else None
  }

  lemma {:induction false} AfterOf(literal: string, rest: string)
    ensures After(literal + rest, literal) == Some(rest)
  {
    assert (literal + rest)[..|literal|] == literal;
  }

  datatype Token = Token(text: string, rest: string)

  // The longest run of such characters, unless it is empty.
  function Run(p: char -> bool, s: string): Option<Token> {
    var n := SkipWhile(p, s, 0);
    if n == 0 then None else Some(Token(s[..n], s[n..]))
  }

  lemma {:induction false} RunOf(p: char -> bool, a: string, rest: string)
    requires a != "" && (forall i :: 0 <= i < |a| ==> p(a[i])) && (rest == "" || !p(rest[0]))
    ensures Run(p, a + rest) == Some(Token(a, rest))
  {
    var s := a + rest;
    assert rest != "" ==> s[|a|] == rest[0];
    SkipWhileIs(p, s, 0, |a|);
    assert s[..|a|] == a && s[|a|..] == rest;
  }

  // \s+ and then a character that is no white space
  function SomeSpaces(s: string): Option<string> {
    if |DropSpaces(s)| < |s| then Some(DropSpaces(s)) else None
  }

  lemma {:induction false} OneSpace(rest: string)
    requires rest != "" && !IsSpace(rest[0])
    ensures SomeSpaces(" " + rest) == Some(rest)
    ensures DropSpaces(" " + rest) == rest
    ensures DropSpaces(rest) == rest
  {
    DropSpacesOf(1, rest);
    DropSpacesOf(0, rest);
    assert Spaces(1) == " " && Spaces(0) + rest == rest;
  }

  // \s*-\s+ at the start of a line
  function Bullet(line: string): Option<string> {
    match After(DropSpaces(line), "-")
    case None => None
    case Some(rest) => SomeSpaces(rest)
  }

  lemma {:induction false} BulletOf(rest: string)
    requires rest != "" && !IsSpace(rest[0])
    ensures Bullet("- " + rest) == Some(rest)
    ensures Bullet("  - " + rest) == Some(rest)
  {
    assert "- " + rest == "-" + (" " + rest);
    assert "  - " + rest == Spaces(2) + ("-" + (" " + rest));
    DropSpacesOf(0, "-" + (" " + rest));
    DropSpacesOf(2, "-" + (" " + rest));
    assert Spaces(0) + ("-" + (" " + rest)) == "-" + (" " + rest);
    AfterOf("-", " " + rest);
    OneSpace(rest);
  }

  predicate IsChar(c: char) { !IsTerminator(c) }

  // \s*(.+), trimmed: the white space gives way when nothing else is left.
  function RestOfLine(s: string): Option<string> {
    var rest := DropSpaces(s);
    if rest != "" then Some(Trim(rest[..SkipWhile(IsChar, rest, 0)]))
    else if exists i :: 0 <= i < |s| && IsChar(s[i]) then Some("")
    else None
  }

  // A value that stands at the end of a line.
  predicate IsField(s: string) {
    IsTrimmed(s) && forall i :: 0 <= i < |s| ==> IsChar(s[i])
  }

  lemma {:induction false} RestOfLineOf(field: string)
    requires IsField(field)
    ensures RestOfLine(" " + field) == Some(field)
  {
    OneSpace(field);
    SkipWhileIs(IsChar, field, 0, |field|);
    assert field[..|field|] == field;
    TrimTrimmed(field);
  }
}
