// The string operations of JavaScript that several components rely on.
module Strings {

  // The characters of the \s class, which are also those trim() removes.
  predicate IsSpace(c: char) {
    || c == ' ' || c == '\t' || c == '\n' || c == '\r'
    || c == '\U{000B}' || c == '\U{000C}' || c == '\U{00A0}' || c == '\U{1680}'
    || '\U{2000}' <= c <= '\U{200A}'
    || c == '\U{2028}' || c == '\U{2029}' || c == '\U{202F}' || c == '\U{205F}'
    || c == '\U{3000}' || c == '\U{FEFF}'
  }

  // The characters `.` does not match.
  predicate IsTerminator(c: char) {
    c == '\n' || c == '\r' || c == '\U{2028}' || c == '\U{2029}'
  }

  // Their code points.
  lemma {:induction false} SpacesAndTerminators(c: char)
    ensures IsSpace(c) <==>
            || 9 <= c as int <= 13 || (0x2000 <= c as int <= 0x200A)
            || c as int in [0x20, 0xA0, 0x1680, 0x2028, 0x2029, 0x202F, 0x205F, 0x3000, 0xFEFF]
    ensures IsTerminator(c) <==> c as int in [0x0A, 0x0D, 0x2028, 0x2029]
    ensures IsTerminator(c) ==> IsSpace(c)
  {
  }

  predicate StartsAt(text: string, i: nat, part: string) {
    i + |part| <= |text| && text[i..i + |part|] == part
  }

  // The first position from i on whose character does not satisfy p.
  function SkipWhile(p: char -> bool, text: string, i: nat): (j: nat)
    requires i <= |text|
    ensures i <= j <= |text|
    ensures forall k :: i <= k < j ==> p(text[k])
    ensures j < |text| ==> !p(text[j])
    decreases |text| - i
  {
    if i < |text| && p(text[i]) then SkipWhile(p, text, i + 1) else i
  }

  // The run of characters satisfying p that starts at i is determined by where it stops.
  lemma {:induction false} SkipWhileIs(p: char -> bool, text: string, i: nat, j: nat)
    requires i <= j <= |text|
    requires forall k :: i <= k < j ==> p(text[k])
    requires j < |text| ==> !p(text[j])
    ensures SkipWhile(p, text, i) == j
    decreases j - i
  {
    if i < j {
      SkipWhileIs(p, text, i + 1, j);
    }
  }

  function TrimEnd(s: string): (t: string)
    ensures t <= s
  {
    if s != "" && IsSpace(s[|s| - 1]) then TrimEnd(s[..|s| - 1]) else s
  }

  function Trim(s: string): string {
    TrimEnd(s[SkipWhile(IsSpace, s, 0)..])
  }

  // Not empty, and neither end is white space.
  predicate IsTrimmed(s: string) {
    s != "" && !IsSpace(s[0]) && !IsSpace(s[|s| - 1])
  }

  function Spaces(n: nat): (s: string)
    ensures |s| == n && forall i :: 0 <= i < n ==> s[i] == ' '
  {
    seq(n, _ => ' ')
  }

  lemma {:induction false} TrimPadded(n: nat, s: string)
    requires IsTrimmed(s)
    ensures Trim(Spaces(n) + s) == s
  {
    var text := Spaces(n) + s;
    assert text[n] == s[0];
    SkipWhileIs(IsSpace, text, 0, n);
    assert text[n..] == s;
  }

  lemma {:induction false} TrimTrimmed(s: string)
    requires IsTrimmed(s)
    ensures Trim(s) == s
  {
    TrimPadded(0, s);
    assert Spaces(0) + s == s;
  }

  predicate IsBlank(s: string) {
    forall i :: 0 <= i < |s| ==> IsSpace(s[i])
  }

  lemma {:induction false} TrimEndBlank(s: string, blank: string)
    requires IsBlank(blank) && s != "" && !IsSpace(s[|s| - 1])
    ensures TrimEnd(s + blank) == s
  {
    if blank == "" {
      assert s + blank == s;
    } else {
      var front := blank[..|blank| - 1];
      TrimEndBlank(s, front);
      assert (s + blank)[..|s + blank| - 1] == s + front;
      assert (s + blank)[|s + blank| - 1] == blank[|blank| - 1];
    }
  }

  lemma {:induction false} TrimBetween(before: string, s: string, after: string)
    requires IsBlank(before) && IsTrimmed(s) && IsBlank(after)
    ensures Trim(before + s + after) == s
  {
    var text := before + s + after;
    assert text[|before|] == s[0];
    SkipWhileIs(IsSpace, text, 0, |before|);
    assert text[|before|..] == s + after;
    TrimEndBlank(s, after);
  }

  lemma {:induction false} BlankIsTrimmedAway(s: string)
    requires IsBlank(s)
    ensures Trim(s) == ""
  {
    SkipWhileIs(IsSpace, s, 0, |s|);
    assert s[|s|..] == "";
  }

  predicate Includes(text: string, part: string) {
    exists i :: 0 <= i <= |text| && part <= text[i..]
  }

  lemma {:induction false} IncludesExactlyWhen(text: string, part: string)
    ensures Includes(text, part) <==> exists before: string, after: string :: text == before + part + after
  {
    if Includes(text, part) {
      var i :| 0 <= i <= |text| && part <= text[i..];
      assert text == text[..i] + part + text[i + |part|..];
    }
    if before: string, after: string :| text == before + part + after {
      assert text[|before|..] == part + after;
    }
  }

  // ---------- Case ----------

  function Lower(c: char): char {
    if 'A' <= c <= 'Z' then c + 32 as char else c
  }

  function LowerAll(s: string): (r: string)
    ensures |r| == |s| && forall i :: 0 <= i < |s| ==> r[i] == Lower(s[i])
  {
    seq(|s|, i requires 0 <= i < |s| => Lower(s[i]))
  }

  lemma {:induction false} LowerExactly(c: char)
    ensures 'a' <= c <= 'z' ==> Lower(c) == c && Lower((c as int - 32) as char) == c
    ensures !('A' <= c <= 'Z') ==> Lower(c) == c
    ensures IsSpace(Lower(c)) == IsSpace(c)
  {
  }

  // ---------- Lines ----------

  // split("\n")
  function Split(text: string): (lines: seq<string>)
    ensures lines != []
  {
    if text == "" then [""]
    else
      var rest := Split(text[1..]);
      if text[0] == '\n' then [""] + rest else [[text[0]] + rest[0]] + rest[1..]
  }

  lemma {:induction false} SplitUnfold(text: string)
    requires text != ""
    ensures var rest := Split(text[1..]);
            Split(text) == if text[0] == '\n' then [""] + rest else [[text[0]] + rest[0]] + rest[1..]
  {
  }

  lemma {:induction false} SplitCons(c: char, tail: string)
    ensures var rest := Split(tail);
            Split([c] + tail) == if c == '\n' then [""] + rest else [[c] + rest[0]] + rest[1..]
  {
    assert ([c] + tail)[1..] == tail;
  }

  // join("\n")
  function Join(lines: seq<string>): string {
    if lines == [] then ""
    else if |lines| == 1 then lines[0]
    else lines[0] + "\n" + Join(lines[1..])
  }

  predicate IsLine(s: string) {
    forall i :: 0 <= i < |s| ==> s[i] != '\n'
  }

  lemma {:induction false} SplitLine(line: string, rest: string)
    requires IsLine(line)
    ensures Split(line) == [line]
    ensures Split(line + "\n" + rest) == [line] + Split(rest)
  {
    if line == "" {
      assert line + "\n" + rest == ['\n'] + rest;
      SplitCons('\n', rest);
    } else {
      hide Split;
      var c, tail := line[0], line[1..];
      SplitLine(tail, rest);
      SplitCons(c, tail);
      SplitCons(c, tail + "\n" + rest);
      assert line == [c] + tail;
      assert line + "\n" + rest == [c] + (tail + "\n" + rest);
    }
  }

  lemma {:induction false} SplitJoin(lines: seq<string>)
    requires lines != [] && forall k :: 0 <= k < |lines| ==> IsLine(lines[k])
    ensures Split(Join(lines)) == lines
  {
    if |lines| == 1 {
      SplitLine(lines[0], "");
    } else {
      SplitJoin(lines[1..]);
      SplitLine(lines[0], Join(lines[1..]));
      assert lines == [lines[0]] + lines[1..];
    }
  }
}
