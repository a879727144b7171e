// Naming conventions of the advisory guardrails (plugin.js, advisory-guardrails.js): telling
// a name's convention, taking a name apart into words, and writing words in a convention.
module Naming {
  import Strings

  datatype Convention = Camel | Pascal | Snake | Kebab | UpperSnake

  datatype Class = SingleWord | Follows(convention: Convention) | Mixed

  predicate IsLow(c: char) { 'a' <= c <= 'z' }

  predicate IsUp(c: char) { 'A' <= c <= 'Z' }

  predicate IsDig(c: char) { '0' <= c <= '9' }

  predicate IsLowDig(c: char) { IsLow(c) || IsDig(c) }

  predicate IsUpDig(c: char) { IsUp(c) || IsDig(c) }

  predicate IsAlnum(c: char) { IsLow(c) || IsUp(c) || IsDig(c) }

  function Upper(c: char): char { if IsLow(c) then c - 32 as char else c }

  function Lower(c: char): char { if IsUp(c) then c + 32 as char else c }

  function UpperAll(s: string): string {
    if s == "" then "" else [Upper(s[0])] + UpperAll(s[1..])
  }

  function LowerAll(s: string): string {
    if s == "" then "" else [Lower(s[0])] + LowerAll(s[1..])
  }

  // ---------- classifyName ----------

  predicate All(p: char -> bool, s: string) {
    forall i :: 0 <= i < |s| ==> p(s[i])
  }

  predicate Has(p: char -> bool, s: string, from: nat) {
    exists i :: from <= i < |s| && p(s[i])
  }

  // Groups of such characters, none of them empty, with the separator between them.
  predicate IsSeparated(p: char -> bool, separator: char, s: string) {
    && (forall i :: 0 <= i < |s| ==> p(s[i]) || s[i] == separator)
    && (forall i :: 0 <= i < |s| && s[i] == separator ==> i + 1 < |s| && s[i + 1] != separator)
  }

  predicate Matches(name: string, convention: Convention) {
    name != "" &&
    match convention
    case Camel => IsLow(name[0]) && All(IsAlnum, name) && Has(IsUp, name, 0)
    case Pascal => IsUp(name[0]) && All(IsAlnum, name) && Has(IsLow, name, 1)
    case Snake => IsLow(name[0]) && IsSeparated(IsLowDig, '_', name) && '_' in name
    case Kebab => IsLow(name[0]) && IsSeparated(IsLowDig, '-', name) && '-' in name
    case UpperSnake => IsUp(name[0]) && IsSeparated(IsUpDig, '_', name)
  }

  function Classify(name: string): Class {
    if name != "" && IsLow(name[0]) && All(IsLowDig, name) then SingleWord
    else if name != "" && IsUp(name[0]) && All(IsUpDig, name) then SingleWord
    else if Matches(name, Camel) then Follows(Camel)
    else if Matches(name, Pascal) then Follows(Pascal)
    else if Matches(name, Snake) then Follows(Snake)
    else if Matches(name, Kebab) then Follows(Kebab)
    else if Matches(name, UpperSnake) then Follows(UpperSnake)
    else Mixed
  }

  // ---------- splitWords ----------

  // Dashes and underscores become spaces.
  function Separate(s: string): string {
    if s == "" then ""
    else [if s[0] == '-' || s[0] == '_' then ' ' else s[0]] + Separate(s[1..])
  }

  // A space goes between a lower-case letter or digit and a capital.
  function SplitBeforeCapital(s: string): string {
    if s == "" then ""
    else if |s| >= 2 && IsLowDig(s[0]) && IsUp(s[1]) then [s[0], ' ', s[1]] + SplitBeforeCapital(s[2..])
    else [s[0]] + SplitBeforeCapital(s[1..])
  }

  // How many capitals s starts with.
  function Capitals(s: string): (n: nat)
    ensures n <= |s|
    ensures forall i :: 0 <= i < n ==> IsUp(s[i])
    ensures n < |s| ==> !IsUp(s[n])
  {
    if s != "" && IsUp(s[0]) then 1 + Capitals(s[1..]) else 0
  }

  // And before the last of several capitals that a lower-case letter follows.
  function SplitLastCapital(s: string): string
    decreases |s|
  {
    if s == "" then ""
    else
      var n := Capitals(s);
      if 2 <= n < |s| && IsLow(s[n]) then s[..n - 1] + " " + [s[n - 1], s[n]] + SplitLastCapital(s[n + 1..])
      else [s[0]] + SplitLastCapital(s[1..])
  }

  function NextSpace(s: string): (n: nat)
    ensures n <= |s|
    ensures forall i :: 0 <= i < n ==> !Strings.IsSpace(s[i])
    ensures n < |s| ==> Strings.IsSpace(s[n])
  {
    if s == "" || Strings.IsSpace(s[0]) then 0 else 1 + NextSpace(s[1..])
  }

  // The non-empty pieces between white space.
  function Fields(s: string): seq<string>
    decreases |s|
  {
    if s == "" then []
    else if Strings.IsSpace(s[0]) then Fields(s[1..])
    else [s[..NextSpace(s)]] + Fields(s[NextSpace(s)..])
  }

  function SplitWords(name: string): seq<string> {
    Fields(LowerAll(SplitLastCapital(SplitBeforeCapital(Separate(name)))))
  }

  // ---------- toConvention ----------

  function JoinWith(words: seq<string>, separator: char): string {
    if words == [] then ""
    else if |words| == 1 then words[0]
    else words[0] + [separator] + JoinWith(words[1..], separator)
  }

  function Capitalized(word: string): string {
    if word == "" then "" else [Upper(word[0])] + word[1..]
  }

  function CapitalizedAll(words: seq<string>): string {
    if words == [] then "" else Capitalized(words[0]) + CapitalizedAll(words[1..])
  }

  function UpperWords(words: seq<string>): seq<string> {
    if words == [] then [] else [UpperAll(words[0])] + UpperWords(words[1..])
  }

  function Render(words: seq<string>, convention: Convention): string
    requires words != []
  {
    match convention
    case Kebab => JoinWith(words, '-')
    case Snake => JoinWith(words, '_')
    case Camel => words[0] + CapitalizedAll(words[1..])
    case Pascal => CapitalizedAll(words)
    case UpperSnake => JoinWith(UpperWords(words), '_')
  }

  function ToConvention(name: string, convention: Convention): string {
    var words := SplitWords(name);
    if words == [] then name else Render(words, convention)
  }
}
