// The frontmatter printer (plugin.js, reconstructFrontmatter and spliceFrontmatter) on
// string trees, and the trees it prints so that they can be read back.
module FrontmatterPrinter {
  import opened Strings
  import opened FrontmatterParser

  datatype Tree =
    | Scalar(text: string)
    | Items(items: seq<string>)
    | Fields(entries: seq<Entry>)

  datatype Entry = Entry(key: string, tree: Tree)

  // ---------- Printing ----------

  function Quote(s: string): string { "\"" + s + "\"" }

  // Each of the three nesting levels of the source has its own quoting rule.
  predicate IsQuotedScalar(s: string, level: nat) {
    || (level <= 1 && (':' in s || '#' in s))
    || (level == 0 && s != "" && (s[0] == '[' || s[0] == '{'))
  }

  predicate IsQuotedItem(s: string, level: nat) {
    level <= 1 && (':' in s || '#' in s)
  }

  function PrintScalar(s: string, level: nat): string {
    if IsQuotedScalar(s, level) then Quote(s) else s
  }

  function PrintItem(s: string, level: nat): string {
    if IsQuotedItem(s, level) then Quote(s) else s
  }

  // join(", ")
  function JoinComma(items: seq<string>): string {
    if items == [] then ""
    else if |items| == 1 then items[0]
    else items[0] + ", " + JoinComma(items[1..])
  }

  predicate IsInline(items: seq<string>, level: nat) {
    level <= 1 && |items| <= 3 && |JoinComma(items)| < 60
  }

  function BareKeyLine(indent: nat, key: string): string {
    Spaces(indent) + key + ":"
  }

  function KeyLine(indent: nat, key: string, value: string): string {
    BareKeyLine(indent, key) + " " + value
  }

  function ItemLine(indent: nat, item: string): string {
    Spaces(indent) + "- " + item
  }

  function ItemLines(items: seq<string>, level: nat): (lines: seq<string>)
    ensures |lines| == |items|
  {
    seq(|items|, i requires 0 <= i < |items| => ItemLine(2 * level + 2, PrintItem(items[i], level)))
  }

  function PrintEntry(e: Entry, level: nat): seq<string>
    decreases e, 0
  {
    match e.tree
    case Scalar(text) => [KeyLine(2 * level, e.key, PrintScalar(text, level))]
    case Items(items) =>
      if items == [] then [KeyLine(2 * level, e.key, "[]")]
      else if IsInline(items, level) then [KeyLine(2 * level, e.key, "[" + JoinComma(items) + "]")]
      else [BareKeyLine(2 * level, e.key)] + ItemLines(items, level)
    case Fields(entries) =>
      if level >= 2 then [KeyLine(2 * level, e.key, "[object Object]")]
      else [BareKeyLine(2 * level, e.key)] + PrintEntries(entries, level + 1)
  }

  function PrintEntries(entries: seq<Entry>, level: nat): seq<string>
    decreases entries
  {
    if entries == [] then [] else PrintEntry(entries[0], level) + PrintEntries(entries[1..], level)
  }

  function ReconstructFrontmatter(entries: seq<Entry>): string {
    Join(PrintEntries(entries, 0))
  }

  // The old frontmatter is replaced; a document without any gets it in front.
  function SpliceFrontmatter(content: string, entries: seq<Entry>): string {
    var end := EndOf(content);
    FENCE + ReconstructFrontmatter(entries) + END_FENCE +
    (if end != -1 then content[end + |END_FENCE|..] else "\n\n" + content)
  }

  // ---------- What can be printed faithfully ----------

  predicate HasNoEdgeQuotes(s: string) {
    s != "" ==> !IsQuote(s[0]) && !IsQuote(s[|s| - 1])
  }

  // A bare text: not empty, without white space or quotes at its ends.
  predicate IsClean(s: string) {
    IsTrimmed(s) && HasNoEdgeQuotes(s)
  }

  // In quotes anything goes that is on one line; a bare text must not look like a list.
  predicate IsSafeScalar(text: string, level: nat) {
    InOneLine(text) && (IsQuotedScalar(text, level) || (IsClean(text) && text != "[" && !IsBracketed(text)))
  }

  // Inline items are never quoted, and commas separate them.
  predicate IsSafeInline(item: string) {
    InOneLine(item) && IsClean(item) && ',' !in item
  }

  // An item on its own line may begin with white space, and hold anything but a newline.
  predicate IsSafeItem(item: string, level: nat) {
    && IsLine(item)
    && (IsQuotedItem(item, level) || (item != "" && !IsSpace(item[|item| - 1]) && HasNoEdgeQuotes(item)))
  }

  predicate AreSafeInline(items: seq<string>) {
    forall i :: 0 <= i < |items| ==> IsSafeInline(items[i])
  }

  predicate AreSafeItems(items: seq<string>, level: nat) {
    forall i :: 0 <= i < |items| ==> IsSafeItem(items[i], level)
  }

  predicate IsSafe(t: Tree, level: nat)
    decreases t, 0
  {
    match t
    case Scalar(text) => IsSafeScalar(text, level)
    case Items(items) => if IsInline(items, level) then AreSafeInline(items) else AreSafeItems(items, level)
    case Fields(entries) => level < 2 && AreSafe(entries, level + 1)
  }

  predicate AreSafe(entries: seq<Entry>, level: nat)
    decreases entries
  {
    entries == [] ||
    (var e := entries[0];
     && IsKey(e.key) && (forall i :: 1 <= i < |entries| ==> entries[i].key != e.key)
     && IsSafe(e.tree, level) && AreSafe(entries[1..], level))
  }

  predicate IsFence(key: string) {
    StartsAt(key, 0, "---")
  }

  // No line after the first begins with three dashes.
  predicate HasNoFence(entries: seq<Entry>) {
    forall i :: 1 <= i < |entries| ==> !IsFence(entries[i].key)
  }

  // The trees a document can carry.
  predicate IsPrintable(entries: seq<Entry>) {
    AreSafe(entries, 0) && HasNoFence(entries)
  }

  // The object a tree stands for.
  function ToValue(t: Tree): (v: Value)
    decreases t, 0
  {
    match t
    case Scalar(text) => Str(text)
    case Items(items) => Node(true, items, [])
    case Fields(entries) => Node(false, [], ToFields(entries))
  }

  function ToFields(entries: seq<Entry>): (fields: seq<Field>)
    ensures |fields| == |entries|
    ensures forall i :: 0 <= i < |entries| ==> fields[i].key == entries[i].key
    decreases entries
  {
    if entries == [] then []
    else [Field(entries[0].key, ToValue(entries[0].tree))] + ToFields(entries[1..])
  }
}
