// Finding the sections and the header fields of a generated INTENT.md again (plugin.js).
module IntentDocument {
  import opened Options
  import opened Strings
  import opened Scanning
  import opened IntentFormat

  // ---------- Tags ----------

  const TAGS := ["objective", "users", "outcomes", "criteria", "constraints", "health", "history"]

  predicate IsTag(t: string) { t in TAGS }

  // A text in which no section tag occurs.
  ghost predicate NoTags(s: string) {
    forall t: string :: IsTag(t) ==> Lacks(s, OpenTag(t)) && Lacks(s, CloseTag(t))
  }

  predicate IsTagName(t: string) {
    t != "" && forall i :: 0 <= i < |t| ==> 'a' <= t[i] <= 'z'
  }

  lemma {:induction false} TagsAreNames(t: string)
    requires IsTag(t)
    ensures IsTagName(t)
  {
  }

  lemma {:induction false} TagShape(t: string, c: char)
    requires IsTag(t)
    ensures OpenTag(t)[0] == '<' && CloseTag(t)[0] == '<' && CloseTag(t)[1] == '/' && 'a' <= OpenTag(t)[1] <= 'z'
    ensures |OpenTag(t)| == |t| + 2 && |CloseTag(t)| == |t| + 3
    ensures c == ' ' || c == '\n' || c == ':' ==> c !in OpenTag(t) && c !in CloseTag(t)
  {
    TagsAreNames(t);
    hide IsTag;
  }

  lemma {:induction false} NoAngle(s: string)
    requires '<' !in s
    ensures NoTags(s)
  {
    hide Lacks, IsTag;
    forall t: string | IsTag(t)
      ensures Lacks(s, OpenTag(t)) && Lacks(s, CloseTag(t))
    {
      LacksByChar(s, OpenTag(t), 0);
      LacksByChar(s, CloseTag(t), 0);
    }
  }

  lemma {:induction false} NoTagsAround(a: string, c: char, b: string)
    requires NoTags(a) && NoTags(b) && (c == ' ' || c == '\n' || c == ':')
    ensures NoTags(a + [c] + b)
  {
    hide Lacks, IsTag, OpenTag, CloseTag;
    forall t: string | IsTag(t)
      ensures Lacks(a + [c] + b, OpenTag(t)) && Lacks(a + [c] + b, CloseTag(t))
    {
      TagShape(t, c);
      LacksAround(a, c, b, OpenTag(t));
      LacksAround(a, c, b, CloseTag(t));
    }
  }

  // A comment line is no tag.
  lemma {:induction false} NoTagsInComment(s: string)
    requires |s| >= 2 && s[1] == '!' && '<' !in s[1..]
    ensures NoTags(s)
  {
    hide IsTag, StartsAt, OpenTag, CloseTag;
    forall t: string, i: nat | IsTag(t) && i <= |s|
      ensures !StartsAt(s, i, OpenTag(t)) && !StartsAt(s, i, CloseTag(t))
    {
      TagShape(t, ' ');
      OccurrenceHasChar(s, i, OpenTag(t), 0);
      OccurrenceHasChar(s, i, OpenTag(t), 1);
      OccurrenceHasChar(s, i, CloseTag(t), 0);
      OccurrenceHasChar(s, i, CloseTag(t), 1);
      if 0 < i < |s| {
        assert s[i] == s[1..][i - 1];
      }
    }
  }

  // The tags of one section do not open another.
  lemma {:induction false} TagsOpenNothing(t: string, other: string)
    requires IsTagName(t) && IsTagName(other) && t != other
    ensures Lacks(OpenTag(t), OpenTag(other)) && Lacks(CloseTag(t), OpenTag(other))
  {
    var part := OpenTag(other);
    forall i: nat | i <= |OpenTag(t)|
      ensures !StartsAt(OpenTag(t), i, part)
    {
      OccurrenceHasChar(OpenTag(t), i, part, 0);
      OccurrenceHasChar(OpenTag(t), i, part, |other| + 1);
      if i == 0 && |t| == |other| {
        assert OpenTag(t)[1..|t| + 1] == t && part[1..|t| + 1] == other;
      }
    }
    forall i: nat | i <= |CloseTag(t)|
      ensures !StartsAt(CloseTag(t), i, part)
    {
      OccurrenceHasChar(CloseTag(t), i, part, 0);
      OccurrenceHasChar(CloseTag(t), i, part, 1);
    }
  }

  // ---------- Sections ----------

  ghost predicate AllLack(lines: seq<string>, part: string) {
    forall i :: 0 <= i < |lines| ==> Lacks(lines[i], part)
  }

  lemma {:induction false} AllLackAppend(a: seq<string>, b: seq<string>, part: string)
    requires AllLack(a, part) && AllLack(b, part)
    ensures AllLack(a + b, part)
  {
    hide Lacks;
  }

  function Framed(lines: seq<string>): string {
    "\n" + Join(lines) + "\n"
  }

  lemma {:induction false} JoinBlock(before: seq<string>, b: Block, after: seq<string>) returns (rest: string)
    requires before != [] && b.lines != []
    ensures Join(before + BlockLines(b) + after)
            == Join(before) + "\n" + OpenTag(b.tag) + ("\n" + Join(b.lines) + "\n" + CloseTag(b.tag) + rest)
  {
    hide Join;
    var tail := [""] + after;
    JoinAppend([CloseTag(b.tag)], tail);
    JoinAppend(b.lines, [CloseTag(b.tag)] + tail);
    JoinAppend([OpenTag(b.tag)], b.lines + ([CloseTag(b.tag)] + tail));
    JoinAppend(before, [OpenTag(b.tag)] + (b.lines + ([CloseTag(b.tag)] + tail)));
    assert before + BlockLines(b) + after == before + ([OpenTag(b.tag)] + (b.lines + ([CloseTag(b.tag)] + tail)));
    SingleLine(OpenTag(b.tag));
    SingleLine(CloseTag(b.tag));
    rest := "\n" + Join(tail);
    Regrouped(Join(before), OpenTag(b.tag), Join(b.lines), CloseTag(b.tag), Join(tail));
  }

  lemma {:induction false} SingleLine(line: string)
    ensures Join([line]) == line
  {
  }

  lemma {:induction false} Regrouped(a: string, b: string, c: string, d: string, e: string)
    ensures a + "\n" + (b + "\n" + (c + "\n" + (d + "\n" + e)))
            == a + "\n" + b + ("\n" + c + "\n" + d + ("\n" + e))
  {
  }

  lemma {:induction false} SectionOfParts(text: string, before: string, open: string, close: string, lines: seq<string>,
                                         rest: string, tag: string)
    requires open == OpenTag(tag) && close == CloseTag(tag) && IsTag(tag)
    requires text == before + "\n" + open + ("\n" + Join(lines) + "\n" + close + rest)
    requires Lacks(before, open) && AllLack(lines, close)
    ensures Section(text, tag) == Some(Trim(Framed(lines)))
  {
    TagShape(tag, '\n');
    hide Join, Find, Trim, OpenTag, CloseTag, IsTag, Lacks;
    var inner := "\n" + Join(lines);
    var tail := "\n" + Join(lines) + "\n" + close + rest;
    FindAtLine(before, open, tail);
    assert text[|before| + 1 + |open|..] == tail;
    LacksJoined(lines, close);
    LacksNothing(close);
    LacksAround("", '\n', Join(lines), close);
    assert "" + ['\n'] + Join(lines) == inner;
    FindAtLine(inner, close, rest);
    assert tail == inner + "\n" + close + rest;
    assert tail[..|inner| + 1] == Framed(lines);
  }

  lemma {:induction false} SectionReads(before: seq<string>, b: Block, after: seq<string>)
    requires before != [] && b.lines != [] && IsTag(b.tag)
    requires AllLack(before, OpenTag(b.tag)) && AllLack(b.lines, CloseTag(b.tag))
    ensures Section(Join(before + BlockLines(b) + after), b.tag) == Some(Trim(Framed(b.lines)))
  {
    hide Join, Section, Trim, Framed, Lacks, OpenTag, CloseTag, BlockLines, IsTag;
    var rest := JoinBlock(before, b, after);
    TagShape(b.tag, '\n');
    LacksJoined(before, OpenTag(b.tag));
    SectionOfParts(Join(before + BlockLines(b) + after), Join(before), OpenTag(b.tag), CloseTag(b.tag), b.lines, rest,
        b.tag);
  }

  // ---------- A document of blocks ----------

  ghost predicate AllNoTags(lines: seq<string>) {
    forall i :: 0 <= i < |lines| ==> NoTags(lines[i])
  }

  ghost predicate IsBlock(b: Block) {
    IsTag(b.tag) && b.lines != [] && AllNoTags(b.lines)
  }

  ghost predicate IsDocument(blocks: seq<Block>) {
    && (forall i :: 0 <= i < |blocks| ==> IsBlock(blocks[i]))
    && (forall i, j :: 0 <= i < j < |blocks| ==> blocks[i].tag != blocks[j].tag)
  }

  lemma {:induction false} LinesOpenNothing(lines: seq<string>, tag: string)
    requires AllNoTags(lines) && IsTag(tag)
    ensures AllLack(lines, OpenTag(tag)) && AllLack(lines, CloseTag(tag))
  {
    hide IsTag, Lacks, OpenTag, CloseTag;
    forall i | 0 <= i < |lines|
      ensures Lacks(lines[i], OpenTag(tag)) && Lacks(lines[i], CloseTag(tag))
    {
      assert NoTags(lines[i]);
    }
  }

  lemma {:induction false} BlockOpensNothing(b: Block, tag: string)
    requires IsBlock(b) && IsTag(tag) && b.tag != tag
    ensures AllLack(BlockLines(b), OpenTag(tag))
  {
    LinesOpenNothing(b.lines, tag);
    TagsAreNames(tag);
    TagsAreNames(b.tag);
    TagsOpenNothing(b.tag, tag);
    LacksNothing(OpenTag(tag));
    hide Lacks, IsTag, AllNoTags, OpenTag, CloseTag;
    assert AllLack([OpenTag(b.tag)], OpenTag(tag)) && AllLack([CloseTag(b.tag), ""], OpenTag(tag));
    AllLackAppend([OpenTag(b.tag)], b.lines, OpenTag(tag));
    AllLackAppend([OpenTag(b.tag)] + b.lines, [CloseTag(b.tag), ""], OpenTag(tag));
  }

  lemma {:induction false} BlocksOpenNothing(blocks: seq<Block>, tag: string)
    requires IsTag(tag) && forall i :: 0 <= i < |blocks| ==> IsBlock(blocks[i]) && blocks[i].tag != tag
    ensures AllLack(AllBlockLines(blocks), OpenTag(tag))
  {
    hide Lacks, IsTag, IsBlock, BlockLines, OpenTag;
    if blocks != [] {
      BlocksOpenNothing(Front(blocks), tag);
      assert IsBlock(blocks[|blocks| - 1]);
      BlockOpensNothing(Last(blocks), tag);
      AllLackAppend(AllBlockLines(Front(blocks)), BlockLines(Last(blocks)), OpenTag(tag));
    }
  }

  lemma {:induction false} TakeBlock(blocks: seq<Block>, k: nat) returns (after: seq<string>)
    requires k < |blocks|
    ensures AllBlockLines(blocks) == AllBlockLines(blocks[..k]) + BlockLines(blocks[k]) + after
  {
    hide BlockLines;
    if k == |blocks| - 1 {
      assert Front(blocks) == blocks[..k];
      after := [];
    } else {
      var rest := TakeBlock(Front(blocks), k);
      assert Front(blocks)[..k] == blocks[..k];
      after := rest + BlockLines(Last(blocks));
    }
  }

  // Every section of such a document is found, with exactly its own lines.
  lemma {:induction false} SectionAt(header: seq<string>, blocks: seq<Block>, k: nat)
    requires header != [] && AllNoTags(header) && IsDocument(blocks) && k < |blocks|
    ensures Section(Join(header + AllBlockLines(blocks)), blocks[k].tag) == Some(Trim(Framed(blocks[k].lines)))
  {
    var b := blocks[k];
    assert IsBlock(b);
    hide Join, Section, Trim, Framed, Lacks, IsTag, BlockLines, OpenTag, CloseTag;
    var after := TakeBlock(blocks, k);
    var before := header + AllBlockLines(blocks[..k]);
    LinesOpenNothing(header, b.tag);
    LinesOpenNothing(b.lines, b.tag);
    BlocksOpenNothing(blocks[..k], b.tag);
    AllLackAppend(header, AllBlockLines(blocks[..k]), OpenTag(b.tag));
    assert header + AllBlockLines(blocks) == before + BlockLines(b) + after;
    SectionReads(before, b, after);
  }

  // And one it does not have is not found.
  lemma {:induction false} SectionMissing(header: seq<string>, blocks: seq<Block>, tag: string)
    requires header != [] && AllNoTags(header) && IsDocument(blocks) && IsTag(tag)
    requires forall i :: 0 <= i < |blocks| ==> blocks[i].tag != tag
    ensures Section(Join(header + AllBlockLines(blocks)), tag) == None
  {
    hide Join, Lacks, IsTag, BlockLines, OpenTag, CloseTag, Find;
    LinesOpenNothing(header, tag);
    BlocksOpenNothing(blocks, tag);
    AllLackAppend(header, AllBlockLines(blocks), OpenTag(tag));
    TagShape(tag, '\n');
    LacksJoined(header + AllBlockLines(blocks), OpenTag(tag));
    FindNothing(Join(header + AllBlockLines(blocks)), OpenTag(tag), 0);
  }
}
