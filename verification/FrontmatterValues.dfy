// Which characters make a key, and how a value is read whatever quotes, spaces and commas it is
// written with (plugin.js, extractFrontmatter).
module FrontmatterValues {
  import opened Strings
  import opened FrontmatterParser

  // The characters of a key, and the quotes.
  lemma {:induction false} KeyCharacters(c: char)
    ensures IsKeyChar(c) <==>
            || 0x41 <= c as int <= 0x5A || 0x61 <= c as int <= 0x7A || 0x30 <= c as int <= 0x39
            || c as int in [0x2D, 0x5F]
    ensures IsQuote(c) <==> c in ['"', '\'']
  {
  }

  // A text between quotes or without; an outer quote is never part of it.
  predicate IsQuotation(open: string, core: string, close: string) {
    && open in ["", "\"", "'"] && close in ["", "\"", "'"]
    && (open == "" && core != "" ==> core[0] != '"' && core[0] != '\'')
    && (close == "" && core != "" ==> core[|core| - 1] != '"' && core[|core| - 1] != '\'')
  }

  lemma {:induction false} StartsQuoted(open: string, rest: string)
    requires open in ["", "\"", "'"]
    requires open == "" && rest != "" ==> rest[0] != '"' && rest[0] != '\''
    ensures (if open + rest != "" && IsQuote((open + rest)[0]) then (open + rest)[1..] else open + rest) == rest
  {
    if open == "" {
      assert open + rest == rest;
    } else {
      assert (open + rest)[0] == open[0] && (open + rest)[1..] == rest;
    }
  }

  lemma {:induction false} EndsQuoted(rest: string, close: string)
    requires close in ["", "\"", "'"]
    requires close == "" && rest != "" ==> rest[|rest| - 1] != '"' && rest[|rest| - 1] != '\''
    ensures var t := rest + close; (if t != "" && IsQuote(t[|t| - 1]) then t[..|t| - 1] else t) == rest
  {
    var t := rest + close;
    if close == "" {
      assert t == rest;
    } else {
      assert t[|t| - 1] == close[0] && t[..|t| - 1] == rest;
    }
  }

  // One quote is taken off each end, of either kind, whether or not the other end has one.
  lemma {:induction false} QuotesComeOff(open: string, core: string, close: string)
    requires IsQuotation(open, core, close)
    ensures StripQuotes(open + core + close) == core
  {
    if open == "" && core == "" {
      assert open + core + close == close;
      if close != "" {
        assert close[1..] == "";
      }
    } else {
      assert open + core + close == open + (core + close);
      assert core != "" ==> (core + close)[0] == core[0];
      StartsQuoted(open, core + close);
      EndsQuoted(core, close);
    }
  }

  // ---------- Lists in brackets ----------

  // One item as it is written: white space, a quote or none, the text, a quote or none, white space.
  datatype Piece = Piece(left: string, open: string, core: string, close: string, right: string)

  function TextOf(p: Piece): string {
    p.left + (p.open + p.core + p.close) + p.right
  }

  predicate IsPiece(p: Piece) {
    && IsBlank(p.left) && IsBlank(p.right) && IsQuotation(p.open, p.core, p.close)
    && (p.open == "" && p.core != "" ==> !IsSpace(p.core[0]))
    && (p.close == "" && p.core != "" ==> !IsSpace(p.core[|p.core| - 1]))
    && ',' !in p.core
  }

  lemma {:induction false} QuotesAreInk(c: char)
    ensures c == '"' || c == '\'' ==> !IsSpace(c) && c != ','
    ensures IsSpace(c) ==> c != ','
  {
  }

  lemma {:induction false} QuotedIsTrimmed(open: string, core: string, close: string)
    requires IsQuotation(open, core, close) && open + core + close != ""
    requires open == "" && core != "" ==> !IsSpace(core[0])
    requires close == "" && core != "" ==> !IsSpace(core[|core| - 1])
    ensures IsTrimmed(open + core + close)
  {
    var s := open + core + close;
    QuotesAreInk(s[0]);
    QuotesAreInk(s[|s| - 1]);
    hide IsSpace;
    assert s[0] == if open != "" then open[0] else if core != "" then core[0] else close[0];
    assert s[|s| - 1] == if close != "" then close[0] else if core != "" then core[|core| - 1] else open[0];
  }

  lemma {:induction false} PieceReads(p: Piece)
    requires IsPiece(p)
    ensures StripQuotes(Trim(TextOf(p))) == p.core
  {
    var s := p.open + p.core + p.close;
    QuotesComeOff(p.open, p.core, p.close);
    if s == "" {
      assert TextOf(p) == p.left + p.right;
      BlankIsTrimmedAway(TextOf(p));
      hide Trim;
      assert StripQuotes("") == "";
    } else {
      QuotedIsTrimmed(p.open, p.core, p.close);
      TrimBetween(p.left, s, p.right);
    }
  }

  lemma {:induction false} PieceHasNoComma(p: Piece)
    requires IsPiece(p)
    ensures ',' !in TextOf(p)
  {
    forall i | 0 <= i < |TextOf(p)|
      ensures TextOf(p)[i] != ','
    {
      QuotesAreInk(TextOf(p)[i]);
    }
  }

  function Texts(pieces: seq<Piece>): seq<string> {
    if pieces == [] then [] else [TextOf(pieces[0])] + Texts(pieces[1..])
  }

  function WithCommas(parts: seq<string>): string
    requires parts != []
  {
    if |parts| == 1 then parts[0] else parts[0] + "," + WithCommas(parts[1..])
  }

  // The texts that are not empty.
  function Cores(pieces: seq<Piece>): seq<string> {
    if pieces == [] then []
    else (if pieces[0].core != "" then [pieces[0].core] else []) + Cores(pieces[1..])
  }

  lemma {:induction false} SplitPart(part: string, rest: string)
    requires ',' !in part
    ensures SplitComma(part) == [part]
    ensures SplitComma(part + "," + rest) == [part] + SplitComma(rest)
  {
    if part == "" {
      assert part + "," + rest == "," + rest;
      assert ("," + rest)[1..] == rest;
    } else {
      var c, tail := part[0], part[1..];
      SplitPart(tail, rest);
      assert part == [c] + tail;
      assert (part + "," + rest)[1..] == tail + "," + rest;
      assert (part + "," + rest)[0] == c;
    }
  }

  lemma {:induction false} SplitCommas(pieces: seq<Piece>)
    requires pieces != [] && forall p :: p in pieces ==> IsPiece(p)
    ensures SplitComma(WithCommas(Texts(pieces))) == Texts(pieces)
  {
    hide IsPiece, TextOf, SplitComma;
    PieceHasNoComma(pieces[0]);
    if |pieces| == 1 {
      assert Texts(pieces[1..]) == [];
      SplitPart(TextOf(pieces[0]), "");
    } else {
      SplitCommas(pieces[1..]);
      SplitPart(TextOf(pieces[0]), WithCommas(Texts(pieces[1..])));
      assert Texts(pieces)[1..] == Texts(pieces[1..]);
    }
  }

  lemma {:induction false} PiecesRead(pieces: seq<Piece>)
    requires forall p :: p in pieces ==> IsPiece(p)
    ensures InlineItems(Texts(pieces)) == Cores(pieces)
  {
    hide IsPiece, TextOf, StripQuotes, Trim;
    if pieces != [] {
      PieceReads(pieces[0]);
      PiecesRead(pieces[1..]);
      assert Texts(pieces)[1..] == Texts(pieces[1..]);
    }
  }

  // A list in brackets holds the texts between its commas, without their quotes and outer white
  // space; empty ones are left out.
  lemma {:induction false} BracketsHoldTheirPieces(pieces: seq<Piece>)
    requires pieces != [] && forall p :: p in pieces ==> IsPiece(p)
    ensures
      var value := "[" + WithCommas(Texts(pieces)) + "]";
      IsBracketed(value) && InlineList(value) == Node(true, Cores(pieces), [])
  {
    SplitCommas(pieces);
    PiecesRead(pieces);
    var inner := WithCommas(Texts(pieces));
    var value := "[" + inner + "]";
    assert value[1..|value| - 1] == inner;
    hide SplitComma, InlineItems, Texts, WithCommas, Cores, IsPiece;
  }

  // ---------- The fences ----------

  // The opening fence begins the document, and position e is that of the first closing fence
  // after at least one character.
  ghost predicate IsClosing(content: string, e: int) {
    && StartsAt(content, 0, "---\n") && 5 <= e && StartsAt(content, e, "\n---")
    && forall k: nat :: 5 <= k < e ==> !StartsAt(content, k, "\n---")
  }

  lemma {:induction false} EndExactlyWhen(content: string, e: nat)
    ensures EndOf(content) == e <==> IsClosing(content, e)
  {
    hide StartsAt;
  }
}
