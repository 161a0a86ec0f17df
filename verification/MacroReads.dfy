/**
  What the tokenizer makes of a text, piece by piece. The pieces tile the text, and each of them is a
  character, an escaped '<', or a closed tag.
*/
module MacroReads {
  import opened Wrappers
  import opened MacroScan

  /** One token for every character. */
  ghost predicate Spells(tokens: seq<Token>, text: string) {
    |tokens| == |text| && forall i | 0 <= i < |text| :: tokens[i] == Token(Char, [text[i]])
  }

  /** The piece from `a` to `b` begins with '<' and ends with the first '>' behind it. */
  ghost predicate Closed(text: string, a: nat, b: nat) {
    && a + 2 <= b <= |text| && text[a] == '<' && text[b - 1] == '>'
    && forall k | a < k < b - 1 :: text[k] != '>'
  }

  /** Nothing behind `a` closes a tag. */
  ghost predicate Unclosed(text: string, a: nat) { forall k | a < k < |text| :: text[k] != '>' }

  /** The tag, without the white space around it, as the rest of the compiler sees it. */
  function Inner(text: string, a: nat, b: nat, syntax: Syntax): string
    requires a + 2 <= b <= |text|
  {
    syntax.strip(text[a + 1..b - 1])
  }

  /** The tag begins with "macro:", in large or small letters. */
  predicate Calls(tag: string) {
    |tag| >= 6 && forall i | 0 <= i < 6 :: tag[i] == "macro:"[i] || tag[i] == "MACRO:"[i]
  }

  lemma CallsIs(tag: string)
    ensures Calls(tag) <==> IsCallTag(tag)
  {
    if |tag| >= 6 {
      var small, large := "macro:", "MACRO:";
      assert small[0] == 'm' && small[1] == 'a' && small[2] == 'c'
          && small[3] == 'r' && small[4] == 'o' && small[5] == ':';
      assert large[0] == 'M' && large[1] == 'A' && large[2] == 'C'
          && large[3] == 'R' && large[4] == 'O' && large[5] == ':';
    }
  }

  /** The piece is one character that stands for itself. */
  ghost predicate IsChar(text: string, a: nat, b: nat, tokens: seq<Token>) {
    && a < |text| && b == a + 1 && (text[a] != '<' || Unclosed(text, a))
    && !(text[a] == '\\' && b < |text| && text[b] == '<')
    && tokens == [Token(Char, [text[a]])]
  }

  /** The piece is a backslash and the '<' that it escapes. */
  ghost predicate IsEscape(text: string, a: nat, b: nat, tokens: seq<Token>) {
    b == a + 2 <= |text| && text[a] == '\\' && text[a + 1] == '<' && tokens == [Token(Char, "<")]
  }

  /** The piece is a closed tag: a macro call with a name, another control, or no control at all. */
  ghost predicate IsTag(text: string, a: nat, b: nat, tokens: seq<Token>, syntax: Syntax) {
    && Closed(text, a, b)
    && var tag := Inner(text, a, b, syntax);
       if Calls(tag) then
         syntax.strip(tag[6..]) != "" && tokens == [Token(Macro, syntax.strip(tag[6..]))]
       else
         match syntax.other(tag)
         case Tokens(ts) => tokens == ts
         case NotATag => Spells(tokens, text[a..b])
         case Malformed => false
  }

  ghost predicate ReadsAs(text: string, a: nat, b: nat, tokens: seq<Token>, syntax: Syntax) {
    IsChar(text, a, b, tokens) || IsEscape(text, a, b, tokens) || IsTag(text, a, b, tokens, syntax)
  }

  /** The closed tag at `a` is a call without a name or another malformed control. */
  ghost predicate IsMalformed(text: string, a: nat, b: nat, syntax: Syntax) {
    && Closed(text, a, b)
    && var tag := Inner(text, a, b, syntax);
       if Calls(tag) then syntax.strip(tag[6..]) == "" else syntax.other(tag).Malformed?
  }

  // ---- Pieces ----

  datatype Piece = Piece(start: nat, end: nat, tokens: seq<Token>)

  /** The pieces follow each other from `from` to `to`, and each reads as its tokens. */
  ghost predicate Tiles(pieces: seq<Piece>, text: string, from: nat, to: nat, syntax: Syntax)
    decreases |pieces|
  {
    if pieces == [] then from == to
    else
      && pieces[0].start == from && from < pieces[0].end <= to <= |text|
      && ReadsAs(text, from, pieces[0].end, pieces[0].tokens, syntax)
      && Tiles(pieces[1..], text, pieces[0].end, to, syntax)
  }

  function TokensOf(pieces: seq<Piece>): seq<Token> {
    if pieces == [] then [] else pieces[0].tokens + TokensOf(pieces[1..])
  }

  /** How a position can go on. */
  lemma OnePiece(text: string, a: nat, syntax: Syntax) returns (piece: Piece)
    requires a < |text| && PlacedFrom(text, a, syntax).Some?
    ensures piece.start == a < piece.end <= |text| && ReadsAs(text, a, piece.end, piece.tokens, syntax)
    ensures PlacedFrom(text, piece.end, syntax).Some?
    ensures PlacedFrom(text, a, syntax).value
         == At(piece.tokens, a, piece.end) + PlacedFrom(text, piece.end, syntax).value
  {
    FindFirst(text, '>', a + 1);
    if EscapedAt(text, a) {
      piece := Piece(a, a + 2, [Token(Char, "<")]);
      assert IsEscape(text, a, a + 2, piece.tokens);
    } else if text[a] != '<' || Find(text, '>', a + 1).None? {
      piece := Piece(a, a + 1, [Token(Char, [text[a]])]);
      assert IsChar(text, a, a + 1, piece.tokens);
    } else {
      var end := Find(text, '>', a + 1).value;
      piece := Piece(a, end + 1, TagTokens(text, a, end, syntax));
      TagReads(text, a, end, syntax);
      TagPiece(text, a, end, syntax);
    }
  }

  lemma TagPiece(text: string, a: nat, end: nat, syntax: Syntax)
    requires a < end < |text| && text[a] == '<' && text[end] == '>' && forall k | a < k < end :: text[k] != '>'
    requires !ControlOf(TagOf(text, a, end, syntax), syntax).Malformed?
    ensures IsTag(text, a, end + 1, TagTokens(text, a, end, syntax), syntax)
  {
    assert Inner(text, a, end + 1, syntax) == TagOf(text, a, end, syntax);
    CallsIs(TagOf(text, a, end, syntax));
  }

  lemma {:induction false} PiecesFrom(text: string, from: nat, syntax: Syntax) returns (pieces: seq<Piece>)
    requires from <= |text| && PlacedFrom(text, from, syntax).Some?
    ensures Tiles(pieces, text, from, |text|, syntax)
    ensures Erase(PlacedFrom(text, from, syntax).value) == TokensOf(pieces)
    decreases |text| - from
  {
    if from == |text| {
      pieces := [];
    } else {
      var piece := OnePiece(text, from, syntax);
      var rest := PiecesFrom(text, piece.end, syntax);
      pieces := [piece] + rest;
      assert pieces[1..] == rest;
      EraseAt(piece.tokens, from, piece.end, PlacedFrom(text, piece.end, syntax).value);
    }
  }

  lemma EraseAt(tokens: seq<Token>, start: nat, end: nat, rest: seq<Placed>)
    ensures Erase(At(tokens, start, end) + rest) == tokens + Erase(rest)
  {
  }

  /** What an accepted text is read as: pieces that tile the text, each a character for itself, an escaped
      '<', or a closed tag with the tokens of its control or else its own characters. */
  lemma TextIsRead(text: string, syntax: Syntax) returns (pieces: seq<Piece>)
    requires TokensFrom(text, 0, syntax).Some?
    ensures Tiles(pieces, text, 0, |text|, syntax) && TokensFrom(text, 0, syntax).value == TokensOf(pieces)
  {
    pieces := PiecesFrom(text, 0, syntax);
  }

  /** A text has one such reading. */
  lemma {:induction false} OneReading(p: seq<Piece>, q: seq<Piece>, text: string, from: nat, syntax: Syntax)
    requires Tiles(p, text, from, |text|, syntax) && Tiles(q, text, from, |text|, syntax)
    ensures p == q
    decreases |p|
  {
    if p != [] {
      SameReading(text, from, p[0], q[0], syntax);
      OneReading(p[1..], q[1..], text, p[0].end, syntax);
      assert p == [p[0]] + p[1..] && q == [q[0]] + q[1..];
    }
  }

  lemma SameReading(text: string, a: nat, p: Piece, q: Piece, syntax: Syntax)
    requires p.start == q.start == a
    requires ReadsAs(text, a, p.end, p.tokens, syntax) && ReadsAs(text, a, q.end, q.tokens, syntax)
    ensures p == q
  {
    if Closed(text, a, p.end) && Closed(text, a, q.end) {
      assert p.end == q.end;
      if !Calls(Inner(text, a, p.end, syntax)) && syntax.other(Inner(text, a, p.end, syntax)).NotATag? {
        assert p.tokens == q.tokens;
      }
    }
  }

  /** A text is rejected exactly if some tag of its reading is malformed. */
  lemma {:induction false} RejectedFrom(text: string, from: nat, syntax: Syntax)
    returns (pieces: seq<Piece>, a: nat, b: nat)
    requires from <= |text| && PlacedFrom(text, from, syntax).None?
    ensures from <= a && Tiles(pieces, text, from, a, syntax) && IsMalformed(text, a, b, syntax)
    decreases |text| - from
  {
    FindFirst(text, '>', from + 1);
    if EscapedAt(text, from) || text[from] != '<' || Find(text, '>', from + 1).None? {
      var next := if EscapedAt(text, from) then from + 2 else from + 1;
      var tokens := if EscapedAt(text, from) then [Token(Char, "<")] else [Token(Char, [text[from]])];
      pieces, a, b := RejectedFrom(text, next, syntax);
      assert IsEscape(text, from, next, tokens) || IsChar(text, from, next, tokens);
      pieces := Before(Piece(from, next, tokens), pieces, text, a, syntax);
    } else {
      var end := Find(text, '>', from + 1).value;
      if ControlOf(TagOf(text, from, end, syntax), syntax).Malformed? {
        pieces, a, b := [], from, end + 1;
        assert Inner(text, from, end + 1, syntax) == TagOf(text, from, end, syntax);
        CallsIs(TagOf(text, from, end, syntax));
      } else {
        pieces, a, b := RejectedFrom(text, end + 1, syntax);
        TagPiece(text, from, end, syntax);
        pieces := Before(Piece(from, end + 1, TagTokens(text, from, end, syntax)), pieces, text, a, syntax);
      }
    }
  }

  lemma Before(piece: Piece, rest: seq<Piece>, text: string, to: nat, syntax: Syntax) returns (pieces: seq<Piece>)
    requires piece.start < piece.end <= to <= |text| && Tiles(rest, text, piece.end, to, syntax)
    requires ReadsAs(text, piece.start, piece.end, piece.tokens, syntax)
    ensures Tiles(pieces, text, piece.start, to, syntax)
  {
    pieces := [piece] + rest;
    assert pieces[1..] == rest;
  }

  /** What a rejected text runs into: a malformed tag, behind pieces that can be read. */
  lemma TextIsRejected(text: string, syntax: Syntax) returns (pieces: seq<Piece>, a: nat, b: nat)
    requires TokensFrom(text, 0, syntax).None?
    ensures Tiles(pieces, text, 0, a, syntax) && IsMalformed(text, a, b, syntax)
  {
    pieces, a, b := RejectedFrom(text, 0, syntax);
  }

  /** A text without '<' is typed as it stands. */
  lemma PlainText(text: string, syntax: Syntax)
    requires '<' !in text
    ensures TokensFrom(text, 0, syntax).Some? && Spells(TokensFrom(text, 0, syntax).value, text)
  {
    PlainFrom(text, 0, syntax);
    assert text[0..] == text;
  }

  lemma {:induction false} PlainFrom(text: string, from: nat, syntax: Syntax)
    requires from <= |text| && '<' !in text
    ensures PlacedFrom(text, from, syntax).Some? && Spells(Erase(PlacedFrom(text, from, syntax).value), text[from..])
    decreases |text| - from
  {
    if from < |text| {
      assert text[from] != '<' && !EscapedAt(text, from);
      PlainFrom(text, from + 1, syntax);
      EraseAt([Token(Char, [text[from]])], from, from + 1, PlacedFrom(text, from + 1, syntax).value);
      assert text[from..] == [text[from]] + text[from + 1..];
    }
  }
}
