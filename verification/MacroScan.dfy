/**
  The two scanners of typed-text macros. The normaliser splits a text around its macro calls, such as
  "<macro:greet>", so that it leaves them alone; the tokenizer turns the text into characters and
  control tokens. They walk the text differently but must find the same calls.
*/
module MacroScan {
  import opened Wrappers

  datatype Kind = Char | Wait | Macro | MouseMove | MouseClick | Shortcut | Key

  datatype Token = Token(kind: Kind, value: string)

  datatype Part = Part(text: string, isMacroCall: bool)

  /** A text split around its calls: the last stretch of text, or a stretch, a call and the rest. */
  datatype Parts = Last(text: string) | Then(before: string, call: string, rest: Parts)

  function ToSeq(parts: Parts): seq<Part> {
    match parts
    case Last(text) => [Part(text, false)]
    case Then(before, call, rest) => [Part(before, false), Part(call, true)] + ToSeq(rest)
  }

  /** What a tag that is not a macro call means: ordinary text, some tokens, or an error. */
  datatype Control = NotATag | Tokens(tokens: seq<Token>) | Malformed

  /** `strip` removes surrounding white space; `other` reads the tags that are not macro calls. */
  datatype Syntax = Syntax(strip: string -> string, other: string -> Control)

  const CALL_PREFIX_LENGTH := 6

  function LowerChar(c: char): char {
    if 'A' <= c <= 'Z' then (c as int - 'A' as int + 'a' as int) as char else c
  }

  /** The tag starts with "macro:", in any case. */
  predicate IsCallTag(tag: string) {
    && |tag| >= CALL_PREFIX_LENGTH
    && LowerChar(tag[0]) == 'm' && LowerChar(tag[1]) == 'a' && LowerChar(tag[2]) == 'c'
    && LowerChar(tag[3]) == 'r' && LowerChar(tag[4]) == 'o' && tag[5] == ':'
  }

  function CallName(tag: string, syntax: Syntax): string
    requires IsCallTag(tag)
  {
    syntax.strip(tag[CALL_PREFIX_LENGTH..])
  }

  /** No other tag produces a macro token. */
  ghost predicate CallsOnlyByTag(syntax: Syntax) {
    forall tag, token :: syntax.other(tag).Tokens? && token in syntax.other(tag).tokens ==> token.kind != Macro
  }

  function ControlOf(tag: string, syntax: Syntax): Control {
    if IsCallTag(tag) then
      if CallName(tag, syntax) == "" then Malformed else Tokens([Token(Macro, CallName(tag, syntax))])
    else syntax.other(tag)
  }

  /** The first position of a character at or after `from`. */
  function Find(text: string, c: char, from: nat): (r: Option<nat>)
    ensures r.Some? ==> from <= r.value < |text| && text[r.value] == c
    decreases |text| - from
  {
    if from >= |text| then None
    else if text[from] == c then Some(from)
    else Find(text, c, from + 1)
  }

  lemma {:induction false} FindFirst(text: string, c: char, from: nat)
    ensures match Find(text, c, from)
            case Some(at) => forall k | from <= k < at :: text[k] != c
            case None => forall k | from <= k < |text| :: text[k] != c
    decreases |text| - from
  {
    if from < |text| && text[from] != c { FindFirst(text, c, from + 1); }
  }

  function TagOf(text: string, at: nat, end: nat, syntax: Syntax): string
    requires at < end < |text|
  {
    syntax.strip(text[at + 1..end])
  }

  // ---- The splitter ----

  /** What the splitter meets next: nothing more, an escaped '<', or a closed tag. */
  datatype Next = Done | Escaped(resume: nat) | Tag(at: nat, end: nat)

  function NextTag(text: string, from: nat): (r: Next)
    requires from <= |text|
    ensures r.Escaped? ==> from < r.resume <= |text|
    ensures r.Tag? ==> from <= r.at < r.end < |text|
  {
    var open := Find(text, '<', from);
    if open.None? then Done
    else if open.value > 0 && text[open.value - 1] == '\\' then Escaped(open.value + 1)
    else
      var close := Find(text, '>', open.value + 1);
      if close.None? then Done else Tag(open.value, close.value)
  }

  /** The parts of the text from `start` on; the search goes on at `from`. */
  function Split(text: string, start: nat, from: nat, syntax: Syntax): Parts
    requires start <= from <= |text|
    decreases |text| - from
  {
    match NextTag(text, from)
    case Done => Last(text[start..])
    case Escaped(resume) => Split(text, start, resume, syntax)
    case Tag(at, end) =>
      if IsCallTag(TagOf(text, at, end, syntax)) then
        Then(text[start..at], text[at..end + 1], Split(text, end + 1, end + 1, syntax))
      else Split(text, start, end + 1, syntax)
  }

  /** The text in front of a call, and the call. */
  function CallParts(text: string, start: nat, at: nat, end: nat): seq<Part>
    requires start <= at < end < |text|
  {
    [Part(text[start..at], false), Part(text[at..end + 1], true)]
  }

  /** One turn of the loop: what it finds, and where it goes on. */
  ghost predicate Turn(text: string, start: nat, from: nat, syntax: Syntax, found: seq<Part>, start': nat, from': nat)
    requires start <= from <= |text|
  {
    var next := NextTag(text, from);
    if next.Escaped? then found == [] && start' == start && from' == next.resume
    else if next.Done? then false
    else if IsCallTag(TagOf(text, next.at, next.end, syntax)) then
      found == CallParts(text, start, next.at, next.end) && start' == from' == next.end + 1
    else found == [] && start' == start && from' == next.end + 1
  }

  lemma SplitStep(text: string, start: nat, from: nat, syntax: Syntax, found: seq<Part>, start': nat, from': nat)
    requires start <= from <= |text| && start' <= from' <= |text|
    requires Turn(text, start, from, syntax, found, start', from')
    ensures ToSeq(Split(text, start, from, syntax)) == found + ToSeq(Split(text, start', from', syntax))
  {
    if found == [] {
      assert Split(text, start, from, syntax) == Split(text, start', from', syntax);
      assert [] + ToSeq(Split(text, start', from', syntax)) == ToSeq(Split(text, start', from', syntax));
    }
  }

  method SplitTypeMacroCalls(text: string, syntax: Syntax) returns (parts: seq<Part>)
    ensures parts == ToSeq(Split(text, 0, 0, syntax))
    ensures TextOf(parts) == text && CallsIn(parts, 0, syntax) == MarkedCalls(text, 0, 0, syntax)
  {
    SplitText(text, 0, 0, syntax);
    ListedParts(Split(text, 0, 0, syntax), 0, syntax);
    parts := [];
    var start, from := 0, 0;
    var next := NextTag(text, from);
    while !next.Done?
      invariant 0 <= start <= from <= |text| && next == NextTag(text, from)
      invariant parts + ToSeq(Split(text, start, from, syntax)) == ToSeq(Split(text, 0, 0, syntax))
      decreases |text| - from
    {
      ghost var s0, f0 := start, from;
      var found: seq<Part> := [];
      if next.Escaped? {
        from := next.resume;
      } else {
        from := next.end + 1;
        if IsCallTag(TagOf(text, next.at, next.end, syntax)) {
          found := CallParts(text, start, next.at, next.end);
          start := next.end + 1;
        }
      }
      SplitStep(text, s0, f0, syntax, found, start, from);
      Assoc(parts, found, ToSeq(Split(text, start, from, syntax)));
      parts := parts + found;
      next := NextTag(text, from);
    }
    parts := parts + [Part(text[start..], false)];
  }

  // ---- The tokenizer ----

  function Chars(text: string): seq<Token> {
    seq(|text|, i requires 0 <= i < |text| => Token(Char, [text[i]]))
  }

  predicate EscapedAt(text: string, at: nat) { at + 1 < |text| && text[at] == '\\' && text[at + 1] == '<' }

  /** A token and the stretch of text that it was read from. */
  datatype Placed = Placed(token: Token, start: nat, end: nat)

  function At(tokens: seq<Token>, start: nat, end: nat): seq<Placed> {
    seq(|tokens|, i requires 0 <= i < |tokens| => Placed(tokens[i], start, end))
  }

  function Erase(placed: seq<Placed>): seq<Token> {
    seq(|placed|, i requires 0 <= i < |placed| => placed[i].token)
  }

  /** The tokens from a position on, with their places; None when a control is malformed. */
  function PlacedFrom(text: string, at: nat, syntax: Syntax): Option<seq<Placed>>
    requires at <= |text|
    decreases |text| - at
  {
    if at == |text| then Some([])
    else if EscapedAt(text, at) then Prefixed(At([Token(Char, "<")], at, at + 2), PlacedFrom(text, at + 2, syntax))
    else if text[at] != '<' || Find(text, '>', at + 1).None? then
      Prefixed(At([Token(Char, [text[at]])], at, at + 1), PlacedFrom(text, at + 1, syntax))
    else
      var end := Find(text, '>', at + 1).value;
      match ControlOf(TagOf(text, at, end, syntax), syntax)
      case Malformed => None
      case Tokens(tokens) => Prefixed(At(tokens, at, end + 1), PlacedFrom(text, end + 1, syntax))
      case NotATag => Prefixed(At(Chars(text[at..end + 1]), at, end + 1), PlacedFrom(text, end + 1, syntax))
  }

  /** The tokens alone, which is what the tokenizer returns. */
  function TokensFrom(text: string, at: nat, syntax: Syntax): Option<seq<Token>>
    requires at <= |text|
  {
    var placed := PlacedFrom(text, at, syntax);
    if placed.None? then None else Some(Erase(placed.value))
  }

  function Prefixed(placed: seq<Placed>, rest: Option<seq<Placed>>): Option<seq<Placed>> {
    if rest.None? then None else Some(placed + rest.value)
  }

  lemma PrefixedAssoc(a: seq<Placed>, b: seq<Placed>, rest: Option<seq<Placed>>)
    ensures Prefixed(a, Prefixed(b, rest)) == Prefixed(a + b, rest)
  {
    if rest.Some? { assert a + (b + rest.value) == a + b + rest.value; }
  }

  lemma PrefixedNone(rest: Option<seq<Placed>>)
    ensures Prefixed([], rest) == rest
  {
    if rest.Some? { assert [] + rest.value == rest.value; }
  }

  lemma EraseMore(placed: seq<Placed>, tokens: seq<Token>, start: nat, end: nat)
    ensures Erase(placed + At(tokens, start, end)) == Erase(placed) + tokens
  {
  }

  method TypeMacroTokens(text: string, syntax: Syntax) returns (r: Option<seq<Token>>)
    ensures r == TokensFrom(text, 0, syntax)
  {
    var tokens: seq<Token> := [];
    ghost var placed: seq<Placed> := [];
    var index := 0;
    PrefixedNone(PlacedFrom(text, 0, syntax));
    while index < |text|
      invariant 0 <= index <= |text| && tokens == Erase(placed)
      invariant PlacedFrom(text, 0, syntax) == Prefixed(placed, PlacedFrom(text, index, syntax))
    {
      var more: seq<Token>;
      var next := index + 1;
      if EscapedAt(text, index) {
        more, next := [Token(Char, "<")], index + 2;
      } else if text[index] != '<' {
        more := [Token(Char, [text[index]])];
      } else {
        var close := Find(text, '>', index + 1);
        if close.None? {
          more := [Token(Char, [text[index]])];
        } else {
          next := close.value + 1;
          match ControlOf(TagOf(text, index, close.value, syntax), syntax) {
            case Malformed => return None;
            case Tokens(tokens') => more := tokens';
            case NotATag => more := Chars(text[index..next]);
          }
        }
      }
      PrefixedAssoc(placed, At(more, index, next), PlacedFrom(text, next, syntax));
      EraseMore(placed, more, index, next);
      placed := placed + At(more, index, next);
      tokens, index := tokens + more, next;
    }
    assert placed + [] == placed;
    r := Some(tokens);
  }

  // ---- They agree ----

  /** All the parts put together. */
  function Text(parts: Parts): string {
    match parts
    case Last(text) => text
    case Then(before, call, rest) => before + (call + Text(rest))
  }

  /** A macro call in a text: the name it calls, and where it stands. */
  datatype Call = Call(name: string, start: nat, end: nat)

  /** The parts that are marked as macro calls; the parts begin at `offset`. */
  function CallsOfParts(parts: Parts, offset: nat, syntax: Syntax): seq<Call> {
    match parts
    case Last(_) => []
    case Then(before, call, rest) =>
      var start := offset + |before|;
      [Call(NameInPart(call, syntax), start, start + |call|)] + CallsOfParts(rest, start + |call|, syntax)
  }

  /** A call reads "<tag>". */
  function NameInPart(text: string, syntax: Syntax): string {
    if |text| >= 2 && IsCallTag(syntax.strip(text[1..|text| - 1]))
    then CallName(syntax.strip(text[1..|text| - 1]), syntax) else ""
  }

  /** The macro tokens, with the places they were read from. */
  function CallsOfPlaced(placed: seq<Placed>): seq<Call> {
    if placed == [] then [] else CallOf(placed[0]) + CallsOfPlaced(placed[1..])
  }

  function CallOf(p: Placed): seq<Call> {
    if p.token.kind == Macro then [Call(p.token.value, p.start, p.end)] else []
  }

  function Names(calls: seq<Call>): seq<string> {
    seq(|calls|, i requires 0 <= i < |calls| => calls[i].name)
  }

  function CallsOfTokens(tokens: seq<Token>): seq<string> {
    if tokens == [] then []
    else (if tokens[0].kind == Macro then [tokens[0].value] else []) + CallsOfTokens(tokens[1..])
  }

  lemma {:induction false} NamesOfPlaced(placed: seq<Placed>)
    ensures Names(CallsOfPlaced(placed)) == CallsOfTokens(Erase(placed))
  {
    if placed != [] {
      NamesOfPlaced(placed[1..]);
      assert Erase(placed)[1..] == Erase(placed[1..]);
    }
  }

  lemma {:induction false} SplitText(text: string, start: nat, from: nat, syntax: Syntax)
    requires start <= from <= |text|
    ensures Text(Split(text, start, from, syntax)) == text[start..]
    decreases |text| - from
  {
    match NextTag(text, from)
    case Done => SplitWithoutTag(text, start, from, syntax);
    case Escaped(resume) =>
      SplitText(text, start, resume, syntax);
      SplitWithoutTag(text, start, from, syntax);
    case Tag(at, end) =>
      SplitText(text, if IsCallTag(TagOf(text, at, end, syntax)) then end + 1 else start, end + 1, syntax);
      TextAtTag(text, start, from, at, end, syntax);
  }

  lemma SplitWithoutTag(text: string, start: nat, from: nat, syntax: Syntax)
    requires start <= from <= |text| && !NextTag(text, from).Tag?
    ensures Split(text, start, from, syntax) ==
            if NextTag(text, from).Done? then Last(text[start..])
            else Split(text, start, NextTag(text, from).resume, syntax)
  {
  }

  lemma TextAtTag(text: string, start: nat, from: nat, at: nat, end: nat, syntax: Syntax)
    requires start <= from <= |text| && NextTag(text, from) == Tag(at, end)
    requires var start' := if IsCallTag(TagOf(text, at, end, syntax)) then end + 1 else start;
             Text(Split(text, start', end + 1, syntax)) == text[start'..]
    ensures Text(Split(text, start, from, syntax)) == text[start..]
  {
    if IsCallTag(TagOf(text, at, end, syntax)) {
      SplitAtCall(text, start, from, at, end, syntax);
      TextThen(text, start, at, end, Split(text, end + 1, end + 1, syntax));
    } else {
      NotACall(text, start, from, at, end, syntax);
    }
  }

  lemma SplitAtCall(text: string, start: nat, from: nat, at: nat, end: nat, syntax: Syntax)
    requires start <= from <= |text| && NextTag(text, from) == Tag(at, end) && IsCallTag(TagOf(text, at, end, syntax))
    ensures Split(text, start, from, syntax)
         == Then(text[start..at], text[at..end + 1], Split(text, end + 1, end + 1, syntax))
  {
  }

  lemma TextThen(text: string, start: nat, at: nat, end: nat, rest: Parts)
    requires start <= at < end < |text| && Text(rest) == text[end + 1..]
    ensures Text(Then(text[start..at], text[at..end + 1], rest)) == text[start..]
  {
    Rejoin(text, start, at, end + 1);
  }

  lemma Rejoin(text: string, a: nat, b: nat, c: nat)
    requires a <= b <= c <= |text|
    ensures text[a..b] + (text[b..c] + text[c..]) == text[a..]
  {
    assert text[b..c] + text[c..] == text[b..];
  }

  lemma {:induction false} CallsConcat(a: seq<Token>, b: seq<Token>)
    ensures CallsOfTokens(a + b) == CallsOfTokens(a) + CallsOfTokens(b)
  {
    if a == [] {
      assert a + b == b;
    } else {
      CallsConcat(a[1..], b);
      assert (a + b)[1..] == a[1..] + b;
      Assoc(if a[0].kind == Macro then [a[0].value] else [], CallsOfTokens(a[1..]), CallsOfTokens(b));
    }
  }

  lemma {:induction false} PlacedConcat(a: seq<Placed>, b: seq<Placed>)
    ensures CallsOfPlaced(a + b) == CallsOfPlaced(a) + CallsOfPlaced(b)
  {
    if a == [] {
      assert a + b == b;
    } else {
      PlacedConcat(a[1..], b);
      assert (a + b)[1..] == a[1..] + b;
      Assoc(CallOf(a[0]), CallsOfPlaced(a[1..]), CallsOfPlaced(b));
    }
  }

  lemma {:induction false} NoCalls(placed: seq<Placed>)
    requires forall p | p in placed :: p.token.kind != Macro
    ensures CallsOfPlaced(placed) == []
  {
    if placed != [] { NoCalls(placed[1..]); }
  }

  /** Tokens without a macro token in front change nothing about the calls. */
  lemma CallsAfter(tokens: seq<Token>, start: nat, end: nat, rest: seq<Placed>)
    requires forall t | t in tokens :: t.kind != Macro
    ensures CallsOfPlaced(At(tokens, start, end) + rest) == CallsOfPlaced(rest)
  {
    PlacedConcat(At(tokens, start, end), rest);
    NoCalls(At(tokens, start, end));
    assert [] + CallsOfPlaced(rest) == CallsOfPlaced(rest);
  }

  /** An ordinary character, or an escaped '<', is no call. */
  lemma OrdinaryChar(text: string, at: nat, syntax: Syntax)
    requires at < |text| && (EscapedAt(text, at) || text[at] != '<' || Find(text, '>', at + 1).None?)
    requires PlacedFrom(text, at, syntax).Some?
    ensures var next := if EscapedAt(text, at) then at + 2 else at + 1;
            && PlacedFrom(text, next, syntax).Some?
            && CallsOfPlaced(PlacedFrom(text, at, syntax).value) == CallsOfPlaced(PlacedFrom(text, next, syntax).value)
  {
    if EscapedAt(text, at) {
      CallsAfter([Token(Char, "<")], at, at + 2, PlacedFrom(text, at + 2, syntax).value);
    } else {
      CallsAfter([Token(Char, [text[at]])], at, at + 1, PlacedFrom(text, at + 1, syntax).value);
    }
  }

  // ---- The calls that the tokenizer reads ----

  function TagCall(text: string, at: nat, end: nat, syntax: Syntax): seq<Call>
    requires at < end < |text|
  {
    var tag := TagOf(text, at, end, syntax);
    if IsCallTag(tag) then [Call(CallName(tag, syntax), at, end + 1)] else []
  }

  /** The calls that the tokenizer comes across from a position on. */
  function ReadCalls(text: string, at: nat, syntax: Syntax): seq<Call>
    requires at <= |text|
    decreases |text| - at
  {
    if at == |text| then []
    else if EscapedAt(text, at) then ReadCalls(text, at + 2, syntax)
    else if text[at] != '<' || Find(text, '>', at + 1).None? then ReadCalls(text, at + 1, syntax)
    else
      var end := Find(text, '>', at + 1).value;
      TagCall(text, at, end, syntax) + ReadCalls(text, end + 1, syntax)
  }

  /** The tokens of a closed tag that is not malformed. */
  function TagTokens(text: string, at: nat, end: nat, syntax: Syntax): seq<Token>
    requires at < end < |text|
  {
    var control := ControlOf(TagOf(text, at, end, syntax), syntax);
    if control.Tokens? then control.tokens else Chars(text[at..end + 1])
  }

  lemma TagReads(text: string, at: nat, end: nat, syntax: Syntax)
    requires at < |text| && text[at] == '<' && Find(text, '>', at + 1) == Some(end)
    requires PlacedFrom(text, at, syntax).Some?
    ensures !ControlOf(TagOf(text, at, end, syntax), syntax).Malformed? && PlacedFrom(text, end + 1, syntax).Some?
    ensures PlacedFrom(text, at, syntax).value
         == At(TagTokens(text, at, end, syntax), at, end + 1) + PlacedFrom(text, end + 1, syntax).value
  {
  }

  lemma TokensCall(tokens: seq<Token>, tag: string, start: nat, end: nat, rest: seq<Placed>, syntax: Syntax)
    requires if IsCallTag(tag) then tokens == [Token(Macro, CallName(tag, syntax))]
             else forall t | t in tokens :: t.kind != Macro
    ensures CallsOfPlaced(At(tokens, start, end) + rest)
         == (if IsCallTag(tag) then [Call(CallName(tag, syntax), start, end)] else []) + CallsOfPlaced(rest)
  {
    if IsCallTag(tag) {
      assert (At(tokens, start, end) + rest)[1..] == rest;
    } else {
      CallsAfter(tokens, start, end, rest);
    }
  }

  lemma TagTokensOnlyCall(text: string, at: nat, end: nat, syntax: Syntax)
    requires CallsOnlyByTag(syntax) && at < end < |text|
    requires !ControlOf(TagOf(text, at, end, syntax), syntax).Malformed?
    ensures var tag, tokens := TagOf(text, at, end, syntax), TagTokens(text, at, end, syntax);
            if IsCallTag(tag) then tokens == [Token(Macro, CallName(tag, syntax))]
            else forall t | t in tokens :: t.kind != Macro
  {
  }

  lemma TagPlaced(text: string, at: nat, end: nat, syntax: Syntax)
    requires CallsOnlyByTag(syntax) && at < |text| && PlacedFrom(text, at, syntax).Some?
    requires text[at] == '<' && Find(text, '>', at + 1) == Some(end)
    ensures PlacedFrom(text, end + 1, syntax).Some?
    ensures CallsOfPlaced(PlacedFrom(text, at, syntax).value)
         == TagCall(text, at, end, syntax) + CallsOfPlaced(PlacedFrom(text, end + 1, syntax).value)
  {
    TagReads(text, at, end, syntax);
    TagTokensOnlyCall(text, at, end, syntax);
    TokensCall(TagTokens(text, at, end, syntax), TagOf(text, at, end, syntax), at, end + 1,
               PlacedFrom(text, end + 1, syntax).value, syntax);
  }

  /** They are the places of its macro tokens. */
  lemma {:induction false} ReadCallsArePlaced(text: string, at: nat, syntax: Syntax)
    requires CallsOnlyByTag(syntax) && at <= |text| && PlacedFrom(text, at, syntax).Some?
    ensures CallsOfPlaced(PlacedFrom(text, at, syntax).value) == ReadCalls(text, at, syntax)
    decreases |text| - at
  {
    if at < |text| {
      if EscapedAt(text, at) || text[at] != '<' || Find(text, '>', at + 1).None? {
        OrdinaryChar(text, at, syntax);
        ReadCallsArePlaced(text, if EscapedAt(text, at) then at + 2 else at + 1, syntax);
      } else {
        var end := Find(text, '>', at + 1).value;
        TagPlaced(text, at, end, syntax);
        ReadCallsArePlaced(text, end + 1, syntax);
      }
    }
  }

  /** Up to the next '<' the tokenizer only sees ordinary characters; an escaped one is skipped with
      its backslash. */
  lemma {:induction false} SkipToTag(text: string, from: nat, at: nat, syntax: Syntax)
    requires from <= at < |text| && text[at] == '<' && forall k | from <= k < at :: text[k] != '<'
    ensures var escaped := at > from && text[at - 1] == '\\';
            ReadCalls(text, from, syntax) == ReadCalls(text, if escaped then at + 1 else at, syntax)
    decreases at - from
  {
    if from < at && !EscapedAt(text, from) { SkipToTag(text, from + 1, at, syntax); }
  }

  /** Where no tag closes any more, there are no calls. */
  lemma {:induction false} NoTagNoCalls(text: string, from: nat, syntax: Syntax)
    requires from <= |text|
    requires forall k | from <= k < |text| && text[k] == '<' :: Find(text, '>', k + 1).None?
    ensures ReadCalls(text, from, syntax) == []
    decreases |text| - from
  {
    if from < |text| { NoTagNoCalls(text, if EscapedAt(text, from) then from + 2 else from + 1, syntax); }
  }

  lemma InnerSlice<T>(s: seq<T>, a: nat, b: nat)
    requires a + 2 <= b <= |s|
    ensures s[a..b][1..b - a - 1] == s[a + 1..b - 1]
  {
    var part, inner := s[a..b], s[a + 1..b - 1];
    forall k | 0 <= k < |inner| ensures part[1..b - a - 1][k] == inner[k] {
      assert part[1..b - a - 1][k] == part[k + 1];
    }
  }

  lemma CallPart(text: string, at: nat, end: nat, syntax: Syntax)
    requires at < end < |text| && IsCallTag(TagOf(text, at, end, syntax))
    ensures NameInPart(text[at..end + 1], syntax) == CallName(TagOf(text, at, end, syntax), syntax)
  {
    InnerSlice(text, at, end + 1);
  }

  /** Where the splitter stops, the tokenizer finds no more calls. */
  lemma DoneMeansNoCalls(text: string, from: nat, syntax: Syntax)
    requires from <= |text| && NextTag(text, from) == Done
    ensures ReadCalls(text, from, syntax) == []
  {
    var open := Find(text, '<', from);
    FindFirst(text, '<', from);
    if open.Some? { FindFirst(text, '>', open.value + 1); }
    forall k | from <= k < |text| && text[k] == '<' ensures Find(text, '>', k + 1).None? {
      NoneAfter(text, '>', open.value + 1, k + 1);
    }
    NoTagNoCalls(text, from, syntax);
  }

  lemma NoneAfter(text: string, c: char, from: nat, later: nat)
    requires from <= later && Find(text, c, from).None?
    ensures Find(text, c, later).None?
  {
    FindFirst(text, c, from);
  }

  /** An escaped '<' hides no call. */
  lemma EscapeHidesNothing(text: string, from: nat, resume: nat, syntax: Syntax)
    requires from <= |text| && (from > 0 ==> text[from - 1] != '\\') && NextTag(text, from) == Escaped(resume)
    ensures text[resume - 1] != '\\' && ReadCalls(text, from, syntax) == ReadCalls(text, resume, syntax)
  {
    EscapedIsFirst(text, from, resume);
    SkipToTag(text, from, resume - 1, syntax);
  }

  lemma EscapedIsFirst(text: string, from: nat, resume: nat)
    requires from <= |text| && NextTag(text, from) == Escaped(resume)
    ensures from <= resume - 1 && resume > 1 && text[resume - 1] == '<' && text[resume - 2] == '\\'
    ensures forall k | from <= k < resume - 1 :: text[k] != '<'
  {
    FindFirst(text, '<', from);
  }

  /** A closed tag contributes its call, if it is one. */
  lemma TagContributes(text: string, from: nat, at: nat, end: nat, syntax: Syntax)
    requires from <= |text| && NextTag(text, from) == Tag(at, end)
    ensures text[end] != '\\'
    ensures ReadCalls(text, from, syntax) == TagCall(text, at, end, syntax) + ReadCalls(text, end + 1, syntax)
  {
    TagIsClosed(text, from, at, end);
    SkipToTag(text, from, at, syntax);
  }

  lemma TagIsClosed(text: string, from: nat, at: nat, end: nat)
    requires from <= |text| && NextTag(text, from) == Tag(at, end)
    ensures text[at] == '<' && text[end] == '>' && Find(text, '>', at + 1) == Some(end)
    ensures at > 0 ==> text[at - 1] != '\\'
    ensures forall k | from <= k < at :: text[k] != '<'
  {
    FindFirst(text, '<', from);
  }

  // ---- The calls that the splitter marks ----

  /** The text of all parts, and the calls among them, from the list that the splitter returns. */
  function TextOf(parts: seq<Part>): string {
    if parts == [] then "" else parts[0].text + TextOf(parts[1..])
  }

  function CallsIn(parts: seq<Part>, offset: nat, syntax: Syntax): seq<Call> {
    if parts == [] then []
    else
      var end := offset + |parts[0].text|;
      (if parts[0].isMacroCall then [Call(NameInPart(parts[0].text, syntax), offset, end)] else [])
      + CallsIn(parts[1..], end, syntax)
  }

  /** The list says the same as the parts. */
  lemma {:induction false} ListedParts(parts: Parts, offset: nat, syntax: Syntax)
    ensures TextOf(ToSeq(parts)) == Text(parts)
    ensures CallsIn(ToSeq(parts), offset, syntax) == CallsOfParts(parts, offset, syntax)
  {
    match parts
    case Last(text) =>
      assert text + "" == text;
    case Then(before, call, rest) =>
      ListedParts(rest, offset + |before| + |call|, syntax);
      ListedCall(before, call, ToSeq(rest), offset, syntax);
  }

  lemma ListedCall(before: string, call: string, rest: seq<Part>, offset: nat, syntax: Syntax)
    ensures var (parts, start) := ([Part(before, false), Part(call, true)] + rest, offset + |before|);
            && TextOf(parts) == before + (call + TextOf(rest))
            && CallsIn(parts, offset, syntax)
               == [Call(NameInPart(call, syntax), start, start + |call|)] + CallsIn(rest, start + |call|, syntax)
  {
    var parts := [Part(before, false), Part(call, true)] + rest;
    assert parts[1..][1..] == rest;
    assert [] + CallsIn(parts[1..], offset + |before|, syntax) == CallsIn(parts[1..], offset + |before|, syntax);
  }

  lemma CallsThen(text: string, start: nat, at: nat, end: nat, rest: Parts, syntax: Syntax)
    requires start <= at < end < |text| && IsCallTag(TagOf(text, at, end, syntax))
    ensures CallsOfParts(Then(text[start..at], text[at..end + 1], rest), start, syntax)
         == [Call(CallName(TagOf(text, at, end, syntax), syntax), at, end + 1)] + CallsOfParts(rest, end + 1, syntax)
  {
    CallPart(text, at, end, syntax);
  }

  lemma NotACall(text: string, start: nat, from: nat, at: nat, end: nat, syntax: Syntax)
    requires start <= from <= |text| && NextTag(text, from) == Tag(at, end) && !IsCallTag(TagOf(text, at, end, syntax))
    ensures Split(text, start, from, syntax) == Split(text, start, end + 1, syntax)
  {
  }

  /** The calls that the splitter marks from a position on. */
  function MarkedCalls(text: string, start: nat, from: nat, syntax: Syntax): seq<Call>
    requires start <= from <= |text|
  {
    CallsOfParts(Split(text, start, from, syntax), start, syntax)
  }

  lemma MarkedAtTag(text: string, start: nat, from: nat, at: nat, end: nat, syntax: Syntax)
    requires start <= from <= |text| && NextTag(text, from) == Tag(at, end)
    ensures var start' := if IsCallTag(TagOf(text, at, end, syntax)) then end + 1 else start;
            MarkedCalls(text, start, from, syntax)
            == TagCall(text, at, end, syntax) + MarkedCalls(text, start', end + 1, syntax)
  {
    if IsCallTag(TagOf(text, at, end, syntax)) {
      SplitAtCall(text, start, from, at, end, syntax);
      CallsThen(text, start, at, end, Split(text, end + 1, end + 1, syntax), syntax);
    } else {
      NotACall(text, start, from, at, end, syntax);
      assert [] + MarkedCalls(text, start, end + 1, syntax) == MarkedCalls(text, start, end + 1, syntax);
    }
  }

  lemma MarkedWithoutTag(text: string, start: nat, from: nat, syntax: Syntax)
    requires start <= from <= |text| && !NextTag(text, from).Tag?
    ensures MarkedCalls(text, start, from, syntax) ==
            if NextTag(text, from).Done? then [] else MarkedCalls(text, start, NextTag(text, from).resume, syntax)
  {
    SplitWithoutTag(text, start, from, syntax);
  }

  /** From a position that does not follow a backslash, both scanners find the same calls in the same
      places, on any text. */
  lemma {:induction false} SameCallsFrom(text: string, start: nat, from: nat, syntax: Syntax)
    requires start <= from <= |text| && (from > 0 ==> text[from - 1] != '\\')
    ensures MarkedCalls(text, start, from, syntax) == ReadCalls(text, from, syntax)
    decreases |text| - from
  {
    match NextTag(text, from)
    case Done =>
      DoneMeansNoCalls(text, from, syntax);
      MarkedWithoutTag(text, start, from, syntax);
    case Escaped(resume) =>
      EscapeHidesNothing(text, from, resume, syntax);
      MarkedWithoutTag(text, start, from, syntax);
      SameCallsFrom(text, start, resume, syntax);
    case Tag(at, end) =>
      TagContributes(text, from, at, end, syntax);
      SameCallsFrom(text, if IsCallTag(TagOf(text, at, end, syntax)) then end + 1 else start, end + 1, syntax);
      MarkedAtTag(text, start, from, at, end, syntax);
  }

  /** The call that is read from a stretch of the text. */
  ghost predicate Stands(c: Call, text: string, syntax: Syntax) {
    c.start < c.end <= |text| && NameInPart(text[c.start..c.end], syntax) == c.name
  }

  lemma CallStands(text: string, at: nat, end: nat, syntax: Syntax)
    requires at < end < |text| && IsCallTag(TagOf(text, at, end, syntax))
    ensures Stands(Call(CallName(TagOf(text, at, end, syntax), syntax), at, end + 1), text, syntax)
  {
    CallPart(text, at, end, syntax);
  }

  ghost predicate AllStand(calls: seq<Call>, text: string, syntax: Syntax) {
    forall c | c in calls :: Stands(c, text, syntax)
  }

  /** What is marked as a call stands in the text where the parts put it. */
  lemma {:induction false} CallsStand(text: string, start: nat, from: nat, syntax: Syntax)
    requires start <= from <= |text|
    ensures AllStand(MarkedCalls(text, start, from, syntax), text, syntax)
    decreases |text| - from
  {
    match NextTag(text, from)
    case Done => MarkedWithoutTag(text, start, from, syntax);
    case Escaped(resume) =>
      MarkedWithoutTag(text, start, from, syntax);
      CallsStand(text, start, resume, syntax);
    case Tag(at, end) =>
      CallsStand(text, if IsCallTag(TagOf(text, at, end, syntax)) then end + 1 else start, end + 1, syntax);
      if IsCallTag(TagOf(text, at, end, syntax)) { CallStands(text, at, end, syntax); }
      MarkedAtTag(text, start, from, at, end, syntax);
  }

  /** On every text the tokenizer accepts, the parts put together are the text, and the parts marked
      as calls are, in order and one to one, the stretches that the tokenizer's macro tokens were read
      from, with the same names. */
  lemma ScannersAgree(text: string, syntax: Syntax)
    requires CallsOnlyByTag(syntax) && TokensFrom(text, 0, syntax).Some?
    ensures Text(Split(text, 0, 0, syntax)) == text
    ensures var calls := MarkedCalls(text, 0, 0, syntax);
            && calls == CallsOfPlaced(PlacedFrom(text, 0, syntax).value)
            && Names(calls) == CallsOfTokens(TokensFrom(text, 0, syntax).value)
            && AllStand(calls, text, syntax)
  {
    SplitText(text, 0, 0, syntax);
    SameCallsFrom(text, 0, 0, syntax);
    ReadCallsArePlaced(text, 0, syntax);
    CallsStand(text, 0, 0, syntax);
    NamesOfPlaced(PlacedFrom(text, 0, syntax).value);
  }
}
