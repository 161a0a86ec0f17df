/**
  What a compiled macro does. Read back, its events are keystrokes, each with the keys held around
  it, and actions. They are exactly what the tokens of the text ask for, and the macros they call
  are exactly the calls that the text splitter finds.
*/
module MacroMeaning {
  import opened Wrappers
  import opened MacroScan
  import opened MacroCompile

  /** A key tapped while others are held, or an action, with the times. */
  datatype Deed = Stroke(held: seq<KeyId>, key: KeyId, downAt: nat, upAt: nat) | Act(action: Action, at: nat)

  /** The latest key pressed is released. */
  predicate IsTap(events: seq<Event>) {
    && |events| >= 2 && events[0].KeyEvent? && events[0].value == 1
    && events[1].KeyEvent? && events[1].value == 0
    && (events[1].device, events[1].code) == (events[0].device, events[0].code)
  }

  /** Reading events: a press and release with nothing in between is a stroke, a press with something
      in between holds the key around it. */
  function Deeds(held: seq<KeyId>, events: seq<Event>): seq<Deed>
    decreases |events|
  {
    if events == [] then []
    else
      match events[0]
      case ActionEvent(action, t) => [Act(action, t)] + Deeds(held, events[1..])
      case KeyEvent(device, code, value, t) =>
        if IsTap(events) then [Stroke(held, (device, code), t, events[1].tUs)] + Deeds(held, events[2..])
        else if value == 0 then Deeds(if held == [] then [] else held[..|held| - 1], events[1..])
        else Deeds(held + [(device, code)], events[1..])
  }

  // ---- What tokens ask for ----

  /** What is to be done, and when it is over. */
  datatype Score = Score(deeds: seq<Deed>, endUs: nat)

  function Following(a: Score, b: Score): Score { Score(a.deeds + b.deeds, b.endUs) }

  function Keys(codes: seq<int>): seq<KeyId> {
    seq(|codes|, i requires 0 <= i < |codes| => (Keyboard, codes[i]))
  }

  /** The key is held for its time, with a millisecond for every modifier before and after. */
  function Struck(p: Press, t: nat, holdUs: nat): Score {
    var at := t + 1000 * |p.modifiers|;
    Score([Stroke(Keys(p.modifiers), (Keyboard, p.code), at, at + holdUs)], at + holdUs + 1000 * |p.modifiers|)
  }

  /** One after the other, a millisecond apart. */
  function StruckAll(presses: seq<Press>, t: nat, holdUs: nat): Score {
    if presses == [] then Score([], t)
    else if |presses| == 1 then Struck(presses[0], t, holdUs)
    else
      var before := StruckAll(presses[..|presses| - 1], t, holdUs);
      Following(before, Struck(presses[|presses| - 1], before.endUs + 1000, holdUs))
  }

  /** The dead keys, and then the key. */
  function Typed(key: TypedKey, t: nat, holdUs: nat): Score { StruckAll(key.deadKeys + [key.press], t, holdUs) }

  function DigitScore(digits: string, t: nat, holdUs: nat, readers: Readers): Option<Score> {
    if digits == [] then Some(Score([], t))
    else
      var before := DigitScore(digits[..|digits| - 1], t, holdUs, readers);
      var key := readers.keyFor([digits[|digits| - 1]]);
      if before.None? || key.None? then None
      else Some(Following(before.value, Typed(key.value, before.value.endUs, holdUs)))
  }

  /** A chord, some digits after a millisecond, and a last key. */
  function CodePointScore(p: Press, hex: string, last: Press, t: nat, holdUs: nat, readers: Readers): Option<Score> {
    var chord := Struck(p, t, holdUs);
    var digits := DigitScore(hex, chord.endUs + 1000, holdUs, readers);
    if digits.None? then None
    else Some(Following(Following(chord, digits.value), Struck(last, digits.value.endUs, holdUs)))
  }

  /** Ctrl (29), Shift (42) and the key of "u", the digits of the character, and space (57). The key of "u"
      must need no more than Shift. */
  function UnicodeScore(ch: string, t: nat, holdUs: nat, readers: Readers): Option<Score> {
    var u := readers.keyFor("u");
    if ch == [] || u.None? || u.value.deadKeys != [] || exists m | m in u.value.press.modifiers :: m != 42 then None
    else CodePointScore(Press(u.value.press.code, [29, 42]), Hex(ch[0] as nat), Press(57, []), t, holdUs, readers)
  }

  function LayoutScore(ch: string, t: nat, holdUs: nat, readers: Readers): Option<Score> {
    var key := readers.keyFor(ch);
    if key.None? then None else Some(Typed(key.value, t, holdUs))
  }

  function ActScore(action: Action, t: nat, endUs: nat): Score { Score([Act(action, t)], endUs) }

  /** A click, a microsecond after the move to its place if it has one. */
  function ClickScore(click: Click, t: nat, holdUs: nat): Score {
    if click.move.None? then Score([Stroke([], (Mouse, click.button), t, t + holdUs)], t + holdUs)
    else
      Following(ActScore(NaturalMove(click.move.value.0, click.move.value.1, true), t, t + 1),
                Score([Stroke([], (Mouse, click.button), t + 1, t + 1 + holdUs)], t + 1 + holdUs))
  }

  function TokenScore(token: Token, t: nat, holdUs: nat, useUnicodeInput: bool, readers: Readers): Option<Score> {
    match token.kind
    case Wait =>
      var delay := readers.wait(token.value);
      if delay.None? then None else Some(ActScore(Hold(delay.value), t, t))
    case Macro => Some(ActScore(CallMacro(token.value), t, t))
    case MouseMove =>
      var at := readers.move(token.value);
      if at.None? then None else Some(ActScore(NaturalMove(at.value.0, at.value.1, false), t, t + 1))
    case MouseClick =>
      var click := readers.click(token.value);
      if click.None? then None else Some(ClickScore(click.value, t, holdUs))
    case Shortcut =>
      var chord := readers.shortcut(token.value);
      if chord.None? then None else Some(Struck(Press(chord.value.code, chord.value.modifiers), t, holdUs))
    case Key =>
      var code := readers.namedKey(token.value);
      if code.Some? then Some(Struck(Press(code.value, []), t, holdUs))
      else LayoutScore(token.value, t, holdUs, readers)
    case Char =>
      if useUnicodeInput && readers.keyFor(token.value).None? then UnicodeScore(token.value, t, holdUs, readers)
      else LayoutScore(token.value, t, holdUs, readers)
  }

  function PauseBefore(tokens: seq<Token>, i: nat, pauseUs: nat): nat
    requires i < |tokens|
  {
    if i > 0 && tokens[i - 1].kind != Wait && tokens[i].kind != Wait then pauseUs else 0
  }

  function Joining(before: Score, now: Option<Score>): Option<Score> {
    if now.None? then None else Some(Following(before, now.value))
  }

  /** Token after token, with the pause in front of each one that neither is a wait nor follows one. */
  function ScoreBy(tokens: seq<Token>, n: nat, pauseUs: nat, next: Reading): Option<Score>
    requires n <= |tokens|
  {
    if n == 0 then Some(Score([], 0))
    else
      var before := ScoreBy(tokens, n - 1, pauseUs, next);
      if before.None? then None
      else Joining(before.value, next(tokens[n - 1], before.value.endUs + PauseBefore(tokens, n - 1, pauseUs)))
  }

  /** What a token asks for at a time. */
  type Reading = (Token, nat) -> Option<Score>

  function ReadingOf(holdUs: nat, useUnicodeInput: bool, readers: Readers): Reading {
    (token: Token, t: nat) => TokenScore(token, t, holdUs, useUnicodeInput, readers)
  }

  function TextScore(tokens: seq<Token>, holdUs: nat, pauseUs: nat, useUnicodeInput: bool, readers: Readers)
    : Option<Score>
  {
    ScoreBy(tokens, |tokens|, pauseUs, ReadingOf(holdUs, useUnicodeInput, readers))
  }

  // ---- The events do that ----

  /** Whatever follows, the events read as these deeds. */
  ghost predicate Does(events: seq<Event>, deeds: seq<Deed>) {
    forall rest: seq<Event> :: Deeds([], events + rest) == deeds + Deeds([], rest)
  }

  ghost predicate Plays(timed: Timed, score: Score) { timed.endUs == score.endUs && Does(timed.events, score.deeds) }

  lemma DoesThen(a: seq<Event>, x: seq<Deed>, b: seq<Event>, y: seq<Deed>)
    requires Does(a, x) && Does(b, y)
    ensures Does(a + b, x + y)
  {
    forall rest: seq<Event> ensures Deeds([], (a + b) + rest) == (x + y) + Deeds([], rest) {
      Assoc(a, b, rest);
      assert Deeds([], a + (b + rest)) == x + Deeds([], b + rest);
      Assoc(x, y, Deeds([], rest));
    }
  }

  lemma PlaysThen(a: Timed, x: Score, b: Timed, y: Score)
    requires Plays(a, x) && Plays(b, y)
    ensures Plays(Joined(a, b), Following(x, y))
  {
    DoesThen(a.events, x.deeds, b.events, y.deeds);
  }

  lemma PlaysNothing(t: nat)
    ensures Plays(Timed([], t), Score([], t))
  {
    forall rest: seq<Event> ensures Deeds([], [] + rest) == [] + Deeds([], rest) {
      assert [] + rest == rest;
    }
  }

  lemma ActionPlays(action: Action, t: nat, endUs: nat)
    ensures Plays(Timed([ActionEvent(action, t)], endUs), ActScore(action, t, endUs))
  {
    forall rest: seq<Event> ensures Deeds([], [ActionEvent(action, t)] + rest) == [Act(action, t)] + Deeds([], rest) {
      assert ([ActionEvent(action, t)] + rest)[1..] == rest;
    }
  }

  lemma TapReads(held: seq<KeyId>, device: Device, code: int, t: nat, u: nat, rest: seq<Event>)
    ensures Deeds(held, [KeyEvent(device, code, 1, t), KeyEvent(device, code, 0, u)] + rest)
         == [Stroke(held, (device, code), t, u)] + Deeds(held, rest)
  {
    var events := [KeyEvent(device, code, 1, t), KeyEvent(device, code, 0, u)] + rest;
    assert events[2..] == rest;
  }

  lemma ReleaseReads(held: seq<KeyId>, key: KeyId, up: Event, rest: seq<Event>)
    requires up.KeyEvent? && up.value == 0
    ensures Deeds(held + [key], [up] + rest) == Deeds(held, rest)
  {
    assert ([up] + rest)[1..] == rest;
    assert (held + [key])[..|held|] == held;
  }

  lemma HoldReads(held: seq<KeyId>, down: Event, rest: seq<Event>)
    requires down.KeyEvent? && down.value == 1
    requires rest != [] && rest[0].KeyEvent? && rest[0].value == 1
    ensures Deeds(held, [down] + rest) == Deeds(held + [(down.device, down.code)], rest)
  {
    assert ([down] + rest)[1..] == rest;
  }

  lemma {:induction false} ChordTimes(modifiers: seq<int>, code: int, t: nat, downUs: nat)
    ensures var c := ChordEvents(modifiers, code, t, downUs);
            && c.events != [] && c.events[0].KeyEvent? && c.events[0].value == 1
            && c.endUs == t + downUs + 2000 * |modifiers|
  {
    if modifiers != [] { ChordTimes(modifiers[1..], code, t + SETTLE_US, downUs); }
  }

  /** Reading one more modifier around a chord that is read already. */
  lemma HeldAround(held: seq<KeyId>, down: Event, inner: seq<Event>, up: Event, rest: seq<Event>, deed: Deed)
    requires down.KeyEvent? && down.value == 1 && up.KeyEvent? && up.value == 0
    requires inner != [] && inner[0].KeyEvent? && inner[0].value == 1
    requires Deeds(held + [(down.device, down.code)], inner + ([up] + rest))
          == [deed] + Deeds(held + [(down.device, down.code)], [up] + rest)
    ensures Deeds(held, [down] + inner + [up] + rest) == [deed] + Deeds(held, rest)
  {
    HoldReads(held, down, inner + ([up] + rest));
    ReleaseReads(held, (down.device, down.code), up, rest);
    assert [down] + inner + [up] + rest == [down] + (inner + ([up] + rest));
  }

  /** A chord is one stroke with its modifiers held around it, a millisecond each. */
  lemma {:induction false} ChordReads(held: seq<KeyId>, modifiers: seq<int>, code: int, t: nat, downUs: nat,
                                      rest: seq<Event>)
    ensures var at := t + 1000 * |modifiers|;
            Deeds(held, ChordEvents(modifiers, code, t, downUs).events + rest)
            == [Stroke(held + Keys(modifiers), (Keyboard, code), at, at + downUs)] + Deeds(held, rest)
    decreases |modifiers|
  {
    if modifiers == [] {
      PlainReads(held, code, t, downUs, rest);
    } else {
      var inner := ChordEvents(modifiers[1..], code, t + SETTLE_US, downUs);
      var up, key := KeyUp(modifiers[0], inner.endUs + SETTLE_US), (Keyboard, modifiers[0]);
      var at := t + 1000 * |modifiers|;
      ChordReads(held + [key], modifiers[1..], code, t + SETTLE_US, downUs, [up] + rest);
      assert held + [key] + Keys(modifiers[1..]) == held + Keys(modifiers);
      ModifierReads(held, modifiers, code, t, downUs, rest,
                    Stroke(held + Keys(modifiers), (Keyboard, code), at, at + downUs));
    }
  }

  lemma PlainReads(held: seq<KeyId>, code: int, t: nat, downUs: nat, rest: seq<Event>)
    ensures Deeds(held, ChordEvents([], code, t, downUs).events + rest)
            == [Stroke(held + Keys([]), (Keyboard, code), t, t + downUs)] + Deeds(held, rest)
  {
    assert held + Keys([]) == held;
    TapReads(held, Keyboard, code, t, t + downUs, rest);
  }

  lemma ModifierReads(held: seq<KeyId>, modifiers: seq<int>, code: int, t: nat, downUs: nat, rest: seq<Event>,
                      deed: Deed)
    requires modifiers != []
    requires var inner := ChordEvents(modifiers[1..], code, t + SETTLE_US, downUs);
             var after := [KeyUp(modifiers[0], inner.endUs + SETTLE_US)] + rest;
             Deeds(held + [(Keyboard, modifiers[0])], inner.events + after)
             == [deed] + Deeds(held + [(Keyboard, modifiers[0])], after)
    ensures Deeds(held, ChordEvents(modifiers, code, t, downUs).events + rest) == [deed] + Deeds(held, rest)
  {
    var inner := ChordEvents(modifiers[1..], code, t + SETTLE_US, downUs);
    ChordTimes(modifiers[1..], code, t + SETTLE_US, downUs);
    HeldAround(held, KeyDown(modifiers[0], t), inner.events, KeyUp(modifiers[0], inner.endUs + SETTLE_US), rest, deed);
  }

  lemma ChordPlays(p: Press, t: nat, downUs: nat)
    ensures Plays(ChordEvents(p.modifiers, p.code, t, downUs), Struck(p, t, downUs))
  {
    var c := ChordEvents(p.modifiers, p.code, t, downUs);
    ChordTimes(p.modifiers, p.code, t, downUs);
    forall rest: seq<Event> ensures Deeds([], c.events + rest) == Struck(p, t, downUs).deeds + Deeds([], rest) {
      ChordReads([], p.modifiers, p.code, t, downUs, rest);
      assert [] + Keys(p.modifiers) == Keys(p.modifiers);
    }
  }

  lemma {:induction false} PressesPlay(presses: seq<Press>, t: nat, downUs: nat)
    ensures Plays(PressEvents(presses, t, downUs), StruckAll(presses, t, downUs))
  {
    if presses == [] {
      PlaysNothing(t);
    } else {
      var front, last := presses[..|presses| - 1], presses[|presses| - 1];
      var before := PressEvents(front, t, downUs);
      var start := before.endUs + if |presses| > 1 then SETTLE_US else 0;
      PressesPlay(front, t, downUs);
      ChordPlays(last, start, downUs);
      PlaysThen(before, StruckAll(front, t, downUs), ChordEvents(last.modifiers, last.code, start, downUs),
                Struck(last, start, downUs));
      if |presses| == 1 { FirstStruck(presses, t, downUs); }
    }
  }

  lemma FirstStruck(presses: seq<Press>, t: nat, downUs: nat)
    requires |presses| == 1
    ensures Following(StruckAll(presses[..0], t, downUs), Struck(presses[0], t, downUs))
         == StruckAll(presses, t, downUs)
  {
    assert presses[..0] == [];
    assert [] + Struck(presses[0], t, downUs).deeds == Struck(presses[0], t, downUs).deeds;
  }

  lemma DirectPlays(key: TypedKey, t: nat, downUs: nat)
    ensures Plays(DirectEvents(key, t, downUs), Typed(key, t, downUs))
  {
    PressesPlay(key.deadKeys + [key.press], t, downUs);
  }

  lemma PlainPlays(code: int, t: nat, downUs: nat)
    ensures Plays(DirectEvents(PlainKey(code), t, downUs), Struck(Press(code, []), t, downUs))
  {
    DirectPlays(PlainKey(code), t, downUs);
    assert PlainKey(code).deadKeys + [PlainKey(code).press] == [Press(code, [])];
  }

  /** Either both fail, or the events play the score. */
  ghost predicate Agrees(compiled: Option<Timed>, score: Option<Score>) {
    (compiled.Some? <==> score.Some?) && (compiled.Some? ==> Plays(compiled.value, score.value))
  }

  lemma {:induction false} DigitsAgree(digits: string, t: nat, downUs: nat, readers: Readers)
    ensures Agrees(DigitEvents(digits, t, downUs, readers), DigitScore(digits, t, downUs, readers))
  {
    if digits == [] {
      PlaysNothing(t);
    } else {
      var front, last := digits[..|digits| - 1], digits[|digits| - 1];
      DigitsAgree(front, t, downUs, readers);
      var before, key := DigitEvents(front, t, downUs, readers), readers.keyFor([last]);
      if before.Some? && key.Some? {
        DirectPlays(key.value, before.value.endUs, downUs);
        PlaysThen(before.value, DigitScore(front, t, downUs, readers).value,
                  DirectEvents(key.value, before.value.endUs, downUs), Typed(key.value, before.value.endUs, downUs));
      }
    }
  }

  lemma CodePointAgrees(p: Press, hex: string, last: TypedKey, t: nat, downUs: nat, readers: Readers)
    requires last.deadKeys == []
    ensures Agrees(CodePointEvents(p, hex, last, t, downUs, readers),
                   CodePointScore(p, hex, last.press, t, downUs, readers))
  {
    var chord := ChordEvents(p.modifiers, p.code, t, downUs);
    ChordPlays(p, t, downUs);
    DigitsAgree(hex, chord.endUs + SETTLE_US, downUs, readers);
    var digits := DigitEvents(hex, chord.endUs + SETTLE_US, downUs, readers);
    if digits.Some? {
      var score := DigitScore(hex, chord.endUs + SETTLE_US, downUs, readers);
      DirectPlays(last, digits.value.endUs, downUs);
      assert last.deadKeys + [last.press] == [last.press];
      PlaysThen(chord, Struck(p, t, downUs), digits.value, score.value);
      PlaysThen(Joined(chord, digits.value), Following(Struck(p, t, downUs), score.value),
                DirectEvents(last, digits.value.endUs, downUs), Struck(last.press, digits.value.endUs, downUs));
    }
  }

  lemma UnicodeAgrees(ch: string, t: nat, downUs: nat, readers: Readers)
    ensures Agrees(UnicodeEvents(ch, t, downUs, readers), UnicodeScore(ch, t, downUs, readers))
  {
    var u := UnicodeKey(readers);
    if u.Some? && ch != [] {
      CodePointAgrees(UnicodePress(u.value), Hex(ch[0] as nat), PlainKey(KEY_SPACE), t, downUs, readers);
    }
  }

  lemma TapPlays(button: int, t: nat, downUs: nat)
    ensures Plays(Timed([KeyEvent(Mouse, button, 1, t), KeyEvent(Mouse, button, 0, t + downUs)], t + downUs),
                  Score([Stroke([], (Mouse, button), t, t + downUs)], t + downUs))
  {
    var tap := [KeyEvent(Mouse, button, 1, t), KeyEvent(Mouse, button, 0, t + downUs)];
    forall rest: seq<Event>
      ensures Deeds([], tap + rest) == [Stroke([], (Mouse, button), t, t + downUs)] + Deeds([], rest)
    {
      TapReads([], Mouse, button, t, t + downUs, rest);
    }
  }

  lemma ClickPlays(click: Click, t: nat, downUs: nat)
    ensures Plays(ClickEvents(click, t, downUs), ClickScore(click, t, downUs))
  {
    var start := if click.move.Some? then t + 1 else t;
    var tap := Timed([KeyEvent(Mouse, click.button, 1, start), KeyEvent(Mouse, click.button, 0, start + downUs)],
                     start + downUs);
    TapPlays(click.button, start, downUs);
    if click.move.Some? {
      var move := NaturalMove(click.move.value.0, click.move.value.1, true);
      ActionPlays(move, t, t + 1);
      PlaysThen(Timed([ActionEvent(move, t)], t + 1), ActScore(move, t, t + 1), tap,
                Score([Stroke([], (Mouse, click.button), start, start + downUs)], start + downUs));
    } else {
      assert [] + tap.events == tap.events;
    }
  }

  lemma LayoutAgrees(ch: string, t: nat, options: Options, readers: Readers)
    ensures Agrees(LayoutEvents(ch, t, options, readers), LayoutScore(ch, t, options.downUs, readers))
  {
    var key := readers.keyFor(ch);
    if key.Some? { DirectPlays(key.value, t, options.downUs); }
  }

  lemma ActionTokenAgrees(token: Token, t: nat, options: Options, readers: Readers)
    requires token.kind in {Wait, Macro, MouseMove}
    ensures Agrees(TokenEvents(token, t, options, readers),
                   TokenScore(token, t, options.downUs, options.useUnicodeInput, readers))
  {
    var events := TokenEvents(token, t, options, readers);
    if events.Some? {
      ActionPlays(events.value.events[0].action, t, events.value.endUs);
    }
  }

  lemma TokenAgrees(token: Token, t: nat, options: Options, readers: Readers)
    ensures Agrees(TokenEvents(token, t, options, readers),
                   TokenScore(token, t, options.downUs, options.useUnicodeInput, readers))
  {
    match token.kind
    case MouseClick =>
      var click := readers.click(token.value);
      if click.Some? { ClickPlays(click.value, t, options.downUs); }
    case Shortcut =>
      var chord := readers.shortcut(token.value);
      if chord.Some? { ChordPlays(Press(chord.value.code, chord.value.modifiers), t, options.downUs); }
    case Key =>
      var code := readers.namedKey(token.value);
      if code.Some? {
        PlainPlays(code.value, t, options.downUs);
      } else {
        LayoutAgrees(token.value, t, options, readers);
      }
    case Char =>
      LayoutAgrees(token.value, t, options, readers);
      UnicodeAgrees(token.value, t, options.downUs, readers);
    case _ => ActionTokenAgrees(token, t, options, readers);
  }

  /** One more token for the compiler. */
  function CompileOn(before: Timed, now: Option<Timed>, pause: nat): Option<Timed> {
    if now.None? then None else Some(Timed(before.events + now.value.events, now.value.endUs + pause))
  }

  /** How the events of a token are made, and of all tokens. */
  type Making = (Token, nat) -> Option<Timed>

  function MakingOf(options: Options, readers: Readers): Making {
    (token: Token, t: nat) => TokenEvents(token, t, options, readers)
  }

  function CompileBy(tokens: seq<Token>, n: nat, options: Options, make: Making): Option<Timed>
    requires n <= |tokens|
  {
    if n == 0 then Some(Timed([], 0))
    else
      var before := CompileBy(tokens, n - 1, options, make);
      if before.None? then None
      else CompileOn(before.value, make(tokens[n - 1], before.value.endUs), PauseAfter(tokens, n - 1, options))
  }

  lemma {:induction false} CompileIsBy(tokens: seq<Token>, n: nat, options: Options, readers: Readers)
    requires n <= |tokens|
    ensures Compile(tokens, n, options, readers) == CompileBy(tokens, n, options, MakingOf(options, readers))
  {
    if n > 0 { CompileIsBy(tokens, n - 1, options, readers); }
  }

  lemma JoinAgrees(before: Timed, score: Score, now: Option<Timed>, next: Option<Score>, pause: nat)
    requires Does(before.events, score.deeds) && Agrees(now, next)
    ensures var c, d := CompileOn(before, now, pause), Joining(score, next);
            && (c.Some? <==> d.Some?)
            && (c.Some? ==> c.value.endUs == d.value.endUs + pause && Does(c.value.events, d.value.deeds))
  {
    if now.Some? { DoesThen(before.events, score.deeds, now.value.events, next.value.deeds); }
  }

  /** The compiler adds the pause behind a token, the score has it in front of the next one. */
  lemma {:induction false} CompileAgrees(tokens: seq<Token>, n: nat, options: Options, make: Making, next: Reading)
    requires n <= |tokens|
    requires forall token, t :: Agrees(make(token, t), next(token, t))
    ensures var c, d := CompileBy(tokens, n, options, make), ScoreBy(tokens, n, options.pauseUs, next);
            && (c.Some? <==> d.Some?)
            && (c.Some? ==>
                  && c.value.endUs == d.value.endUs + (if n == 0 then 0 else PauseAfter(tokens, n - 1, options))
                  && Does(c.value.events, d.value.deeds))
  {
    if n == 0 {
      PlaysNothing(0);
    } else {
      CompileAgrees(tokens, n - 1, options, make, next);
      var c := CompileBy(tokens, n - 1, options, make);
      if c.Some? {
        var d, start := ScoreBy(tokens, n - 1, options.pauseUs, next).value, c.value.endUs;
        assert start == d.endUs + PauseBefore(tokens, n - 1, options.pauseUs);
        JoinAgrees(c.value, d, make(tokens[n - 1], start), next(tokens[n - 1], start),
                   PauseAfter(tokens, n - 1, options));
      }
    }
  }

  lemma CompiledPlays(tokens: seq<Token>, options: Options, readers: Readers)
    ensures var c := Compile(tokens, |tokens|, options, readers);
            var d := TextScore(tokens, options.downUs, options.pauseUs, options.useUnicodeInput, readers);
            (c.Some? <==> d.Some?) && (c.Some? ==> Does(c.value.events, d.value.deeds))
  {
    var make, next := MakingOf(options, readers), ReadingOf(options.downUs, options.useUnicodeInput, readers);
    forall token: Token, t: nat ensures Agrees(make(token, t), next(token, t)) {
      TokenAgrees(token, t, options, readers);
    }
    CompileIsBy(tokens, |tokens|, options, readers);
    CompileAgrees(tokens, |tokens|, options, make, next);
  }

  /** Compilation keeps the meaning: it succeeds exactly when every token can be typed, and then the
      events, read back, are the keystrokes and actions of the tokens, in order and at their times. Every
      key is held for the given time, and the given pause is between tokens. */
  lemma CompiledMeans(tokens: seq<Token>, downMs: int, pauseMs: int, useUnicodeInput: bool, readers: Readers)
    ensures var c := Compile(tokens, |tokens|, Options(MicrosOf(downMs), MicrosOf(pauseMs), useUnicodeInput), readers);
            var d := TextScore(tokens, 1000 * Max(0, downMs), 1000 * Max(0, pauseMs), useUnicodeInput, readers);
            (c.Some? <==> d.Some?) && (c.Some? ==> Deeds([], c.value.events) == d.value.deeds)
  {
    var options := Options(1000 * Max(0, downMs), 1000 * Max(0, pauseMs), useUnicodeInput);
    CompiledPlays(tokens, options, readers);
    var c := Compile(tokens, |tokens|, options, readers);
    var d := TextScore(tokens, options.downUs, options.pauseUs, useUnicodeInput, readers);
    if c.Some? { DoesAll(c.value.events, d.value.deeds); }
  }

  lemma DoesAll(events: seq<Event>, deeds: seq<Deed>)
    requires Does(events, deeds)
    ensures Deeds([], events) == deeds
  {
    assert Deeds([], events + []) == deeds + Deeds([], []);
    assert events + [] == events && deeds + [] == deeds;
  }

  // ---- The digits are those of the character ----

  function DigitValue(c: char): nat {
    if '0' <= c <= '9' then c as nat - '0' as nat else if 'a' <= c <= 'f' then c as nat - 'a' as nat + 10 else 0
  }

  function HexValue(digits: string): nat {
    if digits == [] then 0 else HexValue(digits[..|digits| - 1]) * 16 + DigitValue(digits[|digits| - 1])
  }

  lemma HexDigitValue(n: nat)
    requires n < 16
    ensures DigitValue(HexDigit(n)) == n
  {
  }

  /** The hexadecimal digits that are typed for a character spell its code point, and no other. */
  lemma {:induction false} HexRoundTrip(n: nat)
    ensures HexValue(Hex(n)) == n
  {
    HexDigitValue(n % 16);
    if n < 16 {
      assert [HexDigit(n)][..0] == [] && HexValue([HexDigit(n)][..0]) == 0;
    } else {
      HexRoundTrip(n / 16);
      assert Hex(n)[..|Hex(n)| - 1] == Hex(n / 16);
    }
  }

  // ---- From text to calls ----

  function CallsOfDeeds(deeds: seq<Deed>): seq<string> {
    if deeds == [] then []
    else
      var last := deeds[|deeds| - 1];
      CallsOfDeeds(deeds[..|deeds| - 1])
      + if last.Act? && last.action.CallMacro? then [last.action.name] else []
  }

  lemma {:induction false} DeedCallsConcat(a: seq<Deed>, b: seq<Deed>)
    ensures CallsOfDeeds(a + b) == CallsOfDeeds(a) + CallsOfDeeds(b)
    decreases |b|
  {
    if b == [] {
      assert a + b == a;
    } else {
      var front := b[..|b| - 1];
      DeedCallsConcat(a, front);
      assert (a + b)[..|a + b| - 1] == a + front;
      Assoc(CallsOfDeeds(a), CallsOfDeeds(front),
            if b[|b| - 1].Act? && b[|b| - 1].action.CallMacro? then [b[|b| - 1].action.name] else []);
    }
  }

  ghost predicate CallsNothing(deeds: seq<Deed>) {
    forall d | d in deeds :: d.Act? ==> !d.action.CallMacro?
  }

  lemma {:induction false} NoDeedCalls(deeds: seq<Deed>)
    requires CallsNothing(deeds)
    ensures CallsOfDeeds(deeds) == []
  {
    if deeds != [] { NoDeedCalls(deeds[..|deeds| - 1]); }
  }

  lemma {:induction false} StruckCallNothing(presses: seq<Press>, t: nat, holdUs: nat)
    ensures CallsNothing(StruckAll(presses, t, holdUs).deeds)
  {
    if |presses| > 1 { StruckCallNothing(presses[..|presses| - 1], t, holdUs); }
  }

  lemma {:induction false} DigitsCallNothing(digits: string, t: nat, holdUs: nat, readers: Readers)
    ensures var d := DigitScore(digits, t, holdUs, readers); d.Some? ==> CallsNothing(d.value.deeds)
  {
    if digits != [] {
      var front := digits[..|digits| - 1];
      DigitsCallNothing(front, t, holdUs, readers);
      var before, key := DigitScore(front, t, holdUs, readers), readers.keyFor([digits[|digits| - 1]]);
      if before.Some? && key.Some? {
        StruckCallNothing(key.value.deadKeys + [key.value.press], before.value.endUs, holdUs);
      }
    }
  }

  lemma CodePointCallsNothing(p: Press, hex: string, last: Press, t: nat, holdUs: nat, readers: Readers)
    ensures var d := CodePointScore(p, hex, last, t, holdUs, readers); d.Some? ==> CallsNothing(d.value.deeds)
  {
    DigitsCallNothing(hex, Struck(p, t, holdUs).endUs + 1000, holdUs, readers);
  }

  lemma UnicodeCallsNothing(ch: string, t: nat, holdUs: nat, readers: Readers)
    ensures var d := UnicodeScore(ch, t, holdUs, readers); d.Some? ==> CallsNothing(d.value.deeds)
  {
    var u := readers.keyFor("u");
    if ch != [] && u.Some? {
      CodePointCallsNothing(Press(u.value.press.code, [29, 42]), Hex(ch[0] as nat), Press(57, []), t, holdUs, readers);
    }
  }

  lemma LayoutCallsNothing(ch: string, t: nat, holdUs: nat, readers: Readers)
    ensures var d := LayoutScore(ch, t, holdUs, readers); d.Some? ==> CallsNothing(d.value.deeds)
  {
    var key := readers.keyFor(ch);
    if key.Some? { StruckCallNothing(key.value.deadKeys + [key.value.press], t, holdUs); }
  }

  lemma TokenCalls(token: Token, t: nat, holdUs: nat, useUnicodeInput: bool, readers: Readers)
    requires TokenScore(token, t, holdUs, useUnicodeInput, readers).Some?
    ensures CallsOfDeeds(TokenScore(token, t, holdUs, useUnicodeInput, readers).value.deeds)
         == if token.kind == Macro then [token.value] else []
  {
    var deeds := TokenScore(token, t, holdUs, useUnicodeInput, readers).value.deeds;
    if token.kind == Macro {
      assert deeds[..0] == [] && CallsOfDeeds(deeds[..0]) == [];
    } else {
      UnicodeCallsNothing(token.value, t, holdUs, readers);
      LayoutCallsNothing(token.value, t, holdUs, readers);
      assert CallsNothing(deeds);
      NoDeedCalls(deeds);
    }
  }

  /** The only thing a token calls is the macro that it names. */
  ghost predicate CallsRight(token: Token, score: Option<Score>) {
    score.Some? ==> CallsOfDeeds(score.value.deeds) == if token.kind == Macro then [token.value] else []
  }

  lemma {:induction false} TextCalls(tokens: seq<Token>, n: nat, pauseUs: nat, next: Reading)
    requires n <= |tokens| && ScoreBy(tokens, n, pauseUs, next).Some?
    requires forall token, t :: CallsRight(token, next(token, t))
    ensures CallsOfDeeds(ScoreBy(tokens, n, pauseUs, next).value.deeds) == CallsOfTokens(tokens[..n])
  {
    if n > 0 {
      var before := ScoreBy(tokens, n - 1, pauseUs, next).value;
      var now := next(tokens[n - 1], before.endUs + PauseBefore(tokens, n - 1, pauseUs));
      TextCalls(tokens, n - 1, pauseUs, next);
      JoinedCalls(before, now);
      NextTokenCalls(tokens, n);
    }
  }

  lemma JoinedCalls(before: Score, now: Option<Score>)
    requires now.Some?
    ensures CallsOfDeeds(Joining(before, now).value.deeds) == CallsOfDeeds(before.deeds) + CallsOfDeeds(now.value.deeds)
  {
    DeedCallsConcat(before.deeds, now.value.deeds);
  }

  lemma NextTokenCalls(tokens: seq<Token>, n: nat)
    requires 0 < n <= |tokens|
    ensures CallsOfTokens(tokens[..n])
         == CallsOfTokens(tokens[..n - 1]) + if tokens[n - 1].kind == Macro then [tokens[n - 1].value] else []
  {
    assert tokens[..n] == tokens[..n - 1] + [tokens[n - 1]];
    CallsConcat(tokens[..n - 1], [tokens[n - 1]]);
    OneTokenCalls(tokens[n - 1]);
  }

  lemma OneTokenCalls(token: Token)
    ensures CallsOfTokens([token]) == if token.kind == Macro then [token.value] else []
  {
    assert [token][1..] == [] && CallsOfTokens([token][1..]) == [];
  }

  /** End to end: the macros that the compiled events call are, in order, the calls that the splitter
      marks in the text; the stretches it marks, and keeps from being normalised, are exactly those the
      calls were read from. */
  lemma CompiledCallsAreSplitCalls(text: string, syntax: Syntax, downMs: int, pauseMs: int, useUnicodeInput: bool,
                                   readers: Readers)
    requires CallsOnlyByTag(syntax) && TokensFrom(text, 0, syntax).Some?
    requires var tokens := TokensFrom(text, 0, syntax).value;
             Compile(tokens, |tokens|, Options(MicrosOf(downMs), MicrosOf(pauseMs), useUnicodeInput), readers).Some?
    ensures var tokens := TokensFrom(text, 0, syntax).value;
            var options := Options(MicrosOf(downMs), MicrosOf(pauseMs), useUnicodeInput);
            var calls := MarkedCalls(text, 0, 0, syntax);
            && CallsOfDeeds(Deeds([], Compile(tokens, |tokens|, options, readers).value.events)) == Names(calls)
            && calls == CallsOfPlaced(PlacedFrom(text, 0, syntax).value)
            && AllStand(calls, text, syntax)
  {
    var tokens := TokensFrom(text, 0, syntax).value;
    CompiledMeans(tokens, downMs, pauseMs, useUnicodeInput, readers);
    var next := ReadingOf(1000 * Max(0, downMs), useUnicodeInput, readers);
    forall token: Token, t: nat ensures CallsRight(token, next(token, t)) {
      if next(token, t).Some? { TokenCalls(token, t, 1000 * Max(0, downMs), useUnicodeInput, readers); }
    }
    TextCalls(tokens, |tokens|, 1000 * Max(0, pauseMs), next);
    assert tokens[..|tokens|] == tokens;
    ScannersAgree(text, syntax);
  }
}
