/**
  Compiling the tokens of a typed-text macro into timed key events.

  How names and numbers inside a token are read depends on the keyboard layout and on integer
  parsing; it is a parameter. Times are in microseconds.
*/
module MacroCompile {
  import opened Wrappers
  import opened MacroScan

  const KEY_LEFTCTRL := 29
  const KEY_LEFTSHIFT := 42
  const KEY_SPACE := 57
  const SETTLE_US := 1000

  datatype Device = Keyboard | Mouse

  datatype Delay = Pause(durationUs: nat) | RandomPause(minUs: nat, maxUs: nat)

  datatype Action =
    | Hold(delay: Delay)
    | CallMacro(name: string)
    | NaturalMove(x: int, y: int, stopOnFailure: bool)

  datatype Event =
    | KeyEvent(device: Device, code: int, value: int, tUs: nat)
    | ActionEvent(action: Action, tUs: nat)

  datatype Press = Press(code: int, modifiers: seq<int>)

  datatype TypedKey = TypedKey(press: Press, deadKeys: seq<Press>)

  datatype Click = Click(button: int, move: Option<(int, int)>)

  datatype Chord = Chord(modifiers: seq<int>, code: int)

  /** What the text inside a token stands for; None is an error. */
  datatype Readers = Readers(
    keyFor: string -> Option<TypedKey>,
    namedKey: string -> Option<int>,
    shortcut: string -> Option<Chord>,
    wait: string -> Option<Delay>,
    move: string -> Option<(int, int)>,
    click: string -> Option<Click>)

  datatype Options = Options(downUs: nat, pauseUs: nat, useUnicodeInput: bool)

  function MicrosOf(ms: int): nat { if ms < 0 then 0 else ms * 1000 }

  /** Some events, and the time when they are over. */
  datatype Timed = Timed(events: seq<Event>, endUs: nat)

  // ---- Pieces ----

  function KeyDown(code: int, t: nat): Event { KeyEvent(Keyboard, code, 1, t) }
  function KeyUp(code: int, t: nat): Event { KeyEvent(Keyboard, code, 0, t) }

  /** Modifiers are held around the key, each one around those after it. */
  function ChordEvents(modifiers: seq<int>, code: int, t: nat, downUs: nat): Timed {
    if modifiers == [] then Timed([KeyDown(code, t), KeyUp(code, t + downUs)], t + downUs)
    else
      var inner := ChordEvents(modifiers[1..], code, t + SETTLE_US, downUs);
      Timed([KeyDown(modifiers[0], t)] + inner.events + [KeyUp(modifiers[0], inner.endUs + SETTLE_US)],
            inner.endUs + SETTLE_US)
  }

  /** Press after press, the dead keys first. */
  function PressEvents(presses: seq<Press>, t: nat, downUs: nat): Timed {
    if presses == [] then Timed([], t)
    else
      var before := PressEvents(presses[..|presses| - 1], t, downUs);
      var last := presses[|presses| - 1];
      Joined(before, ChordEvents(last.modifiers, last.code,
                               before.endUs + if |presses| > 1 then SETTLE_US else 0, downUs))
  }

  function Joined(a: Timed, b: Timed): Timed { Timed(a.events + b.events, b.endUs) }

  function DirectEvents(key: TypedKey, t: nat, downUs: nat): Timed {
    PressEvents(key.deadKeys + [key.press], t, downUs)
  }

  function PlainKey(code: int): TypedKey { TypedKey(Press(code, []), []) }

  function HexDigit(n: nat): char
    requires n < 16
  {
    "0123456789abcdef"[n]
  }

  function Hex(n: nat): string {
    if n < 16 then [HexDigit(n)] else Hex(n / 16) + [HexDigit(n % 16)]
  }

  function DigitEvents(digits: string, t: nat, downUs: nat, readers: Readers): Option<Timed> {
    if digits == [] then Some(Timed([], t))
    else
      var before := DigitEvents(digits[..|digits| - 1], t, downUs, readers);
      var key := readers.keyFor([digits[|digits| - 1]]);
      if before.None? || key.None? then None
      else Some(Joined(before.value, DirectEvents(key.value, before.value.endUs, downUs)))
  }

  /** The key that types "u", if it can be part of Ctrl+Shift+U. */
  function UnicodeKey(readers: Readers): Option<int> {
    var u := readers.keyFor("u");
    if u.Some? && u.value.deadKeys == [] && (forall m | m in u.value.press.modifiers :: m == KEY_LEFTSHIFT)
    then Some(u.value.press.code) else None
  }

  /** A chord, some digits, and a last key. */
  function CodePointEvents(p: Press, hex: string, last: TypedKey, t: nat, downUs: nat,
                           readers: Readers): Option<Timed> {
    var chord := ChordEvents(p.modifiers, p.code, t, downUs);
    var digits := DigitEvents(hex, chord.endUs + SETTLE_US, downUs, readers);
    if digits.None? then None
    else
      var typed := Joined(chord, digits.value);
      Some(Joined(typed, DirectEvents(last, typed.endUs, downUs)))
  }

  function UnicodePress(u: int): Press { Press(u, [KEY_LEFTCTRL, KEY_LEFTSHIFT]) }

  /** Ctrl+Shift+U, the code point of the character in hexadecimal, and a space. */
  function UnicodeEvents(ch: string, t: nat, downUs: nat, readers: Readers): Option<Timed> {
    var u := UnicodeKey(readers);
    if u.None? || ch == [] then None
    else CodePointEvents(UnicodePress(u.value), Hex(ch[0] as nat), PlainKey(KEY_SPACE), t, downUs, readers)
  }

  function ClickEvents(click: Click, t: nat, downUs: nat): Timed {
    var move := if click.move.Some? then
                  Timed([ActionEvent(NaturalMove(click.move.value.0, click.move.value.1, true), t)], t + 1)
                else Timed([], t);
    Joined(move, Timed([KeyEvent(Mouse, click.button, 1, move.endUs),
                      KeyEvent(Mouse, click.button, 0, move.endUs + downUs)],
                     move.endUs + downUs))
  }

  function OneAction(action: Option<Action>, t: nat, endUs: nat): Option<Timed> {
    if action.None? then None else Some(Timed([ActionEvent(action.value, t)], endUs))
  }

  function TokenEvents(token: Token, t: nat, options: Options, readers: Readers): Option<Timed> {
    match token.kind
    case Wait =>
      var delay := readers.wait(token.value);
      OneAction(if delay.Some? then Some(Hold(delay.value)) else None, t, t)
    case Macro => OneAction(Some(CallMacro(token.value)), t, t)
    case MouseMove =>
      var at := readers.move(token.value);
      OneAction(if at.Some? then Some(NaturalMove(at.value.0, at.value.1, false)) else None, t, t + 1)
    case MouseClick =>
      var click := readers.click(token.value);
      if click.None? then None else Some(ClickEvents(click.value, t, options.downUs))
    case Shortcut =>
      var chord := readers.shortcut(token.value);
      if chord.None? then None else Some(ChordEvents(chord.value.modifiers, chord.value.code, t, options.downUs))
    case Key =>
      var code := readers.namedKey(token.value);
      if code.Some? then Some(DirectEvents(PlainKey(code.value), t, options.downUs))
      else LayoutEvents(token.value, t, options, readers)
    case Char =>
      if readers.keyFor(token.value).None? && options.useUnicodeInput
      then UnicodeEvents(token.value, t, options.downUs, readers)
      else LayoutEvents(token.value, t, options, readers)
  }

  function LayoutEvents(ch: string, t: nat, options: Options, readers: Readers): Option<Timed> {
    var key := readers.keyFor(ch);
    if key.None? then None else Some(DirectEvents(key.value, t, options.downUs))
  }

  /** The pause after token `i`: none after a wait, before a wait or at the end. */
  function PauseAfter(tokens: seq<Token>, i: nat, options: Options): nat
    requires i < |tokens|
  {
    if tokens[i].kind != Wait && i + 1 < |tokens| && tokens[i + 1].kind != Wait then options.pauseUs else 0
  }

  /** The events of the first `n` tokens. */
  function Compile(tokens: seq<Token>, n: nat, options: Options, readers: Readers): Option<Timed>
    requires n <= |tokens|
  {
    if n == 0 then Some(Timed([], 0))
    else
      var before := Compile(tokens, n - 1, options, readers);
      if before.None? then None
      else
        var now := TokenEvents(tokens[n - 1], before.value.endUs, options, readers);
        if now.None? then None
        else Some(Timed(before.value.events + now.value.events, now.value.endUs + PauseAfter(tokens, n - 1, options)))
  }

  // ---- Nothing stays pressed, and time does not go back ----

  type KeyId = (Device, int)

  /** The keys left pressed by some events, on top of those pressed before; None when a release does
      not belong to the latest pressed key. */
  function Pressed(stack: seq<KeyId>, events: seq<Event>): Option<seq<KeyId>> {
    if events == [] then Some(stack)
    else
      var before := Pressed(stack, events[..|events| - 1]);
      var last := events[|events| - 1];
      if before.None? || last.ActionEvent? then before
      else if last.value != 0 then Some(before.value + [(last.device, last.code)])
      else if before.value != [] && before.value[|before.value| - 1] == (last.device, last.code)
      then Some(before.value[..|before.value| - 1]) else None
  }

  lemma {:induction false} PressedConcat(stack: seq<KeyId>, a: seq<Event>, b: seq<Event>)
    ensures Pressed(stack, a + b) ==
            if Pressed(stack, a).None? then None else Pressed(Pressed(stack, a).value, b)
    decreases |b|
  {
    if b == [] {
      assert a + b == a;
    } else {
      PressedConcat(stack, a, b[..|b| - 1]);
      assert (a + b)[..|a + b| - 1] == a + b[..|b| - 1];
    }
  }

  ghost predicate Balanced(events: seq<Event>) {
    forall stack: seq<KeyId> :: Pressed(stack, events) == Some(stack)
  }

  ghost predicate InTime(events: seq<Event>, from: nat, to: nat) {
    && from <= to
    && (forall i | 0 <= i < |events| :: from <= events[i].tUs <= to)
    && (forall i, j | 0 <= i < j < |events| :: events[i].tUs <= events[j].tUs)
  }

  /** A stretch of events that leaves nothing pressed and keeps to its time. */
  ghost predicate Segment(events: seq<Event>, from: nat, to: nat) {
    Balanced(events) && InTime(events, from, to)
  }

  lemma SegmentThen(a: seq<Event>, from: nat, mid: nat, b: seq<Event>, mid': nat, to: nat)
    requires Segment(a, from, mid) && mid <= mid' && Segment(b, mid', to)
    ensures Segment(a + b, from, to)
  {
    forall stack: seq<KeyId> ensures Pressed(stack, a + b) == Some(stack) {
      PressedConcat(stack, a, b);
    }
  }

  lemma PressedOne(stack: seq<KeyId>, e: Event)
    ensures Pressed(stack, [e]) ==
            if e.ActionEvent? then Some(stack)
            else if e.value != 0 then Some(stack + [(e.device, e.code)])
            else if stack != [] && stack[|stack| - 1] == (e.device, e.code) then Some(stack[..|stack| - 1]) else None
  {
    assert [e][..0] == [];
    assert Pressed(stack, [e][..0]) == Some(stack);
  }

  /** Pressing a key around a stretch gives a stretch. */
  lemma Wrapped(down: Event, inner: seq<Event>, up: Event, from: nat, to: nat)
    requires Segment(inner, from, to) && down.KeyEvent? && up.KeyEvent?
    requires down.value == 1 && up.value == 0 && (down.device, down.code) == (up.device, up.code)
    requires down.tUs <= from && to <= up.tUs
    ensures Segment([down] + inner + [up], down.tUs, up.tUs)
  {
    var key := (down.device, down.code);
    forall stack: seq<KeyId> ensures Pressed(stack, [down] + inner + [up]) == Some(stack) {
      PressedOne(stack, down);
      PressedConcat(stack, [down], inner);
      PressedConcat(stack, [down] + inner, [up]);
      PressedOne(stack + [key], up);
      assert (stack + [key])[..|stack|] == stack;
    }
  }

  lemma EmptySegment(t: nat)
    ensures Segment([], t, t)
  {
  }

  lemma ActionSegment(action: Action, t: nat, to: nat)
    requires t <= to
    ensures Segment([ActionEvent(action, t)], t, to)
  {
    forall stack: seq<KeyId> ensures Pressed(stack, [ActionEvent(action, t)]) == Some(stack) {
      PressedOne(stack, ActionEvent(action, t));
    }
  }

  lemma TapSegment(device: Device, code: int, t: nat, downUs: nat)
    ensures Segment([KeyEvent(device, code, 1, t), KeyEvent(device, code, 0, t + downUs)], t, t + downUs)
  {
    EmptySegment(t);
    Wrapped(KeyEvent(device, code, 1, t), [], KeyEvent(device, code, 0, t + downUs), t, t);
    assert [KeyEvent(device, code, 1, t)] + [] + [KeyEvent(device, code, 0, t + downUs)]
        == [KeyEvent(device, code, 1, t), KeyEvent(device, code, 0, t + downUs)];
  }

  lemma {:induction false} ChordSegment(modifiers: seq<int>, code: int, t: nat, downUs: nat)
    ensures var c := ChordEvents(modifiers, code, t, downUs); Segment(c.events, t, c.endUs)
  {
    if modifiers == [] {
      TapSegment(Keyboard, code, t, downUs);
    } else {
      var inner := ChordEvents(modifiers[1..], code, t + SETTLE_US, downUs);
      ChordSegment(modifiers[1..], code, t + SETTLE_US, downUs);
      Wrapped(KeyDown(modifiers[0], t), inner.events, KeyUp(modifiers[0], inner.endUs + SETTLE_US),
              t + SETTLE_US, inner.endUs);
    }
  }

  lemma ChordAfter(before: Timed, t: nat, p: Press, start: nat, downUs: nat)
    requires Segment(before.events, t, before.endUs) && before.endUs <= start
    ensures var both := Joined(before, ChordEvents(p.modifiers, p.code, start, downUs));
            Segment(both.events, t, both.endUs)
  {
    ChordSegment(p.modifiers, p.code, start, downUs);
    var chord := ChordEvents(p.modifiers, p.code, start, downUs);
    SegmentThen(before.events, t, before.endUs, chord.events, start, chord.endUs);
  }

  lemma {:induction false} PressSegment(presses: seq<Press>, t: nat, downUs: nat)
    ensures var p := PressEvents(presses, t, downUs); Segment(p.events, t, p.endUs)
  {
    if presses == [] {
      EmptySegment(t);
    } else {
      var before := PressEvents(presses[..|presses| - 1], t, downUs);
      PressSegment(presses[..|presses| - 1], t, downUs);
      ChordAfter(before, t, presses[|presses| - 1], before.endUs + if |presses| > 1 then SETTLE_US else 0, downUs);
    }
  }

  lemma DirectSegment(key: TypedKey, t: nat, downUs: nat)
    ensures var d := DirectEvents(key, t, downUs); Segment(d.events, t, d.endUs)
  {
    PressSegment(key.deadKeys + [key.press], t, downUs);
  }

  lemma {:induction false} DigitSegment(digits: string, t: nat, downUs: nat, readers: Readers)
    ensures var d := DigitEvents(digits, t, downUs, readers); d.Some? ==> Segment(d.value.events, t, d.value.endUs)
  {
    if digits == [] {
      EmptySegment(t);
    } else if DigitEvents(digits, t, downUs, readers).Some? {
      DigitSegment(digits[..|digits| - 1], t, downUs, readers);
      var before := DigitEvents(digits[..|digits| - 1], t, downUs, readers).value;
      var key := readers.keyFor([digits[|digits| - 1]]).value;
      DirectSegment(key, before.endUs, downUs);
      var d := DirectEvents(key, before.endUs, downUs);
      SegmentThen(before.events, t, before.endUs, d.events, before.endUs, d.endUs);
    }
  }

  lemma CodePointSegment(p: Press, hex: string, last: TypedKey, t: nat, downUs: nat, readers: Readers)
    requires CodePointEvents(p, hex, last, t, downUs, readers).Some?
    ensures var c := CodePointEvents(p, hex, last, t, downUs, readers).value; Segment(c.events, t, c.endUs)
  {
    var chord := ChordEvents(p.modifiers, p.code, t, downUs);
    ChordSegment(p.modifiers, p.code, t, downUs);
    DigitSegment(hex, chord.endUs + SETTLE_US, downUs, readers);
    var digits := DigitEvents(hex, chord.endUs + SETTLE_US, downUs, readers).value;
    SegmentThen(chord.events, t, chord.endUs, digits.events, chord.endUs + SETTLE_US, digits.endUs);
    var end := DirectEvents(last, digits.endUs, downUs);
    DirectSegment(last, digits.endUs, downUs);
    SegmentThen(chord.events + digits.events, t, digits.endUs, end.events, digits.endUs, end.endUs);
  }

  lemma ClickSegment(click: Click, t: nat, downUs: nat)
    ensures var c := ClickEvents(click, t, downUs); Segment(c.events, t, c.endUs)
  {
    var start := if click.move.Some? then t + 1 else t;
    TapSegment(Mouse, click.button, start, downUs);
    var tap := [KeyEvent(Mouse, click.button, 1, start), KeyEvent(Mouse, click.button, 0, start + downUs)];
    if click.move.Some? {
      var move := NaturalMove(click.move.value.0, click.move.value.1, true);
      ActionSegment(move, t, t + 1);
      SegmentThen([ActionEvent(move, t)], t, t + 1, tap, start, start + downUs);
    } else {
      assert [] + tap == tap;
    }
  }

  lemma TokenSegment(token: Token, t: nat, options: Options, readers: Readers)
    requires TokenEvents(token, t, options, readers).Some?
    ensures var e := TokenEvents(token, t, options, readers).value; Segment(e.events, t, e.endUs)
  {
    match token.kind
    case Wait => ActionSegment(Hold(readers.wait(token.value).value), t, t);
    case Macro => ActionSegment(CallMacro(token.value), t, t);
    case MouseMove =>
      var at := readers.move(token.value).value;
      ActionSegment(NaturalMove(at.0, at.1, false), t, t + 1);
    case MouseClick => ClickSegment(readers.click(token.value).value, t, options.downUs);
    case Shortcut =>
      var chord := readers.shortcut(token.value).value;
      ChordSegment(chord.modifiers, chord.code, t, options.downUs);
    case Key =>
      if readers.namedKey(token.value).Some? {
        DirectSegment(PlainKey(readers.namedKey(token.value).value), t, options.downUs);
      } else {
        DirectSegment(readers.keyFor(token.value).value, t, options.downUs);
      }
    case Char =>
      if readers.keyFor(token.value).Some? {
        DirectSegment(readers.keyFor(token.value).value, t, options.downUs);
      } else {
        CodePointSegment(UnicodePress(UnicodeKey(readers).value), Hex(token.value[0] as nat), PlainKey(KEY_SPACE),
                         t, options.downUs, readers);
      }
  }

  /** Whatever text compiles, its events leave no key pressed, release in reverse order of pressing,
      and never go back in time. */
  lemma {:induction false} CompiledIsSegment(tokens: seq<Token>, n: nat, options: Options, readers: Readers)
    requires n <= |tokens| && Compile(tokens, n, options, readers).Some?
    ensures var c := Compile(tokens, n, options, readers).value; Segment(c.events, 0, c.endUs)
  {
    if n == 0 {
      EmptySegment(0);
    } else {
      CompiledIsSegment(tokens, n - 1, options, readers);
      var before := Compile(tokens, n - 1, options, readers).value;
      TokenSegment(tokens[n - 1], before.endUs, options, readers);
      var now := TokenEvents(tokens[n - 1], before.endUs, options, readers).value;
      SegmentThen(before.events, 0, before.endUs, now.events, before.endUs, now.endUs);
    }
  }

  // ---- The definition made from the events ----

  function Latest(events: seq<Event>): nat {
    if events == [] then 0
    else
      var before, last := Latest(events[..|events| - 1]), events[|events| - 1].tUs;
      if before < last then last else before
  }

  lemma {:induction false} LatestIsLast(events: seq<Event>, from: nat, to: nat)
    requires InTime(events, from, to)
    ensures Latest(events) == if events == [] then 0 else events[|events| - 1].tUs
  {
    if events != [] { LatestIsLast(events[..|events| - 1], from, to); }
  }

  /** The duration of a compiled macro is the time of its last event. */
  lemma DurationIsLastEvent(tokens: seq<Token>, options: Options, readers: Readers)
    requires Compile(tokens, |tokens|, options, readers).Some?
    ensures var events := Compile(tokens, |tokens|, options, readers).value.events;
            Latest(events) == if events == [] then 0 else events[|events| - 1].tUs
  {
    CompiledIsSegment(tokens, |tokens|, options, readers);
    var c := Compile(tokens, |tokens|, options, readers).value;
    LatestIsLast(c.events, 0, c.endUs);
  }

  method DurationOf(events: seq<Event>) returns (durationUs: nat)
    ensures durationUs == Latest(events)
  {
    durationUs := 0;
    for i := 0 to |events|
      invariant durationUs == Latest(events[..i])
    {
      assert events[..i + 1][..i] == events[..i];
      if durationUs < events[i].tUs { durationUs := events[i].tUs; }
    }
    assert events[..|events|] == events;
  }

  // ---- The loops that append events ----

  method AppendChordEvents(events: seq<Event>, modifiers: seq<int>, code: int, start: nat, downUs: nat)
    returns (r: seq<Event>, t: nat)
    ensures var c := ChordEvents(modifiers, code, start, downUs); r == events + c.events && t == c.endUs
  {
    r, t := events, start;
    for i := 0 to |modifiers|
      invariant t == start + i * SETTLE_US && r == events + Downs(modifiers[..i], start)
    {
      DownsNext(modifiers, i, start);
      r := r + [KeyDown(modifiers[i], t)];
      t := t + SETTLE_US;
    }
    r := r + [KeyDown(code, t)];
    t := t + downUs;
    r := r + [KeyUp(code, t)];
    var i := |modifiers|;
    while i > 0
      invariant 0 <= i <= |modifiers|
      invariant var c := ChordEvents(modifiers[i..], code, start + i * SETTLE_US, downUs);
                t == c.endUs && r == events + Downs(modifiers[..i], start) + c.events
    {
      i := i - 1;
      ChordOuter(events, modifiers, i, code, start, downUs);
      t := t + SETTLE_US;
      r := r + [KeyUp(modifiers[i], t)];
    }
    assert modifiers[0..] == modifiers && Downs(modifiers[..0], start) == [];
  }

  /** The modifiers going down, one settle time apart. */
  function Downs(modifiers: seq<int>, start: nat): seq<Event> {
    seq(|modifiers|, i requires 0 <= i < |modifiers| => KeyDown(modifiers[i], start + i * SETTLE_US))
  }

  lemma DownsNext(modifiers: seq<int>, i: nat, start: nat)
    requires i < |modifiers|
    ensures Downs(modifiers[..i + 1], start)
            == Downs(modifiers[..i], start) + [KeyDown(modifiers[i], start + i * SETTLE_US)]
  {
  }

  lemma ChordOuter(events: seq<Event>, modifiers: seq<int>, i: nat, code: int, start: nat, downUs: nat)
    requires i < |modifiers|
    ensures var inner := ChordEvents(modifiers[i + 1..], code, start + (i + 1) * SETTLE_US, downUs);
            var outer := ChordEvents(modifiers[i..], code, start + i * SETTLE_US, downUs);
            && outer.endUs == inner.endUs + SETTLE_US
            && events + Downs(modifiers[..i], start) + outer.events
               == events + Downs(modifiers[..i + 1], start) + inner.events + [KeyUp(modifiers[i], outer.endUs)]
  {
    assert modifiers[i..][1..] == modifiers[i + 1..];
    DownsNext(modifiers, i, start);
  }

  method AppendDirectKeyEvents(events: seq<Event>, key: TypedKey, start: nat, downUs: nat)
    returns (r: seq<Event>, t: nat)
    ensures var d := DirectEvents(key, start, downUs); r == events + d.events && t == d.endUs
  {
    var presses := key.deadKeys + [key.press];
    r, t := events, start;
    for i := 0 to |presses|
      invariant var p := PressEvents(presses[..i], start, downUs); r == events + p.events && t == p.endUs
    {
      assert presses[..i + 1][..i] == presses[..i];
      ghost var before := PressEvents(presses[..i], start, downUs);
      if i > 0 { t := t + SETTLE_US; }
      Assoc(events, before.events, ChordEvents(presses[i].modifiers, presses[i].code, t, downUs).events);
      r, t := AppendChordEvents(r, presses[i].modifiers, presses[i].code, t, downUs);
    }
    assert presses[..|presses|] == presses;
  }

  method AppendUnicodeCharEvents(events: seq<Event>, ch: string, start: nat, downUs: nat, readers: Readers)
    returns (r: Option<(seq<Event>, nat)>)
    ensures var u := UnicodeEvents(ch, start, downUs, readers);
            r == if u.None? then None else Some((events + u.value.events, u.value.endUs))
  {
    var u := UnicodeKey(readers);
    if u.None? || ch == [] { return None; }
    r := AppendCodePoint(events, UnicodePress(u.value), Hex(ch[0] as nat), PlainKey(KEY_SPACE), start, downUs, readers);
  }

  method AppendCodePoint(events: seq<Event>, p: Press, hex: string, last: TypedKey, start: nat, downUs: nat,
                         readers: Readers)
    returns (r: Option<(seq<Event>, nat)>)
    ensures var c := CodePointEvents(p, hex, last, start, downUs, readers);
            r == if c.None? then None else Some((events + c.value.events, c.value.endUs))
  {
    ghost var chord := ChordEvents(p.modifiers, p.code, start, downUs);
    assert [] + chord.events == chord.events;
    var out, t := AppendChordEvents([], p.modifiers, p.code, start, downUs);
    t := t + SETTLE_US;
    var typed := AppendDigits(hex, t, downUs, readers);
    if typed.None? { return None; }
    var (digits, t') := typed.value;
    out := out + digits;
    out, t := AppendDirectKeyEvents(out, last, t', downUs);
    r := Some((events + out, t));
  }

  method AppendDigits(digits: string, start: nat, downUs: nat, readers: Readers) returns (r: Option<(seq<Event>, nat)>)
    ensures var d := DigitEvents(digits, start, downUs, readers);
            r == if d.None? then None else Some((d.value.events, d.value.endUs))
  {
    var out: seq<Event>, t := [], start;
    for i := 0 to |digits|
      invariant DigitEvents(digits[..i], start, downUs, readers) == Some(Timed(out, t))
    {
      assert digits[..i + 1][..i] == digits[..i];
      var key := readers.keyFor([digits[i]]);
      if key.None? {
        DigitFails(digits, i, start, downUs, readers);
        return None;
      }
      out, t := AppendDirectKeyEvents(out, key.value, t, downUs);
    }
    assert digits[..|digits|] == digits;
    r := Some((out, t));
  }

  lemma {:induction false} DigitFails(digits: string, i: nat, t: nat, downUs: nat, readers: Readers)
    requires i < |digits| && readers.keyFor([digits[i]]).None?
    ensures DigitEvents(digits, t, downUs, readers).None?
    decreases |digits|
  {
    if i < |digits| - 1 { DigitFails(digits[..|digits| - 1], i, t, downUs, readers); }
  }

  /** Append the events of one token. */
  method AppendToken(events: seq<Event>, token: Token, start: nat, options: Options, readers: Readers)
    returns (r: Option<(seq<Event>, nat)>)
    ensures var e := TokenEvents(token, start, options, readers);
            r == if e.None? then None else Some((events + e.value.events, e.value.endUs))
  {
    var out, t := events, start;
    match token.kind {
      case Wait =>
        var wait := readers.wait(token.value);
        if wait.None? { return None; }
        out := out + [ActionEvent(Hold(wait.value), t)];
      case Macro =>
        out := out + [ActionEvent(CallMacro(token.value), t)];
      case MouseMove =>
        var at := readers.move(token.value);
        if at.None? { return None; }
        out := out + [ActionEvent(NaturalMove(at.value.0, at.value.1, false), t)];
        t := t + 1;
      case MouseClick =>
        var click := readers.click(token.value);
        if click.None? { return None; }
        out, t := AppendMouseClickEvents(out, click.value, t, options.downUs);
      case Shortcut =>
        var chord := readers.shortcut(token.value);
        if chord.None? { return None; }
        out, t := AppendChordEvents(out, chord.value.modifiers, chord.value.code, t, options.downUs);
      case Key =>
        var code := readers.namedKey(token.value);
        var key := if code.Some? then Some(PlainKey(code.value)) else readers.keyFor(token.value);
        if key.None? { return None; }
        out, t := AppendDirectKeyEvents(out, key.value, t, options.downUs);
      case Char =>
        var key := readers.keyFor(token.value);
        if key.None? {
          if !options.useUnicodeInput { return None; }
          r := AppendUnicodeCharEvents(out, token.value, t, options.downUs, readers);
          return;
        }
        out, t := AppendDirectKeyEvents(out, key.value, t, options.downUs);
    }
    r := Some((out, t));
  }

  method AppendMouseClickEvents(events: seq<Event>, click: Click, start: nat, downUs: nat)
    returns (r: seq<Event>, t: nat)
    ensures var c := ClickEvents(click, start, downUs); r == events + c.events && t == c.endUs
    ensures Segment(events, 0, start) ==> Segment(r, 0, t)
  {
    ClickSegment(click, start, downUs);
    ghost var c := ClickEvents(click, start, downUs);
    if Segment(events, 0, start) { SegmentThen(events, 0, start, c.events, start, c.endUs); }
    r, t := events, start;
    if click.move.Some? {
      r := r + [ActionEvent(NaturalMove(click.move.value.0, click.move.value.1, true), t)];
      t := t + 1;
    }
    r := r + [KeyEvent(Mouse, click.button, 1, t)];
    t := t + downUs;
    r := r + [KeyEvent(Mouse, click.button, 0, t)];
  }

  /** Compile a tokenized text; None when a character cannot be typed or a control is malformed. */
  method BuildTypeMacroEvents(tokens: seq<Token>, downMs: int, pauseMs: int, useUnicodeInput: bool, readers: Readers)
    returns (r: Option<seq<Event>>)
    ensures var c := Compile(tokens, |tokens|, Options(MicrosOf(downMs), MicrosOf(pauseMs), useUnicodeInput), readers);
            r == if c.None? then None else Some(c.value.events)
    ensures r.Some? ==> Pressed([], r.value) == Some([])
    ensures r.Some? ==> forall i, j | 0 <= i < j < |r.value| :: r.value[i].tUs <= r.value[j].tUs
  {
    var options := Options(MicrosOf(downMs), MicrosOf(pauseMs), useUnicodeInput);
    r := CompileTokens(tokens, options, readers);
    if r.Some? { CompiledFacts(tokens, options, readers); }
  }

  lemma CompiledFacts(tokens: seq<Token>, options: Options, readers: Readers)
    requires Compile(tokens, |tokens|, options, readers).Some?
    ensures var events := Compile(tokens, |tokens|, options, readers).value.events;
            Pressed([], events) == Some([]) && forall i, j | 0 <= i < j < |events| :: events[i].tUs <= events[j].tUs
  {
    CompiledIsSegment(tokens, |tokens|, options, readers);
  }

  method CompileTokens(tokens: seq<Token>, options: Options, readers: Readers) returns (r: Option<seq<Event>>)
    ensures var c := Compile(tokens, |tokens|, options, readers);
            r == if c.None? then None else Some(c.value.events)
  {
    var events: seq<Event>, t: nat := [], 0;
    for i := 0 to |tokens|
      invariant Compile(tokens, i, options, readers) == Some(Timed(events, t))
    {
      var next := AppendToken(events, tokens[i], t, options, readers);
      if next.None? {
        CompileFails(tokens, i, |tokens|, options, readers);
        return None;
      }
      events, t := next.value.0, next.value.1;
      if tokens[i].kind != Wait && i + 1 < |tokens| && tokens[i + 1].kind != Wait {
        t := t + options.pauseUs;
      }
    }
    r := Some(events);
  }

  lemma {:induction false} CompileFails(tokens: seq<Token>, i: nat, n: nat, options: Options, readers: Readers)
    requires i < n <= |tokens| && Compile(tokens, i + 1, options, readers).None?
    ensures Compile(tokens, n, options, readers).None?
  {
    if i + 1 < n { CompileFails(tokens, i, n - 1, options, readers); }
  }
}
