/**
  Runs of the combo recogniser after which the prediction for a wheel notch is wrong: it denies a
  notch that restarts a combo, and it promises a notch that comes too late.
*/
module ComboWitness {
  import opened Wrappers
  import opened ComboModel
  import opened ComboLaws
  import opened ComboRuns
  import opened ComboTiming

  /** A combo "key and wheel, then button", where the button is in reach of the wheel but not of the
      key. */
  ghost predicate Setting(combo: Combo, key: Binding, b: Binding, button: Binding) {
    && |combo.steps| == 2
    && combo.steps[0].bindings == [key, b] && combo.steps[1].bindings == [button]
    && IsPulse(b) && !IsPulse(key)
    && !BindingMatches(key, b) && !BindingMatches(b, key)
    && !BindingMatches(button, b) && BindingScopes(button, b)
    && !BindingScopes(button, key)
  }

  // ---- Pressing a key when only one combo is loaded ----

  lemma OnlyId(combo: Combo, b: Binding)
    requires b in FirstBindings(combo)
    ensures FirstStepIds([combo], b) == [combo.id] && ComboById([combo], combo.id) == Some(combo)
  {
    OnlyComboStarts(combo, b);
    FirstStepIdsAreScan([combo], b);
    Singleton(FirstStepIds([combo], b), combo.id);
  }

  lemma Singleton<T>(xs: seq<T>, x: T)
    requires Distinct(xs) && x in xs && forall y | y in xs :: y == x
    ensures xs == [x]
  {
    if |xs| > 1 {
      Another(xs, x);
      assert false;
    }
  }

  lemma Another<T>(xs: seq<T>, x: T)
    requires Distinct(xs) && |xs| > 1
    ensures exists y | y in xs :: y != x
  {
    var y := if xs[0] == x then xs[1] else xs[0];
    assert y in xs && y != x;
  }

  /** Nothing waits for the key. */
  ghost predicate Unaffected(s: State, b: Binding) {
    MatchingIds(s, b) == {} && RepeatedIds(s, b) == {} && MismatchIds(s, b) == {}
  }

  ghost function StartAlone(s: State, id: Id, b: Binding, now: real, pick: Pick): State {
    StartOne(Progress(s, [], [], false, false), id, b, now, pick).s
  }

  lemma QuietPress(s: State, combo: Combo, b: Binding, now: real, pick: Pick)
    requires s.combos == [combo] && Unaffected(s, b) && b in FirstBindings(combo)
    ensures PressEvent(s, b, now, pick).s == StartAlone(s, combo.id, b, now, pick)
  {
    OnlyId(combo, b);
    assert PressWaiting(s, b, now) == Outcome(s, NOTHING);
    assert [combo.id][..0] == [];
    assert StartAll(s, [combo.id][..0], b, now, pick) == Progress(s, [], [], false, false);
  }

  /** An event for which nothing expires. */
  lemma TimelyEvent(s: State, b: Binding, value: int, now: real, pick: Pick)
    requires Orders(s.ids, s.cands.Keys) && !AnyExpired(s, now) && 0 <= value <= 1
    ensures HandleEvent(s, b, value, now, pick).s == Settle(HandleKey(s, b, value, now, pick).s)
  {
    NothingExpired(s, now);
  }

  /** A press that no candidate waits for can only start the combo. */
  lemma FreshPress(s: State, combo: Combo, b: Binding, pick: Pick)
    requires s.combos == [combo] && b in FirstBindings(combo)
    requires Orders(s.ids, s.cands.Keys) && !AnyExpired(s, 0.0) && Unaffected(Recorded(s, b), b)
    ensures HandleEvent(s, b, 1, 0.0, pick).s == Settle(StartAlone(Recorded(s, b), combo.id, b, 0.0, pick))
  {
    TimelyEvent(s, b, 1, 0.0, pick);
    QuietPress(Recorded(s, b), combo, b, 0.0, pick);
  }

  function Recorded(s: State, b: Binding): State { if IsPulse(b) then s else RecordHeld(s, b) }

  // ---- The run ----

  /** Only keys are held. */
  ghost predicate Idle(s: State, combo: Combo) { s.combos == [combo] && s.cands == map[] && s.ids == [] }

  lemma FirstKey(combo: Combo, key: Binding, b: Binding, button: Binding, s: State, pick: Pick)
    requires Setting(combo, key, b, button) && Idle(s, combo) && s.held == map[]
    ensures var t := HandleEvent(s, key, 1, 0.0, pick).s; Idle(t, combo) && t.held.Keys == {key}
  {
    var t := RecordHeld(s, key);
    assert t.held.Keys == {key};
    FreshPress(s, combo, key, pick);
    OnlyId(combo, key);
    KeyAlone(key, b, pick);
  }

  lemma KeyAlone(key: Binding, b: Binding, pick: Pick)
    requires !BindingMatches(b, key)
    ensures MatchStep([key, b], key, {key}, pick, {}, false).None?
  {
    var rest := [key, b][1..];
    assert rest == [b];
    assert MatchingHeld({key}, b) - ({} + {key}) == {};
    assert MatchStep(rest, key, {key}, pick, {} + {key}, true).None?;
  }

  /** The first step is complete and its key still down. */
  ghost predicate FirstStepDone(c: Candidate, key: Binding, combo: Combo) {
    c.combo == combo && c.stepIndex == 0 && c.releasing && !c.active && c.pressed == {key} && c.deadline.None?
  }

  /** There is one candidate. */
  ghost predicate Alone(s: State, combo: Combo) {
    s.combos == [combo] && s.ids == [combo.id] && s.cands.Keys == {combo.id}
  }

  lemma FirstNotch(combo: Combo, key: Binding, b: Binding, button: Binding, s: State, pick: Pick)
    requires Setting(combo, key, b, button) && GoodPick(pick) && Idle(s, combo) && s.held.Keys == {key}
    ensures var t := HandleEvent(s, b, 1, 0.0, pick).s;
            Alone(t, combo) && t.held == s.held && FirstStepDone(t.cands[combo.id], key, combo)
  {
    FreshPress(s, combo, b, pick);
    NotchStarts(combo, key, b, s, pick);
  }

  lemma NotchStarts(combo: Combo, key: Binding, b: Binding, s: State, pick: Pick)
    requires |combo.steps| == 2 && combo.steps[0].bindings == [key, b] && IsPulse(b) && !IsPulse(key)
    requires !BindingMatches(key, b) && GoodPick(pick) && Idle(s, combo) && s.held.Keys == {key}
    ensures var t := StartAlone(s, combo.id, b, 0.0, pick);
            Alone(t, combo) && t.held == s.held && FirstStepDone(t.cands[combo.id], key, combo)
  {
    OnlyId(combo, b);
    FirstStepMatches(key, b, pick);
    var keys := {key} + {b};
    assert key in keys;
    Started(s, combo, keys, key, b, pick);
  }

  /** The key is the only one of the step that must be released; `b` completes the step. */
  ghost predicate OnlyPressed(keys: set<Binding>, key: Binding, b: Binding) {
    && key in keys && b in keys && (IsPulse(b) || b == key)
    && forall k | k in keys :: !IsPulse(k) <==> k == key
  }

  lemma StartedCandidate(s: State, combo: Combo, keys: set<Binding>, key: Binding, b: Binding)
    returns (c: Candidate, counter: nat)
    requires OnlyPressed(keys, key, b) && |combo.steps| == 2
    ensures StartCandidate(s, combo, keys, b, 0.0) == (c, counter) && FirstStepDone(c, key, combo)
  {
    var order := ByPressOrder(s, keys);
    ByPressOrderSorted(s, keys);
    TrackAllLists(combo, order, b, s.counter);
    TrackAllPressed(combo, order, b, s.counter);
    var (c0, counter0) := TrackAll(NewCandidate(combo), order, b, s.counter);
    assert c0.pressed == {key};
    CompletedFirst(c0, combo, key, b, counter0);
    var (c1, counter1) := CompleteOne(c0, b, 0.0, counter0);
    c, counter := c1, counter1;
  }

  lemma CompletedFirst(c: Candidate, combo: Combo, key: Binding, b: Binding, counter: nat)
    requires c.combo == combo && c.stepIndex == 0 && c.pressed == {key} && |combo.steps| == 2
    requires !IsPulse(key) && (IsPulse(b) || b == key)
    ensures FirstStepDone(CompleteOne(c, b, 0.0, counter).0, key, combo)
  {
    assert key in c.pressed && c.pressed + {key} == {key};
  }

  lemma Stored(s: State, combo: Combo, b: Binding, pick: Pick, keys: set<Binding>, c: Candidate, counter: nat)
    requires Idle(s, combo) && ComboById(s.combos, combo.id) == Some(combo)
    requires MatchFirstStep(combo, b, s.held.Keys, pick) == Some(keys) && PulseCanComplete(combo, b, keys)
    requires StartCandidate(s, combo, keys, b, 0.0) == (c, counter) && c.combo == combo && !c.active
    ensures var t := StartAlone(s, combo.id, b, 0.0, pick);
            Alone(t, combo) && t.held == s.held && t.cands[combo.id] == c
  {
    assert StartAlone(s, combo.id, b, 0.0, pick) == Store(s, c, b, counter);
    StoredAlone(s, combo, c, b, counter);
  }

  lemma Started(s: State, combo: Combo, keys: set<Binding>, key: Binding, b: Binding, pick: Pick)
    requires Idle(s, combo) && ComboById(s.combos, combo.id) == Some(combo) && |combo.steps| == 2
    requires MatchFirstStep(combo, b, s.held.Keys, pick) == Some(keys) && PulseCanComplete(combo, b, keys)
    requires OnlyPressed(keys, key, b)
    ensures var t := StartAlone(s, combo.id, b, 0.0, pick);
            Alone(t, combo) && t.held == s.held && FirstStepDone(t.cands[combo.id], key, combo)
  {
    var c, counter := StartedCandidate(s, combo, keys, key, b);
    Stored(s, combo, b, pick, keys, c, counter);
  }

  lemma StoredAlone(s: State, combo: Combo, c: Candidate, b: Binding, counter: nat)
    requires Idle(s, combo) && c.combo == combo && !c.active
    ensures var t := Store(s, c, b, counter); Alone(t, combo) && t.held == s.held && t.cands[combo.id] == c
  {
    assert [] + [combo.id] == [combo.id];
  }

  /** The second step is awaited. */
  ghost predicate AwaitsSecond(c: Candidate, combo: Combo) {
    && c.combo == combo && |combo.steps| == 2 && c.stepIndex == 1 && !c.releasing && c.pressed == {}
    && c.deadline == Deadline(0.0, combo.steps[1])
  }

  lemma KeyReleased(combo: Combo, key: Binding, s: State, pick: Pick)
    requires |combo.steps| == 2 && key in combo.steps[0].bindings
    requires Alone(s, combo) && s.held.Keys == {key} && FirstStepDone(s.cands[combo.id], key, combo)
    ensures var t := HandleEvent(s, key, 0, 0.0, pick).s;
            Alone(t, combo) && t.held == map[] && AwaitsSecond(t.cands[combo.id], combo)
  {
    TimelyEvent(s, key, 0, 0.0, pick);
    StepReleased(s.cands[combo.id], combo, key);
    OneLeft(s, combo, key);
    assert s.held - {key} == map[];
  }

  lemma StepReleased(c: Candidate, combo: Combo, key: Binding)
    requires FirstStepDone(c, key, combo) && |combo.steps| == 2 && key in combo.steps[0].bindings
    ensures var left := ReleaseCandidate(c, key, 0.0); left.Some? && AwaitsSecond(left.value, combo)
  {
    assert key in CurrentStep(c).bindings && BindingMatches(key, key);
    assert c.pressed - {key} == {};
  }

  lemma OneLeft(s: State, combo: Combo, key: Binding)
    requires Alone(s, combo) && ReleaseCandidate(s.cands[combo.id], key, 0.0).Some?
    ensures var t := ReleaseAll(s, key, 0.0);
            && Alone(t, combo) && t.held == s.held
            && t.cands[combo.id] == ReleaseCandidate(s.cands[combo.id], key, 0.0).value
  {
    var t := ReleaseAll(s, key, 0.0);
    assert t.cands.Keys == s.cands.Keys;
    RestrictAll(s.ids, t.cands.Keys);
  }

  lemma KeyAgain(combo: Combo, key: Binding, b: Binding, button: Binding, s: State, pick: Pick)
    requires Setting(combo, key, b, button) && Alone(s, combo) && s.held == map[]
    requires AwaitsSecond(s.cands[combo.id], combo)
    ensures var t := HandleEvent(s, key, 1, 0.0, pick).s;
            Alone(t, combo) && t.held.Keys == {key} && AwaitsSecond(t.cands[combo.id], combo)
  {
    var t := RecordHeld(s, key);
    assert t.held.Keys == {key};
    OutOfReach(t, combo, key, button);
    FreshPress(s, combo, key, pick);
    assert StartAlone(t, combo.id, key, 0.0, pick) == t;
  }

  lemma OutOfReach(s: State, combo: Combo, key: Binding, button: Binding)
    requires Alone(s, combo) && AwaitsSecond(s.cands[combo.id], combo) && !BindingScopes(button, key)
    requires |combo.steps| == 2 && combo.steps[1].bindings == [button]
    ensures Unaffected(s, key)
  {
    var c := s.cands[combo.id];
    assert CurrentStep(c).bindings == [button];
    assert !StepMatches(CurrentStep(c), key) && !StepScopes(CurrentStep(c), key);
    assert forall id | id in s.cands :: id == combo.id;
  }

  /** Load the combo, press the key, turn the wheel, release the key and press it again. */
  ghost predicate Script(ops: seq<Op>, combo: Combo, key: Binding, b: Binding, pick: Pick) {
    && |ops| >= 5 && ops[0] == Reload([combo], None)
    && ops[1] == Event(key, 1, 0.0, pick) && ops[2] == Event(b, 1, 0.0, pick)
    && ops[3] == Event(key, 0, 0.0, pick) && ops[4] == Event(key, 1, 0.0, pick)
  }

  lemma RunOn(ops: seq<Op>, n: nat, s: State)
    requires n < |ops| && AllowedRun(ops[..n]) && RunState(ops[..n]) == s && Allowed(s, ops[n])
    ensures AllowedRun(ops[..n + 1]) && RunState(ops[..n + 1]) == Apply(s, ops[n])
  {
    assert ops[..n + 1][..n] == ops[..n];
  }

  lemma ScriptStarts(ops: seq<Op>, combo: Combo, key: Binding, b: Binding, button: Binding, pick: Pick)
    returns (s: State)
    requires Setting(combo, key, b, button) && GoodPick(pick) && Script(ops, combo, key, b, pick)
    ensures AllowedRun(ops[..2]) && RunState(ops[..2]) == s && Idle(s, combo) && s.held.Keys == {key}
  {
    assert ops[..0] == [];
    RunOn(ops, 0, Init());
    s := RunState(ops[..1]);
    FirstKey(combo, key, b, button, s, pick);
    RunOn(ops, 1, s);
    s := RunState(ops[..2]);
  }

  lemma ScriptGoesOn(ops: seq<Op>, combo: Combo, key: Binding, b: Binding, button: Binding, pick: Pick)
    returns (s: State)
    requires Setting(combo, key, b, button) && GoodPick(pick) && Script(ops, combo, key, b, pick)
    ensures AllowedRun(ops[..3]) && RunState(ops[..3]) == s
    ensures Alone(s, combo) && s.held.Keys == {key} && FirstStepDone(s.cands[combo.id], key, combo)
  {
    s := ScriptStarts(ops, combo, key, b, button, pick);
    RunOn(ops, 2, s);
    FirstNotch(combo, key, b, button, s, pick);
    s := HandleEvent(s, b, 1, 0.0, pick).s;
  }

  /** A run in which the key of the completed first step is released next. */
  lemma ReleaseNext(ops: seq<Op>, n: nat, combo: Combo, key: Binding, s: State, pick: Pick) returns (t: State)
    requires 0 < n <= |ops| && AllowedRun(ops[..n - 1]) && RunState(ops[..n - 1]) == s
    requires ops[n - 1] == Event(key, 0, 0.0, pick) && GoodPick(pick)
    requires |combo.steps| == 2 && key in combo.steps[0].bindings
    requires Alone(s, combo) && s.held.Keys == {key} && FirstStepDone(s.cands[combo.id], key, combo)
    ensures AllowedRun(ops[..n]) && RunState(ops[..n]) == t
    ensures Alone(t, combo) && t.held == map[] && AwaitsSecond(t.cands[combo.id], combo)
  {
    RunOn(ops, n - 1, s);
    KeyReleased(combo, key, s, pick);
    t := HandleEvent(s, key, 0, 0.0, pick).s;
  }

  lemma ScriptReleases(ops: seq<Op>, combo: Combo, key: Binding, b: Binding, button: Binding, pick: Pick)
    returns (s: State)
    requires Setting(combo, key, b, button) && GoodPick(pick) && Script(ops, combo, key, b, pick)
    ensures AllowedRun(ops[..4]) && RunState(ops[..4]) == s
    ensures Alone(s, combo) && s.held == map[] && AwaitsSecond(s.cands[combo.id], combo)
  {
    s := ScriptGoesOn(ops, combo, key, b, button, pick);
    s := ReleaseNext(ops, 4, combo, key, s, pick);
  }

  lemma ScriptEnds(ops: seq<Op>, combo: Combo, key: Binding, b: Binding, button: Binding, pick: Pick)
    returns (s: State)
    requires Setting(combo, key, b, button) && GoodPick(pick) && Script(ops, combo, key, b, pick)
    ensures AllowedRun(ops[..5]) && RunState(ops[..5]) == s
    ensures Alone(s, combo) && s.held.Keys == {key} && AwaitsSecond(s.cands[combo.id], combo)
  {
    s := ScriptReleases(ops, combo, key, b, button, pick);
    RunOn(ops, 4, s);
    KeyAgain(combo, key, b, button, s, pick);
    s := HandleEvent(s, key, 1, 0.0, pick).s;
  }

  lemma NotchMissed(combo: Combo, key: Binding, b: Binding, button: Binding, s: State, pick: Pick)
    requires Setting(combo, key, b, button) && GoodPick(pick) && Inv(s)
    requires Alone(s, combo) && s.held.Keys == {key} && AwaitsSecond(s.cands[combo.id], combo)
    ensures !AnyExpired(s, 0.0) && !WouldConsumePulse(s, b, pick) && HandleEvent(s, b, 1, 0.0, pick).d.consume
  {
    var c := s.cands[combo.id];
    assert CurrentStep(c).bindings == [button] && button in CurrentStep(c).bindings;
    FirstStepMatches(key, b, pick);
    assert key in {key} + {b};
    RestartMissed(s, combo, b, pick);
  }

  /** The prediction is not complete, in a state that a run reaches. Load the combo "Ctrl and wheel,
      then the side button of the mouse", press Ctrl, turn the wheel, release Ctrl and press it again:
      the next wheel notch is consumed although the prediction denies it. */
  lemma PredictionIncomplete(pick: Pick) returns (ops: seq<Op>, b: Binding)
    requires GoodPick(pick)
    ensures AllowedRun(ops) && !AnyExpired(RunState(ops), 0.0) && IsPulse(b)
    ensures !WouldConsumePulse(RunState(ops), b, pick)
    ensures HandleEvent(RunState(ops), b, 1, 0.0, pick).d.consume
  {
    var ctrl := Binding("kbd", "key_leftctrl", "ctrl", "");
    var button := Binding("mouse", "btn_side", "btn_side", "");
    b := Binding("mouse", "wheel_up", "wheel_up", "");
    var combo := Combo("x", [Step([ctrl, b], None), Step([button], None)], 0);
    assert Setting(combo, ctrl, b, button);
    ops := [Reload([combo], None), Event(ctrl, 1, 0.0, pick), Event(b, 1, 0.0, pick),
            Event(ctrl, 0, 0.0, pick), Event(ctrl, 1, 0.0, pick)];
    var s := ScriptEnds(ops, combo, ctrl, b, button, pick);
    assert ops[..5] == ops;
    ReachableInv(ops);
    NotchMissed(combo, ctrl, b, button, s, pick);
  }

  lemma FirstStepMatches(key: Binding, b: Binding, pick: Pick)
    requires GoodPick(pick) && !BindingMatches(key, b)
    ensures MatchStep([key, b], b, {key}, pick, {}, false) == Some({key} + {b})
  {
    var rest := [key, b][1..];
    assert rest == [b] && rest[1..] == [];
    assert MatchingHeld({key}, key) - {} == {key};
    assert pick(key, {key}) == key;
    assert {} + {key} == {key};
    assert MatchStep(rest[1..], b, {key}, pick, {key} + {b}, true) == Some({key} + {b});
    assert MatchStep(rest, b, {key}, pick, {key}, false) == MatchStep(rest[1..], b, {key}, pick, {key} + {b}, true);
  }

  // ---- A promise that is kept too long ----

  /** A combo "key, then wheel". */
  ghost predicate LateSetting(combo: Combo, key: Binding, b: Binding) {
    && |combo.steps| == 2
    && combo.steps[0].bindings == [key] && combo.steps[1].bindings == [b] && combo.steps[1].timeoutMs.None?
    && IsPulse(b) && !IsPulse(key) && !BindingMatches(key, b)
  }

  lemma OnlyKey(combo: Combo, key: Binding, b: Binding, s: State, pick: Pick)
    requires LateSetting(combo, key, b) && Idle(s, combo) && s.held == map[]
    ensures var t := HandleEvent(s, key, 1, 0.0, pick).s;
            Alone(t, combo) && t.held.Keys == {key} && FirstStepDone(t.cands[combo.id], key, combo)
  {
    var t := RecordHeld(s, key);
    assert t.held.Keys == {key};
    FreshPress(s, combo, key, pick);
    KeyStarts(combo, key, t, pick);
  }

  lemma KeyStarts(combo: Combo, key: Binding, s: State, pick: Pick)
    requires |combo.steps| == 2 && combo.steps[0].bindings == [key] && !IsPulse(key)
    requires Idle(s, combo) && s.held.Keys == {key}
    ensures var t := StartAlone(s, combo.id, key, 0.0, pick);
            Alone(t, combo) && t.held == s.held && FirstStepDone(t.cands[combo.id], key, combo)
  {
    OnlyId(combo, key);
    KeyMatches(key, pick);
    Started(s, combo, {} + {key}, key, key, pick);
  }

  lemma KeyMatches(key: Binding, pick: Pick)
    ensures MatchStep([key], key, {key}, pick, {}, false) == Some({} + {key})
  {
    var rest := [key][1..];
    assert rest == [];
    assert MatchStep(rest, key, {key}, pick, {} + {key}, true) == Some({} + {key});
  }

  /** Load the combo, press the key and release it. */
  ghost predicate LateScript(ops: seq<Op>, combo: Combo, key: Binding, pick: Pick) {
    && |ops| >= 3 && ops[0] == Reload([combo], None)
    && ops[1] == Event(key, 1, 0.0, pick) && ops[2] == Event(key, 0, 0.0, pick)
  }

  lemma LateScriptStarts(ops: seq<Op>, combo: Combo, key: Binding, b: Binding, pick: Pick) returns (s: State)
    requires LateSetting(combo, key, b) && GoodPick(pick) && LateScript(ops, combo, key, pick)
    ensures AllowedRun(ops[..2]) && RunState(ops[..2]) == s
    ensures Alone(s, combo) && s.held.Keys == {key} && FirstStepDone(s.cands[combo.id], key, combo)
  {
    assert ops[..0] == [];
    RunOn(ops, 0, Init());
    s := RunState(ops[..1]);
    OnlyKey(combo, key, b, s, pick);
    RunOn(ops, 1, s);
    s := RunState(ops[..2]);
  }

  lemma LateScriptEnds(ops: seq<Op>, combo: Combo, key: Binding, b: Binding, pick: Pick) returns (s: State)
    requires LateSetting(combo, key, b) && GoodPick(pick) && LateScript(ops, combo, key, pick)
    ensures AllowedRun(ops[..3]) && RunState(ops[..3]) == s
    ensures Alone(s, combo) && AwaitsSecond(s.cands[combo.id], combo)
  {
    s := LateScriptStarts(ops, combo, key, b, pick);
    s := ReleaseNext(ops, 3, combo, key, s, pick);
  }

  /** The wheel is awaited, and a second later it is not any more. */
  lemma LateNotch(combo: Combo, key: Binding, b: Binding, s: State, pick: Pick)
    requires LateSetting(combo, key, b) && Inv(s) && Alone(s, combo) && AwaitsSecond(s.cands[combo.id], combo)
    ensures WouldConsumePulse(s, b, pick) && !HandleEvent(s, b, 1, 1.0, pick).d.consume
  {
    var c := s.cands[combo.id];
    assert CurrentStep(c).bindings == [b] && b in CurrentStep(c).bindings && BindingMatches(b, b);
    assert LacksOne(c);
    assert combo.id in s.cands;
    var t := Expire(s, 1.0);
    assert Expired(c, 1.0) && t.cands == map[];
    var u := Drop(t, MismatchIds(t, b));
    assert u.cands == map[];
    FirstStepIdsAreScan(s.combos, b);
    assert forall id :: !StartsWith(s.combos, id, b);
    PulseConsumedIff(s, b, 1.0, pick);
  }

  /** The prediction does not look at the clock. Load the combo "A, then wheel", press and release A:
      a wheel notch is promised, but a second later it is not consumed. */
  lemma PredictionStale(pick: Pick) returns (ops: seq<Op>, b: Binding)
    requires GoodPick(pick)
    ensures AllowedRun(ops) && WouldConsumePulse(RunState(ops), b, pick)
    ensures !HandleEvent(RunState(ops), b, 1, 1.0, pick).d.consume
  {
    var key := Binding("kbd", "key_a", "a", "");
    b := Binding("mouse", "wheel_up", "wheel_up", "");
    var combo := Combo("x", [Step([key], None), Step([b], None)], 0);
    assert LateSetting(combo, key, b);
    ops := [Reload([combo], None), Event(key, 1, 0.0, pick), Event(key, 0, 0.0, pick)];
    var s := LateScriptEnds(ops, combo, key, b, pick);
    assert ops[..3] == ops;
    ReachableInv(ops);
    LateNotch(combo, key, b, s, pick);
  }
}
