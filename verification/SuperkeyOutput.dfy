/**
  What a superkey puts out. Every slot that fires runs the actions configured for that slot, and what it
  presses it releases; nothing else is put out.
*/
module SuperkeyOutput {
  import opened Wrappers
  import opened Superkey

  /** Of these actions `n` run: all of them, or those up to the first emergency reset. */
  predicate RunsUpTo(actions: seq<Action>, n: nat) {
    && n <= |actions|
    && (forall i | 0 <= i < n - 1 :: !actions[i].isEmergencyReset)
    && (n < |actions| ==> n > 0 && actions[n - 1].isEmergencyReset)
  }

  /** The first `n` actions go down, in order. */
  predicate GoDown(out: seq<Output>, actions: seq<Action>, n: nat) {
    |out| == n <= |actions| && forall i | 0 <= i < n :: out[i] == Down((i, actions[i]))
  }

  /** The first `n` actions go up, the last one first. */
  predicate GoUp(out: seq<Output>, actions: seq<Action>, n: nat) {
    |out| == n <= |actions| && forall i | 0 <= i < n :: out[i] == Up((n - 1 - i, actions[n - 1 - i]))
  }

  ghost predicate Pressing(out: seq<Output>, actions: seq<Action>) {
    exists n: nat :: RunsUpTo(actions, n) && GoDown(out, actions, n)
  }

  ghost predicate Releasing(out: seq<Output>, actions: seq<Action>) {
    exists n: nat :: RunsUpTo(actions, n) && GoUp(out, actions, n)
  }

  ghost predicate Tapping(out: seq<Output>, actions: seq<Action>) {
    exists n: nat :: RunsUpTo(actions, n) && n <= |out| && GoDown(out[..n], actions, n) && GoUp(out[n..], actions, n)
  }

  /** How many actions run is determined. */
  lemma RunsOneWay(actions: seq<Action>, m: nat, n: nat)
    requires RunsUpTo(actions, m) && RunsUpTo(actions, n)
    ensures m == n
  {
  }

  lemma {:induction false} LiveIs(actions: seq<Action>, index: nat)
    requires index <= |actions|
    ensures var live := Live(actions, index);
            && index + |live| <= |actions| && RunsUpTo(actions[index..], |live|)
            && forall i | 0 <= i < |live| :: live[i] == (index + i, actions[index + i])
    decreases |actions| - index
  {
    if index < |actions| && !actions[index].isEmergencyReset {
      LiveIs(actions, index + 1);
      assert actions[index..][1..] == actions[index + 1..];
    }
  }

  lemma LiveRuns(actions: seq<Action>)
    ensures var live := Live(actions, 0);
            && RunsUpTo(actions, |live|)
            && GoDown(Downs(live), actions, |live|) && GoUp(UpsReversed(live), actions, |live|)
  {
    LiveIs(actions, 0);
    assert actions[0..] == actions;
  }

  lemma PressedTaps(actions: seq<Action>)
    ensures Tapping(Pressed(actions), actions)
  {
    LiveRuns(actions);
    var live, out := Live(actions, 0), Pressed(actions);
    assert out[..|live|] == Downs(live) && out[|live|..] == UpsReversed(live);
  }

  // ---- What a step puts out ----

  /** The list behind each slot. */
  predicate ListedAs(config: Config, slot: Slot, actions: seq<Action>) {
    actions == match slot case Tap => config.tap case DoubleTap => config.doubleTap
                          case Hold => config.hold case TapHold => config.tapHold
  }

  /** The slot fires in this step. */
  predicate FiresNow(s: State, t: State, slot: Slot) {
    |t.fired| == |s.fired| + 1 && t.fired == s.fired + [slot]
  }

  /** The actions that are held go up. */
  ghost predicate LetsGo(s: State, out: seq<Output>) {
    match s.phase
    case Holding => Releasing(out, s.config.hold)
    case TapHolding => Releasing(out, s.config.tapHold)
    case _ => out == []
  }

  /** A slot that fires runs its list: a tap or double tap presses and releases it, a hold presses it. A
      key that was held, or a stop, releases what is held; a repeated slot is tapped; and nothing else is
      put out. */
  ghost predicate PutsOut(s: State, op: Op, t: State, out: seq<Output>) {
    if FiresNow(s, t, Tap) then Tapping(out, s.config.tap)
    else if FiresNow(s, t, DoubleTap) then Tapping(out, s.config.doubleTap)
    else if FiresNow(s, t, Hold) then Pressing(out, s.config.hold)
    else if FiresNow(s, t, TapHold) then Pressing(out, s.config.tapHold)
    else
      match op
      case KeyUp(_) => LetsGo(s, out)
      case Stop => LetsGo(s, out)
      case Repeat(slot) => exists actions :: ListedAs(s.config, slot, actions) && Tapping(out, actions)
      case _ => out == []
  }

  ghost predicate OutputFits(s: State, op: Op, t: State) {
    s.trace <= t.trace && PutsOut(s, op, t, t.trace[|s.trace|..])
  }

  lemma Extends(s: State, op: Op, t: State, out: seq<Output>)
    requires t.trace == s.trace + out && PutsOut(s, op, t, out)
    ensures OutputFits(s, op, t)
  {
    assert t.trace[|s.trace|..] == out;
  }

  lemma NoOutput(s: State, op: Op, t: State)
    requires t.trace == s.trace && PutsOut(s, op, t, [])
    ensures OutputFits(s, op, t)
  {
    assert t.trace == s.trace + [];
    Extends(s, op, t, []);
  }

  lemma TapOutput(s: State, op: Op, slot: Slot, t: State)
    requires slot == Tap || slot == DoubleTap
    requires ActionsOf(s.config, slot) != [] && FiresNow(s, t, slot)
    requires t.trace == s.trace + Pressed(ActionsOf(s.config, slot))
    ensures OutputFits(s, op, t)
  {
    PressedTaps(ActionsOf(s.config, slot));
    assert t.fired[|s.fired|] == slot;
    Extends(s, op, t, Pressed(ActionsOf(s.config, slot)));
  }

  lemma HoldOutput(s: State, op: Op, slot: Slot, t: State)
    requires slot == Hold || slot == TapHold
    requires FiresNow(s, t, slot) && t.trace == s.trace + Downs(Live(ActionsOf(s.config, slot), 0))
    ensures OutputFits(s, op, t)
  {
    LiveRuns(ActionsOf(s.config, slot));
    assert t.fired[|s.fired|] == slot;
    Extends(s, op, t, Downs(Live(ActionsOf(s.config, slot), 0)));
  }

  lemma LetGoOutput(s: State, op: Op, t: State)
    requires HeldFits(s) && (op.KeyUp? || op.Stop?) && t.fired == s.fired
    requires t.trace == s.trace + UpsReversed(s.heldActions)
    ensures OutputFits(s, op, t)
  {
    LiveRuns(s.config.hold);
    LiveRuns(s.config.tapHold);
    Extends(s, op, t, UpsReversed(s.heldActions));
  }

  lemma FirstUpOutput(s: State, now: real)
    requires s.phase == DownWait
    ensures OutputFits(s, KeyUp(now), FirstUp(s, now))
  {
    var op, t := KeyUp(now), FirstUp(s, now);
    if t.fired == s.fired { NoOutput(s, op, t); } else { TapOutput(s, op, Tap, t); }
  }

  lemma SecondUpOutput(s: State, now: real)
    requires s.phase == DownWait2
    ensures OutputFits(s, KeyUp(now), SecondUp(s, now))
  {
    var op, t := KeyUp(now), SecondUp(s, now);
    if t.fired == s.fired {
      NoOutput(s, op, t);
    } else {
      var tap := IsTap(s.config, s.pressStartedAt, now);
      TapOutput(s, op, if tap && s.config.doubleTap != [] then DoubleTap else Tap, t);
    }
  }

  lemma KeyUpOutput(s: State, now: real)
    requires Inv(s)
    ensures OutputFits(s, KeyUp(now), Step(s, KeyUp(now)))
  {
    var t := Step(s, KeyUp(now));
    match s.phase
    case DownWait => FirstUpOutput(s, now);
    case DownWait2 => SecondUpOutput(s, now);
    case Holding => LetGoOutput(s, KeyUp(now), t);
    case TapHolding => LetGoOutput(s, KeyUp(now), t);
    case _ => NoOutput(s, KeyUp(now), t);
  }

  lemma TimerOutput(s: State, op: Op)
    requires Inv(s) && Enabled(s, op) && (op.HoldTimeout? || op.DoubleTapTimeout?)
    ensures OutputFits(s, op, Step(s, op))
  {
    var t := Step(s, op);
    if t.fired == s.fired {
      NoOutput(s, op, t);
    } else if op.DoubleTapTimeout? {
      TapOutput(s, op, Tap, t);
    } else if s.phase == DownWait2 && s.config.tapHold != [] {
      HoldOutput(s, op, TapHold, t);
    } else {
      HoldOutput(s, op, Hold, t);
    }
  }

  lemma RepeatOutput(s: State, slot: Slot)
    ensures OutputFits(s, Repeat(slot), Step(s, Repeat(slot)))
  {
    var actions := ActionsOf(s.config, slot);
    PressedTaps(actions);
    assert ListedAs(s.config, slot, actions);
    if actions == [] {
      assert Pressed(actions) == [];
      NoOutput(s, Repeat(slot), Step(s, Repeat(slot)));
    } else {
      Extends(s, Repeat(slot), Step(s, Repeat(slot)), Pressed(actions));
    }
  }

  /** Every step puts out what it should, and no more. */
  lemma OutputKeeps(s: State, op: Op)
    requires Inv(s) && Enabled(s, op)
    ensures OutputFits(s, op, Step(s, op))
  {
    match op
    case KeyDown(_) => NoOutput(s, op, Step(s, op));
    case KeyUp(now) => KeyUpOutput(s, now);
    case HoldTimeout(_) => TimerOutput(s, op);
    case DoubleTapTimeout(_) => TimerOutput(s, op);
    case Stop => LetGoOutput(s, op, Step(s, op));
    case RetireWhenIdle => NoOutput(s, op, Step(s, op));
    case Repeat(slot) => RepeatOutput(s, slot);
  }

  lemma TapsListed(s: State, op: Op, t: State)
    requires OutputFits(s, op, t)
    ensures s.trace <= t.trace
    ensures FiresNow(s, t, Tap) ==> Tapping(t.trace[|s.trace|..], s.config.tap)
    ensures FiresNow(s, t, DoubleTap) ==> Tapping(t.trace[|s.trace|..], s.config.doubleTap)
  {
    if FiresNow(s, t, DoubleTap) { assert t.fired[|s.fired|] == DoubleTap; }
  }

  // ---- What is recorded of a gesture ----

  /** The recorded times of a gesture are those of the key: it begins when the key goes down while idle,
      and a second press when it goes down while one is awaited; each press ends when the key goes up. */
  ghost predicate Records(s: State, op: Op, t: State) {
    var g, h := s.gesture, t.gesture;
    match op
    case KeyDown(now) =>
      if s.phase == Idle then h == Gesture(s.config, now, false, None, None, false, None)
      else if s.phase == UpWait then h == g.(down2 := Some(now))
      else h == g
    case KeyUp(now) =>
      if s.phase == DownWait || (s.phase == Holding && g.down2.None?) then h == g.(up1 := Some(now))
      else if s.phase == DownWait2 || s.phase == Holding || s.phase == TapHolding then h == g.(up2 := Some(now))
      else h == g
    case HoldTimeout(_) =>
      if s.running && s.phase == DownWait then h == g.(over1 := true)
      else if s.running && s.phase == DownWait2 then h == g.(over2 := true)
      else h == g
    case _ => h == g
  }

  lemma RecordsKeep(s: State, op: Op)
    requires Inv(s) && Enabled(s, op)
    ensures Records(s, op, Step(s, op))
  {
  }
}
