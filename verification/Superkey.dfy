/**
  The superkey gesture machine: tap, double tap, hold and tap+hold on one key.

  Every handler and every timer firing is one step. A step is defined as a function of the state;
  `SuperkeyMachine` updates its fields in place and is proved to take exactly these steps.
  Running an action appends to an output trace. Besides the machine's own fields the state records,
  for the proofs, the clock, the slots fired since the key was idle, and the times of the gesture.
*/
module Superkey {
  import opened Wrappers

  datatype Action = Action(name: string, isEmergencyReset: bool)

  datatype Config = Config(
    tapTimeoutMs: int, doubleTapWindowMs: int, holdThresholdMs: int,
    tap: seq<Action>, doubleTap: seq<Action>, hold: seq<Action>, tapHold: seq<Action>)

  const DEFAULT_CONFIG := Config(200, 300, 300, [], [], [], [])

  datatype Phase = Idle | DownWait | UpWait | Holding | DownWait2 | TapHolding

  datatype Slot = Tap | DoubleTap | Hold | TapHold

  type Held = (nat, Action)

  datatype Output = Down(h: Held) | Up(h: Held)

  /** When the key went down and up in this gesture, and whether the hold timer went off in between. */
  datatype Gesture = Gesture(
    config: Config,
    down1: real, over1: bool, up1: Option<real>,
    down2: Option<real>, over2: bool, up2: Option<real>)

  datatype State = State(
    config: Config,
    phase: Phase,
    pressStartedAt: Option<real>,
    holdTimer: Option<real>,
    doubleTapTimer: Option<real>,
    heldActions: seq<Held>,
    running: bool,
    retiring: bool,
    trace: seq<Output>,
    fired: seq<Slot>,
    gesture: Gesture)

  datatype Op =
    | KeyDown(now: real)
    | KeyUp(now: real)
    | HoldTimeout(now: real)
    | DoubleTapTimeout(now: real)
    | Stop
    | RetireWhenIdle
    | Repeat(slot: Slot)

  // ---- Running a list of actions ----

  /** The actions that run: all of them, or those up to and including the first emergency reset. */
  function Live(actions: seq<Action>, index: nat): seq<Held>
    requires index <= |actions|
    decreases |actions| - index
  {
    if index == |actions| then []
    else if actions[index].isEmergencyReset then [(index, actions[index])]
    else [(index, actions[index])] + Live(actions, index + 1)
  }

  function Downs(hs: seq<Held>): seq<Output> {
    seq(|hs|, i requires 0 <= i < |hs| => Down(hs[i]))
  }

  function UpsReversed(hs: seq<Held>): seq<Output> {
    seq(|hs|, i requires 0 <= i < |hs| => Up(hs[|hs| - 1 - i]))
  }

  function Pressed(actions: seq<Action>): seq<Output> {
    Downs(Live(actions, 0)) + UpsReversed(Live(actions, 0))
  }

  function ActionsOf(config: Config, slot: Slot): seq<Action> {
    match slot
    case Tap => config.tap
    case DoubleTap => config.doubleTap
    case Hold => config.hold
    case TapHold => config.tapHold
  }

  // ---- One step ----

  function Seconds(ms: int): real { ms as real / 1000.0 }

  /** Emit a tap-like slot, if it has actions. */
  function EmitTapped(s: State, slot: Slot): State {
    if ActionsOf(s.config, slot) == [] then s
    else s.(trace := s.trace + Pressed(ActionsOf(s.config, slot)), fired := s.fired + [slot])
  }

  /** Press the actions of a slot and keep them held. */
  function EmitDown(s: State, slot: Slot): State {
    if ActionsOf(s.config, slot) == [] then s
    else
      var live := Live(ActionsOf(s.config, slot), 0);
      s.(trace := s.trace + Downs(live), heldActions := s.heldActions + live, fired := s.fired + [slot])
  }

  function ReleaseHeld(s: State): State {
    s.(trace := s.trace + UpsReversed(s.heldActions), heldActions := [])
  }

  function BecomeIdle(s: State): State {
    if s.retiring then s.(phase := Idle, retiring := false, config := DEFAULT_CONFIG) else s.(phase := Idle)
  }

  predicate IsTap(config: Config, startedAt: Option<real>, now: real) {
    && startedAt.Some?
    && (var elapsed := now - startedAt.value;
        (if elapsed < 0.0 then 0.0 else elapsed) * 1000.0
        <= (if config.tapTimeoutMs < 0 then 0 else config.tapTimeoutMs) as real)
  }

  function FirstDown(s: State, now: real): State {
    s.(phase := DownWait, pressStartedAt := Some(now),
       holdTimer := if s.config.hold != [] then Some(now + Seconds(s.config.holdThresholdMs)) else s.holdTimer,
       fired := [], gesture := Gesture(s.config, now, false, None, None, false, None))
  }

  function SecondDown(s: State, now: real): State {
    s.(phase := DownWait2, pressStartedAt := Some(now), doubleTapTimer := None,
       holdTimer := if s.config.tapHold != [] || s.config.hold != []
                    then Some(now + Seconds(s.config.holdThresholdMs)) else s.holdTimer,
       gesture := s.gesture.(down2 := Some(now)))
  }

  function FirstUp(s: State, now: real): State {
    var s' := s.(pressStartedAt := None, holdTimer := None, gesture := s.gesture.(up1 := Some(now)));
    if !IsTap(s.config, s.pressStartedAt, now) then BecomeIdle(s')
    else if s.config.doubleTap != [] || s.config.tapHold != [] then
      s'.(phase := UpWait, doubleTapTimer := Some(now + Seconds(s.config.doubleTapWindowMs)))
    else BecomeIdle(EmitTapped(s', Tap))
  }

  function SecondUp(s: State, now: real): State {
    var s' := s.(pressStartedAt := None, holdTimer := None, gesture := s.gesture.(up2 := Some(now)));
    BecomeIdle(if IsTap(s.config, s.pressStartedAt, now) && s.config.doubleTap != []
               then EmitTapped(s', DoubleTap) else EmitTapped(s', Tap))
  }

  function HoldUp(s: State, now: real): State {
    var g := if s.gesture.down2.Some? then s.gesture.(up2 := Some(now)) else s.gesture.(up1 := Some(now));
    BecomeIdle(ReleaseHeld(s.(gesture := g)))
  }

  /** The hold timer goes off; a stopped machine ignores it. */
  function HoldFires(s: State): State {
    var s' := s.(holdTimer := None);
    if !s.running then s'
    else
      match s.phase
      case DownWait =>
        EmitDown(s'.(pressStartedAt := None, phase := Holding, gesture := s.gesture.(over1 := true)), Hold)
      case DownWait2 =>
        var t := s'.(pressStartedAt := None, gesture := s.gesture.(over2 := true));
        if s.config.tapHold == [] then EmitDown(t.(phase := Holding), Hold)
        else EmitDown(t.(phase := TapHolding), TapHold)
      case _ => s'
  }

  function DoubleTapFires(s: State): State {
    var s' := s.(doubleTapTimer := None);
    if s.running && s.phase == UpWait then BecomeIdle(EmitTapped(s', Tap)) else s'
  }

  function Step(s: State, op: Op): State {
    match op
    case KeyDown(now) =>
      if s.phase == Idle then FirstDown(s, now)
      else if s.phase == UpWait then SecondDown(s, now)
      else s
    case KeyUp(now) =>
      (match s.phase
       case DownWait => FirstUp(s, now)
       case Holding => HoldUp(s, now)
       case DownWait2 => SecondUp(s, now)
       case TapHolding => HoldUp(s, now)
       case _ => s)
    case HoldTimeout(_) => HoldFires(s)
    case DoubleTapTimeout(_) => DoubleTapFires(s)
    case Stop =>
      BecomeIdle(ReleaseHeld(s.(running := false, pressStartedAt := None, holdTimer := None, doubleTapTimer := None)))
    case RetireWhenIdle =>
      var s' := s.(retiring := true);
      if s.phase == Idle then BecomeIdle(s') else s'
    case Repeat(slot) =>
      if ActionsOf(s.config, slot) == [] then s
      else s.(trace := s.trace + Pressed(ActionsOf(s.config, slot)))
  }

  function Init(config: Config): State {
    State(config, Idle, None, None, None, [], true, false, [], [], Gesture(config, 0.0, false, None, None, false, None))
  }

  // ---- Everything pressed is released in reverse order ----

  /** The stack of actions that a trace leaves pressed, or None when an up does not match the
      latest open down. */
  function OpenStack(trace: seq<Output>): Option<seq<Held>> {
    if trace == [] then Some([])
    else
      var before := OpenStack(trace[..|trace| - 1]);
      if before.None? then None
      else
        match trace[|trace| - 1]
        case Down(h) => Some(before.value + [h])
        case Up(h) =>
          if before.value != [] && before.value[|before.value| - 1] == h
          then Some(before.value[..|before.value| - 1]) else None
  }

  lemma {:induction false} DownsPush(trace: seq<Output>, stack: seq<Held>, hs: seq<Held>)
    requires OpenStack(trace) == Some(stack)
    ensures OpenStack(trace + Downs(hs)) == Some(stack + hs)
    decreases |hs|
  {
    if hs == [] {
      assert trace + Downs(hs) == trace && stack + hs == stack;
    } else {
      var front, last := hs[..|hs| - 1], hs[|hs| - 1];
      DownsPush(trace, stack, front);
      var whole := trace + Downs(hs);
      assert whole[..|whole| - 1] == trace + Downs(front);
      assert stack + front + [last] == stack + hs;
    }
  }

  lemma {:induction false} UpsPop(trace: seq<Output>, stack: seq<Held>, hs: seq<Held>)
    requires OpenStack(trace) == Some(stack + hs)
    ensures OpenStack(trace + UpsReversed(hs)) == Some(stack)
    decreases |hs|
  {
    if hs == [] {
      assert trace + UpsReversed(hs) == trace && stack + hs == stack;
    } else {
      var first, rest := hs[0], hs[1..];
      assert stack + hs == stack + [first] + rest;
      UpsPop(trace, stack + [first], rest);
      var whole := trace + UpsReversed(hs);
      assert whole[..|whole| - 1] == trace + UpsReversed(rest);
      assert (stack + [first])[..|stack|] == stack;
    }
  }

  lemma PressedBalanced(trace: seq<Output>, stack: seq<Held>, actions: seq<Action>)
    requires OpenStack(trace) == Some(stack)
    ensures OpenStack(trace + Pressed(actions)) == Some(stack)
  {
    var live := Live(actions, 0);
    DownsPush(trace, stack, live);
    UpsPop(trace + Downs(live), stack, live);
    assert trace + Downs(live) + UpsReversed(live) == trace + Pressed(actions);
  }

  // ---- The invariant ----

  function TapIf(config: Config): seq<Slot> { if config.tap != [] then [Tap] else [] }

  /** The slot a finished gesture calls for. */
  function Classify(g: Gesture): seq<Slot> {
    if g.over1 then [Hold]
    else if g.up1.None? || !IsTap(g.config, Some(g.down1), g.up1.value) then []
    else if (g.config.doubleTap == [] && g.config.tapHold == []) || g.down2.None? then TapIf(g.config)
    else if g.over2 then [if g.config.tapHold != [] then TapHold else Hold]
    else if g.up2.Some? && IsTap(g.config, g.down2, g.up2.value) && g.config.doubleTap != [] then [DoubleTap]
    else TapIf(g.config)
  }

  predicate NeedsHold(config: Config) { config.hold != [] || config.tapHold != [] }

  /** A stopped machine may have seen its timer go off without acting on it. */
  ghost predicate TimerIs(running: bool, timer: Option<real>, due: Option<real>) {
    timer == due || (!running && timer.None?)
  }

  /** The double-tap timer is pending only between the two presses, the hold timer only while the
      outcome of a press is open. */
  ghost predicate TimersFit(s: State) {
    var g := s.gesture;
    match s.phase
    case DownWait =>
      && s.doubleTapTimer.None?
      && TimerIs(s.running, s.holdTimer,
                 if s.config.hold != [] then Some(g.down1 + Seconds(s.config.holdThresholdMs)) else None)
    case UpWait =>
      && s.holdTimer.None? && g.up1.Some?
      && TimerIs(s.running, s.doubleTapTimer, Some(g.up1.value + Seconds(s.config.doubleTapWindowMs)))
    case DownWait2 =>
      && s.doubleTapTimer.None? && g.down2.Some?
      && TimerIs(s.running, s.holdTimer,
                 if NeedsHold(s.config) then Some(g.down2.value + Seconds(s.config.holdThresholdMs)) else None)
    case _ => s.doubleTapTimer.None? && s.holdTimer.None?
  }

  /** Held actions are those of the slot that is being held, and nothing is held otherwise. */
  ghost predicate HeldFits(s: State) {
    && OpenStack(s.trace) == Some(s.heldActions)
    && s.heldActions ==
       match s.phase
       case Holding => Live(s.config.hold, 0)
       case TapHolding => Live(s.config.tapHold, 0)
       case _ => []
  }

  ghost predicate SlotsFit(s: State) {
    match s.phase
    case Idle => |s.fired| <= 1 && (s.running ==> s.fired == Classify(s.gesture))
    case Holding => s.fired == [Hold]
    case TapHolding => s.fired == [TapHold]
    case _ => s.fired == []
  }

  /** The first press was a tap and a second press can matter. */
  ghost predicate AfterTap(g: Gesture) {
    && !g.over1 && g.up1.Some? && IsTap(g.config, Some(g.down1), g.up1.value)
    && (g.config.doubleTap != [] || g.config.tapHold != [])
  }

  /** Nothing of the second press has happened. */
  ghost predicate NoSecondPress(g: Gesture) { g.down2.None? && !g.over2 && g.up2.None? }

  /** The recorded gesture has reached the point that the phase stands for. */
  ghost predicate GestureFits(s: State) {
    var g := s.gesture;
    && (s.phase != Idle ==> g.config == s.config)
    && match s.phase
       case Idle => s.pressStartedAt.None? && (g.down2.Some? ==> AfterTap(g)) && (g.up2.Some? ==> g.down2.Some?)
       case DownWait => s.pressStartedAt == Some(g.down1) && !g.over1 && g.up1.None? && NoSecondPress(g)
       case UpWait => s.pressStartedAt.None? && AfterTap(g) && NoSecondPress(g)
       case DownWait2 =>
         AfterTap(g) && g.down2.Some? && s.pressStartedAt == g.down2 && !g.over2 && g.up2.None?
       case Holding =>
         && s.pressStartedAt.None? && s.config.hold != []
         && (if g.down2.None? then g.over1 && g.up1.None? && !g.over2 && g.up2.None?
             else AfterTap(g) && g.over2 && s.config.tapHold == [])
       case TapHolding =>
         s.pressStartedAt.None? && AfterTap(g) && g.down2.Some? && g.over2 && s.config.tapHold != []
  }

  ghost predicate Logic(s: State) { TimersFit(s) && SlotsFit(s) && GestureFits(s) }

  ghost predicate Inv(s: State) { Logic(s) && HeldFits(s) }

  /** A timer step happens only while that timer is pending. */
  ghost predicate Enabled(s: State, op: Op) {
    match op
    case HoldTimeout(_) => s.holdTimer.Some?
    case DoubleTapTimeout(_) => s.doubleTapTimer.Some?
    case _ => true
  }

  lemma FirstUpKeeps(s: State, now: real)
    requires Logic(s) && s.phase == DownWait
    ensures Logic(FirstUp(s, now))
  {
  }

  lemma SecondUpKeeps(s: State, now: real)
    requires Logic(s) && s.phase == DownWait2
    ensures Logic(SecondUp(s, now))
  {
  }

  lemma HoldUpKeeps(s: State, now: real)
    requires Logic(s) && (s.phase == Holding || s.phase == TapHolding)
    ensures Logic(HoldUp(s, now))
  {
  }

  lemma HoldFiresKeeps(s: State)
    requires Logic(s) && s.holdTimer.Some?
    ensures Logic(HoldFires(s))
  {
  }

  lemma OtherStepsKeep(s: State, op: Op)
    requires Logic(s) && Enabled(s, op) && !op.KeyUp? && !op.HoldTimeout?
    ensures Logic(Step(s, op))
  {
  }

  lemma LogicKeeps(s: State, op: Op)
    requires Logic(s) && Enabled(s, op)
    ensures Logic(Step(s, op))
  {
    if op.KeyUp? {
      match s.phase
      case DownWait => FirstUpKeeps(s, op.now);
      case DownWait2 => SecondUpKeeps(s, op.now);
      case Holding => HoldUpKeeps(s, op.now);
      case TapHolding => HoldUpKeeps(s, op.now);
      case _ =>
    } else if op.HoldTimeout? {
      HoldFiresKeeps(s);
    } else {
      OtherStepsKeep(s, op);
    }
  }

  lemma ReleaseKeepsStack(s: State)
    requires OpenStack(s.trace) == Some(s.heldActions)
    ensures OpenStack(ReleaseHeld(s).trace) == Some([])
  {
    assert [] + s.heldActions == s.heldActions;
    UpsPop(s.trace, [], s.heldActions);
  }

  lemma TappedKeepsStack(s: State, slot: Slot)
    requires OpenStack(s.trace) == Some(s.heldActions)
    ensures OpenStack(EmitTapped(s, slot).trace) == Some(s.heldActions)
  {
    PressedBalanced(s.trace, s.heldActions, ActionsOf(s.config, slot));
  }

  lemma EmitDownKeepsStack(s: State, slot: Slot)
    requires OpenStack(s.trace) == Some([]) && s.heldActions == [] && ActionsOf(s.config, slot) != []
    ensures var live := Live(ActionsOf(s.config, slot), 0);
            OpenStack(EmitDown(s, slot).trace) == Some(live) && EmitDown(s, slot).heldActions == live
  {
    var live := Live(ActionsOf(s.config, slot), 0);
    DownsPush(s.trace, [], live);
    assert [] + live == live;
  }

  lemma FirstUpKeepsHeld(s: State, now: real)
    requires HeldFits(s) && s.phase == DownWait
    ensures HeldFits(FirstUp(s, now))
  {
    TappedKeepsStack(s, Tap);
  }

  lemma SecondUpKeepsHeld(s: State, now: real)
    requires HeldFits(s) && s.phase == DownWait2
    ensures HeldFits(SecondUp(s, now))
  {
    TappedKeepsStack(s, Tap);
    TappedKeepsStack(s, DoubleTap);
  }

  lemma KeyUpKeepsHeld(s: State, now: real)
    requires HeldFits(s)
    ensures HeldFits(Step(s, KeyUp(now)))
  {
    match s.phase
    case DownWait => FirstUpKeepsHeld(s, now);
    case DownWait2 => SecondUpKeepsHeld(s, now);
    case Holding => ReleaseKeepsStack(s);
    case TapHolding => ReleaseKeepsStack(s);
    case _ =>
  }

  lemma HoldTimeoutKeepsHeld(s: State)
    requires HeldFits(s)
    requires s.phase == DownWait ==> s.config.hold != []
    requires s.phase == DownWait2 ==> NeedsHold(s.config)
    ensures HeldFits(HoldFires(s))
  {
    if s.running && s.phase == DownWait {
      EmitDownKeepsStack(s, Hold);
    } else if s.running && s.phase == DownWait2 {
      EmitDownKeepsStack(s, if s.config.tapHold == [] then Hold else TapHold);
    }
  }

  lemma OtherStepsKeepHeld(s: State, op: Op)
    requires HeldFits(s) && !op.KeyUp? && !op.HoldTimeout?
    ensures HeldFits(Step(s, op))
  {
    match op
    case KeyDown(now) =>
    case DoubleTapTimeout(_) => TappedKeepsStack(s, Tap);
    case Stop => ReleaseKeepsStack(s);
    case RetireWhenIdle =>
    case Repeat(slot) => TappedKeepsStack(s, slot);
  }

  lemma HeldKeeps(s: State, op: Op)
    requires TimersFit(s) && HeldFits(s) && Enabled(s, op)
    ensures HeldFits(Step(s, op))
  {
    if op.KeyUp? {
      KeyUpKeepsHeld(s, op.now);
    } else if op.HoldTimeout? {
      HoldTimeoutKeepsHeld(s);
    } else {
      OtherStepsKeepHeld(s, op);
    }
  }

  // ---- Runs ----

  function RunState(config: Config, ops: seq<Op>): State {
    if ops == [] then Init(config) else Step(RunState(config, ops[..|ops| - 1]), ops[|ops| - 1])
  }

  ghost predicate EnabledRun(config: Config, ops: seq<Op>) {
    ops == [] || (EnabledRun(config, ops[..|ops| - 1]) && Enabled(RunState(config, ops[..|ops| - 1]), ops[|ops| - 1]))
  }

  /** In every run, timers, held actions and fired slots fit the phase; every action that went down
      went up again, in reverse order, except those of the slot being held; and when the key is idle
      again the gesture has fired exactly the slots its presses call for. */
  lemma {:induction false} ReachableInv(config: Config, ops: seq<Op>)
    requires EnabledRun(config, ops)
    ensures Inv(RunState(config, ops))
  {
    if ops != [] {
      var s := RunState(config, ops[..|ops| - 1]);
      ReachableInv(config, ops[..|ops| - 1]);
      LogicKeeps(s, ops[|ops| - 1]);
      HeldKeeps(s, ops[|ops| - 1]);
    }
  }

  /** Between two visits to idle at most one slot fires; if the first press was a tap and a tap
      action is configured, exactly one does, unless the machine was stopped. */
  lemma OneSlotPerGesture(config: Config, ops: seq<Op>)
    requires EnabledRun(config, ops)
    ensures var s := RunState(config, ops);
            && |s.fired| <= 1
            && (s.phase == Idle && s.running && s.gesture.config.tap != []
                && s.gesture.up1.Some? && IsTap(s.gesture.config, Some(s.gesture.down1), s.gesture.up1.value)
                ==> |s.fired| == 1)
  {
    ReachableInv(config, ops);
  }

  /** Once the key is idle nothing is left pressed, also after a stop. */
  lemma IdleReleasesEverything(config: Config, ops: seq<Op>)
    requires EnabledRun(config, ops) && RunState(config, ops).phase == Idle
    ensures OpenStack(RunState(config, ops).trace) == Some([])
  {
    ReachableInv(config, ops);
  }

  /** A configuration that is to be dropped is dropped as soon as the key is idle, and not before; the
      key then waits 200 and 300 ms as an unconfigured one does, and has no actions. */
  lemma RetiresWhenIdle(s: State, op: Op)
    requires s.retiring ==> s.phase != Idle
    ensures var t, drop := Step(s, op), s.retiring || op.RetireWhenIdle?;
            if drop && t.phase == Idle then !t.retiring && t.config == Config(200, 300, 300, [], [], [], [])
            else t.config == s.config && t.retiring == drop
  {
  }

  lemma {:induction false} NoneRetiresIdle(config: Config, ops: seq<Op>)
    ensures RunState(config, ops).retiring ==> RunState(config, ops).phase != Idle
  {
    if ops != [] {
      NoneRetiresIdle(config, ops[..|ops| - 1]);
      RetiresWhenIdle(RunState(config, ops[..|ops| - 1]), ops[|ops| - 1]);
    }
  }

  // ---- Timed runs: what the slot depends on ----

  /** Time does not go back, a timer does not go off early, and nothing else happens once a timer
      is overdue. */
  ghost predicate OnTime(s: State, clock: real, op: Op) {
    match op
    case KeyDown(now) => clock <= now && NotOverdue(s, now)
    case KeyUp(now) => clock <= now && NotOverdue(s, now)
    case HoldTimeout(now) => clock <= now && s.holdTimer.Some? && s.holdTimer.value <= now
    case DoubleTapTimeout(now) => clock <= now && s.doubleTapTimer.Some? && s.doubleTapTimer.value <= now
    case _ => true
  }

  ghost predicate NotOverdue(s: State, now: real) {
    (s.holdTimer.Some? ==> now <= s.holdTimer.value) && (s.doubleTapTimer.Some? ==> now <= s.doubleTapTimer.value)
  }

  function ClockAfter(clock: real, op: Op): real {
    match op
    case KeyDown(now) => now
    case KeyUp(now) => now
    case HoldTimeout(now) => now
    case DoubleTapTimeout(now) => now
    case _ => clock
  }

  function RunClock(ops: seq<Op>): real {
    if ops == [] then 0.0 else ClockAfter(RunClock(ops[..|ops| - 1]), ops[|ops| - 1])
  }

  ghost predicate TimedRun(config: Config, ops: seq<Op>) {
    || ops == []
    || (var front := ops[..|ops| - 1];
        TimedRun(config, front) && OnTime(RunState(config, front), RunClock(front), ops[|ops| - 1]))
  }

  /** How long the presses of a gesture were, against the hold threshold and the window. */
  ghost predicate LengthsFit(g: Gesture) {
    var threshold, window := Seconds(g.config.holdThresholdMs), Seconds(g.config.doubleTapWindowMs);
    && (g.over1 ==> g.config.hold != [] && (g.up1.Some? ==> threshold <= g.up1.value - g.down1))
    && (!g.over1 && g.up1.Some? && g.config.hold != [] ==> g.up1.value - g.down1 <= threshold)
    && (g.up1.Some? && g.down2.Some? ==> g.down2.value - g.up1.value <= window)
    && (g.over2 ==> NeedsHold(g.config) && (g.down2.Some? && g.up2.Some? ==> threshold <= g.up2.value - g.down2.value))
    && (!g.over2 && g.down2.Some? && g.up2.Some? && NeedsHold(g.config) ==> g.up2.value - g.down2.value <= threshold)
  }

  /** The presses of a gesture follow each other, up to now. */
  ghost predicate InSequence(g: Gesture, clock: real) {
    && g.down1 <= clock
    && (g.up1.Some? ==> g.down1 <= g.up1.value <= clock)
    && (g.up1.Some? && g.down2.Some? ==> g.up1.value <= g.down2.value <= clock)
    && (g.down2.Some? && g.up2.Some? ==> g.down2.value <= g.up2.value <= clock)
  }

  ghost predicate TimesFit(s: State, clock: real) {
    var g := s.gesture;
    var threshold := Seconds(g.config.holdThresholdMs);
    && LengthsFit(g) && InSequence(g, clock)
    && (s.phase == Holding && g.down2.None? ==> g.down1 + threshold <= clock)
    && ((s.phase == Holding || s.phase == TapHolding) && g.down2.Some? ==>
          g.down2.value + threshold <= clock && g.up2.None?)
    && (s.phase == Idle && g.up1.Some? && !g.over1 && g.down2.Some? ==> g.up2.Some?)
    && (s.phase == Idle && AfterTap(g) && g.down2.None? ==> WindowEnd(g) <= clock)
  }

  /** When a second press comes too late to belong to the gesture. */
  function WindowEnd(g: Gesture): real
    requires g.up1.Some?
  {
    g.up1.value + g.config.doubleTapWindowMs as real / 1000.0
  }

  lemma FirstUpKeepsTimes(s: State, clock: real, now: real)
    requires TimersFit(s) && GestureFits(s) && s.running && TimesFit(s, clock) && OnTime(s, clock, KeyUp(now))
    requires s.phase == DownWait
    ensures TimesFit(FirstUp(s, now), now)
  {
    assert LengthsFit(FirstUp(s, now).gesture);
  }

  lemma SecondUpKeepsTimes(s: State, clock: real, now: real)
    requires TimersFit(s) && GestureFits(s) && s.running && TimesFit(s, clock) && OnTime(s, clock, KeyUp(now))
    requires s.phase == DownWait2
    ensures TimesFit(SecondUp(s, now), now)
  {
    assert LengthsFit(SecondUp(s, now).gesture);
  }

  lemma HoldUpKeepsTimes(s: State, clock: real, now: real)
    requires GestureFits(s) && TimesFit(s, clock) && clock <= now
    requires s.phase == Holding || s.phase == TapHolding
    ensures TimesFit(HoldUp(s, now), now)
  {
    assert LengthsFit(HoldUp(s, now).gesture);
  }

  lemma KeyUpKeepsTimes(s: State, clock: real, now: real)
    requires TimersFit(s) && GestureFits(s) && s.running && TimesFit(s, clock) && OnTime(s, clock, KeyUp(now))
    ensures TimesFit(Step(s, KeyUp(now)), now)
  {
    match s.phase
    case DownWait => FirstUpKeepsTimes(s, clock, now);
    case DownWait2 => SecondUpKeepsTimes(s, clock, now);
    case Holding => HoldUpKeepsTimes(s, clock, now);
    case TapHolding => HoldUpKeepsTimes(s, clock, now);
    case _ =>
  }

  lemma HoldFiresKeepsTimes(s: State, clock: real, now: real)
    requires TimersFit(s) && GestureFits(s) && s.running && TimesFit(s, clock) && OnTime(s, clock, HoldTimeout(now))
    ensures TimesFit(HoldFires(s), now)
  {
    var t := HoldFires(s);
    assert s.phase == DownWait || s.phase == DownWait2;
    assert t.gesture == if s.phase == DownWait then s.gesture.(over1 := true) else s.gesture.(over2 := true);
    assert InSequence(t.gesture, now);
    assert LengthsFit(t.gesture);
  }

  lemma KeyDownKeepsTimes(s: State, clock: real, now: real)
    requires TimersFit(s) && GestureFits(s) && s.running && TimesFit(s, clock) && OnTime(s, clock, KeyDown(now))
    ensures TimesFit(Step(s, KeyDown(now)), now)
  {
    var g := Step(s, KeyDown(now)).gesture;
    assert LengthsFit(g) && InSequence(g, now);
  }

  lemma DoubleTapFiresKeepsTimes(s: State, clock: real, now: real)
    requires TimersFit(s) && GestureFits(s) && s.running && TimesFit(s, clock)
    requires OnTime(s, clock, DoubleTapTimeout(now))
    ensures TimesFit(DoubleTapFires(s), now)
  {
    assert DoubleTapFires(s).gesture == s.gesture && InSequence(s.gesture, now);
  }

  lemma OtherStepsKeepTimes(s: State, clock: real, op: Op)
    requires TimersFit(s) && GestureFits(s) && TimesFit(s, clock) && (op.RetireWhenIdle? || op.Repeat?)
    ensures TimesFit(Step(s, op), clock)
  {
  }

  lemma TimesKeep(s: State, clock: real, op: Op)
    requires Logic(s) && s.running && !op.Stop?
    requires TimesFit(s, clock) && OnTime(s, clock, op)
    ensures TimesFit(Step(s, op), ClockAfter(clock, op))
  {
    if op.KeyUp? {
      KeyUpKeepsTimes(s, clock, op.now);
    } else if op.HoldTimeout? {
      HoldFiresKeepsTimes(s, clock, op.now);
    } else if op.KeyDown? {
      KeyDownKeepsTimes(s, clock, op.now);
    } else if op.DoubleTapTimeout? {
      DoubleTapFiresKeepsTimes(s, clock, op.now);
    } else {
      OtherStepsKeepTimes(s, clock, op);
    }
  }

  lemma KeepsRunning(s: State, op: Op)
    requires s.running && !op.Stop?
    ensures Step(s, op).running
  {
  }

  lemma {:induction false} TimedInv(config: Config, ops: seq<Op>)
    requires TimedRun(config, ops) && NoStop(ops)
    ensures EnabledRun(config, ops) && RunState(config, ops).running
    ensures TimesFit(RunState(config, ops), RunClock(ops))
  {
    if ops != [] {
      var front := ops[..|ops| - 1];
      TimedInv(config, front);
      ReachableInv(config, front);
      KeepsRunning(RunState(config, front), ops[|ops| - 1]);
      TimesKeep(RunState(config, front), RunClock(front), ops[|ops| - 1]);
    }
  }

  // ---- The slot, from the lengths of the presses ----

  /** No longer than the tap timeout; without one, only a press of no length at all. */
  predicate Tapped(config: Config, length: real) {
    length <= 0.0 || length * 1000.0 <= config.tapTimeoutMs as real
  }

  /** A second press can matter. */
  predicate Waits(config: Config) { config.doubleTap != [] || config.tapHold != [] }

  function HeldSlot(config: Config): Slot { if config.tapHold != [] then TapHold else Hold }

  function SecondSlots(config: Config, second: real): seq<Slot> {
    if config.doubleTap != [] && Tapped(config, second) then [DoubleTap] else TapIf(config)
  }

  /** The slots that presses of these lengths may fire; `second` is the length of a second press that
      began within the double-tap window. A press of exactly the hold threshold may count as held or
      as released. */
  predicate MayFire(config: Config, first: real, second: Option<real>, slots: seq<Slot>) {
    var threshold := config.holdThresholdMs as real / 1000.0;
    || (config.hold != [] && threshold <= first && second.None? && slots == [Hold])
    || ((config.hold == [] || first <= threshold)
        && if !Tapped(config, first) then second.None? && slots == []
           else if second.None? then slots == TapIf(config)
           else
             && Waits(config)
             && (|| (NeedsHold(config) && threshold <= second.value && slots == [HeldSlot(config)])
                 || ((!NeedsHold(config) || second.value <= threshold) && slots == SecondSlots(config, second.value))))
  }

  /** Away from the threshold there is only one answer. */
  function SlotFor(config: Config, first: real, second: Option<real>): seq<Slot> {
    if config.hold != [] && first > Seconds(config.holdThresholdMs) then [Hold]
    else if !Tapped(config, first) then []
    else if second.None? then TapIf(config)
    else if NeedsHold(config) && second.value > Seconds(config.holdThresholdMs) then [HeldSlot(config)]
    else SecondSlots(config, second.value)
  }

  lemma OneAnswer(config: Config, first: real, second: Option<real>, slots: seq<Slot>)
    requires MayFire(config, first, second, slots)
    requires first != Seconds(config.holdThresholdMs) && second != Some(Seconds(config.holdThresholdMs))
    ensures slots == SlotFor(config, first, second)
  {
  }

  function FirstLength(g: Gesture): real
    requires g.up1.Some?
  {
    g.up1.value - g.down1
  }

  function SecondLength(g: Gesture): Option<real> {
    if g.down2.Some? && g.up2.Some? then Some(g.up2.value - g.down2.value) else None
  }

  /** The classification by what the machine saw is one by the lengths of the presses. */
  lemma ClosedForm(g: Gesture)
    requires LengthsFit(g) && g.up1.Some? && (g.down2.Some? ==> AfterTap(g) && g.up2.Some?)
    ensures MayFire(g.config, FirstLength(g), SecondLength(g), Classify(g))
  {
    assert IsTap(g.config, Some(g.down1), g.up1.value) <==> Tapped(g.config, FirstLength(g));
  }

  ghost predicate NoStop(ops: seq<Op>) { forall op | op in ops :: !op.Stop? }

  /** The run ends with a finished gesture of a key with this configuration, whose presses had these
      lengths, and it has fired these slots. */
  ghost predicate Fires(start: Config, ops: seq<Op>, config: Config, first: real, second: Option<real>,
                        slots: seq<Slot>) {
    && TimedRun(start, ops) && NoStop(ops)
    && var s := RunState(start, ops);
       && s.phase == Idle && s.gesture.config == config && s.fired == slots
       && s.gesture.up1.Some? && FirstLength(s.gesture) == first && SecondLength(s.gesture) == second
  }

  /** Lengths are not negative, and a second press needs a window to begin in. */
  predicate Possible(config: Config, first: real, second: Option<real>) {
    0.0 <= first && (second.Some? ==> 0.0 <= second.value && 0 <= config.doubleTapWindowMs)
  }

  /** With punctual timers, a finished gesture has fired slots that the lengths of its presses allow.
      After a tap, a second press belongs to the gesture if it came within the window, and without
      one the window has passed. */
  lemma SlotByLengths(start: Config, ops: seq<Op>)
    requires TimedRun(start, ops) && NoStop(ops)
    requires RunState(start, ops).phase == Idle && RunState(start, ops).gesture.up1.Some?
    ensures var s := RunState(start, ops);
            var g := s.gesture;
            && Possible(g.config, FirstLength(g), SecondLength(g))
            && MayFire(g.config, FirstLength(g), SecondLength(g), s.fired)
            && (AfterTap(g) ==> if g.down2.Some? then g.down2.value <= WindowEnd(g) else WindowEnd(g) <= RunClock(ops))
  {
    TimedInv(start, ops);
    ReachableInv(start, ops);
    ClosedForm(RunState(start, ops).gesture);
  }

  // ---- Every slot that may fire does, in some run ----

  /** A timed run without a stop, and where it leads. */
  ghost predicate Leads(config: Config, ops: seq<Op>, s: State, clock: real) {
    TimedRun(config, ops) && NoStop(ops) && RunState(config, ops) == s && RunClock(ops) == clock
  }

  lemma LeadsOn(config: Config, ops: seq<Op>, s: State, clock: real, op: Op)
    requires Leads(config, ops, s, clock) && OnTime(s, clock, op) && !op.Stop?
    ensures Leads(config, ops + [op], Step(s, op), ClockAfter(clock, op))
  {
    assert (ops + [op])[..|ops|] == ops;
  }

  lemma PressRun(config: Config) returns (ops: seq<Op>)
    ensures Leads(config, ops, FirstDown(Init(config), 0.0), 0.0)
  {
    LeadsOn(config, [], Init(config), 0.0, KeyDown(0.0));
    ops := [] + [KeyDown(0.0)];
  }

  lemma HoldRun(config: Config, first: real) returns (ops: seq<Op>)
    requires config.hold != [] && Seconds(config.holdThresholdMs) <= first && 0.0 <= first
    ensures Fires(config, ops, config, first, None, [Hold])
  {
    ops := PressRun(config);
    var s := FirstDown(Init(config), 0.0);
    LeadsOn(config, ops, s, 0.0, HoldTimeout(first));
    var t := HoldFires(s);
    LeadsOn(config, ops + [HoldTimeout(first)], t, first, KeyUp(first));
    ops := ops + [HoldTimeout(first)] + [KeyUp(first)];
    assert HoldUp(t, first).fired == [Hold];
  }

  /** The first press ends before the hold timer. */
  lemma ReleaseRun(config: Config, first: real) returns (ops: seq<Op>)
    requires config.hold == [] || first <= Seconds(config.holdThresholdMs)
    requires 0.0 <= first
    ensures Leads(config, ops, FirstUp(FirstDown(Init(config), 0.0), first), first)
  {
    ops := PressRun(config);
    LeadsOn(config, ops, FirstDown(Init(config), 0.0), 0.0, KeyUp(first));
    ops := ops + [KeyUp(first)];
  }

  lemma FirstOnly(config: Config, first: real) returns (ops: seq<Op>)
    requires config.hold == [] || first <= Seconds(config.holdThresholdMs)
    requires 0.0 <= first
    ensures Fires(config, ops, config, first, None, if Tapped(config, first) then TapIf(config) else [])
  {
    ops := ReleaseRun(config, first);
    var s := FirstUp(FirstDown(Init(config), 0.0), first);
    if s.phase == UpWait {
      var late := if config.doubleTapWindowMs < 0 then first else first + Seconds(config.doubleTapWindowMs);
      LeadsOn(config, ops, s, first, DoubleTapTimeout(late));
      ops := ops + [DoubleTapTimeout(late)];
    }
  }

  /** A second press is going on, after a first one of this length. */
  ghost predicate SecondGoing(s: State, config: Config, first: real) {
    && s.phase == DownWait2 && s.config == config && s.running && !s.retiring && s.fired == []
    && s.pressStartedAt == Some(first) && s.doubleTapTimer.None?
    && s.holdTimer == (if NeedsHold(config) then Some(first + Seconds(config.holdThresholdMs)) else None)
    && s.gesture == Gesture(config, 0.0, false, Some(first), Some(first), false, None)
  }

  /** The second press begins as soon as the first one has ended. */
  lemma SecondPressRun(config: Config, first: real) returns (ops: seq<Op>, s: State)
    requires config.hold == [] || first <= Seconds(config.holdThresholdMs)
    requires 0.0 <= first && 0 <= config.doubleTapWindowMs && Tapped(config, first) && Waits(config)
    ensures Leads(config, ops, s, first) && SecondGoing(s, config, first)
  {
    ops := ReleaseRun(config, first);
    var up: State;
    up, s := SecondBegins(config, first);
    LeadsOn(config, ops, up, first, KeyDown(first));
    ops := ops + [KeyDown(first)];
  }

  lemma SecondBegins(config: Config, first: real) returns (up: State, s: State)
    requires Tapped(config, first) && Waits(config)
    ensures up == FirstUp(FirstDown(Init(config), 0.0), first) && s == Step(up, KeyDown(first))
    ensures up.holdTimer.None? && up.doubleTapTimer == Some(first + Seconds(config.doubleTapWindowMs))
    ensures SecondGoing(s, config, first)
  {
    up := FirstUp(FirstDown(Init(config), 0.0), first);
    s := SecondDown(up, first);
  }

  /** A gesture of two presses has ended, with these lengths and slots. */
  ghost predicate Ended(u: State, config: Config, first: real, second: real, end: real, slots: seq<Slot>) {
    && u.phase == Idle && u.gesture.config == config && u.fired == slots
    && u.gesture.up1.Some? && FirstLength(u.gesture) == first
    && SecondLength(u.gesture) == Some(second) && u.gesture.up2 == Some(end)
  }

  lemma SecondHeld(config: Config, before: seq<Op>, s: State, first: real, second: real) returns (ops: seq<Op>)
    requires Leads(config, before, s, first) && SecondGoing(s, config, first)
    requires NeedsHold(config) && Seconds(config.holdThresholdMs) <= second && 0.0 <= second
    ensures Fires(config, ops, config, first, Some(second), [HeldSlot(config)])
  {
    var end := first + second;
    var t := HeldSecond(s, config, first, second, end);
    LeadsOn(config, before, s, first, HoldTimeout(end));
    ops := LastRelease(config, before + [HoldTimeout(end)], t, end, first, second, end, [HeldSlot(config)]);
  }

  lemma HeldSecond(s: State, config: Config, first: real, second: real, end: real) returns (t: State)
    requires SecondGoing(s, config, first) && NeedsHold(config)
    requires Seconds(config.holdThresholdMs) <= second && 0.0 <= second && end == first + second
    ensures t == Step(s, HoldTimeout(end)) && OnTime(s, first, HoldTimeout(end)) && OnTime(t, end, KeyUp(end))
    ensures Ended(Step(t, KeyUp(end)), config, first, second, end, [HeldSlot(config)])
  {
    t := HoldFires(s);
  }

  lemma SecondReleased(config: Config, before: seq<Op>, s: State, first: real, second: real) returns (ops: seq<Op>)
    requires Leads(config, before, s, first) && SecondGoing(s, config, first)
    requires 0.0 <= second && (!NeedsHold(config) || second <= Seconds(config.holdThresholdMs))
    ensures Fires(config, ops, config, first, Some(second), SecondSlots(config, second))
  {
    ReleasedSecond(s, config, first, second, first + second);
    ops := LastRelease(config, before, s, first, first, second, first + second, SecondSlots(config, second));
  }

  lemma ReleasedSecond(s: State, config: Config, first: real, second: real, end: real)
    requires SecondGoing(s, config, first) && end == first + second
    requires 0.0 <= second && (!NeedsHold(config) || second <= Seconds(config.holdThresholdMs))
    ensures OnTime(s, first, KeyUp(end))
    ensures Ended(Step(s, KeyUp(end)), config, first, second, end, SecondSlots(config, second))
  {
  }

  /** The release that ends the gesture. */
  lemma LastRelease(config: Config, before: seq<Op>, s: State, clock: real, first: real, second: real, end: real,
                    slots: seq<Slot>) returns (ops: seq<Op>)
    requires Leads(config, before, s, clock) && OnTime(s, clock, KeyUp(end))
    requires Ended(Step(s, KeyUp(end)), config, first, second, end, slots)
    ensures Fires(config, ops, config, first, Some(second), slots)
  {
    LeadsOn(config, before, s, clock, KeyUp(end));
    ops := before + [KeyUp(end)];
  }

  lemma EverySlotHappens(config: Config, first: real, second: Option<real>, slots: seq<Slot>) returns (ops: seq<Op>)
    requires Possible(config, first, second) && MayFire(config, first, second, slots)
    ensures Fires(config, ops, config, first, second, slots)
  {
    var threshold := Seconds(config.holdThresholdMs);
    if config.hold != [] && threshold <= first && second.None? && slots == [Hold] {
      ops := HoldRun(config, first);
    } else if second.None? {
      ops := FirstOnly(config, first);
    } else if NeedsHold(config) && threshold <= second.value && slots == [HeldSlot(config)] {
      var before, s := SecondPressRun(config, first);
      ops := SecondHeld(config, before, s, first, second.value);
    } else {
      var before, s := SecondPressRun(config, first);
      ops := SecondReleased(config, before, s, first, second.value);
    }
  }

  /** Exactly: with punctual timers, presses of given lengths can fire given slots if and only if the
      lengths are possible and the closed form allows it. */
  lemma SlotsExact(config: Config, first: real, second: Option<real>, slots: seq<Slot>)
    ensures (exists start, ops :: Fires(start, ops, config, first, second, slots))
            <==> Possible(config, first, second) && MayFire(config, first, second, slots)
  {
    if start, ops :| Fires(start, ops, config, first, second, slots) {
      SlotByLengths(start, ops);
    }
    if Possible(config, first, second) && MayFire(config, first, second, slots) {
      var ops := EverySlotHappens(config, first, second, slots);
    }
  }

  /** At the threshold itself the timer and the release race: with the same press, one run fires the
      hold slot and another one does not. */
  lemma ThresholdEitherWay(config: Config) returns (held: seq<Op>, released: seq<Op>, slots: seq<Slot>)
    requires config.hold != [] && 0 <= config.holdThresholdMs
    ensures var threshold := Seconds(config.holdThresholdMs);
            && Fires(config, held, config, threshold, None, [Hold])
            && Fires(config, released, config, threshold, None, slots) && slots != [Hold]
  {
    var threshold := Seconds(config.holdThresholdMs);
    slots := if Tapped(config, threshold) then TapIf(config) else [];
    held := EverySlotHappens(config, threshold, None, [Hold]);
    released := EverySlotHappens(config, threshold, None, slots);
  }
}
